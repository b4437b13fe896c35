/** The trackpad rate limiter as a timed state machine (frontend/terminal-ui/src/scroll-input.js). */
module ScrollInputs {
  import opened Wrappers

  const TRACKPAD_SCROLL_INTERVAL_MS := 48.0
  const TRACKPAD_SCROLL_IDLE_RESET_MS := 24.0

  datatype Direction = Up | Down

  datatype Emission = Emission(direction: Direction, at: real)

  datatype Config = Config(interval: real, idleReset: real) {
    predicate Valid() { 0.0 <= idleReset <= interval <= 1000.0 }
  }

  /** Times are `None` where the source has minus infinity; `emitted` lists the calls of `onStep`. */
  datatype Controller = Controller(
    lastDirection: Option<Direction>, lastEmittedAt: Option<real>, lastInputAt: Option<real>,
    pending: Option<Direction>, timerArmed: bool, disposed: bool, emitted: seq<Emission>)

  const INITIAL := Controller(None, None, None, None, false, false, [])

  /** `direction` is `None` when it is neither up nor down, `now` when the clock gives no finite number. */
  datatype Event = Push(direction: Option<Direction>, now: Option<real>) | TimerFires(now: Option<real>) | Dispose

  predicate Enabled(s: Controller, e: Event) {
    e.TimerFires? ==> s.timerArmed
  }

  function Max(a: real, b: real): real {
    if a < b then b else a
  }

  function Emitted(s: Controller, direction: Direction, at: real): Controller {
    s.(lastDirection := Some(direction), lastEmittedAt := Some(at), emitted := s.emitted + [Emission(direction, at)])
  }

  function ClearPending(s: Controller): Controller {
    s.(pending := None, timerArmed := false)
  }

  function PushStep(c: Config, s: Controller, direction: Option<Direction>, now: Option<real>): Controller {
    if s.disposed || direction == None then s
    else if now == None || (s.lastEmittedAt.Some? && now.value < s.lastEmittedAt.value) then ClearPending(s)
    else
      var t := s.(lastInputAt := now);
      if direction != s.lastDirection || c.interval == 0.0 || s.lastEmittedAt == None
         || now.value - s.lastEmittedAt.value >= c.interval
      then Emitted(ClearPending(t), direction.value, now.value)
      else t.(pending := direction, timerArmed := true)
  }

  function TimerStep(c: Config, s: Controller, now: Option<real>): Controller {
    var t := ClearPending(s);
    if s.disposed || s.pending == None || now == None then t
    else if s.lastInputAt.Some? && (now.value < s.lastInputAt.value || now.value - s.lastInputAt.value > c.idleReset) then t
    else
      Emitted(t, s.pending.value,
        if s.lastEmittedAt.Some? then Max(now.value, s.lastEmittedAt.value + c.interval) else now.value)
  }

  function Step(c: Config, s: Controller, e: Event): Controller {
    match e
    case Push(direction, now) => PushStep(c, s, direction, now)
    case TimerFires(now) => TimerStep(c, s, now)
    case Dispose => ClearPending(s).(disposed := true)
  }

  function RunAll(c: Config, s: Controller, events: seq<Event>): Controller
    decreases |events|
  {
    if events == [] then s else RunAll(c, Step(c, s, events[0]), events[1..])
  }

  predicate LegalRun(c: Config, s: Controller, events: seq<Event>)
    decreases |events|
  {
    events == [] || (Enabled(s, events[0]) && LegalRun(c, Step(c, s, events[0]), events[1..]))
  }

  // ---------------------------------------------------------------- what every run keeps

  /** Times never go back, and steps in one direction are at least an interval apart. */
  ghost predicate Spaced(c: Config, emitted: seq<Emission>) {
    forall i, j :: 0 <= i < j < |emitted| && j == i + 1 ==>
      && emitted[i].at <= emitted[j].at
      && (emitted[i].direction == emitted[j].direction ==> emitted[j].at - emitted[i].at >= c.interval)
  }

  /** The fields remember the last emission. */
  predicate RemembersLast(s: Controller) {
    if s.emitted == [] then s.lastDirection == None && s.lastEmittedAt == None
    else
      var last := s.emitted[|s.emitted| - 1];
      s.lastDirection == Some(last.direction) && s.lastEmittedAt == Some(last.at)
  }

  /** A timer is armed exactly while a direction is pending, which is the last emitted one. */
  predicate PendingInv(s: Controller) {
    && (s.timerArmed <==> s.pending.Some?)
    && (s.pending.Some? ==> s.pending == s.lastDirection && s.lastInputAt.Some?)
    && (s.disposed ==> !s.timerArmed)
  }

  ghost predicate Inv(c: Config, s: Controller) {
    c.Valid() && Spaced(c, s.emitted) && RemembersLast(s) && PendingInv(s)
  }

  lemma SpacedGrows(c: Config, emitted: seq<Emission>, next: Emission)
    requires Spaced(c, emitted)
    requires emitted != [] ==>
      var last := emitted[|emitted| - 1];
      last.at <= next.at && (last.direction == next.direction ==> next.at - last.at >= c.interval)
    ensures Spaced(c, emitted + [next])
  {
  }

  lemma StepKeepsInv(c: Config, s: Controller, e: Event)
    requires Inv(c, s) && Enabled(s, e)
    ensures Inv(c, Step(c, s, e))
  {
    hide Spaced;
    var t := Step(c, s, e);
    if t.emitted != s.emitted {
      SpacedGrows(c, s.emitted, t.emitted[|t.emitted| - 1]);
    }
  }

  /**
   In every interleaving of pushes, timer firings and dispose: times never decrease, steps in one
   direction keep their distance, and a pending direction is always the last one emitted.
   */
  lemma {:induction false} RunKeepsInv(c: Config, s: Controller, events: seq<Event>)
    requires Inv(c, s) && LegalRun(c, s, events)
    ensures Inv(c, RunAll(c, s, events))
    decreases |events|
  {
    hide Inv, Step, Enabled;
    if events != [] {
      StepKeepsInv(c, s, events[0]);
      RunKeepsInv(c, Step(c, s, events[0]), events[1..]);
    }
  }

  /** From the start: `n` intervals pass between `n + 1` steps in one direction. */
  lemma RateIsLimited(c: Config, events: seq<Event>, i: int, j: int)
    requires c.Valid() && LegalRun(c, INITIAL, events)
    requires 0 <= i <= j < |RunAll(c, INITIAL, events).emitted|
    requires
      var emitted := RunAll(c, INITIAL, events).emitted;
      forall k :: i <= k <= j ==> emitted[k].direction == emitted[i].direction
    ensures
      var emitted := RunAll(c, INITIAL, events).emitted;
      emitted[j].at - emitted[i].at >= (j - i) as real * c.interval
  {
    RunKeepsInv(c, INITIAL, events);
    SpacedApart(c, RunAll(c, INITIAL, events).emitted, i, j);
  }

  lemma {:induction false} SpacedApart(c: Config, emitted: seq<Emission>, i: int, j: int)
    requires Spaced(c, emitted) && 0 <= i <= j < |emitted|
    requires forall k :: i <= k <= j ==> emitted[k].direction == emitted[i].direction
    ensures emitted[j].at - emitted[i].at >= (j - i) as real * c.interval
    decreases j - i
  {
    if i < j {
      SpacedApart(c, emitted, i, j - 1);
      assert (j - i) as real * c.interval == (j - 1 - i) as real * c.interval + c.interval;
    }
  }

  /** After dispose nothing is emitted any more. */
  lemma {:induction false} NothingAfterDispose(c: Config, s: Controller, events: seq<Event>)
    requires s.disposed
    ensures RunAll(c, s, events).emitted == s.emitted
    decreases |events|
  {
    if events != [] { NothingAfterDispose(c, Step(c, s, events[0]), events[1..]); }
  }

  // ---------------------------------------------------------------- what becomes of every step

  /** The controller takes the step: the clock is fine and has not gone back behind the last emission. */
  predicate Accepts(s: Controller, direction: Option<Direction>, now: Option<real>) {
    !s.disposed && direction.Some? && now.Some? && (s.lastEmittedAt.Some? ==> now.value >= s.lastEmittedAt.value)
  }

  /** A step in a new direction, or an interval after the last one, need not wait. */
  predicate NeedNotWait(c: Config, s: Controller, direction: Direction, now: real) {
    s.lastDirection != Some(direction) || s.lastEmittedAt == None || now - s.lastEmittedAt.value >= c.interval
  }

  /** The input that the timer was armed for is fresh. */
  predicate Fresh(c: Config, s: Controller, now: Option<real>) {
    now.Some? && s.lastInputAt.Some? && s.lastInputAt.value <= now.value <= s.lastInputAt.value + c.idleReset
  }

  /** It is passed on as it comes, and what was pending is dropped. */
  lemma PassedOnAtOnce(c: Config, s: Controller, direction: Direction, now: real)
    requires Inv(c, s) && Accepts(s, Some(direction), Some(now)) && NeedNotWait(c, s, direction, now)
    ensures
      var t := Step(c, s, Push(Some(direction), Some(now)));
      t.emitted == s.emitted + [Emission(direction, now)] && t.pending == None && !t.timerArmed
  {
  }

  /** It is held, together with one held before. */
  lemma HeldBack(c: Config, s: Controller, direction: Direction, now: real)
    requires Inv(c, s) && Accepts(s, Some(direction), Some(now)) && !NeedNotWait(c, s, direction, now)
    ensures Step(c, s, Push(Some(direction), Some(now))) == s.(lastInputAt := Some(now), pending := Some(direction), timerArmed := true)
  {
  }

  /** The timer passes a held step on only while the input is fresh, and never early. */
  lemma TimerEmitsFreshInput(c: Config, s: Controller, now: Option<real>)
    requires Inv(c, s) && s.timerArmed
    ensures
      var t := Step(c, s, TimerFires(now));
      && t.pending == None && !t.timerArmed
      && t.emitted
         == if Fresh(c, s, now) then s.emitted + [Emission(s.lastDirection.value, Max(now.value, s.lastEmittedAt.value + c.interval))]
            else s.emitted
  {
  }

  /**
   How many steps were accepted, and of these: passed on at once, held together with one held before,
   delivered by the timer, dropped.
   */
  datatype Tally = Tally(accepted: nat, atOnce: nat, merged: nat, delivered: nat, dropped: nat)

  const NO_STEPS := Tally(0, 0, 0, 0, 0)

  function Waiting(s: Controller): (n: nat)
    ensures n <= 1
  {
    if s.pending.Some? then 1 else 0
  }

  /** What one event adds to the tally. */
  function Counted(c: Config, s: Controller, e: Event, y: Tally): Tally {
    match e
    case Push(direction, now) =>
      if s.disposed || direction == None then y
      else if !Accepts(s, direction, now) then y.(dropped := y.dropped + Waiting(s))
      else if NeedNotWait(c, s, direction.value, now.value) then
        y.(accepted := y.accepted + 1, atOnce := y.atOnce + 1, dropped := y.dropped + Waiting(s))
      else y.(accepted := y.accepted + 1, merged := y.merged + Waiting(s))
    case TimerFires(now) => if Fresh(c, s, now) then y.(delivered := y.delivered + 1) else y.(dropped := y.dropped + 1)
    case Dispose => y.(dropped := y.dropped + Waiting(s))
  }

  function CountedAll(c: Config, s: Controller, events: seq<Event>, y: Tally): Tally
    decreases |events|
  {
    if events == [] then y else CountedAll(c, Step(c, s, events[0]), events[1..], Counted(c, s, events[0], y))
  }

  /** Every accepted step has one fate or still waits; what is passed on are those at once and those delivered. */
  predicate Balanced(s: Controller, y: Tally) {
    && y.accepted == y.atOnce + y.merged + y.delivered + y.dropped + Waiting(s)
    && |s.emitted| == y.atOnce + y.delivered
  }

  lemma StepBalances(c: Config, s: Controller, e: Event, y: Tally)
    requires Inv(c, s) && Enabled(s, e) && Balanced(s, y)
    ensures Balanced(Step(c, s, e), Counted(c, s, e, y))
  {
    hide NeedNotWait, Fresh, Spaced;
    match e
    case Push(direction, now) =>
      if Accepts(s, direction, now) {
        if NeedNotWait(c, s, direction.value, now.value) { PassedOnAtOnce(c, s, direction.value, now.value); }
        else { HeldBack(c, s, direction.value, now.value); }
      }
    case TimerFires(now) => TimerEmitsFreshInput(c, s, now);
    case Dispose =>
  }

  lemma {:induction false} RunBalances(c: Config, s: Controller, events: seq<Event>, y: Tally)
    requires Inv(c, s) && LegalRun(c, s, events) && Balanced(s, y)
    ensures Balanced(RunAll(c, s, events), CountedAll(c, s, events, y))
    decreases |events|
  {
    hide Inv, Step, Enabled, Counted, Balanced;
    if events != [] {
      StepKeepsInv(c, s, events[0]);
      StepBalances(c, s, events[0], y);
      RunBalances(c, Step(c, s, events[0]), events[1..], Counted(c, s, events[0], y));
    }
  }

  /**
   No accepted step is passed on twice or lost without a trace: in every run each one was passed on at
   once, joined to one that waits, delivered by the timer, dropped as out of date, or is waiting.
   */
  lemma EveryStepHasOneFate(c: Config, events: seq<Event>)
    requires c.Valid() && LegalRun(c, INITIAL, events)
    ensures Balanced(RunAll(c, INITIAL, events), CountedAll(c, INITIAL, events, NO_STEPS))
    ensures Waiting(RunAll(c, INITIAL, events)) == if RunAll(c, INITIAL, events).timerArmed then 1 else 0
  {
    hide RunAll, LegalRun, CountedAll, Inv, Balanced;
    InitialInv(c);
    RunKeepsInv(c, INITIAL, events);
    RunBalances(c, INITIAL, events, NO_STEPS);
    WaitingIsArmed(c, RunAll(c, INITIAL, events));
  }

  lemma InitialInv(c: Config)
    requires c.Valid()
    ensures Inv(c, INITIAL) && Balanced(INITIAL, NO_STEPS)
  {
  }

  lemma WaitingIsArmed(c: Config, s: Controller)
    requires Inv(c, s)
    ensures Waiting(s) == if s.timerArmed then 1 else 0
  {
  }

  function Pushes(direction: Direction, times: seq<real>): seq<Event> {
    seq(|times|, i requires 0 <= i < |times| => Push(Some(direction), Some(times[i])))
  }

  /** Steps that come too soon, in the direction of the last one, are all held as one. */
  lemma {:induction false} BurstIsHeld(c: Config, s: Controller, direction: Direction, times: seq<real>)
    requires Inv(c, s) && !s.disposed && s.lastDirection == Some(direction) && s.lastEmittedAt.Some? && times != []
    requires forall t :: t in times ==> s.lastEmittedAt.value <= t < s.lastEmittedAt.value + c.interval
    ensures LegalRun(c, s, Pushes(direction, times))
    ensures RunAll(c, s, Pushes(direction, times))
         == s.(lastInputAt := Some(times[|times| - 1]), pending := Some(direction), timerArmed := true)
    decreases |times|
  {
    hide Spaced;
    assert times[0] in times;
    HeldBack(c, s, direction, times[0]);
    var held := Step(c, s, Push(Some(direction), Some(times[0])));
    assert Pushes(direction, times)[1..] == Pushes(direction, times[1..]);
    assert forall t :: t in times[1..] ==> t in times;
    if |times| > 1 { BurstIsHeld(c, held, direction, times[1..]); }
  }

  /**
   In any state that a run can reach: a burst of steps that all come too soon ends in one delivery, no
   earlier than an interval after the last one, if the timer fires while the burst is fresh, and in
   none otherwise.
   */
  lemma {:induction false} BurstIsDeliveredOnce(c: Config, s: Controller, times: seq<real>, fired: Option<real>)
    requires Inv(c, s) && !s.disposed && s.lastDirection.Some? && s.lastEmittedAt.Some? && times != []
    requires forall t :: t in times ==> s.lastEmittedAt.value <= t < s.lastEmittedAt.value + c.interval
    ensures
      var direction, last := s.lastDirection.value, s.lastEmittedAt.value;
      var held := RunAll(c, s, Pushes(direction, times));
      var after := Step(c, held, TimerFires(fired));
      && LegalRun(c, s, Pushes(direction, times))
      && held.emitted == s.emitted && held.timerArmed && !after.timerArmed
      && after.emitted
         == if fired.Some? && times[|times| - 1] <= fired.value <= times[|times| - 1] + c.idleReset
            then s.emitted + [Emission(direction, Max(fired.value, last + c.interval))] else s.emitted
  {
    hide RunAll, LegalRun, Step, Inv, Pushes;
    var direction := s.lastDirection.value;
    BurstIsHeld(c, s, direction, times);
    RunKeepsInv(c, s, Pushes(direction, times));
    TimerEmitsFreshInput(c, RunAll(c, s, Pushes(direction, times)), fired);
  }

  // ---------------------------------------------------------------- the controller

  class TrackpadScrollController {
    const config: Config
    var lastDirection: Option<Direction>
    var lastEmittedAt: Option<real>
    var lastInputAt: Option<real>
    var pendingDirection: Option<Direction>
    var timerArmed: bool
    var disposed: bool
    ghost var emitted: seq<Emission>

    ghost function View(): Controller
      reads this
    {
      Controller(lastDirection, lastEmittedAt, lastInputAt, pendingDirection, timerArmed, disposed, emitted)
    }

    /** An interval out of range is brought into range; the idle reset never exceeds it. */
    constructor (requestedInterval: Option<real>, requestedIdleReset: Option<real>)
      ensures config.Valid() && View() == INITIAL && Inv(config, View())
      ensures requestedInterval.Some? && 0.0 <= requestedInterval.value <= 1000.0 ==> config.interval == requestedInterval.value
      ensures requestedInterval.Some? && requestedInterval.value < 0.0 ==> config.interval == 0.0
      ensures requestedInterval.Some? && requestedInterval.value > 1000.0 ==> config.interval == 1000.0
      ensures requestedInterval == None ==> config.interval == 48.0
      ensures
        var idle := if requestedIdleReset.Some? then requestedIdleReset.value else 24.0;
        config.idleReset == if idle < 0.0 then 0.0 else if idle > config.interval then config.interval else idle
    {
      var interval :=
        if requestedInterval.Some? then Max(0.0, -Max(-1000.0, -requestedInterval.value)) else TRACKPAD_SCROLL_INTERVAL_MS;
      var idle := if requestedIdleReset.Some? then requestedIdleReset.value else TRACKPAD_SCROLL_IDLE_RESET_MS;
      config := Config(interval, Max(0.0, -Max(-interval, -idle)));
      lastDirection, lastEmittedAt, lastInputAt := None, None, None;
      pendingDirection, timerArmed, disposed, emitted := None, false, false, [];
    }

    method Clear()
      modifies this
      ensures View() == ClearPending(old(View()))
    {
      pendingDirection, timerArmed := None, false;
    }

    method Emit(direction: Direction, timestamp: real)
      modifies this
      ensures View() == Emitted(old(View()), direction, timestamp)
    {
      lastDirection, lastEmittedAt := Some(direction), Some(timestamp);
      emitted := emitted + [Emission(direction, timestamp)];
    }

    method PushDirection(direction: Option<Direction>, now: Option<real>) returns (accepted: bool)
      modifies this
      ensures View() == Step(config, old(View()), Push(direction, now))
      ensures accepted <==> !old(disposed) && direction.Some? && now.Some?
                            && (old(lastEmittedAt).Some? ==> now.value >= old(lastEmittedAt).value)
    {
      if disposed || direction == None { return false; }
      if now == None || (lastEmittedAt.Some? && now.value < lastEmittedAt.value) {
        Clear();
        return false;
      }
      lastInputAt := now;
      if direction != lastDirection || config.interval == 0.0 || lastEmittedAt == None
         || now.value - lastEmittedAt.value >= config.interval
      {
        Clear();
        Emit(direction.value, now.value);
        return true;
      }
      pendingDirection := direction;
      if !timerArmed { timerArmed := true; }
      return true;
    }

    method OnTimer(now: Option<real>)
      requires timerArmed && Inv(config, View())
      modifies this
      ensures View() == Step(config, old(View()), TimerFires(now))
    {
      timerArmed := false;
      if disposed || pendingDirection == None { return; }
      var direction := pendingDirection.value;
      pendingDirection := None;
      if now == None || now.value < lastInputAt.value || now.value - lastInputAt.value > config.idleReset { return; }
      Emit(direction, Max(now.value, lastEmittedAt.value + config.interval));
    }

    method DisposeController()
      requires Inv(config, View())
      modifies this
      ensures View() == Step(config, old(View()), Dispose)
    {
      if disposed { return; }
      disposed := true;
      Clear();
    }
  }
}
