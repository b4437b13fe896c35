/**
 The durable receipt cursor of the terminal client: accept, save, acknowledge, resume
 (frontend/terminal-ui/src/index.js).
 One session is modelled as a state machine whose steps a crash can separate.
 */
module DurableCursors {
  import opened Wrappers

  /** A position in a receipt stream; `NO_CURSOR` when no stream is followed. */
  datatype Cursor = Cursor(stream: string, cursor: int)

  const NO_CURSOR := Cursor("", 0)

  datatype RecoveryMode = NoRecovery | LegacySnapshot | CursorReplay | GapSnapshot

  /** What the client is doing: nothing, saving (and then acknowledging), or acknowledging. */
  datatype Phase = Idle | Saving(ack: Option<Cursor>) | Acking(receipt: Cursor)

  /**
   The process, the disk, and a record of what happened:
   `store` is the session's snapshot in memory, `launch` the one read at start;
   `reduced` and `saved` hold every cursor ever reduced or written to disk, `acks` every acknowledgement;
   `vouched` the positions up to which a snapshot, and not the reducer, accounts for a stream: the
   cursor first found on disk, what a legacy replay was followed by, and what a snapshot covered;
   `run` lists the cursors reduced since the cursor was last set by other means, to `base`.
   */
  datatype System = System(
    alive: bool, cursor: Cursor, mode: RecoveryMode, phase: Phase, negotiated: bool,
    store: Cursor, launch: Cursor, disk: Cursor,
    reduced: set<Cursor>, vouched: set<Cursor>, saved: set<Cursor>, acks: seq<Cursor>,
    base: Cursor, run: seq<Cursor>)

  function Initial(disk: Cursor, negotiated: bool): System {
    System(true, NO_CURSOR, NoRecovery, Idle, negotiated, disk, disk, disk, {}, {disk}, {disk, NO_CURSOR}, [], NO_CURSOR, [])
  }

  // ---------------------------------------------------------------- decisions

  datatype Decision = Accept | Duplicate | Gap(expectedCursor: int)

  function AssessDurableTerminalEvent(s: System, record: Cursor): Decision {
    if s.mode == LegacySnapshot then Accept
    else if s.cursor.stream == "" || s.cursor.stream != record.stream then
      if s.cursor.stream != "" then Gap(s.cursor.cursor + 1) else Accept
    else if record.cursor <= s.cursor.cursor then Duplicate
    else if record.cursor != s.cursor.cursor + 1 then Gap(s.cursor.cursor + 1)
    else Accept
  }

  /** The cursor a resume request carries, if any. */
  function ResumeCursor(s: System, current: bool): Option<Cursor> {
    var c := if current then s.cursor else s.store;
    if !s.negotiated || c.stream == "" || c.cursor < 1 then None else Some(c)
  }

  // ---------------------------------------------------------------- steps

  datatype Done = ReplayComplete | SnapshotComplete

  datatype Event =
    | Deliver(record: Cursor)
    | SessionReplayed(mode: RecoveryMode, recovery: Cursor, fromLaunch: bool)
    | RecoveryDone(sameSession: bool, done: Done, latest: Cursor)
    | RuntimeStatus
    | Save(succeeds: bool)
    | SendAck
    | Remember(alsoSave: bool)
    | Crash
    | Restart

  predicate Enabled(s: System, e: Event) {
    match e
    case Deliver(record) => s.alive && s.phase == Idle && record.stream != "" && record.cursor >= 1
    case SessionReplayed(mode, _, _) => s.alive && s.phase == Idle && mode != NoRecovery
    case RecoveryDone(_, _, _) => s.alive && s.phase == Idle
    case RuntimeStatus => s.alive && s.phase == Idle
    case Save(_) => s.alive && s.phase.Saving?
    case SendAck => s.alive && s.phase.Acking?
    case Remember(_) => s.alive && s.phase == Idle
    case Crash => s.alive
    case Restart => !s.alive
  }

  /**
   A fatal error stops the process at once, after a last attempt to save.  An attempt that goes the
   other way -- failing here, or succeeding after a failed save -- is a crash before the step, or a
   crash right after a save that succeeds.
   */
  function Fatal(s: System, lastSave: bool): System {
    if lastSave then s.(alive := false, disk := s.cursor, saved := s.saved + {s.cursor}) else s.(alive := false)
  }

  /** The cursor is set by something other than the next receipt. */
  function Rebased(s: System, c: Cursor): System {
    if c == s.cursor then s else s.(cursor := c, base := c, run := [])
  }

  /** Reducing an accepted record, then moving the cursor; the save comes next. */
  function Accepted(s: System, record: Cursor): System {
    var moved := if s.cursor.stream == record.stream && s.cursor.cursor > record.cursor then s.cursor else record;
    var t := s.(reduced := s.reduced + {record}, cursor := moved, phase := Saving(Some(moved)));
    if s.mode == LegacySnapshot then t.(vouched := s.vouched + {moved}, base := moved, run := [])
    else if s.cursor.stream == "" then t.(base := NO_CURSOR, run := [record])
    else t.(run := s.run + [record])
  }

  function DeliverStep(s: System, record: Cursor): System {
    match AssessDurableTerminalEvent(s, record)
    case Duplicate => s.(phase := Acking(s.cursor))
    case Gap(_) => Fatal(s, true)
    case Accept => Accepted(s, record)
  }

  /** The cursor that a replayed session brings back. */
  function Restored(s: System, fromLaunch: bool): Cursor {
    if fromLaunch then s.launch else s.store
  }

  /** A replayed session: the cursor comes back from a snapshot and must match the recovery plan. */
  function ReplayStep(s: System, mode: RecoveryMode, recovery: Cursor, fromLaunch: bool): System {
    var t := Rebased(s, Restored(s, fromLaunch)).(mode := mode);
    if mode == GapSnapshot then Rebased(t, NO_CURSOR).(phase := Saving(None))
    else if mode == CursorReplay && t.cursor != recovery then Fatal(t, true)
    else t
  }

  /** The end of a recovery: the replay must have arrived; a snapshot vouches for what it covers. */
  function DoneStep(s: System, sameSession: bool, done: Done, latest: Cursor): System {
    if !sameSession then Fatal(s, true)
    else if done == ReplayComplete then
      if latest.cursor > 0 && s.cursor != latest then Fatal(s, true)
      else s.(mode := NoRecovery, phase := if latest.cursor > 0 then Acking(latest) else s.phase)
    else
      var c := if latest.stream != "" && latest.cursor > 0 then latest else NO_CURSOR;
      Rebased(s.(vouched := s.vouched + {c}), c).(mode := NoRecovery, phase := Saving(if c == NO_CURSOR then None else Some(c)))
  }

  function SaveStep(s: System, succeeds: bool): System {
    if !succeeds then Fatal(s, false)
    else
      s.(store := s.cursor, disk := s.cursor, saved := s.saved + {s.cursor},
         phase := if s.phase.Saving? && s.phase.ack.Some? then Acking(s.phase.ack.value) else Idle)
  }

  function AckStep(s: System): System {
    if s.phase.Acking? && s.negotiated && s.phase.receipt.cursor != 0 then s.(phase := Idle, acks := s.acks + [s.phase.receipt])
    else s.(phase := Idle)
  }

  /** The snapshot that every processed record schedules. */
  function RememberStep(s: System, alsoSave: bool): System {
    if alsoSave then s.(store := s.cursor, disk := s.cursor, saved := s.saved + {s.cursor}) else s.(store := s.cursor)
  }

  function RestartStep(s: System): System {
    s.(alive := true, cursor := NO_CURSOR, mode := NoRecovery, phase := Idle,
       store := s.disk, launch := s.disk, base := NO_CURSOR, run := [])
  }

  function Next(s: System, e: Event): System {
    match e
    case Deliver(record) => DeliverStep(s, record)
    case SessionReplayed(mode, recovery, fromLaunch) => ReplayStep(s, mode, recovery, fromLaunch)
    case RecoveryDone(sameSession, done, latest) => DoneStep(s, sameSession, done, latest)
    case RuntimeStatus => if s.mode == LegacySnapshot then s.(mode := NoRecovery) else s
    case Save(succeeds) => SaveStep(s, succeeds)
    case SendAck => AckStep(s)
    case Remember(alsoSave) => RememberStep(s, alsoSave)
    case Crash => s.(alive := false)
    case Restart => RestartStep(s)
  }

  predicate LegalRun(s: System, events: seq<Event>)
    decreases |events|
  {
    events == [] || (Enabled(s, events[0]) && LegalRun(Next(s, events[0]), events[1..]))
  }

  function RunAll(s: System, events: seq<Event>): System
    decreases |events|
  {
    if events == [] then s else RunAll(Next(s, events[0]), events[1..])
  }

  // ---------------------------------------------------------------- what every step keeps

  /** Cursors of one stream that follow each other, and follow `base` unless that is no cursor. */
  predicate Consecutive(base: Cursor, run: seq<Cursor>) {
    && (forall i :: 0 <= i < |run| ==> run[i].stream == run[0].stream && run[i].cursor == run[0].cursor + i)
    && (run != [] && base.stream != "" ==> run[0] == Cursor(base.stream, base.cursor + 1))
  }

  /** The cursor is where the run left it. */
  predicate AtEndOfRun(s: System) {
    s.cursor == if s.run == [] then s.base else s.run[|s.run| - 1]
  }

  predicate WellFormed(c: Cursor) {
    c == NO_CURSOR || (c.stream != "" && c.cursor >= 1)
  }

  /** A cursor that was reduced, or that a snapshot brought, or none. */
  predicate Known(s: System, c: Cursor) {
    c == NO_CURSOR || c in s.reduced || c in s.vouched
  }

  /** The cursor, and every cursor a resume may start from, is known. */
  predicate KnownInv(s: System) {
    && WellFormed(s.cursor) && WellFormed(s.store) && WellFormed(s.launch) && WellFormed(s.disk)
    && Known(s, s.cursor) && Known(s, s.store) && Known(s, s.launch) && Known(s, s.disk)
  }

  /** The run is consecutive, was reduced, and leads to the cursor. */
  predicate RunInv(s: System) {
    Consecutive(s.base, s.run) && AtEndOfRun(s) && WellFormed(s.cursor) && forall c :: c in s.run ==> c in s.reduced && c.stream != ""
  }

  /** Only saved cursors are acknowledged or about to be. */
  predicate SavedInv(s: System) {
    && (forall c :: c in s.acks ==> c in s.saved)
    && NO_CURSOR in s.saved && s.store in s.saved && s.launch in s.saved && s.disk in s.saved
    && (s.alive && !s.phase.Saving? ==> s.cursor in s.saved)
    && (s.phase.Saving? ==> s.phase.ack == None || s.phase.ack == Some(s.cursor))
    && (s.phase.Acking? ==> s.phase.receipt in s.saved)
  }

  predicate Inv(s: System) {
    KnownInv(s) && RunInv(s) && SavedInv(s)
  }

  lemma InitialInv(disk: Cursor, negotiated: bool)
    requires WellFormed(disk)
    ensures Inv(Initial(disk, negotiated))
  {
  }

  lemma FatalKeepsInv(s: System, lastSave: bool)
    requires Inv(s)
    ensures Inv(Fatal(s, lastSave))
  {
  }

  /** The cursor set to a known position that is saved, or about to be. */
  lemma RebasedKeepsInv(s: System, c: Cursor, mode: RecoveryMode, phase: Phase)
    requires Inv(s) && s.alive && WellFormed(c) && Known(s, c)
    requires phase == Saving(None) || phase == Saving(Some(c)) || (phase == Idle && c in s.saved)
    ensures Inv(Rebased(s, c).(mode := mode, phase := phase))
  {
  }

  lemma AcceptedKeepsRun(s: System, record: Cursor)
    requires RunInv(s) && Enabled(s, Deliver(record)) && AssessDurableTerminalEvent(s, record) == Accept
    ensures RunInv(Accepted(s, record))
  {
    assert s.run != [] ==> s.run[|s.run| - 1] in s.run;
  }

  lemma AcceptedKeepsInv(s: System, record: Cursor)
    requires Inv(s) && Enabled(s, Deliver(record)) && AssessDurableTerminalEvent(s, record) == Accept
    ensures Inv(Accepted(s, record))
  {
    hide RunInv;
    AcceptedKeepsRun(s, record);
  }

  lemma DuplicateKeepsInv(s: System)
    requires Inv(s) && s.alive && s.phase == Idle
    ensures Inv(s.(phase := Acking(s.cursor)))
  {
  }

  lemma DeliverKeepsInv(s: System, record: Cursor)
    requires Inv(s) && Enabled(s, Deliver(record))
    ensures Inv(DeliverStep(s, record))
  {
    hide RunInv, KnownInv, Fatal, Accepted, AssessDurableTerminalEvent;
    match AssessDurableTerminalEvent(s, record)
    case Duplicate => DuplicateKeepsInv(s);
    case Gap(_) => FatalKeepsInv(s, true);
    case Accept => AcceptedKeepsInv(s, record);
  }

  lemma ReplayKeepsInv(s: System, mode: RecoveryMode, recovery: Cursor, fromLaunch: bool)
    requires Inv(s) && Enabled(s, SessionReplayed(mode, recovery, fromLaunch))
    ensures Inv(ReplayStep(s, mode, recovery, fromLaunch))
  {
    hide Rebased, Fatal, RunInv;
    var c := Restored(s, fromLaunch);
    RebasedKeepsInv(s, c, mode, Idle);
    var t := Rebased(s, c).(mode := mode, phase := Idle);
    RebasedKeepsPhase(s, c);
    assert t == Rebased(s, c).(mode := mode);
    if mode == GapSnapshot {
      RebasedKeepsInv(t, NO_CURSOR, mode, Saving(None));
      RebasedKeepsPhase(t, NO_CURSOR);
    } else {
      FatalKeepsInv(t, true);
    }
  }

  lemma RebasedKeepsPhase(s: System, c: Cursor)
    ensures Rebased(s, c).phase == s.phase && Rebased(s, c).alive == s.alive && Rebased(s, c).mode == s.mode
    ensures Rebased(s, c).cursor == c && Rebased(s, c).negotiated == s.negotiated
    ensures Rebased(s, c).(phase := s.phase) == Rebased(s, c) && Rebased(s, c).(mode := s.mode) == Rebased(s, c)
  {
  }

  lemma SameRun(s: System, t: System)
    requires RunInv(s) && t.base == s.base && t.run == s.run && t.cursor == s.cursor && t.reduced == s.reduced
    ensures RunInv(t)
  {
  }

  lemma ReplayDoneKeepsInv(s: System, latest: Cursor)
    requires Inv(s) && Enabled(s, RecoveryDone(true, ReplayComplete, latest))
    ensures Inv(DoneStep(s, true, ReplayComplete, latest))
  {
    hide Fatal, RunInv;
    FatalKeepsInv(s, true);
    SameRun(s, s.(mode := NoRecovery, phase := if latest.cursor > 0 then Acking(latest) else s.phase));
  }

  lemma SnapshotDoneKeepsInv(s: System, latest: Cursor)
    requires Inv(s) && Enabled(s, RecoveryDone(true, SnapshotComplete, latest))
    ensures Inv(DoneStep(s, true, SnapshotComplete, latest))
  {
    hide Rebased, RunInv;
    var c := if latest.stream != "" && latest.cursor > 0 then latest else NO_CURSOR;
    var t := s.(vouched := s.vouched + {c});
    SameRun(s, t);
    RebasedKeepsInv(t, c, NoRecovery, Saving(if c == NO_CURSOR then None else Some(c)));
  }

  lemma DoneKeepsInv(s: System, sameSession: bool, done: Done, latest: Cursor)
    requires Inv(s) && Enabled(s, RecoveryDone(sameSession, done, latest))
    ensures Inv(DoneStep(s, sameSession, done, latest))
  {
    hide Inv, Rebased, Fatal;
    if !sameSession {
      FatalKeepsInv(s, true);
    } else if done == ReplayComplete {
      ReplayDoneKeepsInv(s, latest);
    } else {
      SnapshotDoneKeepsInv(s, latest);
    }
  }

  lemma NoRun(s: System)
    requires s.run == [] && s.base == s.cursor == NO_CURSOR
    ensures RunInv(s)
  {
  }

  lemma SaveKeepsInv(s: System, succeeds: bool)
    requires Inv(s) && Enabled(s, Save(succeeds))
    ensures Inv(SaveStep(s, succeeds))
  {
    hide RunInv;
    SameRun(s, SaveStep(s, succeeds));
  }

  lemma AckKeepsInv(s: System)
    requires Inv(s) && Enabled(s, SendAck)
    ensures Inv(AckStep(s))
  {
    hide RunInv;
    SameRun(s, AckStep(s));
  }

  lemma RememberKeepsInv(s: System, alsoSave: bool)
    requires Inv(s) && Enabled(s, Remember(alsoSave))
    ensures Inv(RememberStep(s, alsoSave))
  {
    hide RunInv;
    SameRun(s, RememberStep(s, alsoSave));
  }

  /** A process that starts again knows nothing but what is on disk: all else that it keeps is history. */
  lemma RestartIsFresh(s: System)
    ensures RestartStep(s)
         == Initial(s.disk, s.negotiated).(reduced := s.reduced, vouched := s.vouched, saved := s.saved, acks := s.acks)
  {
  }

  lemma RestartKeepsInv(s: System)
    requires Inv(s)
    ensures Inv(RestartStep(s)) && Inv(s.(alive := false)) && Inv(s.(mode := NoRecovery))
  {
    hide RunInv;
    NoRun(RestartStep(s));
    SameRun(s, s.(alive := false));
    SameRun(s, s.(mode := NoRecovery));
  }

  lemma StepKeepsInv(s: System, e: Event)
    requires Inv(s) && Enabled(s, e)
    ensures Inv(Next(s, e))
  {
    hide Inv, Enabled, DeliverStep, ReplayStep, DoneStep, SaveStep, AckStep, RememberStep, RestartStep;
    match e
    case Deliver(record) => DeliverKeepsInv(s, record);
    case SessionReplayed(mode, recovery, fromLaunch) => ReplayKeepsInv(s, mode, recovery, fromLaunch);
    case RecoveryDone(sameSession, done, latest) => DoneKeepsInv(s, sameSession, done, latest);
    case Save(succeeds) => SaveKeepsInv(s, succeeds);
    case SendAck => AckKeepsInv(s);
    case Remember(alsoSave) => RememberKeepsInv(s, alsoSave);
    case _ => RestartKeepsInv(s);
  }

  // ---------------------------------------------------------------- whole runs

  lemma {:induction false} RunKeepsInv(s: System, events: seq<Event>)
    requires Inv(s) && LegalRun(s, events)
    ensures Inv(RunAll(s, events))
    decreases |events|
  {
    hide Inv, Next, Enabled;
    if events != [] {
      StepKeepsInv(s, events[0]);
      RunKeepsInv(Next(s, events[0]), events[1..]);
    }
  }

  lemma {:induction false} RunConcat(s: System, a: seq<Event>, b: seq<Event>)
    ensures LegalRun(s, a + b) <==> LegalRun(s, a) && LegalRun(RunAll(s, a), b)
    ensures RunAll(s, a + b) == RunAll(RunAll(s, a), b)
    decreases |a|
  {
    hide Next, Enabled;
    if a == [] {
      assert a + b == b;
    } else {
      RunConcat(Next(s, a[0]), a[1..], b);
      assert (a + b)[0] == a[0] && (a + b)[1..] == a[1..] + b;
    }
  }

  /** Every acknowledged cursor had been written to disk before its acknowledgement was sent. */
  lemma AcksAreSaved(disk: Cursor, negotiated: bool, before: seq<Event>)
    requires WellFormed(disk) && LegalRun(Initial(disk, negotiated), before)
    ensures
      var s := RunAll(Initial(disk, negotiated), before);
      && (forall c :: c in s.acks ==> c in s.saved)
      && (Enabled(s, SendAck) ==> forall c :: c in Next(s, SendAck).acks ==> c in s.saved)
  {
    InitialInv(disk, negotiated);
    RunKeepsInv(Initial(disk, negotiated), before);
  }

  /** A snapshot, and not the reducer, accounts for what this step brings. */
  predicate BringsSnapshot(s: System, e: Event) {
    (e.Deliver? && s.mode == LegacySnapshot) || (e.RecoveryDone? && e.done == SnapshotComplete)
  }

  predicate BringsNoSnapshot(s: System, events: seq<Event>)
    decreases |events|
  {
    events == [] || (!BringsSnapshot(s, events[0]) && BringsNoSnapshot(Next(s, events[0]), events[1..]))
  }

  lemma StepVouchesNothing(s: System, e: Event)
    requires !BringsSnapshot(s, e)
    ensures Next(s, e).vouched == s.vouched
  {
    hide AssessDurableTerminalEvent;
  }

  lemma {:induction false} NothingElseVouches(s: System, events: seq<Event>)
    requires LegalRun(s, events) && BringsNoSnapshot(s, events)
    ensures RunAll(s, events).vouched == s.vouched
    decreases |events|
  {
    hide Enabled, Next, BringsSnapshot;
    if events != [] {
      StepVouchesNothing(s, events[0]);
      NothingElseVouches(Next(s, events[0]), events[1..]);
    }
  }

  /**
   Wherever a crash strikes, the next process resumes from a cursor that was reduced, that a snapshot
   brought, or that was on disk from the start; without legacy and snapshot steps, from a reduced one
   or the first one on disk.  The same holds of the current cursor.
   */
  lemma ResumeIsKnown(disk: Cursor, negotiated: bool, events: seq<Event>, current: bool)
    requires WellFormed(disk) && LegalRun(Initial(disk, negotiated), events)
    ensures
      var s := RunAll(Initial(disk, negotiated), events);
      var resumed := ResumeCursor(RestartStep(s.(alive := false)), current);
      && Known(s, s.cursor)
      && (resumed.Some? ==> resumed.value == s.disk && Known(s, resumed.value))
      && (BringsNoSnapshot(Initial(disk, negotiated), events) ==>
            && s.cursor in s.reduced + {disk, NO_CURSOR}
            && (resumed.Some? ==> resumed.value in s.reduced + {disk}))
  {
    hide SavedInv, RunInv, RunAll, LegalRun, BringsNoSnapshot;
    InitialInv(disk, negotiated);
    var s := Initial(disk, negotiated);
    RunKeepsInv(s, events);
    if BringsNoSnapshot(s, events) { NothingElseVouches(s, events); }
  }

  /** Short runs, unfolded. */
  lemma RunOne(s: System, a: Event)
    ensures RunAll(s, [a]) == Next(s, a) && (LegalRun(s, [a]) <==> Enabled(s, a))
  {
    hide Next, Enabled;
    assert [a][1..] == [];
  }

  lemma RunTwo(s: System, a: Event, b: Event)
    ensures RunAll(s, [a, b]) == Next(Next(s, a), b)
    ensures LegalRun(s, [a, b]) <==> Enabled(s, a) && Enabled(Next(s, a), b)
  {
    hide Next, Enabled;
    assert [a, b][1..] == [b];
    RunOne(Next(s, a), b);
  }

  lemma RunThree(s: System, a: Event, b: Event, c: Event)
    ensures RunAll(s, [a, b, c]) == Next(Next(Next(s, a), b), c)
    ensures LegalRun(s, [a, b, c]) <==> Enabled(s, a) && Enabled(Next(s, a), b) && Enabled(Next(Next(s, a), b), c)
  {
    hide Next, Enabled;
    assert [a, b, c][1..] == [b, c];
    RunTwo(Next(s, a), b, c);
  }

  // ---------------------------------------------------------------- what is skipped

  /** Position `k` of a stream was reduced, or a snapshot accounts for it. */
  ghost predicate Covered(s: System, stream: string, k: int) {
    Cursor(stream, k) in s.reduced || exists v :: v in s.vouched && v.stream == stream && k <= v.cursor
  }

  /** Nothing up to `c` was skipped. */
  ghost predicate NothingSkipped(s: System, c: Cursor) {
    forall k :: 1 <= k <= c.cursor ==> Covered(s, c.stream, k)
  }

  /** Nothing was skipped below a reduced receipt, the cursor, or a cursor that a resume may start from. */
  ghost predicate Gapless(s: System) {
    && NothingSkipped(s, s.cursor) && NothingSkipped(s, s.store) && NothingSkipped(s, s.launch) && NothingSkipped(s, s.disk)
    && forall c :: c in s.reduced ==> NothingSkipped(s, c)
  }

  /** A receipt that arrives while the client follows no stream is taken at whatever position it comes. */
  predicate IsFirstReceipt(s: System, e: Event) {
    e.Deliver? && s.mode != LegacySnapshot && s.cursor.stream == ""
  }

  /** It comes first in its stream, or the position before it is accounted for. */
  ghost predicate Lands(s: System, record: Cursor) {
    record.cursor == 1 || Covered(s, record.stream, record.cursor - 1)
  }

  ghost predicate LandsIfFirst(s: System, e: Event) {
    IsFirstReceipt(s, e) ==> Lands(s, e.record)
  }

  /** More reduced or vouched for, nothing less covered. */
  lemma CoverGrows(s: System, t: System, c: Cursor)
    requires NothingSkipped(s, c) && s.reduced <= t.reduced && s.vouched <= t.vouched
    ensures NothingSkipped(t, c)
  {
    forall k | 1 <= k <= c.cursor ensures Covered(t, c.stream, k) {
      assert Covered(s, c.stream, k);
    }
  }

  lemma GaplessGrows(s: System, t: System)
    requires Gapless(s) && s.reduced <= t.reduced && s.vouched <= t.vouched
    ensures NothingSkipped(t, s.cursor) && NothingSkipped(t, s.store) && NothingSkipped(t, s.launch) && NothingSkipped(t, s.disk)
    ensures NothingSkipped(t, NO_CURSOR) && forall c :: c in s.reduced ==> NothingSkipped(t, c)
  {
    CoverGrows(s, t, s.cursor);
    CoverGrows(s, t, s.store);
    CoverGrows(s, t, s.launch);
    CoverGrows(s, t, s.disk);
    forall c | c in s.reduced ensures NothingSkipped(t, c) { CoverGrows(s, t, c); }
  }

  lemma VouchedIsCovered(s: System, c: Cursor)
    requires c in s.vouched
    ensures NothingSkipped(s, c)
  {
  }

  /** Without gaps, a covered position has nothing skipped up to it. */
  lemma CoveredReachesBack(s: System, stream: string, k: int)
    requires Gapless(s) && Covered(s, stream, k)
    ensures NothingSkipped(s, Cursor(stream, k))
  {
    if Cursor(stream, k) !in s.reduced {
      var v :| v in s.vouched && v.stream == stream && k <= v.cursor;
      VouchedIsCovered(s, v);
    }
  }

  /** One more position after what is covered. */
  lemma OneMoreCovered(s: System, t: System, record: Cursor)
    requires NothingSkipped(s, Cursor(record.stream, record.cursor - 1))
    requires t.reduced == s.reduced + {record} && s.vouched <= t.vouched
    ensures NothingSkipped(t, record)
  {
    CoverGrows(s, t, Cursor(record.stream, record.cursor - 1));
    forall k | 1 <= k <= record.cursor ensures Covered(t, record.stream, k) {
      if k == record.cursor { assert Cursor(record.stream, k) == record; }
    }
  }

  /** Accepting a receipt leaves no gap exactly when it lands, if it is a first one. */
  lemma AcceptedGapless(s: System, record: Cursor)
    requires Inv(s) && Gapless(s) && Enabled(s, Deliver(record)) && AssessDurableTerminalEvent(s, record) == Accept
    ensures Gapless(Accepted(s, record)) <==> LandsIfFirst(s, Deliver(record))
  {
    hide NothingSkipped, RunInv, SavedInv;
    var t := Accepted(s, record);
    GaplessGrows(s, t);
    if s.mode == LegacySnapshot {
      VouchedIsCovered(t, t.cursor);
      LegacyCovers(s, t, record);
    } else if s.cursor.stream != "" {
      assert Cursor(record.stream, record.cursor - 1) == s.cursor;
      OneMoreCovered(s, t, record);
    } else if Lands(s, record) {
      LandingCovers(s, record);
      OneMoreCovered(s, t, record);
    } else {
      MissingIsSkipped(s, t, record);
    }
  }

  lemma LegacyCovers(s: System, t: System, record: Cursor)
    requires NothingSkipped(t, t.cursor) && t.cursor.stream == record.stream && record.cursor <= t.cursor.cursor
    ensures NothingSkipped(t, record)
  {
  }

  lemma LandingCovers(s: System, record: Cursor)
    requires Gapless(s) && Lands(s, record)
    ensures NothingSkipped(s, Cursor(record.stream, record.cursor - 1))
  {
    if record.cursor != 1 { CoveredReachesBack(s, record.stream, record.cursor - 1); }
  }

  lemma MissingIsSkipped(s: System, t: System, record: Cursor)
    requires record.cursor > 1 && !Covered(s, record.stream, record.cursor - 1)
    requires t.reduced == s.reduced + {record} && t.vouched == s.vouched
    ensures !Covered(t, record.stream, record.cursor - 1) && !NothingSkipped(t, record)
  {
    assert Cursor(record.stream, record.cursor - 1) != record;
  }

  /** The cursors of `t` are those of `s`, or none, or vouched for; nothing was reduced in between. */
  predicate CursorsFrom(s: System, t: System) {
    var sources := {s.cursor, s.store, s.launch, s.disk, NO_CURSOR} + t.vouched;
    && t.reduced == s.reduced && s.vouched <= t.vouched
    && t.cursor in sources && t.store in sources && t.launch in sources && t.disk in sources
  }

  lemma FatalCursors(s: System, t: System, lastSave: bool)
    requires CursorsFrom(s, t)
    ensures CursorsFrom(s, Fatal(t, lastSave)) && CursorsFrom(s, Fatal(s, lastSave))
  {
  }

  lemma ReplayCursors(s: System, mode: RecoveryMode, recovery: Cursor, fromLaunch: bool)
    ensures CursorsFrom(s, ReplayStep(s, mode, recovery, fromLaunch))
  {
    hide Fatal;
    var t := Rebased(s, Restored(s, fromLaunch)).(mode := mode);
    FatalCursors(s, t, true);
  }

  lemma DoneCursors(s: System, sameSession: bool, done: Done, latest: Cursor)
    ensures CursorsFrom(s, DoneStep(s, sameSession, done, latest))
  {
    hide Fatal;
    FatalCursors(s, s, true);
  }

  lemma SavingCursors(s: System, succeeds: bool)
    ensures CursorsFrom(s, SaveStep(s, succeeds)) && CursorsFrom(s, RememberStep(s, succeeds))
    ensures CursorsFrom(s, AckStep(s)) && CursorsFrom(s, RestartStep(s))
  {
  }

  /** Where the cursors come from in a step that accepts no receipt. */
  lemma OtherStepCursors(s: System, e: Event)
    requires e.Deliver? ==> AssessDurableTerminalEvent(s, e.record) != Accept
    ensures CursorsFrom(s, Next(s, e))
  {
    hide AssessDurableTerminalEvent, Accepted, Fatal, ReplayStep, DoneStep, SaveStep, AckStep, RememberStep, RestartStep;
    match e
    case Deliver(record) => FatalCursors(s, s, true);
    case SessionReplayed(mode, recovery, fromLaunch) => ReplayCursors(s, mode, recovery, fromLaunch);
    case RecoveryDone(sameSession, done, latest) => DoneCursors(s, sameSession, done, latest);
    case Save(succeeds) => SavingCursors(s, succeeds);
    case Remember(alsoSave) => SavingCursors(s, alsoSave);
    case _ => SavingCursors(s, true);
  }

  /** One step leaves no gap exactly when a first receipt, if it brings one, lands. */
  lemma StepGapless(s: System, e: Event)
    requires Inv(s) && Gapless(s) && Enabled(s, e)
    ensures Gapless(Next(s, e)) <==> LandsIfFirst(s, e)
  {
    hide NothingSkipped, Inv, Lands, Enabled, AssessDurableTerminalEvent, Accepted, Fatal, ReplayStep, DoneStep, SaveStep, AckStep, RememberStep, RestartStep;
    if e.Deliver? && AssessDurableTerminalEvent(s, e.record) == Accept {
      AcceptedGapless(s, e.record);
    } else {
      var t := Next(s, e);
      if IsFirstReceipt(s, e) { FirstIsAccepted(s, e); }
      OtherStepCursors(s, e);
      GaplessGrows(s, t);
      forall c | c in t.vouched ensures NothingSkipped(t, c) { VouchedIsCovered(t, c); }
    }
  }

  lemma FirstIsAccepted(s: System, e: Event)
    requires IsFirstReceipt(s, e)
    ensures AssessDurableTerminalEvent(s, e.record) == Accept
  {
  }

  ghost predicate GaplessThroughout(s: System, events: seq<Event>)
    decreases |events|
  {
    Gapless(s) && (events == [] || GaplessThroughout(Next(s, events[0]), events[1..]))
  }

  /** Every first receipt of the run lands. */
  ghost predicate AllLand(s: System, events: seq<Event>)
    decreases |events|
  {
    events == [] || (LandsIfFirst(s, events[0]) && AllLand(Next(s, events[0]), events[1..]))
  }

  /**
   Nothing is ever skipped in a run -- not below the cursor, not below one that a resume may start
   from -- if and only if every receipt taken without a cursor comes first in its stream or right
   after a position accounted for.
   */
  lemma {:induction false} NothingSkippedIffAllLand(s: System, events: seq<Event>)
    requires Inv(s) && Gapless(s) && LegalRun(s, events)
    ensures GaplessThroughout(s, events) <==> AllLand(s, events)
    decreases |events|
  {
    hide Inv, Gapless, LandsIfFirst, Next, Enabled;
    if events != [] {
      StepGapless(s, events[0]);
      StepKeepsInv(s, events[0]);
      if Gapless(Next(s, events[0])) { NothingSkippedIffAllLand(Next(s, events[0]), events[1..]); }
      else { GapStays(Next(s, events[0]), events[1..]); }
    }
  }

  lemma GapStays(s: System, events: seq<Event>)
    requires !Gapless(s)
    ensures !GaplessThroughout(s, events)
  {
  }

  lemma InitialGapless(disk: Cursor, negotiated: bool)
    requires WellFormed(disk)
    ensures Inv(Initial(disk, negotiated)) && Gapless(Initial(disk, negotiated))
  {
    VouchedIsCovered(Initial(disk, negotiated), disk);
  }

  lemma {:induction false} GaplessAtEnd(s: System, events: seq<Event>)
    requires GaplessThroughout(s, events)
    ensures Gapless(RunAll(s, events))
    decreases |events|
  {
    hide Gapless, Next;
    if events != [] { GaplessAtEnd(Next(s, events[0]), events[1..]); }
  }

  /** Then, wherever a crash strikes, the cursor that the next process resumes from skips nothing. */
  lemma ResumeSkipsNothing(disk: Cursor, negotiated: bool, events: seq<Event>, current: bool)
    requires WellFormed(disk) && LegalRun(Initial(disk, negotiated), events) && AllLand(Initial(disk, negotiated), events)
    ensures
      var resumed := RestartStep(RunAll(Initial(disk, negotiated), events).(alive := false));
      ResumeCursor(resumed, current).Some? ==> NothingSkipped(resumed, ResumeCursor(resumed, current).value)
  {
    hide NothingSkipped, Inv, RunAll, LegalRun, AllLand, GaplessThroughout;
    InitialGapless(disk, negotiated);
    NothingSkippedIffAllLand(Initial(disk, negotiated), events);
    GaplessAtEnd(Initial(disk, negotiated), events);
    var s := RunAll(Initial(disk, negotiated), events);
    CoverGrows(s, RestartStep(s.(alive := false)), s.disk);
  }

  /** A first receipt, saved; then a crash and a new process. */
  function FirstThenCrash(record: Cursor): seq<Event> {
    [Deliver(record), Save(true), Crash, Restart]
  }

  /** A first receipt that does not land is lost for good: the next process resumes behind the gap. */
  lemma FirstReceiptDecides(s: System, record: Cursor)
    requires Inv(s) && Gapless(s) && Enabled(s, Deliver(record)) && IsFirstReceipt(s, Deliver(record)) && s.negotiated
    ensures LegalRun(s, FirstThenCrash(record))
    ensures
      var resumed := RunAll(s, FirstThenCrash(record));
      && ResumeCursor(resumed, false) == Some(record)
      && (NothingSkipped(resumed, record) <==> Lands(s, record))
      && (!Lands(s, record) ==> !Covered(resumed, record.stream, record.cursor - 1))
  {
    hide RunAll, LegalRun, NothingSkipped, Inv, Gapless;
    FirstIsAccepted(s, Deliver(record));
    var t := Accepted(s, record);
    RunTwo(s, Deliver(record), Save(true));
    RunTwo(SaveStep(t, true), Crash, Restart);
    RunConcat(s, [Deliver(record), Save(true)], [Crash, Restart]);
    assert FirstThenCrash(record) == [Deliver(record), Save(true)] + [Crash, Restart];
    var resumed := RunAll(s, FirstThenCrash(record));
    assert resumed == RestartStep(SaveStep(t, true).(alive := false));
    if Lands(s, record) {
      LandingCovers(s, record);
      OneMoreCovered(s, resumed, record);
    } else {
      MissingIsSkipped(s, resumed, record);
    }
  }

  /** A client with position 50 on disk that is sent 100 before its session is replayed: 51 to 99 are lost. */
  lemma SkippedReceipts(k: int)
    requires 51 <= k <= 99
    ensures
      var s := Initial(Cursor("S", 50), true);
      var resumed := RunAll(s, FirstThenCrash(Cursor("S", 100)));
      && LegalRun(s, FirstThenCrash(Cursor("S", 100))) && !AllLand(s, FirstThenCrash(Cursor("S", 100)))
      && ResumeCursor(resumed, false) == Some(Cursor("S", 100)) && resumed.reduced == {Cursor("S", 100)}
      && !Covered(resumed, "S", k)
  {
    hide RunAll, LegalRun, Inv;
    var s, record := Initial(Cursor("S", 50), true), Cursor("S", 100);
    RunTwo(s, Deliver(record), Save(true));
    RunTwo(SaveStep(Accepted(s, record), true), Crash, Restart);
    RunConcat(s, [Deliver(record), Save(true)], [Crash, Restart]);
    assert FirstThenCrash(record) == [Deliver(record), Save(true)] + [Crash, Restart];
  }

  // ---------------------------------------------------------------- what becomes of a record

  /**
   A receipt of the stream that is followed, outside a legacy recovery: one from before the cursor is
   acknowledged again and not reduced; the next one is reduced; any other one, or one of another
   stream, stops the client, which the next process then resumes at the cursor.  The position that the
   client then names as expected is the one it would have taken.
   */
  lemma DeliverOutcome(s: System, record: Cursor)
    requires Inv(s) && Enabled(s, Deliver(record)) && s.mode != LegacySnapshot && s.cursor != NO_CURSOR
    ensures
      var t := Next(s, Deliver(record));
      if record.stream == s.cursor.stream && record.cursor <= s.cursor.cursor then
        && Enabled(t, SendAck)
        && Next(t, SendAck) == s.(acks := if s.negotiated then s.acks + [s.cursor] else s.acks)
      else if record == Cursor(s.cursor.stream, s.cursor.cursor + 1) then
        t.alive && t.cursor == record && t.reduced == s.reduced + {record} && t.phase == Saving(Some(record))
      else
        && !t.alive && t.reduced == s.reduced && t.disk == s.cursor && t.acks == s.acks
        && var gap := AssessDurableTerminalEvent(s, record);
        && gap.Gap? && AssessDurableTerminalEvent(s, Cursor(s.cursor.stream, gap.expectedCursor)) == Accept
  {
    hide RunInv, SavedInv;
  }

  /** A resume asks for what follows the client's cursor, or the one it has stored; without a cursor there is none. */
  lemma ResumeNamesCursor(s: System)
    requires Inv(s)
    ensures ResumeCursor(s, true) == if s.negotiated && s.cursor != NO_CURSOR then Some(s.cursor) else None
    ensures ResumeCursor(s, false) == if s.negotiated && s.store != NO_CURSOR then Some(s.store) else None
  {
  }

  /** An idle client takes whatever the server sends; a busy one has one thing to do, and then is idle or stops. */
  lemma WhatMayCome(s: System, e: Event)
    requires s.alive && (e.Deliver? ==> e.record.stream != "" && e.record.cursor >= 1)
    requires e.SessionReplayed? ==> e.mode != NoRecovery
    ensures s.phase == Idle ==> (Enabled(s, e) <==> !e.Save? && !e.SendAck? && !e.Restart?)
    ensures s.phase.Saving? && Enabled(s, e) ==> e == Crash || (e.Save? && (Next(s, e).alive <==> e.succeeds))
    ensures s.phase.Acking? && Enabled(s, e) ==> e == Crash || (e == SendAck && Next(s, e).phase == Idle)
  {
  }

  /** In a legacy recovery, and where no stream is followed, every receipt is reduced. */
  lemma AnyReceiptIsTaken(s: System, record: Cursor)
    requires Inv(s) && Enabled(s, Deliver(record)) && (s.mode == LegacySnapshot || s.cursor == NO_CURSOR)
    ensures
      var t := Next(s, Deliver(record));
      && t.alive && t.reduced == s.reduced + {record} && t.phase == Saving(Some(t.cursor))
      && t.cursor == if s.cursor.stream == record.stream && s.cursor.cursor > record.cursor then s.cursor else record
  {
    hide RunInv, SavedInv;
  }

  // ---------------------------------------------------------------- recoveries from start to end

  /**
   A replayed session: a replay goes on only from the cursor that the plan names, a snapshot recovery
   after a gap starts from none, and saves that, and a legacy one goes on from the restored cursor.
   */
  lemma RecoveryStarts(s: System, mode: RecoveryMode, recovery: Cursor, fromLaunch: bool)
    requires Inv(s) && Enabled(s, SessionReplayed(mode, recovery, fromLaunch))
    ensures
      var t := Next(s, SessionReplayed(mode, recovery, fromLaunch));
      && t.mode == mode && t.reduced == s.reduced && t.acks == s.acks
      && (t.alive <==> mode == CursorReplay ==> Restored(s, fromLaunch) == recovery)
      && t.cursor == (if mode == GapSnapshot then NO_CURSOR else Restored(s, fromLaunch))
      && (mode == GapSnapshot ==> Enabled(t, Save(true)) && Next(t, Save(true)).disk == NO_CURSOR && Next(t, Save(true)).phase == Idle)
      && (mode != GapSnapshot && t.alive ==> t.phase == Idle)
      && (!t.alive ==> t.disk == t.cursor)
  {
    hide RunInv, SavedInv, KnownInv;
  }

  /** What is remembered of a session is what a replay restores, unless it takes the launch snapshot. */
  lemma RememberedIsRestored(s: System, alsoSave: bool)
    requires Inv(s) && Enabled(s, Remember(alsoSave))
    ensures
      var events := [Remember(alsoSave), SessionReplayed(CursorReplay, s.cursor, false)];
      var t := RunAll(s, events);
      && LegalRun(s, events) && t.alive && t.cursor == s.cursor && t.mode == CursorReplay
      && t.disk == if alsoSave then s.cursor else s.disk
  {
    hide RunAll, LegalRun, RunInv, SavedInv, KnownInv;
    RunTwo(s, Remember(alsoSave), SessionReplayed(CursorReplay, s.cursor, false));
  }

  /**
   The end of a replay: the client goes on if and only if it has arrived at the latest cursor, if there
   is one, and acknowledges just that; a result for another session stops it.
   */
  lemma ReplayMustArrive(s: System, sameSession: bool, latest: Cursor)
    requires Inv(s) && Enabled(s, RecoveryDone(sameSession, ReplayComplete, latest))
    ensures
      var t := Next(s, RecoveryDone(sameSession, ReplayComplete, latest));
      && (t.alive <==> sameSession && (latest.cursor <= 0 || s.cursor == latest))
      && t.cursor == s.cursor && t.reduced == s.reduced && t.acks == s.acks
      && (t.alive ==> t.mode == NoRecovery)
      && (t.alive && latest.cursor <= 0 ==> t.phase == Idle)
      && (t.alive && latest.cursor > 0 ==>
            && Enabled(t, SendAck) && Next(t, SendAck).phase == Idle
            && Next(t, SendAck).acks == if s.negotiated then s.acks + [latest] else s.acks)
      && (!t.alive ==> t.disk == s.cursor)
  {
    hide RunInv, SavedInv, KnownInv;
  }

  /**
   Where every first receipt lands, a replay that ends without stopping the client has brought it
   everything up to the latest cursor.
   */
  lemma ArrivedReplayIsWhole(disk: Cursor, negotiated: bool, events: seq<Event>, latest: Cursor)
    requires WellFormed(disk) && LegalRun(Initial(disk, negotiated), events) && AllLand(Initial(disk, negotiated), events)
    requires Enabled(RunAll(Initial(disk, negotiated), events), RecoveryDone(true, ReplayComplete, latest))
    ensures
      var t := Next(RunAll(Initial(disk, negotiated), events), RecoveryDone(true, ReplayComplete, latest));
      t.alive ==> NothingSkipped(t, latest)
  {
    hide NothingSkipped, Inv, RunAll, LegalRun, AllLand, GaplessThroughout;
    var s := Initial(disk, negotiated);
    InitialGapless(disk, negotiated);
    NothingSkippedIffAllLand(s, events);
    GaplessAtEnd(s, events);
    RunKeepsInv(s, events);
    var u := RunAll(s, events);
    ReplayMustArrive(u, true, latest);
    if latest.cursor <= 0 { NothingBelowOne(Next(u, RecoveryDone(true, ReplayComplete, latest)), latest); }
    else if u.cursor == latest { CoverGrows(u, Next(u, RecoveryDone(true, ReplayComplete, latest)), latest); }
  }

  lemma NothingBelowOne(s: System, c: Cursor)
    requires c.cursor <= 0
    ensures NothingSkipped(s, c)
  {
  }

  /** The end of a snapshot recovery: the cursor is where the snapshot ends, saved, and then acknowledged. */
  lemma SnapshotSetsCursor(s: System, latest: Cursor)
    requires Inv(s) && Enabled(s, RecoveryDone(true, SnapshotComplete, latest))
    ensures
      var c := if latest.stream != "" && latest.cursor > 0 then latest else NO_CURSOR;
      var t := Next(s, RecoveryDone(true, SnapshotComplete, latest));
      var saved := Next(t, Save(true));
      && t.alive && t.mode == NoRecovery && t.cursor == c && t.reduced == s.reduced && Enabled(t, Save(true))
      && saved.disk == saved.store == saved.cursor == c
      && (if c == NO_CURSOR then saved.phase == Idle
          else Enabled(saved, SendAck) && Next(saved, SendAck).acks == if s.negotiated then s.acks + [c] else s.acks)
  {
    hide RunInv, SavedInv, KnownInv;
  }

  /** A legacy recovery goes on, taking every receipt, until a runtime status, another recovery's start or end, or a restart. */
  lemma LegacyModeEnds(s: System, e: Event)
    requires Enabled(s, e) && Next(s, e).alive
    ensures Next(s, e).mode == LegacySnapshot <==>
      if e.SessionReplayed? then e.mode == LegacySnapshot
      else s.mode == LegacySnapshot && !e.RuntimeStatus? && !e.RecoveryDone? && !e.Restart?
    ensures e.RuntimeStatus? ==> Next(s, e) == s.(mode := if s.mode == LegacySnapshot then NoRecovery else s.mode)
  {
    hide AssessDurableTerminalEvent;
  }

  // ---------------------------------------------------------------- one lifetime

  /** What a step reduces. */
  function ReducedBy(s: System, e: Event): seq<Cursor> {
    if e.Deliver? && AssessDurableTerminalEvent(s, e.record) == Accept then [e.record] else []
  }

  function ReducedDuring(s: System, events: seq<Event>): seq<Cursor>
    decreases |events|
  {
    if events == [] then [] else ReducedBy(s, events[0]) + ReducedDuring(Next(s, events[0]), events[1..])
  }

  /**
   The receipt that a step reduces, if any, comes right after those reduced so far: the cursor is where
   they left it; or, where the cursor does not decide, the receipt itself is the next one.
   */
  predicate Follows(s: System, done: seq<Cursor>, e: Event) {
    ReducedBy(s, e) != [] && done != [] ==>
      var last := done[|done| - 1];
      if s.mode != LegacySnapshot && s.cursor != NO_CURSOR then s.cursor == last
      else e.record == Cursor(last.stream, last.cursor + 1)
  }

  predicate AllFollow(s: System, done: seq<Cursor>, events: seq<Event>)
    decreases |events|
  {
    events == [] || (Follows(s, done, events[0]) && AllFollow(Next(s, events[0]), done + ReducedBy(s, events[0]), events[1..]))
  }

  lemma OneMoreConsecutive(done: seq<Cursor>, c: Cursor)
    requires Consecutive(NO_CURSOR, done)
    ensures Consecutive(NO_CURSOR, done + [c]) <==>
      done == [] || c == Cursor(done[|done| - 1].stream, done[|done| - 1].cursor + 1)
  {
    var more := done + [c];
    if Consecutive(NO_CURSOR, more) && done != [] {
      assert more[|done|].cursor == more[0].cursor + |done| && more[|done| - 1].cursor == more[0].cursor + |done| - 1;
    }
  }

  lemma PrefixConsecutive(done: seq<Cursor>, more: seq<Cursor>)
    requires Consecutive(NO_CURSOR, done + more)
    ensures Consecutive(NO_CURSOR, done)
  {
    assert forall i :: 0 <= i < |done| ==> (done + more)[i] == done[i];
  }

  lemma StepFollows(s: System, done: seq<Cursor>, e: Event)
    requires Inv(s) && Enabled(s, e) && Consecutive(NO_CURSOR, done)
    ensures Consecutive(NO_CURSOR, done + ReducedBy(s, e)) <==> Follows(s, done, e)
  {
    hide Consecutive, RunInv, SavedInv, Known;
    if ReducedBy(s, e) == [] {
      assert done + [] == done;
    } else {
      OneMoreConsecutive(done, e.record);
    }
  }

  /**
   In any run receipts are reduced in consecutive order -- none skipped, none twice -- if and only if
   each one that is reduced follows those before it.
   */
  lemma {:induction false} ConsecutiveIffAllFollow(s: System, done: seq<Cursor>, events: seq<Event>)
    requires Inv(s) && LegalRun(s, events) && Consecutive(NO_CURSOR, done)
    ensures Consecutive(NO_CURSOR, done + ReducedDuring(s, events)) <==> AllFollow(s, done, events)
    decreases |events|
  {
    hide Inv, Next, Enabled, Follows, ReducedBy, Consecutive;
    if events == [] {
      assert done + [] == done;
    } else {
      var e, next := events[0], Next(s, events[0]);
      var more, rest := ReducedBy(s, e), ReducedDuring(next, events[1..]);
      StepFollows(s, done, e);
      StepKeepsInv(s, e);
      assert (done + more) + rest == done + ReducedDuring(s, events);
      if Consecutive(NO_CURSOR, done + more) {
        ConsecutiveIffAllFollow(next, done + more, events[1..]);
      } else if Consecutive(NO_CURSOR, (done + more) + rest) {
        PrefixConsecutive(done + more, rest);
      }
    }
  }

  /** The receipt that a client restored to `c` takes next: the one after it, or any if it is none. */
  predicate TakenNext(c: Cursor, record: Cursor) {
    record.stream != "" && record.cursor >= 1 && (c != NO_CURSOR ==> record == Cursor(c.stream, c.cursor + 1))
  }

  /**
   What a replayed session does to the order: a plan that the client finds restored takes it there, and
   it reduces the next receipt of that stream -- in order if and only if the client was there already.
   A plan for no cursor takes it off its stream, and it reduces the next receipt at whatever position
   that comes -- in order if and only if that is the one it would have taken anyway.
   */
  lemma ReplayKeepsOrderIffInPlace(s: System, fromLaunch: bool, record: Cursor)
    requires Inv(s) && s.alive && s.phase == Idle && s.run != [] && TakenNext(Restored(s, fromLaunch), record)
    ensures
      var c := Restored(s, fromLaunch);
      var events := [SessionReplayed(CursorReplay, c, fromLaunch), Deliver(record)];
      && LegalRun(s, events) && ReducedDuring(s, events) == [record]
      && (Consecutive(NO_CURSOR, s.run + [record]) <==>
            if c == NO_CURSOR then record == Cursor(s.cursor.stream, s.cursor.cursor + 1) else c == s.cursor)
  {
    hide LegalRun, RunAll, ReducedDuring, SavedInv;
    var replay, receipt := SessionReplayed(CursorReplay, Restored(s, fromLaunch), fromLaunch), Deliver(record);
    RunTwo(s, replay, receipt);
    ReducedByTwo(s, replay, receipt);
    ReplayRestores(s, fromLaunch, record);
    SameConsecutive(s);
    OneMoreConsecutive(s.run, record);
  }

  lemma SameConsecutive(s: System)
    requires RunInv(s)
    ensures Consecutive(NO_CURSOR, s.run) && (s.run != [] ==> s.cursor == s.run[|s.run| - 1])
  {
  }

  lemma ReplayRestores(s: System, fromLaunch: bool, record: Cursor)
    requires KnownInv(s) && TakenNext(Restored(s, fromLaunch), record)
    ensures
      var t := ReplayStep(s, CursorReplay, Restored(s, fromLaunch), fromLaunch);
      && t.alive == s.alive && t.phase == s.phase && t.mode == CursorReplay && t.cursor == Restored(s, fromLaunch)
      && AssessDurableTerminalEvent(t, record) == Accept
  {
  }

  lemma ReducedByTwo(s: System, a: Event, b: Event)
    ensures ReducedDuring(s, [a, b]) == ReducedBy(s, a) + ReducedBy(Next(s, a), b)
  {
    hide Next, ReducedBy;
    assert [a, b][1..] == [b] && [b][1..] == [];
    assert ReducedDuring(Next(s, a), [b]) == ReducedBy(Next(s, a), b) + [];
  }

  /** Position 50 on disk; receipt 51 is reduced, saved and acknowledged, and only then the session replayed. */
  function TwiceEvents(): seq<Event> {
    [Deliver(Cursor("S", 51)), Save(true), SendAck, SessionReplayed(CursorReplay, Cursor("S", 50), true), Deliver(Cursor("S", 51))]
  }

  /** Receipt 51 comes again after the replay, which went back to the launch snapshot, and is reduced again. */
  lemma ReceiptReducedTwice()
    ensures
      var s := Initial(Cursor("S", 50), true);
      && LegalRun(s, TwiceEvents()) && BringsNoSnapshot(s, TwiceEvents()) && AllLand(s, TwiceEvents())
      && ReducedDuring(s, TwiceEvents()) == [Cursor("S", 51), Cursor("S", 51)]
      && !AllFollow(s, [], TwiceEvents())
  {
    hide AllFollow, Consecutive;
    InitialInv(Cursor("S", 50), true);
    ConsecutiveIffAllFollow(Initial(Cursor("S", 50), true), [], TwiceEvents());
    TwiceIsNotConsecutive(Cursor("S", 51));
  }

  lemma TwiceIsNotConsecutive(c: Cursor)
    ensures Consecutive(NO_CURSOR, []) && !Consecutive(NO_CURSOR, [] + [c, c])
  {
    assert ([] + [c, c])[1] == c;
  }

  /**
   No restart, no legacy or snapshot recovery.  A replayed session may ask for any cursor -- one that
   is not restored stops the client -- but does not take a client that has reduced receipts elsewhere.
   */
  predicate Ordinary(s: System, e: Event) {
    && s.mode != LegacySnapshot
    && (e.SessionReplayed? ==>
          && e.mode == CursorReplay
          && (e.recovery == Restored(s, e.fromLaunch) && s.run != [] ==> e.recovery == s.cursor))
    && (e.RecoveryDone? ==> e.done == ReplayComplete)
    && !e.Restart?
  }

  predicate OrdinaryRun(s: System, events: seq<Event>)
    decreases |events|
  {
    events == [] || (Enabled(s, events[0]) && Ordinary(s, events[0]) && OrdinaryRun(Next(s, events[0]), events[1..]))
  }

  /** An ordinary step adds what it reduces to the run, or ends the process. */
  predicate AddsToRun(s: System, e: Event) {
    Next(s, e).run == s.run + ReducedBy(s, e) || (!Next(s, e).alive && ReducedBy(s, e) == [])
  }

  lemma OrdinaryDeliver(s: System, record: Cursor)
    requires RunInv(s) && s.mode != LegacySnapshot
    ensures AddsToRun(s, Deliver(record))
  {
    if s.run != [] { assert s.run[|s.run| - 1] in s.run; }
    assert s.run + [] == s.run;
  }

  lemma OrdinaryReplay(s: System, recovery: Cursor, fromLaunch: bool)
    requires recovery == Restored(s, fromLaunch) && s.run != [] ==> recovery == s.cursor
    ensures AddsToRun(s, SessionReplayed(CursorReplay, recovery, fromLaunch))
  {
    hide AssessDurableTerminalEvent;
    assert s.run + [] == s.run;
  }

  lemma OrdinaryStep(s: System, e: Event)
    requires RunInv(s) && Enabled(s, e) && Ordinary(s, e)
    ensures AddsToRun(s, e)
  {
    hide RunInv, AssessDurableTerminalEvent, Accepted;
    assert s.run + [] == s.run;
    match e
    case Deliver(record) => OrdinaryDeliver(s, record);
    case SessionReplayed(_, recovery, fromLaunch) => OrdinaryReplay(s, recovery, fromLaunch);
    case _ =>
  }

  lemma RunIsConsecutive(s: System)
    requires Inv(s)
    ensures RunInv(s) && Consecutive(s.base, s.run) && Consecutive(NO_CURSOR, s.run)
  {
    SameConsecutive(s);
  }

  lemma DeadRunsNoFurther(s: System, events: seq<Event>)
    requires OrdinaryRun(s, events) && !s.alive
    ensures events == []
  {
  }

  /**
   In one ordinary lifetime the receipts are reduced in consecutive order: none skipped, none twice.
   */
  lemma {:induction false} LifetimeIsConsecutive(s: System, events: seq<Event>)
    requires Inv(s) && OrdinaryRun(s, events)
    ensures LegalRun(s, events)
    ensures Consecutive(NO_CURSOR, s.run + ReducedDuring(s, events))
    ensures RunAll(s, events).alive ==>
      && RunAll(s, events).run == s.run + ReducedDuring(s, events)
      && Consecutive(RunAll(s, events).base, s.run + ReducedDuring(s, events))
    decreases |events|
  {
    hide Inv, Next, Enabled, Ordinary, ReducedBy, Consecutive;
    RunIsConsecutive(s);
    if events == [] {
      assert s.run + [] == s.run;
    } else {
      var next := Next(s, events[0]);
      StepKeepsInv(s, events[0]);
      OrdinaryStep(s, events[0]);
      if !next.alive { DeadRunsNoFurther(next, events[1..]); }
      LifetimeIsConsecutive(next, events[1..]);
      assert (s.run + ReducedBy(s, events[0])) + ReducedDuring(next, events[1..]) == s.run + ReducedDuring(s, events);
      if !next.alive { assert s.run + [] + [] == s.run; }
    }
  }

  // ---------------------------------------------------------------- replay from the server's log

  /** The receipts `from + 1` up to `end` of a stream, each saved and acknowledged. */
  function ReplayEvents(stream: string, from: int, end: int): seq<Event>
    decreases end - from
  {
    if end <= from then []
    else ReplayEvents(stream, from, end - 1) + [Deliver(Cursor(stream, end)), Save(true), SendAck]
  }

  function Range(stream: string, from: int, end: int): seq<Cursor>
    decreases end - from
  {
    if end <= from then [] else Range(stream, from, end - 1) + [Cursor(stream, end)]
  }

  function RangeSet(stream: string, from: int, end: int): set<Cursor> {
    set c | c in Range(stream, from, end)
  }

  lemma {:induction false} RangeHas(stream: string, from: int, end: int, c: Cursor)
    ensures c in Range(stream, from, end) <==> c.stream == stream && from < c.cursor <= end
    decreases end - from
  {
    if end > from { RangeHas(stream, from, end - 1, c); }
  }

  /** One receipt in order: reduced, on disk, acknowledged. */
  lemma ReceiptInOrder(s: System)
    requires s.alive && s.phase == Idle && s.mode != LegacySnapshot && s.cursor.stream != "" && s.cursor.cursor >= 1
    ensures
      var record := Cursor(s.cursor.stream, s.cursor.cursor + 1);
      var events := [Deliver(record), Save(true), SendAck];
      LegalRun(s, events)
      && RunAll(s, events)
      == s.(cursor := record, store := record, disk := record, reduced := s.reduced + {record},
            saved := s.saved + {record}, run := s.run + [record],
            acks := if s.negotiated then s.acks + [record] else s.acks)
  {
    hide RunAll, LegalRun;
    var record := Cursor(s.cursor.stream, s.cursor.cursor + 1);
    RunThree(s, Deliver(record), Save(true), SendAck);
    assert AssessDurableTerminalEvent(s, record) == Accept;
  }

  /** From `s` to `t` the client has taken in the log up to `end`. */
  ghost predicate CaughtUp(s: System, t: System, end: int) {
    && Inv(t) && t.alive && t.phase == Idle && t.mode == s.mode && t.negotiated == s.negotiated
    && t.cursor == Cursor(s.cursor.stream, end) && t.launch == s.launch && t.vouched == s.vouched
    && (if end == s.cursor.cursor then t.store == s.store && t.disk == s.disk else t.store == t.disk == t.cursor)
    && t.reduced == s.reduced + RangeSet(s.cursor.stream, s.cursor.cursor, end)
    && t.run == s.run + Range(s.cursor.stream, s.cursor.cursor, end)
    && (s.negotiated ==> t.acks == s.acks + Range(s.cursor.stream, s.cursor.cursor, end))
  }

  /** One more receipt of the log. */
  lemma CaughtUpStep(s: System, u: System, end: int)
    requires CaughtUp(s, u, end - 1) && s.mode != LegacySnapshot && s.cursor.stream != "" && 1 <= s.cursor.cursor < end
    ensures
      var last := [Deliver(Cursor(s.cursor.stream, end)), Save(true), SendAck];
      LegalRun(u, last) && CaughtUp(s, RunAll(u, last), end)
  {
    hide LegalRun, RunAll, Next, Enabled, RunInv, SavedInv, ReplayEvents;
    var c := s.cursor;
    var last := [Deliver(Cursor(c.stream, end)), Save(true), SendAck];
    ReceiptInOrder(u);
    RunKeepsInv(u, last);
    var so, more := Range(c.stream, c.cursor, end - 1), [Cursor(c.stream, end)];
    assert (s.run + so) + more == s.run + (so + more);
    assert (s.acks + so) + more == s.acks + (so + more);
  }

  lemma CaughtUpStart(s: System)
    requires Inv(s) && s.alive && s.phase == Idle
    ensures CaughtUp(s, s, s.cursor.cursor)
  {
    hide RunInv, SavedInv;
    assert s.run + [] == s.run && s.acks + [] == s.acks;
  }

  /**
   A server that replays its log after the resume cursor brings the client to the end of the log:
   each missing receipt is reduced once, in order, and acknowledged.
   */
  lemma {:induction false} ReplayCatchesUp(s: System, end: int)
    requires Inv(s) && s.alive && s.phase == Idle && s.mode != LegacySnapshot
    requires s.cursor.stream != "" && 1 <= s.cursor.cursor <= end
    ensures LegalRun(s, ReplayEvents(s.cursor.stream, s.cursor.cursor, end))
    ensures CaughtUp(s, RunAll(s, ReplayEvents(s.cursor.stream, s.cursor.cursor, end)), end)
    decreases end - s.cursor.cursor
  {
    hide LegalRun, RunAll, Inv, CaughtUp;
    var c := s.cursor;
    if end == c.cursor {
      EmptyRun(s);
      CaughtUpStart(s);
    } else {
      ReplayCatchesUp(s, end - 1);
      var before := ReplayEvents(c.stream, c.cursor, end - 1);
      CaughtUpStep(s, RunAll(s, before), end);
      var last := [Deliver(Cursor(c.stream, end)), Save(true), SendAck];
      RunConcat(s, before, last);
      assert ReplayEvents(c.stream, c.cursor, end) == before + last;
    }
  }

  lemma EmptyRun(s: System)
    ensures LegalRun(s, []) && RunAll(s, []) == s
  {
  }

  // ---------------------------------------------------------------- crash, restart, replay

  /**
   A client that keeps to its session: no snapshots, and after a start the session is replayed, from
   what is on disk, before anything else.  It may crash and start again at any step.
   */
  predicate Steady(s: System, e: Event) {
    && s.mode != LegacySnapshot
    && (s.cursor == NO_CURSOR ==> e.SessionReplayed? || e.RuntimeStatus? || e.Crash? || e.Restart?)
    && (e.SessionReplayed? ==> e.mode == CursorReplay && Restored(s, e.fromLaunch) == s.disk)
    && (e.RecoveryDone? ==> e.done == ReplayComplete)
  }

  predicate SteadyRun(s: System, events: seq<Event>)
    decreases |events|
  {
    events == [] || (Enabled(s, events[0]) && Steady(s, events[0]) && SteadyRun(Next(s, events[0]), events[1..]))
  }

  /** The cursor is the one on disk, or that of the one receipt that is reduced and not saved yet. */
  predicate CursorTracks(s: System) {
    && s.mode != LegacySnapshot && s.mode != GapSnapshot
    && (s.alive ==> s.store == s.disk)
    && (s.cursor == NO_CURSOR ==> s.alive ==> s.phase == Idle)
    && (s.cursor != NO_CURSOR ==>
          && s.cursor.stream == s.disk.stream
          && (s.cursor == s.disk || (s.cursor.cursor == s.disk.cursor + 1 && (s.phase.Saving? || !s.alive))))
  }

  /** Since `base`, every position on disk was reduced, and at most one after it. */
  ghost predicate Tracks(s: System, stream: string, base: int) {
    && s.disk.stream == stream != "" && 0 <= base <= s.disk.cursor && 1 <= s.disk.cursor
    && CursorTracks(s)
    && (forall c :: c in s.reduced && c.stream == stream ==> c.cursor <= s.disk.cursor + 1)
    && (forall k :: base < k <= s.disk.cursor ==> Cursor(stream, k) in s.reduced)
    && (s.cursor != NO_CURSOR && s.cursor != s.disk ==> s.cursor in s.reduced)
  }

  lemma DeliverTracks(s: System, record: Cursor)
    requires CursorTracks(s) && Enabled(s, Deliver(record)) && s.cursor != NO_CURSOR && WellFormed(s.cursor)
    ensures CursorTracks(DeliverStep(s, record)) && DeliverStep(s, record).disk == s.disk
    ensures
      var t := DeliverStep(s, record);
      if AssessDurableTerminalEvent(s, record) == Accept then
        t.reduced == s.reduced + {record} && t.cursor == record == Cursor(s.disk.stream, s.disk.cursor + 1)
      else t.reduced == s.reduced && t.cursor == s.disk
  {
  }

  lemma ReplayTracks(s: System, recovery: Cursor, fromLaunch: bool)
    requires CursorTracks(s) && Enabled(s, SessionReplayed(CursorReplay, recovery, fromLaunch))
    requires Restored(s, fromLaunch) == s.disk != NO_CURSOR
    ensures
      var t := ReplayStep(s, CursorReplay, recovery, fromLaunch);
      CursorTracks(t) && t.disk == t.cursor == s.disk && t.reduced == s.reduced
  {
  }

  lemma DoneTracks(s: System, sameSession: bool, latest: Cursor)
    requires CursorTracks(s) && Enabled(s, RecoveryDone(sameSession, ReplayComplete, latest)) && s.cursor != NO_CURSOR
    ensures
      var t := DoneStep(s, sameSession, ReplayComplete, latest);
      CursorTracks(t) && t.disk == t.cursor == s.disk && t.reduced == s.reduced
  {
  }

  lemma SaveTracks(s: System, succeeds: bool)
    requires CursorTracks(s) && Enabled(s, Save(succeeds)) && s.cursor != NO_CURSOR
    ensures
      var t := SaveStep(s, succeeds);
      CursorTracks(t) && t.reduced == s.reduced && t.cursor == s.cursor && t.disk == if succeeds then s.cursor else s.disk
  {
  }

  lemma OtherTracks(s: System, alsoSave: bool)
    requires CursorTracks(s)
    ensures s.alive && s.phase.Acking? ==> CursorTracks(AckStep(s)) && AckStep(s).disk == s.disk && AckStep(s).cursor == s.cursor
    ensures s.alive && s.phase == Idle && s.cursor != NO_CURSOR ==>
      CursorTracks(RememberStep(s, alsoSave)) && RememberStep(s, alsoSave).disk == s.disk && RememberStep(s, alsoSave).cursor == s.cursor
    ensures CursorTracks(RestartStep(s)) && CursorTracks(s.(alive := false)) && CursorTracks(s.(mode := NoRecovery))
  {
  }

  lemma StepTracks(s: System, e: Event, stream: string, base: int)
    requires Inv(s) && Tracks(s, stream, base) && Enabled(s, e) && Steady(s, e)
    ensures Tracks(Next(s, e), stream, base)
  {
    hide CursorTracks, DeliverStep, ReplayStep, DoneStep, SaveStep, RunInv, SavedInv, Known;
    match e
    case Deliver(record) => DeliverTracks(s, record);
    case SessionReplayed(mode, recovery, fromLaunch) => ReplayTracks(s, recovery, fromLaunch);
    case RecoveryDone(sameSession, done, latest) => DoneTracks(s, sameSession, latest);
    case Save(succeeds) =>
      SavingHasCursor(s);
      SaveTracks(s, succeeds);
    case Remember(alsoSave) => OtherTracks(s, alsoSave);
    case _ => OtherTracks(s, true);
  }

  lemma SavingHasCursor(s: System)
    requires CursorTracks(s) && s.alive && s.phase.Saving?
    ensures s.cursor != NO_CURSOR && s.cursor.stream == s.disk.stream
    ensures s.cursor == s.disk || s.cursor == Cursor(s.disk.stream, s.disk.cursor + 1)
  {
  }

  lemma {:induction false} SteadyRunTracks(s: System, events: seq<Event>, stream: string, base: int)
    requires Inv(s) && Tracks(s, stream, base) && SteadyRun(s, events)
    ensures LegalRun(s, events) && Inv(RunAll(s, events)) && Tracks(RunAll(s, events), stream, base)
    decreases |events|
  {
    hide Inv, Tracks, Next, Enabled, Steady;
    if events != [] {
      StepTracks(s, events[0], stream, base);
      StepKeepsInv(s, events[0]);
      SteadyRunTracks(Next(s, events[0]), events[1..], stream, base);
    }
  }

  /** The start of the next process: the session is replayed from the cursor on disk. */
  function StartEvents(s: System): seq<Event> {
    (if s.alive then [Crash] else []) + [Restart, SessionReplayed(CursorReplay, s.disk, false)]
  }

  function EndEvents(latest: Cursor): seq<Event> {
    [RecoveryDone(true, ReplayComplete, latest), SendAck]
  }

  lemma StartsFromDisk(s: System)
    requires Inv(s) && s.disk != NO_CURSOR
    ensures LegalRun(s, StartEvents(s))
    ensures RunAll(s, StartEvents(s))
         == s.(alive := true, cursor := s.disk, mode := CursorReplay, phase := Idle, store := s.disk, launch := s.disk,
               base := s.disk, run := [])
  {
    hide LegalRun, RunAll, Inv;
    var replay := SessionReplayed(CursorReplay, s.disk, false);
    if s.alive {
      assert StartEvents(s) == [Crash, Restart, replay];
      RunThree(s, Crash, Restart, replay);
    } else {
      assert StartEvents(s) == [Restart, replay];
      RunTwo(s, Restart, replay);
    }
  }

  lemma EndsIdle(s: System)
    requires s.alive && s.phase == Idle && s.cursor.stream != "" && s.cursor.cursor >= 1
    ensures LegalRun(s, EndEvents(s.cursor))
    ensures
      RunAll(s, EndEvents(s.cursor)) == s.(mode := NoRecovery, acks := if s.negotiated then s.acks + [s.cursor] else s.acks)
  {
    hide LegalRun, RunAll;
    RunTwo(s, RecoveryDone(true, ReplayComplete, s.cursor), SendAck);
  }

  /** How a session comes to have a cursor on disk: it has one from before, or takes in its first receipt. */
  function FirstEvents(disk: Cursor, stream: string): seq<Event> {
    if disk == NO_CURSOR then [Deliver(Cursor(stream, 1)), Save(true), SendAck] else []
  }

  /** From then on the client tracks the disk, from the cursor first found there on. */
  lemma FirstEventsTrack(disk: Cursor, negotiated: bool, stream: string)
    requires WellFormed(disk) && stream != "" && (disk == NO_CURSOR || disk.stream == stream)
    ensures
      var s := Initial(disk, negotiated);
      var t := RunAll(s, FirstEvents(disk, stream));
      LegalRun(s, FirstEvents(disk, stream)) && Inv(t) && Tracks(t, stream, disk.cursor)
  {
    hide LegalRun, RunAll, Inv;
    var s := Initial(disk, negotiated);
    InitialInv(disk, negotiated);
    if disk == NO_CURSOR {
      RunThree(s, Deliver(Cursor(stream, 1)), Save(true), SendAck);
      RunKeepsInv(s, FirstEvents(disk, stream));
    } else {
      EmptyRun(s);
    }
  }

  /** From the crash to the end of the replay. */
  function RecoveryEvents(s: System, end: int): seq<Event> {
    StartEvents(s) + (ReplayEvents(s.disk.stream, s.disk.cursor, end) + EndEvents(Cursor(s.disk.stream, end)))
  }

  /**
   Whenever a steady client crashes, the next process -- restart, session replay, the server's log
   from the cursor on disk, end of the replay -- brings it to the end of the log: saved, idle, every
   position since `base` reduced.  Of the replayed receipts only the first can have been reduced
   before, the one whose save the crash prevented.
   */
  lemma CrashThenReplay(s: System, events: seq<Event>, stream: string, base: int, end: int)
    requires Inv(s) && Tracks(s, stream, base) && SteadyRun(s, events) && RunAll(s, events).disk.cursor <= end
    ensures
      var crashed := RunAll(s, events);
      var t := RunAll(crashed, RecoveryEvents(crashed, end));
      && LegalRun(crashed, RecoveryEvents(crashed, end))
      && t.alive && t.phase == Idle && t.mode == NoRecovery && t.cursor == t.store == t.disk == Cursor(stream, end)
      && t.reduced == crashed.reduced + RangeSet(stream, crashed.disk.cursor, end)
      && (forall k :: base < k <= end ==> Cursor(stream, k) in t.reduced)
      && (forall k :: crashed.disk.cursor < k <= end && Cursor(stream, k) in crashed.reduced ==> k == crashed.disk.cursor + 1)
  {
    hide RunAll, LegalRun, SteadyRun, Inv, CursorTracks, ReplayEvents, StartEvents, EndEvents;
    SteadyRunTracks(s, events, stream, base);
    var crashed := RunAll(s, events);
    RecoveryRun(crashed, end);
    forall k | base < k <= end && k > crashed.disk.cursor ensures Cursor(stream, k) in RangeSet(stream, crashed.disk.cursor, end) {
      RangeHas(stream, crashed.disk.cursor, end, Cursor(stream, k));
    }
  }

  /**
   The same of a client from its start, with or without a cursor on disk: every position after the
   one first found there, or from 1 on, is reduced when the next process has caught up.
   */
  lemma StartCrashThenReplay(disk: Cursor, negotiated: bool, stream: string, events: seq<Event>, end: int)
    requires WellFormed(disk) && stream != "" && (disk == NO_CURSOR || disk.stream == stream)
    requires SteadyRun(RunAll(Initial(disk, negotiated), FirstEvents(disk, stream)), events)
    requires RunAll(Initial(disk, negotiated), FirstEvents(disk, stream) + events).disk.cursor <= end
    ensures
      var s, before := Initial(disk, negotiated), FirstEvents(disk, stream) + events;
      var crashed := RunAll(s, before);
      var t := RunAll(s, before + RecoveryEvents(crashed, end));
      && LegalRun(s, before + RecoveryEvents(crashed, end))
      && t.alive && t.phase == Idle && t.cursor == t.store == t.disk == Cursor(stream, end)
      && (forall k :: disk.cursor < k <= end ==> Cursor(stream, k) in t.reduced)
      && (forall k :: crashed.disk.cursor < k <= end && Cursor(stream, k) in crashed.reduced ==> k == crashed.disk.cursor + 1)
  {
    hide RunAll, LegalRun, SteadyRun, Inv, Tracks, FirstEvents, RecoveryEvents;
    var s, first := Initial(disk, negotiated), FirstEvents(disk, stream);
    FirstEventsTrack(disk, negotiated, stream);
    var t := RunAll(s, first);
    RunConcat(s, first, events);
    SteadyRunTracks(t, events, stream, disk.cursor);
    CrashThenReplay(t, events, stream, disk.cursor, end);
    RunConcat(s, first + events, RecoveryEvents(RunAll(t, events), end));
  }

  lemma RecoveryRun(s: System, end: int)
    requires Inv(s) && s.disk.stream != "" && 1 <= s.disk.cursor <= end
    ensures LegalRun(s, RecoveryEvents(s, end))
    ensures
      var t := RunAll(s, RecoveryEvents(s, end));
      && t.alive && t.phase == Idle && t.mode == NoRecovery && t.cursor == t.store == t.disk == Cursor(s.disk.stream, end)
      && t.reduced == s.reduced + RangeSet(s.disk.stream, s.disk.cursor, end)
  {
    hide RunAll, LegalRun, Inv, ReplayEvents, StartEvents, EndEvents;
    var replay, done := ReplayEvents(s.disk.stream, s.disk.cursor, end), EndEvents(Cursor(s.disk.stream, end));
    StartsFromDisk(s);
    RunKeepsInv(s, StartEvents(s));
    var started := RunAll(s, StartEvents(s));
    ReplayCatchesUp(started, end);
    var caught := RunAll(started, replay);
    EndsIdle(caught);
    RunConcat(started, replay, done);
    RunConcat(s, StartEvents(s), replay + done);
  }

  // ---------------------------------------------------------------- the handlers

  /** The client's handlers; `View` is the state machine they take through its steps. */
  class TerminalEventClient {
    var alive: bool
    var terminalEventCursor: Cursor
    var recoveryMode: RecoveryMode
    var negotiated: bool
    var storedCursor: Cursor
    var launchCursor: Cursor
    var diskCursor: Cursor

    ghost var phase: Phase
    ghost var log: System   // for the fields that only record what happened

    ghost function View(): System
      reads this
    {
      log.(alive := alive, cursor := terminalEventCursor, mode := recoveryMode, phase := phase, negotiated := negotiated,
           store := storedCursor, launch := launchCursor, disk := diskCursor)
    }

    /** Writes the snapshot; a failure is fatal. */
    method PersistTerminalEventCursor(succeeds: bool)
      requires Enabled(View(), Save(succeeds))
      modifies this
      ensures View() == Next(old(View()), Save(succeeds))
    {
      ghost var next := Next(View(), Save(succeeds));
      if succeeds {
        storedCursor := terminalEventCursor;
        diskCursor := terminalEventCursor;
      } else {
        alive := false;
      }
      log, phase := next, next.phase;
    }

    method AcknowledgeTerminalEvent(receipt: Cursor) returns (sent: Option<Cursor>)
      requires phase == Acking(receipt) && alive
      modifies this
      ensures View() == Next(old(View()), SendAck)
      ensures sent == if negotiated && receipt.cursor != 0 then Some(receipt) else None
    {
      ghost var next := Next(View(), SendAck);
      sent := if !negotiated || receipt.cursor == 0 then None else Some(receipt);
      log, phase := next, next.phase;
    }

    /** Reduces an accepted record and moves the cursor, never backwards within a stream. */
    method ReduceRecord(record: Cursor)
      requires Enabled(View(), Deliver(record)) && AssessDurableTerminalEvent(View(), record) == Accept
      modifies this
      ensures View() == Accepted(old(View()), record)
    {
      ghost var next := Accepted(View(), record);
      var sameStream := terminalEventCursor.stream == record.stream;
      terminalEventCursor :=
        if sameStream && terminalEventCursor.cursor > record.cursor then terminalEventCursor else record;
      log, phase := next, next.phase;
    }

    /** A last attempt to save, then the end of the process. */
    method HandleFatalError()
      modifies this
      ensures View() == Fatal(old(View()), true)
    {
      ghost var next := Fatal(View(), true);
      alive := false;
      diskCursor := terminalEventCursor;
      log := next;
    }

    /** A durable record from the bridge, from its assessment to its acknowledgement. */
    method ProcessDurableRecord(record: Cursor, saveSucceeds: bool) returns (sent: Option<Cursor>)
      requires Enabled(View(), Deliver(record))
      modifies this
      ensures View() == RunAll(old(View()), HandlerEvents(old(View()), record, saveSucceeds))
      ensures LegalRun(old(View()), HandlerEvents(old(View()), record, saveSucceeds))
    {
      hide RunAll, LegalRun, HandlerEvents, ReplayStep, DoneStep, RememberStep, RestartStep;
      ghost var s, next := View(), Next(View(), Deliver(record));
      HandlerSteps(s, record, saveSucceeds);
      sent := None;
      if recoveryMode != LegacySnapshot && terminalEventCursor.stream == record.stream && record.cursor <= terminalEventCursor.cursor {
        log, phase := next, next.phase;
        sent := AcknowledgeTerminalEvent(terminalEventCursor);
        return;
      }
      if recoveryMode != LegacySnapshot && terminalEventCursor.stream != ""
         && (terminalEventCursor.stream != record.stream || record.cursor != terminalEventCursor.cursor + 1) {
        HandleFatalError();
        return;
      }
      ReduceRecord(record);
      PersistTerminalEventCursor(saveSucceeds);
      if !alive { return; }
      sent := AcknowledgeTerminalEvent(terminalEventCursor);
    }

    /** The cursor is set by something other than the next receipt. */
    method MoveCursor(c: Cursor)
      modifies this
      ensures View() == Rebased(old(View()), c)
    {
      ghost var next := Rebased(View(), c);
      terminalEventCursor := c;
      log := next;
    }

    method SetRecoveryMode(mode: RecoveryMode, ghost next: Phase)
      modifies `recoveryMode, `phase
      ensures View() == old(View()).(mode := mode, phase := next)
    {
      recoveryMode := mode;
      phase := next;
    }

    /** A replayed session: its cursor is restored, and the recovery plan is applied to it. */
    method RestoreSession(mode: RecoveryMode, recovery: Cursor, fromLaunch: bool, saveSucceeds: bool)
      requires Enabled(View(), SessionReplayed(mode, recovery, fromLaunch))
      modifies this
      ensures View() == RunAll(old(View()), StartingEvents(mode, recovery, fromLaunch, saveSucceeds))
    {
      hide RunAll, StartingEvents, Rebased, Fatal;
      StartingSteps(View(), mode, recovery, fromLaunch, saveSucceeds);
      RebasedKeepsPhase(View(), if fromLaunch then launchCursor else storedCursor);
      MoveCursor(if fromLaunch then launchCursor else storedCursor);
      SetRecoveryMode(mode, phase);
      if mode == GapSnapshot {
        RebasedKeepsPhase(View(), NO_CURSOR);
        MoveCursor(NO_CURSOR);
        SetRecoveryMode(mode, Saving(None));
        PersistTerminalEventCursor(saveSucceeds);
      } else if mode == CursorReplay
                && (terminalEventCursor.stream != recovery.stream || terminalEventCursor.cursor != recovery.cursor) {
        HandleFatalError();
      }
    }

    /** The end of a replay: it must have arrived at the latest cursor, which is acknowledged. */
    method CompleteReplay(latest: Cursor) returns (sent: Option<Cursor>)
      requires alive && phase == Idle && WellFormed(terminalEventCursor)
      modifies this
      ensures
        var t := DoneStep(old(View()), true, ReplayComplete, latest);
        View() == if t.alive && latest.cursor > 0 then AckStep(t) else t
      ensures alive <==> latest.cursor <= 0 || old(terminalEventCursor) == latest
      ensures terminalEventCursor == old(terminalEventCursor) && negotiated == old(negotiated)
      ensures sent == if alive && negotiated && latest.cursor > 0 then Some(latest) else None
    {
      hide Fatal;
      FatalStops(View());
      sent := None;
      if latest.cursor > 0 && (terminalEventCursor.stream != latest.stream || terminalEventCursor.cursor != latest.cursor) {
        HandleFatalError();
        return;
      }
      SetRecoveryMode(NoRecovery, if latest.cursor > 0 then Acking(latest) else phase);
      if latest.stream != "" && latest.cursor > 0 {
        sent := AcknowledgeTerminalEvent(latest);
      }
    }

    /** The end of a snapshot recovery: its cursor is set, saved, and acknowledged if there is one. */
    method CompleteSnapshot(latest: Cursor, saveSucceeds: bool) returns (sent: Option<Cursor>)
      requires alive && phase == Idle
      modifies this
      ensures
        var saved := SaveStep(DoneStep(old(View()), true, SnapshotComplete, latest), saveSucceeds);
        View() == if saveSucceeds && latest.stream != "" && latest.cursor > 0 then AckStep(saved) else saved
      ensures alive == saveSucceeds && negotiated == old(negotiated)
      ensures terminalEventCursor == if latest.stream != "" && latest.cursor > 0 then latest else NO_CURSOR
      ensures sent == if alive && negotiated && latest.stream != "" && latest.cursor > 0 then Some(latest) else None
    {
      hide Rebased;
      sent := None;
      var c := if latest.stream != "" && latest.cursor > 0 then latest else NO_CURSOR;
      log := log.(vouched := log.vouched + {c});
      RebasedKeepsPhase(View(), c);
      MoveCursor(c);
      SetRecoveryMode(NoRecovery, Saving(if c == NO_CURSOR then None else Some(c)));
      PersistTerminalEventCursor(saveSucceeds);
      if alive && c != NO_CURSOR {
        sent := AcknowledgeTerminalEvent(latest);
      }
    }

    /** The end of a recovery, from its check to its acknowledgement. */
    method CompleteTerminalEventRecovery(sameSession: bool, done: Done, latest: Cursor, saveSucceeds: bool)
      returns (sent: Option<Cursor>)
      requires Enabled(View(), RecoveryDone(sameSession, done, latest)) && WellFormed(terminalEventCursor)
      modifies this
      ensures View() == RunAll(old(View()), EndingEvents(old(View()), sameSession, done, latest, saveSucceeds))
      ensures done == ReplayComplete ==> (alive <==> sameSession && (latest.cursor <= 0 || old(terminalEventCursor) == latest))
      ensures alive && latest.stream != "" && latest.cursor > 0 ==> terminalEventCursor == latest
      ensures sent == if alive && negotiated && latest.stream != "" && latest.cursor > 0 then Some(latest) else None
    {
      hide RunAll, EndingEvents, Rebased, Fatal, SaveStep, AckStep;
      EndingSteps(View(), sameSession, done, latest, saveSucceeds);
      FatalStops(View());
      sent := None;
      if !sameSession {
        HandleFatalError();
      } else if done == ReplayComplete {
        sent := CompleteReplay(latest);
      } else {
        SnapshotDoneLives(View(), latest);
        sent := CompleteSnapshot(latest, saveSucceeds);
      }
    }
  }

  lemma SnapshotDoneLives(s: System, latest: Cursor)
    ensures DoneStep(s, true, SnapshotComplete, latest).alive == s.alive
  {
  }

  lemma FatalStops(s: System)
    ensures !Fatal(s, true).alive && Fatal(s, true).cursor == s.cursor && Fatal(s, true).negotiated == s.negotiated
  {
  }

  /** The steps that a replayed session takes the client through. */
  function StartingEvents(mode: RecoveryMode, recovery: Cursor, fromLaunch: bool, saveSucceeds: bool): seq<Event> {
    var restore := SessionReplayed(mode, recovery, fromLaunch);
    if mode == GapSnapshot then [restore, Save(saveSucceeds)] else [restore]
  }

  lemma StartingSteps(s: System, mode: RecoveryMode, recovery: Cursor, fromLaunch: bool, saveSucceeds: bool)
    ensures
      var t := ReplayStep(s, mode, recovery, fromLaunch);
      RunAll(s, StartingEvents(mode, recovery, fromLaunch, saveSucceeds)) == if mode == GapSnapshot then SaveStep(t, saveSucceeds) else t
  {
    hide RunAll, SaveStep, ReplayStep;
    RunOne(s, SessionReplayed(mode, recovery, fromLaunch));
    RunTwo(s, SessionReplayed(mode, recovery, fromLaunch), Save(saveSucceeds));
  }

  /** The steps that the end of a recovery takes it through. */
  function EndingEvents(s: System, sameSession: bool, done: Done, latest: Cursor, saveSucceeds: bool): seq<Event> {
    var end := RecoveryDone(sameSession, done, latest);
    if !Next(s, end).alive then [end]
    else if done == ReplayComplete then if latest.cursor > 0 then [end, SendAck] else [end]
    else if saveSucceeds && latest.stream != "" && latest.cursor > 0 then [end, Save(true), SendAck]
    else [end, Save(saveSucceeds)]
  }

  /** Where those steps lead. */
  lemma EndingSteps(s: System, sameSession: bool, done: Done, latest: Cursor, saveSucceeds: bool)
    ensures
      var t := DoneStep(s, sameSession, done, latest);
      RunAll(s, EndingEvents(s, sameSession, done, latest, saveSucceeds))
      == if !t.alive then t
         else if done == ReplayComplete then if latest.cursor > 0 then AckStep(t) else t
         else if saveSucceeds && latest.stream != "" && latest.cursor > 0 then AckStep(SaveStep(t, true))
         else SaveStep(t, saveSucceeds)
  {
    hide RunAll, AckStep, SaveStep, DoneStep;
    var end := RecoveryDone(sameSession, done, latest);
    RunOne(s, end);
    RunTwo(s, end, SendAck);
    RunTwo(s, end, Save(saveSucceeds));
    RunThree(s, end, Save(true), SendAck);
  }

  /** The steps that one durable record takes the client through. */
  function HandlerEvents(s: System, record: Cursor, saveSucceeds: bool): seq<Event> {
    match AssessDurableTerminalEvent(s, record)
    case Duplicate => [Deliver(record), SendAck]
    case Gap(_) => [Deliver(record)]
    case Accept => if saveSucceeds then [Deliver(record), Save(true), SendAck] else [Deliver(record), Save(false)]
  }

  /** Those steps are possible, and where they lead. */
  lemma HandlerSteps(s: System, record: Cursor, saveSucceeds: bool)
    requires Enabled(s, Deliver(record))
    ensures LegalRun(s, HandlerEvents(s, record, saveSucceeds))
    ensures
      RunAll(s, HandlerEvents(s, record, saveSucceeds))
      == match AssessDurableTerminalEvent(s, record)
         case Duplicate => AckStep(DeliverStep(s, record))
         case Gap(_) => DeliverStep(s, record)
         case Accept =>
           if saveSucceeds then AckStep(SaveStep(Accepted(s, record), true)) else SaveStep(Accepted(s, record), false)
  {
    hide RunAll, LegalRun, AckStep, AssessDurableTerminalEvent;
    RunOne(s, Deliver(record));
    RunTwo(s, Deliver(record), SendAck);
    RunTwo(s, Deliver(record), Save(false));
    RunThree(s, Deliver(record), Save(true), SendAck);
  }
}
