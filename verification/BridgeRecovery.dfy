/**
 The reconnect tracker of the terminal client (frontend/terminal-ui/src/bridge-recovery.js), and how
 the client uses it (frontend/terminal-ui/src/index.js).
 */
module BridgeRecoveries {
  import opened Sequences
  import opened Strings

  const DEFAULT_MAX_ATTEMPTS := 3
  const DEFAULT_DELAYS_MS: seq<int> := [0, 250, 750]

  datatype Tracker = Tracker(
    incident: int, active: bool, settling: bool, sessionId: string, attempt: int, resumeRequestId: string)

  const INITIAL := Tracker(0, false, false, "", 0, "")

  datatype Event = Begin(sessionId: string) | NextAttempt | MarkResume(requestId: string) | Complete | Settle | Abort

  predicate Allowed(maximum: int, t: Tracker) {
    t.active && t.attempt < maximum
  }

  function Step(maximum: int, t: Tracker, e: Event): Tracker {
    match e
    case Begin(sessionId) =>
      if t.active then t
      else
        t.(incident := if t.settling then t.incident else t.incident + 1, attempt := if t.settling then t.attempt else 0,
           active := true, settling := false, sessionId := Trim(sessionId), resumeRequestId := "")
    case NextAttempt => if Allowed(maximum, t) then t.(attempt := t.attempt + 1, resumeRequestId := "") else t
    case MarkResume(requestId) => if t.active then t.(resumeRequestId := Trim(requestId)) else t
    case Complete => t.(active := false, settling := true, resumeRequestId := "")
    case _ => t.(active := false, settling := false, sessionId := "", attempt := 0, resumeRequestId := "")
  }

  predicate MatchesResume(t: Tracker, requestId: string) {
    t.active && t.resumeRequestId != "" && requestId == t.resumeRequestId
  }

  function RunAll(maximum: int, t: Tracker, events: seq<Event>): Tracker
    decreases |events|
  {
    if events == [] then t else RunAll(maximum, Step(maximum, t, events[0]), events[1..])
  }

  datatype Pair = Pair(incident: int, attempt: int) {
    predicate Before(other: Pair) {
      incident < other.incident || (incident == other.incident && attempt < other.attempt)
    }
  }

  /** The attempts that a run allows. */
  function Issued(maximum: int, t: Tracker, events: seq<Event>): seq<Pair>
    decreases |events|
  {
    if events == [] then []
    else
      (if events[0] == NextAttempt && Allowed(maximum, t) then [Pair(t.incident, t.attempt + 1)] else [])
      + Issued(maximum, Step(maximum, t, events[0]), events[1..])
  }

  lemma {:induction false} RunConcat(maximum: int, t: Tracker, a: seq<Event>, b: seq<Event>)
    ensures RunAll(maximum, t, a + b) == RunAll(maximum, RunAll(maximum, t, a), b)
    ensures Issued(maximum, t, a + b) == Issued(maximum, t, a) + Issued(maximum, RunAll(maximum, t, a), b)
    decreases |a|
  {
    hide Step, Allowed;
    if a == [] {
      assert a + b == b;
    } else {
      HeadOfAppend(a, b);
      RunConcat(maximum, Step(maximum, t, a[0]), a[1..], b);
      AppendAssoc(if a[0] == NextAttempt && Allowed(maximum, t) then [Pair(t.incident, t.attempt + 1)] else [],
        Issued(maximum, Step(maximum, t, a[0]), a[1..]), Issued(maximum, RunAll(maximum, t, a), b));
    }
  }

  // ---------------------------------------------------------------- how often it retries

  predicate Counted(maximum: int, t: Tracker) {
    0 <= t.attempt <= maximum && (!t.active && !t.settling ==> t.attempt == 0)
  }

  predicate Settles(e: Event) {
    e.Settle? || e.Abort?
  }

  /**
   Between two settle or abort calls at most `maximum` attempts are allowed, however often
   connections complete and fail again: the attempt counter counts exactly those.
   */
  lemma {:induction false} AttemptsAreBounded(maximum: int, t: Tracker, events: seq<Event>)
    requires maximum >= 1 && Counted(maximum, t)
    ensures Counted(maximum, RunAll(maximum, t, events))
    ensures (forall e :: e in events ==> !Settles(e)) ==>
      |Issued(maximum, t, events)| == RunAll(maximum, t, events).attempt - t.attempt <= maximum
    decreases |events|
  {
    hide Trim;
    if events != [] {
      AttemptsAreBounded(maximum, Step(maximum, t, events[0]), events[1..]);
      assert events[0] in events && forall e :: e in events[1..] ==> e in events;
    }
  }

  /**
   A recovery belongs to the session it began with, named without the white space around it, until it
   is settled or aborted, which also forgets its attempts; it awaits a reply only after the request
   for that attempt, and none once it has completed.
   */
  lemma SessionOfRecovery(maximum: int, t: Tracker, before: string, session: string, after: string, e: Event)
    requires Blank(before, IsSpace) && Blank(after, IsSpace) && Tight(session, IsSpace) && !t.active
    ensures
      var begun := Step(maximum, t, Begin(before + session + after));
      && begun.active && !begun.settling && begun.sessionId == session && begun.resumeRequestId == ""
      && Step(maximum, begun, Complete) == begun.(active := false, settling := true)
      && Step(maximum, begun, Begin(after)) == begun
      && begun.incident == (if t.settling then t.incident else t.incident + 1)
      && begun.attempt == (if t.settling then t.attempt else 0)
    ensures Step(maximum, t, e).sessionId == t.sessionId || e.Begin? || (Settles(e) && Step(maximum, t, e).sessionId == "")
    ensures e.MarkResume? || e.NextAttempt? ==> Step(maximum, t, e) == t
    ensures Settles(e) ==> Step(maximum, t, e) == Tracker(t.incident, false, false, "", 0, "")
    ensures !e.MarkResume? && !e.Begin? ==> Step(maximum, t, e).resumeRequestId in {"", t.resumeRequestId}
    ensures e.Complete? || (e.NextAttempt? && Allowed(maximum, t)) ==> Step(maximum, t, e).resumeRequestId == ""
  {
    hide Strip;
    StripTight(before, session, after, IsSpace);
  }

  // ---------------------------------------------------------------- attempts never repeat

  /** No later attempt comes before this one, unless a tracker that is at rest is completed. */
  function Floor(t: Tracker): Pair {
    if t.active || t.settling then Pair(t.incident, t.attempt) else Pair(t.incident + 1, 0)
  }

  /** A recovery is completed only while it is active, or again while it settles. */
  predicate Guarded(t: Tracker, e: Event) {
    e.Complete? ==> t.active || t.settling
  }

  predicate GuardedRun(maximum: int, t: Tracker, events: seq<Event>)
    decreases |events|
  {
    events == [] || (Guarded(t, events[0]) && GuardedRun(maximum, Step(maximum, t, events[0]), events[1..]))
  }

  lemma StepRaisesFloor(maximum: int, t: Tracker, e: Event)
    requires Counted(maximum, t) && Guarded(t, e)
    ensures !Floor(Step(maximum, t, e)).Before(Floor(t))
    ensures e == NextAttempt && Allowed(maximum, t) ==>
      Floor(t).Before(Pair(t.incident, t.attempt + 1)) && Floor(Step(maximum, t, e)) == Pair(t.incident, t.attempt + 1)
  {
  }

  predicate Increasing(pairs: seq<Pair>) {
    forall i, j :: 0 <= i < j < |pairs| ==> pairs[i].Before(pairs[j])
  }

  /** In every guarded run the attempts increase strictly, so none repeats, even across incidents. */
  lemma {:induction false} AttemptsIncrease(maximum: int, t: Tracker, events: seq<Event>)
    requires maximum >= 1 && Counted(maximum, t) && GuardedRun(maximum, t, events)
    ensures Increasing(Issued(maximum, t, events))
    ensures forall p :: p in Issued(maximum, t, events) ==>
      Floor(t).Before(p) && !Floor(RunAll(maximum, t, events)).Before(p)
    ensures !Floor(RunAll(maximum, t, events)).Before(Floor(t))
    decreases |events|
  {
    hide Step, Floor, Counted, Guarded;
    if events != [] {
      StepRaisesFloor(maximum, t, events[0]);
      StepIsCounted(maximum, t, events[0]);
      AttemptsIncrease(maximum, Step(maximum, t, events[0]), events[1..]);
    }
  }

  lemma StepIsCounted(maximum: int, t: Tracker, e: Event)
    requires maximum >= 1 && Counted(maximum, t)
    ensures Counted(maximum, Step(maximum, t, e))
  {
  }

  /** The step at which the order can break: completing a tracker at rest lowers the floor, nothing else does. */
  lemma CompleteKeepsOrder(maximum: int, t: Tracker)
    requires maximum >= 1 && Counted(maximum, t)
    ensures !Floor(Step(maximum, t, Complete)).Before(Floor(t)) <==> Guarded(t, Complete)
  {
  }

  /** Completing at rest does no harm either while the incident has issued no attempt. */
  predicate Safe(t: Tracker, e: Event, issued: seq<Pair>) {
    e.Complete? ==> t.active || t.settling || forall p :: p in issued ==> p.incident != t.incident
  }

  function IssuedBy(maximum: int, t: Tracker, e: Event): seq<Pair> {
    if e == NextAttempt && Allowed(maximum, t) then [Pair(t.incident, t.attempt + 1)] else []
  }

  predicate SafeRun(maximum: int, t: Tracker, issued: seq<Pair>, events: seq<Event>)
    decreases |events|
  {
    events == []
    || (Safe(t, events[0], issued)
        && SafeRun(maximum, Step(maximum, t, events[0]), issued + IssuedBy(maximum, t, events[0]), events[1..]))
  }

  /** The floor is at or after everything issued; an incident that issued anything issued its attempt 1. */
  predicate Ahead(t: Tracker, issued: seq<Pair>) {
    && (forall p :: p in issued ==> p.attempt >= 1 && !Floor(t).Before(p) && Pair(p.incident, 1) in issued)
    && ((t.active || t.settling) && t.attempt >= 1 ==> Pair(t.incident, 1) in issued)
  }

  lemma StepStaysAhead(maximum: int, t: Tracker, issued: seq<Pair>, e: Event)
    requires maximum >= 1 && Counted(maximum, t) && Ahead(t, issued) && Increasing(issued) && Safe(t, e, issued)
    ensures Ahead(Step(maximum, t, e), issued + IssuedBy(maximum, t, e)) && Increasing(issued + IssuedBy(maximum, t, e))
  {
    hide Trim;
    var more := IssuedBy(maximum, t, e);
    assert more == [] ==> issued + more == issued;
    if more != [] {
      forall i | 0 <= i < |issued| ensures issued[i].Before(more[0]) {
        var p := issued[i];
        assert p in issued && !Floor(t).Before(p);
      }
    }
  }

  /** As long as every completion is safe, no attempt is ever issued twice: they increase strictly. */
  lemma {:induction false} AttemptsNeverRepeat(maximum: int, t: Tracker, issued: seq<Pair>, events: seq<Event>)
    requires maximum >= 1 && Counted(maximum, t) && Ahead(t, issued) && Increasing(issued)
    requires SafeRun(maximum, t, issued, events)
    ensures Increasing(issued + Issued(maximum, t, events))
    ensures Ahead(RunAll(maximum, t, events), issued + Issued(maximum, t, events)) && Counted(maximum, RunAll(maximum, t, events))
    decreases |events|
  {
    hide Step, Ahead, Increasing, Counted, Safe;
    if events == [] {
      EmptyAppend(issued);
    } else {
      var e, more := events[0], IssuedBy(maximum, t, events[0]);
      StepStaysAhead(maximum, t, issued, e);
      StepIsCounted(maximum, t, e);
      AttemptsNeverRepeat(maximum, Step(maximum, t, e), issued + more, events[1..]);
      AppendAssoc(issued, more, Issued(maximum, Step(maximum, t, e), events[1..]));
    }
  }

  function CompleteThenAttempt(sessionId: string): seq<Event> {
    [Complete, Begin(sessionId), NextAttempt]
  }

  /**
   The condition is exact: after any such run, completing and then failing again issues an attempt a
   second time if and only if that completion is not safe -- at rest, in an incident that has
   issued an attempt.
   */
  lemma CompleteRepeatsIffUnsafe(maximum: int, events: seq<Event>, sessionId: string)
    requires maximum >= 1 && SafeRun(maximum, INITIAL, [], events)
    ensures
      var t, issued := RunAll(maximum, INITIAL, events), Issued(maximum, INITIAL, events);
      (exists p :: p in issued && p in Issued(maximum, t, CompleteThenAttempt(sessionId))) <==> !Safe(t, Complete, issued)
  {
    hide SafeRun, RunAll, Issued, Trim;
    AttemptsNeverRepeat(maximum, INITIAL, [], events);
    var t, issued := RunAll(maximum, INITIAL, events), Issued(maximum, INITIAL, events);
    EmptyAppend(issued);
    IssuedThen(maximum, t, sessionId);
    if !Safe(t, Complete, issued) {
      var p :| p in issued && p.incident == t.incident;
      assert Pair(t.incident, 1) in issued;
    }
  }

  lemma IssuedThen(maximum: int, t: Tracker, sessionId: string)
    requires maximum >= 1 && Counted(maximum, t)
    ensures
      Issued(maximum, t, CompleteThenAttempt(sessionId))
      == if t.active || t.settling then (if t.attempt < maximum then [Pair(t.incident, t.attempt + 1)] else [])
         else [Pair(t.incident, 1)]
  {
    hide Trim;
    var events := CompleteThenAttempt(sessionId);
    var t1 := Step(maximum, t, Complete);
    var t2 := Step(maximum, t1, Begin(sessionId));
    var t3 := Step(maximum, t2, NextAttempt);
    assert events[1..] == [Begin(sessionId), NextAttempt] && events[1..][1..] == [NextAttempt] && [NextAttempt][1..] == [];
    assert Issued(maximum, t3, []) == [];
    assert Issued(maximum, t2, [NextAttempt]) == IssuedBy(maximum, t2, NextAttempt) + [];
    assert Issued(maximum, t1, events[1..]) == [] + Issued(maximum, t2, [NextAttempt]);
    assert Issued(maximum, t, events) == [] + Issued(maximum, t1, events[1..]);
  }

  /** The first incident, settled and then completed again without the guard: attempt (1, 1) twice. */
  lemma UnguardedRunRepeats()
    ensures
      var events := [Begin("s"), NextAttempt, Complete, Settle];
      Issued(3, INITIAL, events) == [Pair(1, 1)]
      && Issued(3, INITIAL, events + [Complete, Begin("s"), NextAttempt]) == [Pair(1, 1), Pair(1, 1)]
  {
    hide Trim;
    var events := [Begin("s"), NextAttempt, Complete, Settle];
    var t := INITIAL;
    var t1 := Step(3, t, Begin("s"));
    var t2 := Step(3, t1, NextAttempt);
    var t3 := Step(3, t2, Complete);
    var t4 := Step(3, t3, Settle);
    var r1 := events[1..];
    var r2 := r1[1..];
    var r3 := r2[1..];
    assert r3 == [Settle] && r3[1..] == [];
    assert Issued(3, t4, []) == [] && RunAll(3, t4, []) == t4;
    assert Issued(3, t3, r3) == [] && RunAll(3, t3, r3) == t4;
    assert Issued(3, t2, r2) == [] && RunAll(3, t2, r2) == t4;
    assert Issued(3, t1, r1) == [Pair(1, 1)] + Issued(3, t2, r2) == [Pair(1, 1)] && RunAll(3, t1, r1) == t4;
    assert Issued(3, t, events) == [] + Issued(3, t1, r1) == [Pair(1, 1)] && RunAll(3, t, events) == t4;
    RunConcat(3, t, events, [Complete, Begin("s"), NextAttempt]);
    IssuedThen(3, t4, "s");
    assert CompleteThenAttempt("s") == [Complete, Begin("s"), NextAttempt];
  }

  // ---------------------------------------------------------------- late replies

  const REQUEST_PREFIX := "bridge-recovery-"

  /** The id under which the client asks for a session to be resumed. */
  function RequestId(p: Pair): string
    requires p.incident >= 0 && p.attempt >= 0
  {
    REQUEST_PREFIX + Decimal(p.incident) + "-" + Decimal(p.attempt)
  }

  lemma RequestIdInjective(p: Pair, q: Pair)
    requires p.incident >= 0 && p.attempt >= 0 && q.incident >= 0 && q.attempt >= 0
    requires RequestId(p) == RequestId(q)
    ensures p == q
  {
    var n := |REQUEST_PREFIX|;
    var a, b := Decimal(p.incident), Decimal(q.incident);
    assert RequestId(p)[n..] == a + "-" + Decimal(p.attempt);
    assert RequestId(q)[n..] == b + "-" + Decimal(q.attempt);
    DashSplits(a, Decimal(p.attempt), b, Decimal(q.attempt));
    DecimalInjective(p.incident, q.incident);
    DecimalInjective(p.attempt, q.attempt);
  }

  /** A request id, to the letter. */
  lemma TwelfthIncidentThirdAttempt()
    ensures RequestId(Pair(12, 3)) == "bridge-recovery-12-3"
  {
    assert Decimal(12) == "1" + "2" && Decimal(3) == "3";
    assert "bridge-recovery-" + ("1" + "2") == "bridge-recovery-12";
  }

  lemma FirstDash(a: string, x: string)
    requires '-' !in a
    ensures IndexOf(a + "-" + x, '-') == |a|
  {
    var s := a + "-" + x;
    var r := IndexOf(s, '-');
    assert s[|a|] == '-' && s[..|a|] == a;
    assert forall k :: 0 <= k < r ==> s[k] in s[..r];
  }

  lemma DashSplits(a: string, x: string, b: string, y: string)
    requires '-' !in a && '-' !in b && a + "-" + x == b + "-" + y
    ensures a == b && x == y
  {
    var s, t := a + "-" + x, b + "-" + y;
    FirstDash(a, x);
    FirstDash(b, y);
    assert s[..|a|] == a && t[..|b|] == b;
    assert s[|a| + 1..] == x && t[|b| + 1..] == y;
  }

  lemma RequestIdIsTrimmed(p: Pair)
    requires p.incident >= 0 && p.attempt >= 0
    ensures Trim(RequestId(p)) == RequestId(p) != ""
  {
    var id, d := RequestId(p), Decimal(p.attempt);
    assert id[0] == 'b' && id[|id| - 1] == d[|d| - 1] && d[|d| - 1] in d;
    TrimUnchanged(id);
  }

  /** What the client does to the tracker. */
  predicate ByClient(t: Tracker, e: Event) {
    && (e.Complete? ==> t.active)
    && (e.MarkResume? ==> t.active && t.incident >= 0 && t.attempt >= 0 && e.requestId == RequestId(Pair(t.incident, t.attempt)))
  }

  predicate ClientRun(maximum: int, t: Tracker, events: seq<Event>)
    decreases |events|
  {
    events == [] || (ByClient(t, events[0]) && ClientRun(maximum, Step(maximum, t, events[0]), events[1..]))
  }

  /** The awaited request, if any, is the current attempt's. */
  predicate AwaitsCurrent(t: Tracker) {
    && t.incident >= 0 && t.attempt >= 0
    && (t.resumeRequestId == "" || (t.active && t.resumeRequestId == RequestId(Pair(t.incident, t.attempt))))
  }

  lemma StepAwaitsCurrent(maximum: int, t: Tracker, e: Event)
    requires AwaitsCurrent(t) && ByClient(t, e)
    ensures AwaitsCurrent(Step(maximum, t, e))
  {
    hide Trim, RequestId;
    if e.MarkResume? { RequestIdIsTrimmed(Pair(t.incident, t.attempt)); }
  }

  lemma {:induction false} ClientRunAwaitsCurrent(maximum: int, t: Tracker, events: seq<Event>)
    requires maximum >= 1 && Counted(maximum, t) && AwaitsCurrent(t) && ClientRun(maximum, t, events)
    ensures GuardedRun(maximum, t, events) && AwaitsCurrent(RunAll(maximum, t, events))
    ensures Counted(maximum, RunAll(maximum, t, events))
    decreases |events|
  {
    hide Step, AwaitsCurrent, Counted;
    if events != [] {
      StepAwaitsCurrent(maximum, t, events[0]);
      StepIsCounted(maximum, t, events[0]);
      ClientRunAwaitsCurrent(maximum, Step(maximum, t, events[0]), events[1..]);
    }
  }

  lemma {:induction false} ClientRunConcat(maximum: int, t: Tracker, a: seq<Event>, b: seq<Event>)
    ensures ClientRun(maximum, t, a + b) <==> ClientRun(maximum, t, a) && ClientRun(maximum, RunAll(maximum, t, a), b)
    decreases |a|
  {
    hide Step, ByClient;
    if a == [] {
      assert a + b == b;
    } else {
      ClientRunConcat(maximum, Step(maximum, t, a[0]), a[1..], b);
      assert (a + b)[0] == a[0] && (a + b)[1..] == a[1..] + b;
    }
  }

  /**
   Once a later attempt has been allowed, the reply to an earlier attempt's resume request never
   matches again; a request just marked does match.
   */
  lemma LateReplyNeverMatches(maximum: int, before: seq<Event>, after: seq<Event>)
    requires maximum >= 1 && ClientRun(maximum, INITIAL, before + after)
    requires RunAll(maximum, INITIAL, before).active
    ensures
      var sent := RunAll(maximum, INITIAL, before);
      && sent.incident >= 0 && sent.attempt >= 0
      && MatchesResume(Step(maximum, sent, MarkResume(RequestId(Pair(sent.incident, sent.attempt)))),
                       RequestId(Pair(sent.incident, sent.attempt)))
      && (Issued(maximum, sent, after) != [] ==>
            !MatchesResume(RunAll(maximum, INITIAL, before + after), RequestId(Pair(sent.incident, sent.attempt))))
  {
    hide RequestId, ClientRun, GuardedRun, Issued, RunAll;
    var sent := RunAll(maximum, INITIAL, before);
    RunConcat(maximum, INITIAL, before, after);
    ClientRunConcat(maximum, INITIAL, before, after);
    ClientRunAwaitsCurrent(maximum, INITIAL, before);
    ClientRunAwaitsCurrent(maximum, sent, after);
    RequestIdIsTrimmed(Pair(sent.incident, sent.attempt));
    AttemptsIncrease(maximum, sent, after);
    var last := RunAll(maximum, sent, after);
    if Issued(maximum, sent, after) != [] && MatchesResume(last, RequestId(Pair(sent.incident, sent.attempt))) {
      var p := Issued(maximum, sent, after)[0];
      assert p in Issued(maximum, sent, after);
      RequestIdInjective(Pair(last.incident, last.attempt), Pair(sent.incident, sent.attempt));
      assert false;
    }
  }

  // ---------------------------------------------------------------- the tracker

  datatype AttemptResult = NotBegun | Exhausted | Attempt(pair: Pair, delayMs: int)

  class BridgeRecoveryTracker {
    const maximum: int
    const delays: seq<int>
    var state: Tracker

    constructor (maxAttempts: int := DEFAULT_MAX_ATTEMPTS, delaysMs: seq<int> := DEFAULT_DELAYS_MS)
      requires 1 <= maxAttempts <= 10 && delaysMs != []
      ensures maximum == maxAttempts && delays == delaysMs && state == INITIAL
    {
      maximum, delays, state := maxAttempts, delaysMs, INITIAL;
    }

    method BeginRecovery(nextSessionId: string)
      modifies this
      ensures state == Step(maximum, old(state), Begin(nextSessionId))
    {
      if !state.active {
        if !state.settling {
          state := state.(incident := state.incident + 1, attempt := 0);
        }
        state := state.(active := true, settling := false, sessionId := Trim(nextSessionId), resumeRequestId := "");
      }
    }

    /** `NotBegun` stands for the exception. */
    method TakeAttempt() returns (r: AttemptResult)
      requires delays != [] && state.attempt >= 0
      modifies this
      ensures state == Step(maximum, old(state), NextAttempt)
      ensures r.NotBegun? <==> !old(state).active
      ensures r.Exhausted? <==> old(state).active && !Allowed(maximum, old(state))
      ensures r.Attempt? ==>
        r.pair == Pair(state.incident, state.attempt)
        && r.delayMs == if state.attempt <= |delays| then delays[state.attempt - 1] else delays[|delays| - 1]
    {
      if !state.active { return NotBegun; }
      if state.attempt >= maximum { return Exhausted; }
      state := state.(attempt := state.attempt + 1, resumeRequestId := "");
      var index := if state.attempt - 1 < |delays| - 1 then state.attempt - 1 else |delays| - 1;
      r := Attempt(Pair(state.incident, state.attempt), delays[index]);
    }

    /** Fails on an inactive tracker, and on a blank id, which it has stored by then. */
    method MarkResumeRequest(requestId: string) returns (ok: bool)
      modifies this
      ensures state == Step(maximum, old(state), MarkResume(requestId))
      ensures ok <==> old(state).active && Trim(requestId) != ""
    {
      if !state.active { return false; }
      state := state.(resumeRequestId := Trim(requestId));
      ok := state.resumeRequestId != "";
    }

    method CompleteRecovery()
      modifies this
      ensures state == Step(maximum, old(state), Complete)
    {
      state := state.(active := false, settling := true, resumeRequestId := "");
    }

    /** Settling and aborting do the same to the tracker. */
    method SettleRecovery()
      modifies this
      ensures state == Step(maximum, old(state), Settle) == Step(maximum, old(state), Abort)
    {
      state := state.(active := false, settling := false, sessionId := "", attempt := 0, resumeRequestId := "");
    }
  }
}
