/**
 What may happen to a timeline between two lookups, seen from outside: the messages, what an index
 kept beside them would be reused for, and the render log's length (frontend/terminal-ui/src/state.js,
 frontend/terminal-ui/src/timeline-row-index.js:5-24).
 */
module TimelineEdits {
  import opened Wrappers
  import opened RenderCaches

  /** Edits of the timeline, and the lookups themselves. */
  datatype Edit =
    | Append(message: Message)
    | Truncate(count: nat)
    | Replace(items: seq<Message>)
    | Splice(items: seq<Message>)
    | View(view: string)
    | Mark(message: Message, id: string, face: string)
    | Quiet(message: Message, face: string)
    | Ensure(width: nat)

  /** An index over the current array: its messages, its width, and whether the log still names what it missed. */
  datatype Held = Held(messages: seq<Message>, width: nat, reached: bool)

  /** `held` is the index, if there is one over this array that no clear has outdated. */
  datatype Snapshot = Snapshot(items: seq<Message>, held: Option<Held>, logged: nat)

  function Edited(edits: seq<Edit>): set<Message> {
    set e | e in edits && (e.Mark? || e.Quiet?) :: e.message
  }

  // ---------------------------------------------------------------- what edits do

  /** A lookup at this width reuses the index. */
  predicate Reuses(s: Snapshot, width: nat) {
    s.held.Some? && s.held.value.width == width && s.held.value.reached && |s.items| >= |s.held.value.messages|
  }

  /** A clear outdates every index and is recorded. */
  function Cleared(s: Snapshot, items: seq<Message>): Snapshot {
    Snapshot(items, None, LoggedCount(s.logged))
  }

  /** What an index has after a lookup: a reused one keeps the messages it had, and takes in the later ones. */
  function LookedUp(s: Snapshot, width: nat): Held {
    Held(if Reuses(s, width) then s.held.value.messages + s.items[|s.held.value.messages|..] else s.items, width, true)
  }

  /** Edits that no caller makes -- a message joins twice, a cut beyond the end -- are left out. */
  predicate Possible(s: Snapshot, edit: Edit) {
    match edit
    case Append(message) => message !in s.items
    case Truncate(count) => count <= |s.items|
    case Replace(items) => Distinct(items)
    case Splice(items) => Distinct(items)
    case _ => true
  }

  function After(s: Snapshot, edit: Edit): Snapshot {
    if !Possible(s, edit) then s
    else
      match edit
      case Append(message) => s.(items := s.items + [message])
      case Truncate(count) => s.(items := s.items[..count])
      case Replace(items) => s.(items := items, held := None)
      case Splice(items) => Cleared(s, items)
      case View(_) => Cleared(s, s.items)
      case Mark(_, _, _) => Marked(s)
      case Quiet(_, _) => s
      case Ensure(width) => s.(held := Some(LookedUp(s, width)))
  }

  /** One more record; one too many, and the log no longer names what the index missed. */
  function Marked(s: Snapshot): Snapshot {
    var held :=
      if s.held.Some? then Some(s.held.value.(reached := s.held.value.reached && s.logged < MAX_RENDER_MUTATIONS)) else None;
    Snapshot(s.items, held, LoggedCount(s.logged))
  }

  function AfterAll(s: Snapshot, edits: seq<Edit>): Snapshot
    decreases |edits|
  {
    if edits == [] then s else After(AfterAll(s, edits[..|edits| - 1]), edits[|edits| - 1])
  }

  function ViewAfter(view: string, edits: seq<Edit>): string
    decreases |edits|
  {
    if edits == [] then view
    else if edits[|edits| - 1].View? then edits[|edits| - 1].view
    else ViewAfter(view, edits[..|edits| - 1])
  }

  /** A message's id and, unless an edit that needs no mark may have changed it, its face. */
  datatype Text = Text(id: string, face: Option<string>)

  function TextAfterOne(message: Message, text: Text, edit: Edit): Text {
    match edit
    case Mark(m, id, face) => if m == message then Text(id, Some(face)) else text
    case Quiet(m, face) => if m == message && text.face != Some(face) then Text(text.id, None) else text
    case _ => text
  }

  function TextAfter(message: Message, text: Text, edits: seq<Edit>): Text
    decreases |edits|
  {
    if edits == [] then text
    else TextAfterOne(message, TextAfter(message, text, edits[..|edits| - 1]), edits[|edits| - 1])
  }

  lemma EditedOne(edits: seq<Edit>, i: nat)
    requires i < |edits|
    ensures Edited([edits[i]]) <= Edited(edits)
  {
    assert forall e :: e in [edits[i]] ==> e in edits;
  }

  lemma AfterOneMore(s: Snapshot, view: string, edits: seq<Edit>, edit: Edit)
    ensures AfterAll(s, edits + [edit]) == After(AfterAll(s, edits), edit)
    ensures ViewAfter(view, edits + [edit]) == if edit.View? then edit.view else ViewAfter(view, edits)
  {
    assert (edits + [edit])[..|edits|] == edits;
  }

  lemma TextAfterOneMore(message: Message, text: Text, edits: seq<Edit>, edit: Edit)
    ensures TextAfter(message, text, edits + [edit]) == TextAfterOne(message, TextAfter(message, text, edits), edit)
  {
    assert (edits + [edit])[..|edits|] == edits;
  }

  // ---------------------------------------------------------------- when a lookup is exact

  /** A lookup at this width builds the index anew, or reuses one of the array's first messages. */
  predicate Safe(s: Snapshot, width: nat) {
    Reuses(s, width) ==> s.held.value.messages <= s.items
  }

  /** An index that is not too long for the array has its first messages. */
  predicate KeptIn(s: Snapshot) {
    s.held.Some? && |s.items| >= |s.held.value.messages| ==> s.held.value.messages <= s.items
  }

  /** The index, if any, has the array's first messages. */
  predicate InOrder(s: Snapshot) {
    s.held.Some? ==> s.held.value.messages <= s.items
  }

  /** A message that joins does not bring the array back to the indexed length with other messages. */
  predicate Fits(s: Snapshot, edit: Edit) {
    edit.Append? && edit.message !in s.items && s.held.Some? && |s.items| + 1 == |s.held.value.messages| ==>
      s.held.value.messages == s.items + [edit.message]
  }

  predicate AllFit(s: Snapshot, edits: seq<Edit>)
    decreases |edits|
  {
    edits == [] || (AllFit(s, edits[..|edits| - 1]) && Fits(AfterAll(s, edits[..|edits| - 1]), edits[|edits| - 1]))
  }

  predicate KeptThroughout(s: Snapshot, edits: seq<Edit>)
    decreases |edits|
  {
    KeptIn(AfterAll(s, edits)) && (edits == [] || KeptThroughout(s, edits[..|edits| - 1]))
  }

  lemma InOrderIsSafe(s: Snapshot, width: nat)
    requires InOrder(s)
    ensures Safe(s, width)
  {
  }

  lemma FitKeeps(s: Snapshot, edit: Edit)
    requires KeptIn(s)
    ensures KeptIn(After(s, edit)) <==> Fits(s, edit)
  {
    match edit
    case Append(message) =>
      if s.held.Some? && |s.items| + 1 == |s.held.value.messages| {
        assert s.held.value.messages <= s.items + [message] <==> s.held.value.messages == s.items + [message];
      }
    case Truncate(count) =>
      if s.held.Some? && |s.held.value.messages| <= count <= |s.items| {
        assert s.held.value.messages <= s.items[..count];
      }
    case _ =>
  }

  /** The index stays fit for reuse throughout a run if and only if every message that joins fits. */
  lemma {:induction false} KeptIffAllFit(s: Snapshot, edits: seq<Edit>)
    requires KeptIn(s)
    ensures KeptThroughout(s, edits) <==> AllFit(s, edits)
    decreases |edits|
  {
    hide KeptIn, Fits, After;
    if edits != [] {
      var before, last := edits[..|edits| - 1], edits[|edits| - 1];
      KeptIffAllFit(s, before);
      if KeptThroughout(s, before) { FitKeeps(AfterAll(s, before), last); }
    }
  }

  /** Then every lookup, at the end or on the way, is safe. */
  lemma FittingRunIsSafe(s: Snapshot, edits: seq<Edit>, width: nat)
    requires KeptIn(s) && AllFit(s, edits)
    ensures KeptIn(AfterAll(s, edits)) && Safe(AfterAll(s, edits), width)
  {
    hide AfterAll, AllFit;
    KeptIffAllFit(s, edits);
  }

  /** A run that never cuts the array: appends, edits, clears, other widths, overflows of the log. */
  lemma {:induction false} UncutRunIsInOrder(s: Snapshot, edits: seq<Edit>)
    requires InOrder(s) && forall e :: e in edits ==> !e.Truncate?
    ensures InOrder(AfterAll(s, edits))
    decreases |edits|
  {
    if edits != [] {
      var last := edits[|edits| - 1];
      assert last in edits;
      UncutRunIsInOrder(s, edits[..|edits| - 1]);
    }
  }
}
