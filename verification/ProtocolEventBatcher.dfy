/**
 Streamed deltas are merged for a few milliseconds before the interface sees them
 (frontend/terminal-ui/src/protocol-event-batcher.js).
 */
module ProtocolEventBatchers {
  import opened Wrappers

  const DEFAULT_MAX_CONTENT_CHARS := 65536
  const DEFAULT_MAX_EVENTS := 2048

  /** `content` is `None` when it is not a string; `fields` are the payload's other fields. */
  datatype Payload = Payload(kind: string, phase: string, content: Option<string>, fields: map<string, string>)

  /** `payload` is `None` when it is not an object; `fields` are the record's other fields. */
  datatype Record = Record(
    kind: string, id: Option<string>, sequence: Option<int>, requestId: Option<string>, fields: map<string, string>, payload: Option<Payload>)

  predicate IsCoalescibleStreamDelta(record: Record) {
    && record.kind == "ui/message"
    && record.payload.Some?
    && var payload := record.payload.value;
       ((payload.kind == "assistant_stream" && payload.phase == "token") || (payload.kind == "thinking" && payload.phase == "delta"))
       && payload.content.Some?
  }

  function Content(record: Record): string {
    if record.payload.Some? && record.payload.value.content.Some? then record.payload.value.content.value else ""
  }

  function RequestOf(record: Record): string {
    if record.requestId.Some? then record.requestId.value else ""
  }

  predicate SameStreamDelta(left: Record, right: Record) {
    && left.payload.Some? && right.payload.Some?
    && left.kind == right.kind
    && left.payload.value.kind == right.payload.value.kind
    && left.payload.value.phase == right.payload.value.phase
    && RequestOf(left) == RequestOf(right)
  }

  function Latest<T>(earlier: Option<T>, later: Option<T>): Option<T> {
    if later == None then earlier else later
  }

  function MergeRecord(pending: Record, latest: Record): Record
    requires pending.payload.Some? && latest.payload.Some?
  {
    pending.(
      id := Latest(pending.id, latest.id),
      sequence := Latest(pending.sequence, latest.sequence),
      requestId := Latest(pending.requestId, latest.requestId),
      payload := Some(Payload(
        latest.payload.value.kind, latest.payload.value.phase,
        Some(Content(pending) + Content(latest)),
        pending.payload.value.fields + latest.payload.value.fields)))
  }

  // ---------------------------------------------------------------- the batcher's steps

  datatype Limits = Limits(maximum: int, maximumEvents: int) {
    predicate Valid() { maximum >= 1 && maximumEvents >= 1 }
  }

  /** `delivered` lists what the callback received. */
  datatype Batch = Batch(pending: Option<Record>, pendingCount: int, timerArmed: bool, delivered: seq<Record>)

  const EMPTY_BATCH := Batch(None, 0, false, [])

  datatype Event = Push(record: Record) | Flush | TimerFires | Cancel

  predicate Enabled(b: Batch, e: Event) {
    e.TimerFires? ==> b.timerArmed
  }

  function Flushed(b: Batch): Batch {
    Batch(None, 0, false, if b.pending.Some? then b.delivered + [b.pending.value] else b.delivered)
  }

  /** The record goes straight through, after whatever was pending. */
  predicate Bypasses(limits: Limits, record: Record) {
    !IsCoalescibleStreamDelta(record) || |Content(record)| > limits.maximum
  }

  predicate Joins(limits: Limits, b: Batch, record: Record) {
    && !Bypasses(limits, record)
    && b.pending.Some?
    && b.pendingCount < limits.maximumEvents
    && SameStreamDelta(b.pending.value, record)
    && |Content(b.pending.value)| + |Content(record)| <= limits.maximum
  }

  function Step(limits: Limits, b: Batch, e: Event): Batch {
    match e
    case Push(record) =>
      if Bypasses(limits, record) then Flushed(b).(delivered := Flushed(b).delivered + [record])
      else if Joins(limits, b, record) then
        b.(pending := Some(MergeRecord(b.pending.value, record)), pendingCount := b.pendingCount + 1, timerArmed := true)
      else Batch(Some(record), 1, true, Flushed(b).delivered)
    case Cancel => Batch(None, 0, false, b.delivered)
    case _ => Flushed(b)
  }

  function RunAll(limits: Limits, b: Batch, events: seq<Event>): Batch
    decreases |events|
  {
    if events == [] then b else RunAll(limits, Step(limits, b, events[0]), events[1..])
  }

  predicate LegalRun(limits: Limits, b: Batch, events: seq<Event>)
    decreases |events|
  {
    events == [] || (Enabled(b, events[0]) && LegalRun(limits, Step(limits, b, events[0]), events[1..]))
  }

  /** The records pushed; a cancel drops those still pending. */
  function Pushed(limits: Limits, b: Batch, before: seq<Record>, events: seq<Event>): seq<Record>
    decreases |events|
  {
    if events == [] then before else
      Pushed(limits, Step(limits, b, events[0]), AfterEvent(b, before, events[0]), events[1..])
  }

  function AfterEvent(b: Batch, before: seq<Record>, e: Event): seq<Record> {
    match e
    case Push(record) => before + [record]
    case Cancel => if 0 <= b.pendingCount <= |before| then before[..|before| - b.pendingCount] else before
    case _ => before
  }

  // ---------------------------------------------------------------- groups

  /** A group of records merged into one. */
  function Merged(group: seq<Record>): Record
    requires group != []
    decreases |group|
  {
    if |group| == 1 then group[0]
    else
      var earlier := Merged(group[..|group| - 1]);
      var latest := group[|group| - 1];
      if earlier.payload.Some? && latest.payload.Some? then MergeRecord(earlier, latest) else latest
  }

  function ContentLength(group: seq<Record>): int
    decreases |group|
  {
    if group == [] then 0 else ContentLength(group[..|group| - 1]) + |Content(group[|group| - 1])|
  }

  /** Consecutive deltas of one stream, within the limits. */
  predicate StreamGroup(limits: Limits, group: seq<Record>) {
    && 1 <= |group| <= limits.maximumEvents
    && (forall r :: r in group ==> IsCoalescibleStreamDelta(r))
    && (forall r :: r in group ==> SameStreamDelta(group[0], r))
    && ContentLength(group) <= limits.maximum
  }

  predicate Group(limits: Limits, group: seq<Record>) {
    |group| == 1 || StreamGroup(limits, group)
  }

  function Flatten(groups: seq<seq<Record>>): seq<Record>
    decreases |groups|
  {
    if groups == [] then [] else Flatten(groups[..|groups| - 1]) + groups[|groups| - 1]
  }

  /** The pushed records are cut into groups; all but the last, open one are delivered, each merged. */
  predicate Cut(limits: Limits, b: Batch, pushed: seq<Record>, groups: seq<seq<Record>>, open: seq<Record>) {
    && pushed == Flatten(groups) + open
    && (forall g :: g in groups ==> Group(limits, g))
    && |b.delivered| == |groups|
    && (forall i :: 0 <= i < |groups| ==> groups[i] != [] && b.delivered[i] == Merged(groups[i]))
    && b.pendingCount == |open|
    && (b.pending.Some? <==> open != [])
    && (open != [] ==> StreamGroup(limits, open) && b.pending == Some(Merged(open)))
    && b.timerArmed == (open != [])
  }

  ghost predicate Batched(limits: Limits, b: Batch, pushed: seq<Record>) {
    exists groups, open :: Cut(limits, b, pushed, groups, open)
  }

  /** What merging a stream group keeps: its stream, and all its content in order. */
  lemma {:induction false} MergedIsOneDelta(limits: Limits, group: seq<Record>)
    requires StreamGroup(limits, group)
    ensures IsCoalescibleStreamDelta(Merged(group)) && SameStreamDelta(group[0], Merged(group))
    ensures |Content(Merged(group))| == ContentLength(group)
    decreases |group|
  {
    var earlier, latest := group[..|group| - 1], group[|group| - 1];
    if |group| == 1 {
      assert earlier == [];
    } else {
      ContentLengthShrinks(group);
      MergedIsOneDelta(limits, earlier);
      assert SameStreamDelta(group[0], latest);
    }
  }

  lemma ContentLengthShrinks(group: seq<Record>)
    requires group != []
    ensures ContentLength(group[..|group| - 1]) <= ContentLength(group)
  {
  }

  function AllContent(group: seq<Record>): string
    decreases |group|
  {
    if group == [] then "" else AllContent(group[..|group| - 1]) + Content(group[|group| - 1])
  }

  /** No character is lost or moved. */
  lemma {:induction false} MergedContent(limits: Limits, group: seq<Record>)
    requires StreamGroup(limits, group)
    ensures Content(Merged(group)) == AllContent(group)
    decreases |group|
  {
    var earlier := group[..|group| - 1];
    if |group| == 1 {
      assert earlier == [] && "" + Content(group[0]) == Content(group[0]);
    } else {
      ContentLengthShrinks(group);
      MergedIsOneDelta(limits, earlier);
      MergedContent(limits, earlier);
      assert SameStreamDelta(group[0], group[|group| - 1]);
    }
  }

  /** The last record of a group that names an id, a sequence number or a request decides the merged one's. */
  lemma {:induction false} MergedIsLatest(limits: Limits, group: seq<Record>, i: int)
    requires StreamGroup(limits, group) && 0 <= i < |group|
    ensures group[i].id != None && (forall j :: i < j < |group| ==> group[j].id == None) ==> Merged(group).id == group[i].id
    ensures group[i].sequence != None && (forall j :: i < j < |group| ==> group[j].sequence == None) ==> Merged(group).sequence == group[i].sequence
    ensures group[i].requestId != None && (forall j :: i < j < |group| ==> group[j].requestId == None) ==>
      Merged(group).requestId == group[i].requestId
    decreases |group|
  {
    var earlier, latest := group[..|group| - 1], group[|group| - 1];
    if |group| > 1 {
      ContentLengthShrinks(group);
      MergedIsOneDelta(limits, earlier);
      assert SameStreamDelta(group[0], latest);
      if i < |group| - 1 { MergedIsLatest(limits, earlier, i); }
    }
  }

  /** A message whose payload is a string of the assistant's answer, or of its thinking. */
  predicate IsAnswerOrThinking(r: Record) {
    && r.kind == "ui/message" && r.payload.Some? && r.payload.value.content.Some?
    && (r.payload.value.kind, r.payload.value.phase) in {("assistant_stream", "token"), ("thinking", "delta")}
  }

  predicate NamesNoRequest(r: Record) {
    r.requestId == None || r.requestId == Some("")
  }

  /** Two records name the same payload kind, phase and request, or both no request. */
  predicate SameFields(a: Record, b: Record) {
    && a.payload.Some? && b.payload.Some?
    && a.payload.value.kind == b.payload.value.kind && a.payload.value.phase == b.payload.value.phase
    && (a.requestId == b.requestId || (NamesNoRequest(a) && NamesNoRequest(b)))
  }

  lemma StreamByFields(a: Record, b: Record)
    ensures IsCoalescibleStreamDelta(a) <==> IsAnswerOrThinking(a)
    ensures IsAnswerOrThinking(a) && IsAnswerOrThinking(b) ==> (SameStreamDelta(a, b) <==> SameFields(a, b))
    ensures SameFields(a, b) ==> SameFields(b, a)
  {
  }

  lemma FieldsTransitive(a: Record, b: Record, c: Record)
    requires SameFields(a, b) && SameFields(a, c)
    ensures SameFields(b, c)
  {
  }

  predicate AllAnswersOrThinking(group: seq<Record>) {
    forall r :: r in group ==> IsAnswerOrThinking(r)
  }

  /** Every two of them name the same payload kind, phase and request. */
  predicate AllSameFields(group: seq<Record>) {
    forall a, b :: a in group && b in group ==> SameFields(a, b)
  }

  /** What can be in one group: pieces of one answer, or of one thinking, within the limits -- and that is what they merge to. */
  lemma GroupIsOneStream(limits: Limits, group: seq<Record>)
    requires group != []
    ensures StreamGroup(limits, group) <==>
      && |group| <= limits.maximumEvents && |AllContent(group)| <= limits.maximum
      && AllAnswersOrThinking(group) && AllSameFields(group)
    ensures StreamGroup(limits, group) ==> IsAnswerOrThinking(Merged(group)) && forall r :: r in group ==> SameFields(r, Merged(group))
  {
    hide Merged, AllContent, ContentLength, IsCoalescibleStreamDelta, SameStreamDelta, IsAnswerOrThinking, SameFields;
    AllContentLength(group);
    forall r | r in group
      ensures IsCoalescibleStreamDelta(r) <==> IsAnswerOrThinking(r)
      ensures IsAnswerOrThinking(group[0]) && IsAnswerOrThinking(r) ==> (SameStreamDelta(group[0], r) <==> SameFields(group[0], r))
    {
      StreamByFields(r, group[0]);
      StreamByFields(group[0], r);
    }
    if StreamGroup(limits, group) {
      forall a, b | a in group && b in group ensures SameFields(a, b) { FieldsTransitive(group[0], a, b); }
      MergedIsOneDelta(limits, group);
      StreamByFields(Merged(group), group[0]);
      StreamByFields(group[0], Merged(group));
      forall r | r in group ensures SameFields(r, Merged(group)) { FieldsTransitive(group[0], r, Merged(group)); }
    }
  }

  lemma {:induction false} AllContentLength(group: seq<Record>)
    ensures |AllContent(group)| == ContentLength(group)
    decreases |group|
  {
    if group != [] { AllContentLength(group[..|group| - 1]); }
  }

  /**
   What one record does to a pending one, by their fields: it goes straight through, joins the pending
   one while there is room, or sends that on and takes its place.
   */
  lemma PushByFields(limits: Limits, b: Batch, record: Record)
    requires b.pending.Some? ==> IsAnswerOrThinking(b.pending.value)
    ensures
      var t := Step(limits, b, Push(record));
      var sent := if b.pending.Some? then b.delivered + [b.pending.value] else b.delivered;
      if !IsAnswerOrThinking(record) || |record.payload.value.content.value| > limits.maximum then
        t == Batch(None, 0, false, sent + [record])
      else if b.pending.Some? && SameFields(b.pending.value, record) && b.pendingCount < limits.maximumEvents
              && |b.pending.value.payload.value.content.value + record.payload.value.content.value| <= limits.maximum then
        && t.delivered == b.delivered && t.pendingCount == b.pendingCount + 1 && t.timerArmed
        && t.pending.Some? && t.pending.value.payload.Some?
        && t.pending.value.payload.value.content
           == Some(b.pending.value.payload.value.content.value + record.payload.value.content.value)
      else t == Batch(Some(record), 1, true, sent)
  {
  }

  function PayloadFields(r: Record): map<string, string> {
    if r.payload.Some? then r.payload.value.fields else map[]
  }

  lemma MergedStep(limits: Limits, group: seq<Record>)
    requires StreamGroup(limits, group) && |group| > 1
    ensures
      var earlier := group[..|group| - 1];
      && StreamGroup(limits, earlier) && earlier[0] == group[0] && Merged(group).fields == Merged(earlier).fields
      && PayloadFields(Merged(group)) == PayloadFields(Merged(earlier)) + PayloadFields(group[|group| - 1])
  {
    var earlier := group[..|group| - 1];
    ContentLengthShrinks(group);
    MergedIsOneDelta(limits, earlier);
    assert SameStreamDelta(group[0], group[|group| - 1]);
  }

  /**
   The other fields of a merged group: those of the record are the first one's; those of the payload
   are all that any record's payload has, each as the last one that has it says.
   */
  lemma {:induction false} MergedFields(limits: Limits, group: seq<Record>, key: string)
    requires StreamGroup(limits, group)
    ensures Merged(group).fields == group[0].fields
    ensures key in PayloadFields(Merged(group)) <==> HasKey(group, key)
    ensures forall i :: 0 <= i < |group| && LastWith(group, i, key) ==>
      PayloadFields(Merged(group))[key] == PayloadFields(group[i])[key]
    decreases |group|
  {
    assert group != [];
    hide StreamGroup, PayloadFields;
    if |group| == 1 {
      assert Merged(group) == group[0];
    } else {
      hide LastWith, HasKey;
      MergedStep(limits, group);
      MergedFields(limits, group[..|group| - 1], key);
      hide Merged;
      KeyOfOneMore(group[..|group| - 1], group[|group| - 1], key);
      assert group == group[..|group| - 1] + [group[|group| - 1]];
    }
  }

  lemma KeyOfOneMore(earlier: seq<Record>, latest: Record, key: string)
    ensures
      var group := earlier + [latest];
      && (HasKey(group, key) <==> HasKey(earlier, key) || key in PayloadFields(latest))
      && forall i :: 0 <= i < |group| && LastWith(group, i, key) ==>
           if i < |earlier| then LastWith(earlier, i, key) && key !in PayloadFields(latest) else group[i] == latest
  {
    hide PayloadFields;
    var group := earlier + [latest];
    assert group[|earlier|] == latest && forall i :: 0 <= i < |earlier| ==> group[i] == earlier[i];
  }

  predicate HasKey(group: seq<Record>, key: string) {
    exists i :: 0 <= i < |group| && key in PayloadFields(group[i])
  }

  predicate LastWith(group: seq<Record>, i: nat, key: string)
    requires i < |group|
  {
    key in PayloadFields(group[i]) && forall j :: i < j < |group| ==> key !in PayloadFields(group[j])
  }

  lemma AppendGroup(groups: seq<seq<Record>>, group: seq<Record>)
    ensures Flatten(groups + [group]) == Flatten(groups) + group
  {
    assert (groups + [group])[..|groups|] == groups;
  }

  /** Delivering the open group closes it. */
  lemma FlushCloses(limits: Limits, b: Batch, pushed: seq<Record>, groups: seq<seq<Record>>, open: seq<Record>)
    requires Cut(limits, b, pushed, groups, open)
    ensures Cut(limits, Flushed(b), pushed, if open == [] then groups else groups + [open], [])
  {
    hide StreamGroup, Merged;
    AppendGroup(groups, open);
    if open == [] { assert Flatten(groups) + [] == Flatten(groups); }
    else { assert Flatten(groups + [open]) + [] == Flatten(groups + [open]); }
  }

  /** One more delta in the open group. */
  lemma JoinGrowsOpen(limits: Limits, b: Batch, pushed: seq<Record>, groups: seq<seq<Record>>, open: seq<Record>, record: Record)
    requires Cut(limits, b, pushed, groups, open) && Joins(limits, b, record)
    ensures Cut(limits, Step(limits, b, Push(record)), pushed + [record], groups, open + [record])
  {
    MergedIsOneDelta(limits, open);
    var wider := open + [record];
    assert wider[..|wider| - 1] == open && wider[0] == open[0];
    assert StreamGroup(limits, wider);
    assert pushed + [record] == Flatten(groups) + wider;
  }

  lemma MergedOne(record: Record)
    ensures Merged([record]) == record
  {
  }

  lemma SingletonGroup(limits: Limits, record: Record)
    requires limits.Valid() && !Bypasses(limits, record)
    ensures StreamGroup(limits, [record])
  {
    assert [record][..0] == [];
  }

  function AllGroups(groups: seq<seq<Record>>, open: seq<Record>): seq<seq<Record>> {
    if open == [] then groups else groups + [open]
  }

  /** The groups after a record that does not join: the open group is closed, the record stands alone or opens one. */
  function GroupsAfter(limits: Limits, groups: seq<seq<Record>>, open: seq<Record>, record: Record): (seq<seq<Record>>, seq<Record>) {
    var closed := AllGroups(groups, open);
    if Bypasses(limits, record) then (closed + [[record]], []) else (closed, [record])
  }

  lemma PushStartsGroup(limits: Limits, b: Batch, pushed: seq<Record>, groups: seq<seq<Record>>, open: seq<Record>, record: Record)
    requires limits.Valid() && Cut(limits, b, pushed, groups, open) && !Joins(limits, b, record)
    ensures
      var after := GroupsAfter(limits, groups, open, record);
      Cut(limits, Step(limits, b, Push(record)), pushed + [record], after.0, after.1)
  {
    hide Merged, StreamGroup, Bypasses, Joins, Flatten;
    var closed := AllGroups(groups, open);
    FlushCloses(limits, b, pushed, groups, open);
    MergedOne(record);
    if Bypasses(limits, record) {
      AppendGroup(closed, [record]);
      assert pushed + [record] == Flatten(closed + [[record]]) + [];
    } else {
      SingletonGroup(limits, record);
      assert pushed + [record] == Flatten(closed) + [record];
    }
  }

  lemma JoinsPending(limits: Limits, b: Batch, record: Record)
    requires Joins(limits, b, record)
    ensures b.pending.Some? && !Bypasses(limits, record)
  {
  }

  lemma StepKeepsBatched(limits: Limits, b: Batch, pushed: seq<Record>, e: Event)
    requires limits.Valid() && Batched(limits, b, pushed)
    ensures Batched(limits, Step(limits, b, e), AfterEvent(b, pushed, e))
  {
    hide Merged, StreamGroup, Bypasses, Joins, Flatten;
    var groups, open :| Cut(limits, b, pushed, groups, open);
    match e
    case Push(record) =>
      if Joins(limits, b, record) {
        JoinGrowsOpen(limits, b, pushed, groups, open, record);
      } else {
        PushStartsGroup(limits, b, pushed, groups, open, record);
      }
    case Cancel =>
      assert pushed[..|pushed| - |open|] == Flatten(groups) + [];
      assert Cut(limits, Step(limits, b, e), AfterEvent(b, pushed, e), groups, []);
    case _ => FlushCloses(limits, b, pushed, groups, open);
  }

  /**
   Over any run of pushes, flushes, timer firings and cancels, what was delivered and what is pending
   are the pushed records cut into groups, each merged; the timer is armed exactly while something is pending.
   */
  lemma {:induction false} RunIsBatched(limits: Limits, b: Batch, pushed: seq<Record>, events: seq<Event>)
    requires limits.Valid() && Batched(limits, b, pushed) && LegalRun(limits, b, events)
    ensures Batched(limits, RunAll(limits, b, events), Pushed(limits, b, pushed, events))
    decreases |events|
  {
    hide Batched, Step, AfterEvent;
    if events != [] {
      StepKeepsBatched(limits, b, pushed, events[0]);
      RunIsBatched(limits, Step(limits, b, events[0]), AfterEvent(b, pushed, events[0]), events[1..]);
    }
  }

  predicate CanTake(limits: Limits, group: seq<Record>, next: seq<Record>) {
    next != [] && StreamGroup(limits, group + [next[0]])
  }

  /** No group could have taken in the first record of the next one. */
  predicate Maximal(limits: Limits, groups: seq<seq<Record>>)
    decreases |groups|
  {
    var n := |groups| - 1;
    n < 1 || (Maximal(limits, groups[..n]) && !CanTake(limits, groups[n - 1], groups[n]))
  }

  /** A maximal cut; when nothing is open, the last record was one that stands alone. */
  predicate MaximalCut(limits: Limits, b: Batch, pushed: seq<Record>, groups: seq<seq<Record>>, open: seq<Record>) {
    && Cut(limits, b, pushed, groups, open)
    && Maximal(limits, AllGroups(groups, open))
    && (open == [] && groups != [] ==>
          var last := groups[|groups| - 1];
          |last| == 1 && Bypasses(limits, last[0]))
  }

  ghost predicate BatchedMaximally(limits: Limits, b: Batch, pushed: seq<Record>) {
    exists groups, open :: MaximalCut(limits, b, pushed, groups, open)
  }

  lemma {:induction false} ContentLengthIsNotNegative(group: seq<Record>)
    ensures ContentLength(group) >= 0
    decreases |group|
  {
    if group != [] { ContentLengthIsNotNegative(group[..|group| - 1]); }
  }

  /** A record that ends a stream group does not bypass the batch. */
  lemma LastOfGroupIsBatched(limits: Limits, group: seq<Record>, record: Record)
    requires StreamGroup(limits, group + [record])
    ensures !Bypasses(limits, record)
  {
    var wider := group + [record];
    assert wider[..|wider| - 1] == group && wider[|wider| - 1] == record;
    ContentLengthIsNotNegative(group);
  }

  /** A record that the open group could take in joins it. */
  lemma FittingRecordJoins(limits: Limits, b: Batch, pushed: seq<Record>, groups: seq<seq<Record>>, open: seq<Record>, record: Record)
    requires Cut(limits, b, pushed, groups, open) && open != [] && StreamGroup(limits, open + [record])
    ensures Joins(limits, b, record)
  {
    var wider := open + [record];
    LastOfGroupIsBatched(limits, open, record);
    assert wider[..|wider| - 1] == open && wider[|wider| - 1] == record && wider[0] == open[0];
    assert record in wider && SameStreamDelta(open[0], record);
    MergedIsOneDelta(limits, open);
  }

  /** Nothing joins a record that bypasses the batch. */
  lemma BypassStandsAlone(limits: Limits, group: seq<Record>, next: Record)
    requires |group| == 1 && Bypasses(limits, group[0])
    ensures !StreamGroup(limits, group + [next])
  {
    var pair := group + [next];
    assert pair[0] == group[0] && group[0] in pair && pair[..1] == group && group[..0] == [];
    assert ContentLength(group) == |Content(group[0])|;
  }

  lemma MaximalGrows(limits: Limits, groups: seq<seq<Record>>, next: seq<Record>)
    requires Maximal(limits, groups) && (groups != [] ==> !CanTake(limits, groups[|groups| - 1], next))
    ensures Maximal(limits, groups + [next])
  {
    assert (groups + [next])[..|groups|] == groups;
  }

  /** The open group grows at its end, which changes nothing for the one before it. */
  lemma MaximalJoin(limits: Limits, groups: seq<seq<Record>>, open: seq<Record>, record: Record)
    requires Maximal(limits, groups + [open]) && open != []
    ensures Maximal(limits, groups + [open + [record]])
  {
    hide StreamGroup;
    var was, all := groups + [open], groups + [open + [record]];
    assert was[..|groups|] == groups == all[..|groups|];
  }

  /** The last group cannot take in a record that does not join. */
  lemma CannotTake(limits: Limits, b: Batch, pushed: seq<Record>, groups: seq<seq<Record>>, open: seq<Record>, record: Record)
    requires MaximalCut(limits, b, pushed, groups, open) && !Joins(limits, b, record)
    ensures
      var closed := AllGroups(groups, open);
      closed != [] ==> !CanTake(limits, closed[|closed| - 1], [record])
  {
    hide StreamGroup, Maximal, Joins, Bypasses, Flatten, Merged;
    if open != [] {
      if StreamGroup(limits, open + [record]) { FittingRecordJoins(limits, b, pushed, groups, open, record); }
    } else if groups != [] {
      BypassStandsAlone(limits, groups[|groups| - 1], record);
    }
  }

  lemma PushKeepsMaximal(limits: Limits, b: Batch, pushed: seq<Record>, record: Record)
    requires limits.Valid() && BatchedMaximally(limits, b, pushed)
    ensures BatchedMaximally(limits, Step(limits, b, Push(record)), pushed + [record])
  {
    hide Merged, StreamGroup, Bypasses, Joins, Flatten, Maximal, Step, Cut;
    var groups, open :| MaximalCut(limits, b, pushed, groups, open);
    var t := Step(limits, b, Push(record));
    if Joins(limits, b, record) {
      JoinsPending(limits, b, record);
      PendingIsOpen(limits, b, pushed, groups, open);
      JoinGrowsOpen(limits, b, pushed, groups, open, record);
      MaximalJoin(limits, groups, open, record);
      assert MaximalCut(limits, t, pushed + [record], groups, open + [record]);
    } else {
      CannotTake(limits, b, pushed, groups, open, record);
      MaximalGrows(limits, AllGroups(groups, open), [record]);
      PushStartsGroup(limits, b, pushed, groups, open, record);
      var after := GroupsAfter(limits, groups, open, record);
      assert MaximalCut(limits, t, pushed + [record], after.0, after.1);
    }
  }

  lemma PendingIsOpen(limits: Limits, b: Batch, pushed: seq<Record>, groups: seq<seq<Record>>, open: seq<Record>)
    requires Cut(limits, b, pushed, groups, open)
    ensures b.pending.Some? <==> open != []
  {
  }

  function Pushes(records: seq<Record>): seq<Event> {
    seq(|records|, i requires 0 <= i < |records| => Push(records[i]))
  }

  /** Left alone by timers and flushes, the batcher merges all it may: no group could have gone on. */
  lemma {:induction false} PushesMergeAllTheyMay(limits: Limits, b: Batch, before: seq<Record>, records: seq<Record>)
    requires limits.Valid() && BatchedMaximally(limits, b, before)
    ensures BatchedMaximally(limits, RunAll(limits, b, Pushes(records)), before + records)
    decreases |records|
  {
    hide BatchedMaximally, Step;
    if records == [] {
      assert before + records == before;
    } else {
      PushKeepsMaximal(limits, b, before, records[0]);
      PushesMergeAllTheyMay(limits, Step(limits, b, Push(records[0])), before + [records[0]], records[1..]);
      assert Pushes(records)[1..] == Pushes(records[1..]);
      assert before + [records[0]] + records[1..] == before + records;
    }
  }

  // ---------------------------------------------------------------- reducers

  function Fold<S>(f: (S, Record) -> S, state: S, records: seq<Record>): S
    decreases |records|
  {
    if records == [] then state else f(Fold(f, state, records[..|records| - 1]), records[|records| - 1])
  }

  /** Two deltas of a stream, one after the other, change the state as the merged one does. */
  ghost predicate Additive<S(!new)>(f: (S, Record) -> S) {
    forall state, a, b :: IsCoalescibleStreamDelta(a) && IsCoalescibleStreamDelta(b) && SameStreamDelta(a, b) ==>
      f(f(state, a), b) == f(state, MergeRecord(a, b))
  }

  lemma {:induction false} FoldConcat<S>(f: (S, Record) -> S, state: S, a: seq<Record>, b: seq<Record>)
    ensures Fold(f, state, a + b) == Fold(f, Fold(f, state, a), b)
    decreases |b|
  {
    if b == [] {
      assert a + b == a;
    } else {
      assert (a + b)[..|a + b| - 1] == a + b[..|b| - 1];
      FoldConcat(f, state, a, b[..|b| - 1]);
    }
  }

  lemma {:induction false} FoldStreamGroup<S(!new)>(limits: Limits, f: (S, Record) -> S, state: S, group: seq<Record>)
    requires Additive(f) && StreamGroup(limits, group)
    ensures Fold(f, state, group) == f(state, Merged(group))
    decreases |group|
  {
    var earlier, latest := group[..|group| - 1], group[|group| - 1];
    if |group| == 1 {
      assert earlier == [];
    } else {
      ContentLengthShrinks(group);
      FoldStreamGroup(limits, f, state, earlier);
      MergedIsOneDelta(limits, earlier);
      assert SameStreamDelta(group[0], latest) && SameStreamDelta(Merged(earlier), latest);
    }
  }

  lemma FoldGroup<S(!new)>(limits: Limits, f: (S, Record) -> S, state: S, group: seq<Record>)
    requires Additive(f) && Group(limits, group)
    ensures Fold(f, state, group) == f(state, Merged(group))
  {
    if |group| == 1 {
      assert group[..0] == [];
    } else {
      FoldStreamGroup(limits, f, state, group);
    }
  }

  lemma {:induction false} FoldGroups<S(!new)>(
      limits: Limits, f: (S, Record) -> S, state: S, groups: seq<seq<Record>>, delivered: seq<Record>)
    requires Additive(f) && |delivered| == |groups| && forall g :: g in groups ==> Group(limits, g)
    requires forall i :: 0 <= i < |groups| ==> groups[i] != [] && delivered[i] == Merged(groups[i])
    ensures Fold(f, state, delivered) == Fold(f, state, Flatten(groups))
    decreases |groups|
  {
    hide Merged, Group, Additive;
    if groups != [] {
      var n := |groups| - 1;
      FoldGroups(limits, f, state, groups[..n], delivered[..n]);
      FoldConcat(f, state, Flatten(groups[..n]), groups[n]);
      FoldGroup(limits, f, Fold(f, state, delivered[..n]), groups[n]);
    }
  }

  /**
   Merging changes nothing a reducer can see: once a run's records are flushed, any additive reducer
   is in the state it would have reached on the pushed records one by one.
   */
  lemma BatchingIsInvisible<S(!new)>(limits: Limits, f: (S, Record) -> S, state: S, events: seq<Event>)
    requires limits.Valid() && LegalRun(limits, EMPTY_BATCH, events) && Additive(f)
    ensures
      Fold(f, state, Flushed(RunAll(limits, EMPTY_BATCH, events)).delivered)
      == Fold(f, state, Pushed(limits, EMPTY_BATCH, [], events))
  {
    hide Additive, Fold, Merged, Group;
    assert Cut(limits, EMPTY_BATCH, [], [], []);
    RunIsBatched(limits, EMPTY_BATCH, [], events);
    var b, pushed := RunAll(limits, EMPTY_BATCH, events), Pushed(limits, EMPTY_BATCH, [], events);
    var groups, open :| Cut(limits, b, pushed, groups, open);
    FlushCloses(limits, b, pushed, groups, open);
    var closed := if open == [] then groups else groups + [open];
    FoldGroups(limits, f, state, closed, Flushed(b).delivered);
    assert Flatten(closed) + [] == Flatten(closed);
  }

  // ---------------------------------------------------------------- the batcher

  function Bounded(value: int, minimum: int, maximum: int): int {
    if value < minimum then minimum else if value > maximum then maximum else value
  }

  class ProtocolEventBatcher {
    const limits: Limits
    var pending: Option<Record>
    var pendingCount: int
    var timerArmed: bool
    ghost var delivered: seq<Record>

    /** Limits out of range are brought into range; `None`, no number, gives the default. */
    constructor (maxContentChars: Option<int>, maxEvents: Option<int>)
      ensures limits.Valid() && View() == EMPTY_BATCH
      ensures maxContentChars.Some? && 1 <= maxContentChars.value <= 1000000 ==> limits.maximum == maxContentChars.value
      ensures maxEvents.Some? && 1 <= maxEvents.value <= 100000 ==> limits.maximumEvents == maxEvents.value
      ensures maxContentChars.Some? ==> (maxContentChars.value < 1 ==> limits.maximum == 1) && (maxContentChars.value > 1000000 ==> limits.maximum == 1000000)
      ensures maxEvents.Some? ==> (maxEvents.value < 1 ==> limits.maximumEvents == 1) && (maxEvents.value > 100000 ==> limits.maximumEvents == 100000)
      ensures (maxContentChars == None ==> limits.maximum == 65536) && (maxEvents == None ==> limits.maximumEvents == 2048)
    {
      limits := Limits(
        if maxContentChars.Some? then Bounded(maxContentChars.value, 1, 1000000) else DEFAULT_MAX_CONTENT_CHARS,
        if maxEvents.Some? then Bounded(maxEvents.value, 1, 100000) else DEFAULT_MAX_EVENTS);
      pending, pendingCount, timerArmed, delivered := None, 0, false, [];
    }

    ghost function View(): Batch
      reads this
    {
      Batch(pending, pendingCount, timerArmed, delivered)
    }

    method FlushPending() returns (count: int)
      modifies this
      ensures View() == Step(limits, old(View()), Event.Flush)
      ensures count == if old(pending).Some? then old(pendingCount) else 0
    {
      timerArmed := false;
      count := 0;
      if pending.Some? {
        count := pendingCount;
        delivered := delivered + [pending.value];
      }
      pending, pendingCount := None, 0;
    }

    /** The timer flushes what it was armed for. */
    method OnTimer() returns (count: int)
      requires timerArmed
      modifies this
      ensures View() == Step(limits, old(View()), TimerFires)
    {
      timerArmed := false;
      count := FlushPending();
    }

    method PushRecord(record: Record) returns (batched: bool)
      modifies this
      ensures View() == Step(limits, old(View()), Push(record))
      ensures batched <==> !Bypasses(limits, record)
    {
      hide SameStreamDelta, IsCoalescibleStreamDelta, MergeRecord, Content;
      batched := !Bypasses(limits, record);
      if !batched {
        var _ := FlushPending();
        delivered := delivered + [record];
        return;
      }
      if pending.Some?
         && (pendingCount >= limits.maximumEvents || !SameStreamDelta(pending.value, record)
             || |Content(pending.value)| + |Content(record)| > limits.maximum)
      {
        var _ := FlushPending();
      }
      if pending == None {
        pending, pendingCount := Some(record), 1;
      } else {
        assert pending.value.payload.Some? && record.payload.Some? by { PayloadsOf(pending.value, record); }
        pending, pendingCount := Some(MergeRecord(pending.value, record)), pendingCount + 1;
      }
      timerArmed := true;
    }

    /** What is pending is dropped. */
    method CancelPending() returns (count: int)
      modifies this
      ensures View() == Step(limits, old(View()), Cancel) && count == old(pendingCount)
    {
      count := pendingCount;
      timerArmed, pending, pendingCount := false, None, 0;
    }
  }

  lemma PayloadsOf(left: Record, right: Record)
    requires SameStreamDelta(left, right)
    ensures left.payload.Some? && right.payload.Some?
  {
  }
}
