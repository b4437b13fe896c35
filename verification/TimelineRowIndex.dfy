/**
 The incremental row index of the message timeline
 (frontend/terminal-ui/src/timeline-row-index.js).
 */
module TimelineRowIndexes {
  import opened RenderCaches

  datatype Segment =
    Segment(messageId: string, message: Message, messageIndex: int, start: int, end: int, height: int)

  function EndOf(segments: seq<Segment>): int {
    if segments == [] then 0 else segments[|segments| - 1].end
  }

  predicate Contiguous(segments: seq<Segment>) {
    && (segments != [] ==> segments[0].start == 0)
    && (forall i, j :: 0 <= i < |segments| && j == i + 1 < |segments| ==> segments[j].start == segments[i].end)
    && forall i :: 0 <= i < |segments| ==>
         segments[i].end == segments[i].start + segments[i].height && segments[i].height >= 0
  }

  function Shifted(segment: Segment, delta: int): Segment {
    segment.(start := segment.start + delta, end := segment.end + delta)
  }

  /** Segment `position` with a new id and height, and every later segment moved by the difference. */
  function Resized(segments: seq<Segment>, position: nat, id: string, height: int): seq<Segment>
    requires position < |segments|
  {
    var segment := segments[position];
    seq(|segments|, i requires 0 <= i < |segments| =>
      if i < position then segments[i]
      else if i > position then Shifted(segments[i], height - segment.height)
      else segment.(messageId := id, height := height, end := segment.start + height))
  }

  lemma ShiftedIsResized(was: seq<Segment>, now: seq<Segment>, position: nat, id: string, height: int)
    requires position < |was| == |now|
    requires now[position] == was[position].(messageId := id, height := height, end := was[position].start + height)
    requires forall i :: 0 <= i < |was| && i != position ==>
      now[i] == if i > position then Shifted(was[i], height - was[position].height) else was[i]
    ensures now == Resized(was, position, id, height)
  {
  }

  lemma ResizedIsContiguous(segments: seq<Segment>, position: nat, id: string, height: int)
    requires position < |segments| && Contiguous(segments) && height >= 0
    ensures Contiguous(Resized(segments, position, id, height))
    ensures EndOf(Resized(segments, position, id, height))
         == EndOf(segments) + height - segments[position].height
  {
  }

  lemma PushIsContiguous(segments: seq<Segment>, segment: Segment)
    requires Contiguous(segments) && segment.height >= 0
    requires segment.start == EndOf(segments) && segment.end == segment.start + segment.height
    ensures Contiguous(segments + [segment])
  {
    var r := segments + [segment];
    assert forall i :: 0 <= i < |segments| ==> r[i] == segments[i];
  }

  /** `positions` finds each message of `segments`, and nothing else. */
  ghost predicate Positioned(segments: seq<Segment>, positions: map<Message, nat>) {
    && (forall i :: 0 <= i < |segments| ==>
          && segments[i].messageIndex == i
          && segments[i].message in positions && positions[segments[i].message] == i)
    && (forall m :: m in positions ==> positions[m] < |segments| && segments[positions[m]].message == m)
  }

  /** Every indexed message is found, at a segment of its own -- the last one, if it has several. */
  ghost predicate Located(segments: seq<Segment>, positions: map<Message, nat>) {
    && (forall i :: 0 <= i < |segments| ==> segments[i].messageIndex == i && segments[i].message in positions)
    && (forall m :: m in positions ==> positions[m] < |segments| && segments[positions[m]].message == m)
  }

  predicate DistinctSegments(segments: seq<Segment>) {
    forall i, j :: 0 <= i < j < |segments| ==> segments[i].message != segments[j].message
  }

  lemma LocatedIsPositioned(segments: seq<Segment>, positions: map<Message, nat>)
    requires Located(segments, positions) && DistinctSegments(segments)
    ensures Positioned(segments, positions)
  {
  }

  lemma ResizedIsLocated(segments: seq<Segment>, position: nat, id: string, height: int, positions: map<Message, nat>)
    requires position < |segments| && Located(segments, positions)
    ensures Located(Resized(segments, position, id, height), positions)
    ensures forall i :: 0 <= i < |segments| ==> Resized(segments, position, id, height)[i].message == segments[i].message
  {
  }

  /** What a message contributes to the index: its id and the number of lines it renders to. */
  datatype Row = Row(id: string, height: int)

  /** What a build from scratch over `messages` records. */
  function FreshSegments(messages: seq<Message>, rows: map<Message, Row>): (r: seq<Segment>)
    requires forall m :: m in messages ==> m in rows
    ensures |r| == |messages|
  {
    if messages == [] then []
    else
      var n := |messages| - 1;
      var message, before := messages[n], FreshSegments(messages[..n], rows);
      var start, height := EndOf(before), rows[message].height;
      before + [Segment(rows[message].id, message, n, start, start + height, height)]
  }

  lemma {:induction false} FreshSegmentsAt(messages: seq<Message>, rows: map<Message, Row>)
    requires forall m :: m in messages ==> m in rows
    ensures forall k :: 0 <= k < |messages| ==>
      var segment := FreshSegments(messages, rows)[k];
      segment.message == messages[k] && segment.messageIndex == k
      && segment.height == rows[messages[k]].height && segment.messageId == rows[messages[k]].id
  {
    if messages != [] {
      FreshSegmentsAt(messages[..|messages| - 1], rows);
    }
  }

  lemma {:induction false} FreshIsContiguous(messages: seq<Message>, rows: map<Message, Row>)
    requires forall m :: m in messages ==> m in rows && rows[m].height >= 0
    ensures Contiguous(FreshSegments(messages, rows))
    ensures forall i :: 0 <= i < |messages| ==> FreshSegments(messages, rows)[i].messageIndex == i
  {
    if messages != [] {
      var n := |messages| - 1;
      var before := FreshSegments(messages[..n], rows);
      FreshIsContiguous(messages[..n], rows);
      PushIsContiguous(before, FreshSegments(messages, rows)[n]);
    }
  }

  /** Every segment agrees with `rows`, except perhaps those of `stale` messages. */
  predicate CurrentExcept(segments: seq<Segment>, rows: map<Message, Row>, stale: set<Message>) {
    forall i :: 0 <= i < |segments| ==>
      && segments[i].message in rows
      && (rows[segments[i].message] == Row(segments[i].messageId, segments[i].height) || segments[i].message in stale)
  }

  /** Rendering one stale message again leaves the others as stale as they were. */
  lemma ResizedIsCurrent(segments: seq<Segment>, positions: map<Message, nat>, rows: map<Message, Row>,
                         message: Message, stale: set<Message>)
    requires Positioned(segments, positions) && CurrentExcept(segments, rows, stale)
    ensures message !in positions ==> CurrentExcept(segments, rows, stale - {message})
    ensures message in positions ==>
      && positions[message] < |segments| && segments[positions[message]].message == message && message in rows
      && var r := Resized(segments, positions[message], rows[message].id, rows[message].height);
      && CurrentExcept(r, rows, stale - {message}) && Positioned(r, positions)
      && forall i :: 0 <= i < |r| ==> r[i].message == segments[i].message
  {
  }

  /** All but the last segment are contiguous, and the last one begins where they end. */
  lemma LastFollows(segments: seq<Segment>)
    requires Contiguous(segments) && segments != []
    ensures
      var n := |segments| - 1;
      && Contiguous(segments[..n]) && segments[n].start == EndOf(segments[..n])
      && segments[n].end == segments[n].start + segments[n].height
  {
    var n := |segments| - 1;
    assert forall i :: 0 <= i < n ==> segments[..n][i] == segments[i];
    assert n > 0 ==> segments[n].start == segments[n - 1].end;
  }

  /** Contiguous, current segments over `messages` are those of a build from scratch. */
  lemma {:induction false} CurrentIsFresh(segments: seq<Segment>, messages: seq<Message>, rows: map<Message, Row>)
    requires |segments| == |messages| && Contiguous(segments) && CurrentExcept(segments, rows, {})
    requires forall i :: 0 <= i < |segments| ==> segments[i].message == messages[i] && segments[i].messageIndex == i
    ensures forall m :: m in messages ==> m in rows
    ensures segments == FreshSegments(messages, rows)
  {
    hide Contiguous, EndOf;
    if segments != [] {
      var n := |segments| - 1;
      var before, last := segments[..n], segments[n];
      LastFollows(segments);
      CurrentIsFresh(before, messages[..n], rows);
      assert messages == messages[..n] + [messages[n]] && rows[last.message] == Row(last.messageId, last.height);
      assert last == Segment(rows[messages[n]].id, messages[n], n, last.start, last.start + last.height, rows[messages[n]].height);
      assert segments == before + [last];
    }
  }

  /** The message array, compared by identity. */
  class MessageList {
    var items: seq<Message>

    constructor (items: seq<Message>)
      ensures this.items == items
    {
      this.items := items;
    }
  }

  class RowIndex {
    const messages: MessageList
    const width: nat
    const generation: nat
    var messageCount: nat
    var cacheRevision: nat
    var segments: seq<Segment>
    var totalLines: int
    var messagePositions: map<Message, nat>
    var buildCount: nat
    var reuseCount: nat
    var appendCount: nat
    var partialUpdateCount: nat

    constructor (messages: MessageList, width: nat, generation: nat, cacheRevision: nat, buildCount: nat)
      ensures WellFormed() && segments == []
      ensures this.messages == messages && this.width == width && this.generation == generation
      ensures this.cacheRevision == cacheRevision && this.buildCount == buildCount
      ensures reuseCount == appendCount == partialUpdateCount == 0
    {
      this.messages, this.width, this.generation := messages, width, generation;
      this.cacheRevision, this.buildCount := cacheRevision, buildCount;
      messageCount, segments, totalLines, messagePositions := 0, [], 0, map[];
      reuseCount, appendCount, partialUpdateCount := 0, 0, 0;
    }

    ghost predicate WellFormed()
      reads `messageCount, `segments, `totalLines, `messagePositions
    {
      && messageCount == |segments| && Contiguous(segments) && totalLines == EndOf(segments)
      && Located(segments, messagePositions)
    }

    /** Records the next message. */
    method Push(message: Message, height: nat)
      requires WellFormed()
      modifies `segments, `totalLines, `messagePositions, `messageCount
      ensures WellFormed()
      ensures segments == old(segments) + [Segment(message.id, message, |old(segments)|,
                                                   EndOf(old(segments)), EndOf(old(segments)) + height, height)]
      ensures messagePositions == old(messagePositions[message := |segments|])
    {
      hide Contiguous;
      var start := totalLines;
      var segment := Segment(message.id, message, |segments|, start, start + height, height);
      PushIsContiguous(segments, segment);
      messagePositions := messagePositions[message := |segments|];
      segments := segments + [segment];
      totalLines := start + height;
      messageCount := |segments|;
    }

    /** Gives one segment a new height and moves all later ones. */
    method Resize(position: nat, height: nat)
      requires WellFormed() && position < |segments|
      modifies `segments, `totalLines
      ensures WellFormed()
      ensures segments == Resized(old(segments), position, old(segments)[position].message.id, height)
    {
      hide Contiguous, Located, EndOf;
      var segment := segments[position];
      var id := segment.message.id;
      var delta := height - segment.height;
      ResizedIsContiguous(segments, position, id, height);
      ResizedIsLocated(segments, position, id, height, messagePositions);
      segments := segments[position := segment.(messageId := id, height := height, end := segment.start + height)];
      if delta != 0 {
        ShiftLater(position, delta);
        totalLines := totalLines + delta;
      }
      ShiftedIsResized(old(segments), segments, position, id, height);
    }

    /** Moves every segment after `position`. */
    method ShiftLater(position: nat, delta: int)
      requires position < |segments|
      modifies `segments
      ensures |segments| == |old(segments)|
      ensures forall i :: 0 <= i < |segments| ==> segments[i] == if i > position then Shifted(old(segments)[i], delta) else old(segments)[i]
    {
      ghost var was := segments;
      var cursor := position + 1;
      while cursor < |segments|
        invariant position < cursor <= |segments| == |was|
        invariant forall i :: 0 <= i < |was| ==>
          segments[i] == if position < i < cursor then Shifted(was[i], delta) else was[i]
      {
        segments := segments[cursor := Shifted(segments[cursor], delta)];
        cursor := cursor + 1;
      }
    }
  }
}
