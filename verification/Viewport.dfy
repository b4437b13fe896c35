/**
 The visible window of the timeline (frontend/terminal-ui/src/render.js) and the bisection of
 the row index (frontend/terminal-ui/src/timeline-row-index.js).
 */
module Viewports {
  import opened Sequences
  import opened RenderCaches
  import opened TimelineRowIndexes
  import opened Timelines

  function Max(a: int, b: int): int { if a < b then b else a }
  function Min(a: int, b: int): int { if a < b then a else b }

  // ---------------------------------------------------------------- lookup by row

  /** The first segment that ends after `row`. */
  function SegmentAt(segments: seq<Segment>, row: int): (i: nat)
    ensures i <= |segments|
    ensures i < |segments| ==> segments[i].end > row
    ensures forall j :: 0 <= j < i ==> segments[j].end <= row
  {
    if segments == [] || segments[0].end > row then 0
    else
      var i := SegmentAt(segments[1..], row);
      assert forall j :: 0 < j < i + 1 ==> segments[j] == segments[1..][j - 1];
      i + 1
  }

  lemma {:induction false} EndsAscend(segments: seq<Segment>, i: nat, j: nat)
    requires Contiguous(segments) && i <= j < |segments|
    ensures 0 <= segments[i].start <= segments[j].start && segments[i].end <= segments[j].end
    decreases j
  {
    if i < j {
      EndsAscend(segments, i, j - 1);
      assert segments[j].start == segments[j - 1].end;
    } else if i > 0 {
      EndsAscend(segments, i - 1, i - 1);
      assert segments[i].start == segments[i - 1].end;
    }
  }

  lemma {:induction false} EndsToTotal(segments: seq<Segment>, i: nat)
    requires Contiguous(segments) && i < |segments|
    ensures segments[i].end <= EndOf(segments)
    decreases |segments| - i
  {
    if i < |segments| - 1 {
      EndsToTotal(segments, i + 1);
      assert segments[i + 1].start == segments[i].end;
    }
  }

  /** Which segment holds a row. */
  lemma SegmentAtHolds(segments: seq<Segment>, row: nat)
    requires Contiguous(segments) && row < EndOf(segments)
    ensures SegmentAt(segments, row) < |segments|
    ensures segments[SegmentAt(segments, row)].start <= row < segments[SegmentAt(segments, row)].end
  {
    var i := SegmentAt(segments, row);
    if i > 0 {
      assert segments[i - 1].end <= row;
    }
    if 0 < i < |segments| {
      assert segments[i].start == segments[i - 1].end;
    }
  }

  /** The bisection finds the segment that holds the row, or the nearest one. */
  method FindTimelineSegmentAtRow(segments: seq<Segment>, totalLines: int, row: int) returns (found: int)
    requires Contiguous(segments) && totalLines == EndOf(segments)
    ensures totalLines <= 0 ==> found == -1
    ensures totalLines > 0 ==> found == SegmentAt(segments, Min(totalLines - 1, Max(0, row)))
    ensures totalLines > 0 ==> 0 <= found < |segments|
  {
    if segments == [] || totalLines <= 0 { return -1; }
    var target := Min(totalLines - 1, Max(0, row));
    SegmentAtHolds(segments, target);
    ghost var answer := SegmentAt(segments, target);
    var low, high := 0, |segments| - 1;
    found := -1;
    while low <= high
      invariant 0 <= low <= answer <= high + 1 <= |segments|
      invariant found == if high + 1 == |segments| then -1 else high + 1
      invariant answer == high + 1 ==> found == answer
      decreases high - low
    {
      var middle := (low + high) / 2;
      if segments[middle].end <= target {
        if middle > answer { EndsAscend(segments, answer, middle); }
        low := middle + 1;
      } else {
        found := middle;
        high := middle - 1;
      }
    }
  }

  // ---------------------------------------------------------------- lines

  function Flatten(parts: seq<seq<Line>>): seq<Line> {
    if parts == [] then [] else Flatten(parts[..|parts| - 1]) + parts[|parts| - 1]
  }

  lemma {:induction false} FlattenConcat(a: seq<seq<Line>>, b: seq<seq<Line>>)
    ensures Flatten(a + b) == Flatten(a) + Flatten(b)
  {
    if b == [] {
      assert a + b == a;
    } else {
      var n := |b| - 1;
      FlattenConcat(a, b[..n]);
      assert (a + b)[..|a + b| - 1] == a + b[..n] && (a + b)[|a + b| - 1] == b[n];
      AppendAssoc(Flatten(a), Flatten(b[..n]), b[n]);
    }
  }

  /** The reader's window onto `body`: `height` rows, `offset` rows above the end, blank below. */
  function Window(body: seq<Line>, height: nat, offset: nat): (r: seq<Line>)
    ensures |r| == height
  {
    var start := Max(0, |body| - height - offset);
    var shown := body[start..Min(|body|, start + height)];
    shown + seq(height - |shown|, _ => "")
  }

  /**
   Row by row, the window shows the body from that many rows above its end, or from its start, and
   blanks below the end.
   */
  lemma WindowRows(body: seq<Line>, height: nat, offset: nat, k: nat)
    requires k < height
    ensures
      var above := |body| - height - offset;
      var row := (if above < 0 then 0 else above) + k;
      Window(body, height, offset)[k] == if row < |body| then body[row] else ""
  {
  }

  /** Every message rendered from scratch. */
  ghost function Rendered(cache: RenderCache, messages: seq<Message>, ctx: Context): (r: seq<seq<Line>>)
    reads cache`messageRevisions, messages
    ensures |r| == |messages| && forall i :: 0 <= i < |r| ==> r[i] == cache.Fresh(messages[i], ctx)
  {
    if messages == [] then []
    else
      var n := |messages| - 1;
      Rendered(cache, messages[..n], ctx) + [cache.Fresh(messages[n], ctx)]
  }

  /** The whole body: all messages, then the tail. */
  ghost function Body(timeline: TimelineState, width: nat, tail: seq<Line>): seq<Line>
    reads timeline`messages, timeline`view, timeline.messages, timeline.messages.items, timeline.cache`messageRevisions
  {
    Flatten(Rendered(timeline.cache, timeline.messages.items, Context(width, timeline.view))) + tail
  }

  /** A segment covers exactly its message's lines of the body. */
  lemma {:induction false} SegmentCovers(segments: seq<Segment>, parts: seq<seq<Line>>, i: nat)
    requires Contiguous(segments) && |segments| == |parts| && i < |segments|
    requires forall k :: 0 <= k < |segments| ==> segments[k].height == |parts[k]|
    ensures |Flatten(parts)| == EndOf(segments)
    ensures 0 <= segments[i].start <= segments[i].end <= EndOf(segments)
    ensures Flatten(parts)[segments[i].start..segments[i].end] == parts[i]
  {
    hide Contiguous, Flatten;
    var n := |segments| - 1;
    var before, flat := segments[..n], Flatten(parts[..n]);
    LastFollows(segments);
    FlattenLast(parts);
    if n > 0 {
      SegmentCovers(before, parts[..n], if i < n then i else 0);
      assert i < n ==> before[i] == segments[i] && parts[..n][i] == parts[i];
    }
    assert i == n ==> segments[i].height == |parts[i]|;
    CutOfAppend(flat, parts[n], segments[i].start, segments[i].end);
  }

  lemma FlattenLast(parts: seq<seq<Line>>)
    requires parts != []
    ensures
      var n := |parts| - 1;
      Flatten(parts) == Flatten(parts[..n]) + parts[n] && (n == 0 ==> Flatten(parts[..n]) == [])
  {
  }

  /** A cut on one side of a seam. */
  lemma CutOfAppend(a: seq<Line>, b: seq<Line>, start: int, end: int)
    requires 0 <= start <= end <= |a| + |b|
    ensures end <= |a| ==> (a + b)[start..end] == a[start..end]
    ensures start == |a| && end == |a| + |b| ==> (a + b)[start..end] == b
  {
  }

  /** An exact index covers the body: one segment per message, of the message's rendered lines. */
  lemma ExactCoversBody(timeline: TimelineState, ix: RowIndex, width: nat, parts: seq<seq<Line>>)
    requires timeline.Exact(ix, width)
    requires parts == Rendered(timeline.cache, timeline.messages.items, Context(width, timeline.view))
    ensures Contiguous(ix.segments) && |ix.segments| == |parts| && ix.totalLines == EndOf(ix.segments)
    ensures forall k :: 0 <= k < |parts| ==>
      && ix.segments[k].height == |parts[k]| && ix.segments[k].messageIndex == k
      && ix.segments[k].message == timeline.messages.items[k]
  {
    FreshSegmentsAt(timeline.messages.items, timeline.Rows(width));
  }

  // ---------------------------------------------------------------- the two viewports

  /**
   The viewport by index: bisects for the first and last visible segments, renders those (and one
   more on each side) and cuts out their visible lines.
   */
  method RenderIndexedBodyViewport(timeline: TimelineState, width: nat, bodyHeight: nat, scrollOffset: nat, tail: seq<Line>)
    returns (visible: seq<Line>)
    requires timeline.Valid()
    modifies timeline`index, timeline.index
    modifies timeline.cache`hits, timeline.cache`misses, timeline.cache`entries
    modifies timeline.cache`order, timeline.cache`uses, timeline.cache`stored
    ensures timeline.Valid()
    ensures visible == Window(old(Body(timeline, width, tail)), Max(1, bodyHeight), scrollOffset)
  {
    hide TimelineState.Coherent, TimelineState.Kept, TimelineState.Exact, RenderCache.Fresh, Contiguous, Flatten, Rendered, EndOf, Window;
    ghost var parts := Rendered(timeline.cache, timeline.messages.items, Context(width, timeline.view));
    var index := timeline.EnsureTimelineRowIndex(width);
    assert parts == Rendered(timeline.cache, timeline.messages.items, Context(width, timeline.view));
    ExactCoversBody(timeline, index, width, parts);
    visible := RenderIndexedRows(timeline, width, index.segments, index.totalLines, Max(1, bodyHeight), scrollOffset, tail, parts);
  }

  /** The rows of the window, given the segments of the whole timeline. */
  method RenderIndexedRows(timeline: TimelineState, width: nat, segments: seq<Segment>, messageLines: int, safeHeight: nat,
                           scrollOffset: nat, tail: seq<Line>, ghost parts: seq<seq<Line>>)
    returns (visible: seq<Line>)
    requires timeline.Valid() && safeHeight >= 1
    requires Contiguous(segments) && |segments| == |parts| == |timeline.messages.items| && messageLines == EndOf(segments)
    requires parts == Rendered(timeline.cache, timeline.messages.items, Context(width, timeline.view))
    requires forall k :: 0 <= k < |parts| ==> segments[k].height == |parts[k]| && segments[k].messageIndex == k
    modifies timeline.cache`hits, timeline.cache`misses, timeline.cache`entries
    modifies timeline.cache`order, timeline.cache`uses, timeline.cache`stored
    ensures timeline.Valid() && visible == Window(Flatten(parts) + tail, safeHeight, scrollOffset)
  {
    hide TimelineState.Valid, RenderCache.Fresh, Contiguous, Flatten, Rendered, EndOf, Window;
    FlattenLength(segments, parts);
    var totalLines := messageLines + |tail|;
    var viewportStart := Min(Max(0, totalLines - safeHeight), Max(0, totalLines - safeHeight - scrollOffset));
    var viewportEnd := Min(totalLines, viewportStart + safeHeight);
    visible := [];
    var messageEnd := Min(messageLines, viewportEnd);
    if viewportStart < messageEnd {
      visible := VisibleMessageLines(timeline, width, segments, viewportStart, messageEnd, parts);
    }
    var tailRows := TailRows(tail, messageLines, viewportStart, viewportEnd);
    visible := Pad(visible + tailRows, safeHeight);
    WindowOfParts(Flatten(parts), tail, safeHeight, scrollOffset);
  }

  /** The visible rows of the tail. */
  method TailRows(tail: seq<Line>, messageLines: int, viewportStart: int, viewportEnd: int) returns (rows: seq<Line>)
    requires 0 <= viewportStart <= viewportEnd <= messageLines + |tail| && messageLines >= 0
    ensures rows == TailPart(messageLines, tail, viewportStart, viewportEnd)
  {
    rows := [];
    if viewportEnd > messageLines {
      var tailStart := Max(0, viewportStart - messageLines);
      var tailEnd := Max(tailStart, viewportEnd - messageLines);
      rows := tail[tailStart..tailEnd];
    }
  }

  function HeadPart(flat: seq<Line>, from: int, upTo: int): seq<Line>
    requires 0 <= from <= upTo
  {
    if from < Min(|flat|, upTo) then flat[from..Min(|flat|, upTo)] else []
  }

  function TailPart(before: int, tail: seq<Line>, from: int, upTo: int): seq<Line>
    requires 0 <= from <= upTo <= before + |tail| && before >= 0
  {
    var tailStart := Max(0, from - before);
    if upTo > before then tail[tailStart..Max(tailStart, upTo - before)] else []
  }

  /** The window onto messages and tail, put together from what it shows of each. */
  lemma WindowOfParts(flat: seq<Line>, tail: seq<Line>, height: nat, offset: nat)
    ensures
      var total := |flat| + |tail|;
      var start := Min(Max(0, total - height), Max(0, total - height - offset));
      var end := Min(total, start + height);
      && 0 <= start <= end <= total
      && |HeadPart(flat, start, end) + TailPart(|flat|, tail, start, end)| == end - start <= height
      && HeadPart(flat, start, end) + TailPart(|flat|, tail, start, end) + seq(height - (end - start), _ => "")
         == Window(flat + tail, height, offset)
  {
    hide HeadPart, TailPart, Window;
    var total := |flat| + |tail|;
    var start := Min(Max(0, total - height), Max(0, total - height - offset));
    WindowAcross(flat, tail, start, Min(total, start + height));
    WindowByBounds(flat + tail, height, offset);
  }

  lemma FlattenLength(segments: seq<Segment>, parts: seq<seq<Line>>)
    requires Contiguous(segments) && |segments| == |parts|
    requires forall k :: 0 <= k < |segments| ==> segments[k].height == |parts[k]|
    ensures |Flatten(parts)| == EndOf(segments)
  {
    if segments != [] { SegmentCovers(segments, parts, 0); }
  }

  /** A window over two parts is the window over each. */
  lemma WindowAcross(flat: seq<Line>, tail: seq<Line>, from: int, upTo: int)
    requires 0 <= from <= upTo <= |flat| + |tail|
    ensures HeadPart(flat, from, upTo) + TailPart(|flat|, tail, from, upTo) == (flat + tail)[from..upTo]
  {
  }

  lemma WindowByBounds(body: seq<Line>, height: nat, offset: nat)
    ensures
      var start := Min(Max(0, |body| - height), Max(0, |body| - height - offset));
      var end := Min(|body|, start + height);
      && 0 <= start <= end <= |body| && end - start <= height
      && Window(body, height, offset) == body[start..end] + seq(height - (end - start), _ => "")
  {
  }

  /** `while (visible.length < height) visible.push("")`. */
  method Pad(lines: seq<Line>, height: nat) returns (padded: seq<Line>)
    requires |lines| <= height
    ensures padded == lines + seq(height - |lines|, _ => "")
  {
    padded := lines;
    while |padded| < height
      invariant |lines| <= |padded| <= height && padded == lines + seq(|padded| - |lines|, _ => "")
    {
      padded := padded + [""];
    }
  }

  /** How far the visible lines reach once all segments before `position` are handled. */
  function Reached(segments: seq<Segment>, first: nat, viewportStart: int, messageEnd: int, position: nat): int
    requires position <= |segments|
  {
    if position <= first then viewportStart else Min(messageEnd, segments[position - 1].end)
  }

  lemma SegmentExtent(segments: seq<Segment>, i: nat)
    requires Contiguous(segments) && i < |segments|
    ensures segments[i].end == segments[i].start + segments[i].height && segments[i].height >= 0
  {
  }

  /** Among the visible segments, the lines reach from one segment's first visible row to its last. */
  lemma ReachedInside(segments: seq<Segment>, viewportStart: int, messageEnd: int, position: nat)
    requires Contiguous(segments) && 0 <= viewportStart < messageEnd <= EndOf(segments)
    requires position < |segments| && SegmentAt(segments, viewportStart) <= position <= SegmentAt(segments, messageEnd - 1)
    ensures
      var first, segment := SegmentAt(segments, viewportStart), segments[position];
      && Reached(segments, first, viewportStart, messageEnd, position) == Max(viewportStart, segment.start)
      && Reached(segments, first, viewportStart, messageEnd, position + 1) == Min(messageEnd, segment.end)
      && Max(viewportStart, segment.start) <= Min(messageEnd, segment.end)
  {
    hide Contiguous, SegmentAt;
    var first, last := SegmentAt(segments, viewportStart), SegmentAt(segments, messageEnd - 1);
    SegmentAtHolds(segments, viewportStart);
    SegmentAtHolds(segments, messageEnd - 1);
    SegmentExtent(segments, position);
    EndsAscend(segments, first, position);
    EndsAscend(segments, position, last);
    if position > first {
      Adjacent(segments, position);
      EndsAscend(segments, first, position - 1);
    }
  }

  lemma ReachedStep(segments: seq<Segment>, parts: seq<seq<Line>>, viewportStart: int, messageEnd: int, position: nat)
    requires Contiguous(segments) && |segments| == |parts| && position < |segments|
    requires forall k :: 0 <= k < |parts| ==> segments[k].height == |parts[k]|
    requires 0 <= viewportStart < messageEnd <= EndOf(segments) == |Flatten(parts)|
    ensures
      var first, last := SegmentAt(segments, viewportStart), SegmentAt(segments, messageEnd - 1);
      var segment, flat := segments[position], Flatten(parts);
      var r := Reached(segments, first, viewportStart, messageEnd, position);
      var r' := Reached(segments, first, viewportStart, messageEnd, position + 1);
      var localStart := Max(0, viewportStart - segment.start);
      var localEnd := Min(segment.height, messageEnd - segment.start);
      && viewportStart <= r <= r' <= messageEnd
      && (position < first || position > last || segment.height <= 0 ==> r' == r)
      && (first <= position <= last && segment.height > 0 ==>
            && 0 <= localStart <= localEnd <= segment.height
            && flat[viewportStart..r] + parts[position][localStart..localEnd] == flat[viewportStart..r'])
  {
    hide Contiguous, Flatten, SegmentAt, Reached;
    var first, last := SegmentAt(segments, viewportStart), SegmentAt(segments, messageEnd - 1);
    var segment := segments[position];
    SegmentCovers(segments, parts, position);
    SegmentExtent(segments, position);
    if position < first {
      ReachedStart(segments, first, viewportStart, messageEnd, position);
      ReachedStart(segments, first, viewportStart, messageEnd, position + 1);
    } else if position > last {
      ReachedEnd(segments, viewportStart, messageEnd, position);
      ReachedEnd(segments, viewportStart, messageEnd, position + 1);
    } else {
      ReachedInside(segments, viewportStart, messageEnd, position);
      VisibleCut(Flatten(parts), parts[position], segment, viewportStart, messageEnd);
    }
  }

  /** What is visible of a segment continues the lines visible before it. */
  lemma VisibleCut(flat: seq<Line>, part: seq<Line>, segment: Segment, viewportStart: int, messageEnd: int)
    requires 0 <= segment.start <= segment.end <= |flat| && flat[segment.start..segment.end] == part
    requires segment.end == segment.start + segment.height
    requires 0 <= viewportStart && Max(viewportStart, segment.start) <= Min(messageEnd, segment.end)
    ensures
      var localStart := Max(0, viewportStart - segment.start);
      var localEnd := Min(segment.height, messageEnd - segment.start);
      && 0 <= localStart <= localEnd <= |part|
      && flat[viewportStart..Max(viewportStart, segment.start)] + part[localStart..localEnd]
         == flat[viewportStart..Min(messageEnd, segment.end)]
  {
    var reached, upTo := Max(viewportStart, segment.start), Min(messageEnd, segment.end);
    CutGrows(flat, part, segment.start, segment.end, viewportStart, reached, upTo);
    assert Max(0, viewportStart - segment.start) == reached - segment.start;
    assert Min(segment.height, messageEnd - segment.start) == upTo - segment.start;
  }

  lemma Adjacent(segments: seq<Segment>, i: nat)
    requires Contiguous(segments) && 0 < i < |segments|
    ensures segments[i].start == segments[i - 1].end
  {
  }

  lemma CutGrows(flat: seq<Line>, part: seq<Line>, start: int, end: int, from: int, reached: int, to: int)
    requires 0 <= start <= end <= |flat| && flat[start..end] == part
    requires 0 <= from <= reached <= to <= end && start <= reached
    ensures flat[from..reached] + part[reached - start..to - start] == flat[from..to]
  {
    forall k | 0 <= k < to - reached
      ensures part[reached - start..to - start][k] == flat[reached..to][k]
    {
      assert part[reached - start + k] == flat[start..end][reached - start + k] == flat[reached + k];
    }
    assert part[reached - start..to - start] == flat[reached..to];
  }

  /** Rows `viewportStart` up to `messageEnd` of the messages' lines. */
  method VisibleMessageLines(timeline: TimelineState, width: nat, segments: seq<Segment>,
                             viewportStart: int, messageEnd: int, ghost parts: seq<seq<Line>>)
    returns (visible: seq<Line>)
    requires timeline.Valid() && Contiguous(segments) && |segments| == |parts| == |timeline.messages.items|
    requires parts == Rendered(timeline.cache, timeline.messages.items, Context(width, timeline.view))
    requires forall k :: 0 <= k < |parts| ==> segments[k].height == |parts[k]| && segments[k].messageIndex == k
    requires 0 <= viewportStart < messageEnd <= EndOf(segments) == |Flatten(parts)|
    modifies timeline.cache`hits, timeline.cache`misses, timeline.cache`entries
    modifies timeline.cache`order, timeline.cache`uses, timeline.cache`stored
    ensures timeline.Valid()
    ensures visible == Flatten(parts)[viewportStart..messageEnd]
  {
    hide TimelineState.Valid, RenderCache.Fresh, Contiguous, Flatten, Rendered, Reached, SegmentAt, EndOf;
    var first := FindTimelineSegmentAtRow(segments, EndOf(segments), viewportStart);
    var last := FindTimelineSegmentAtRow(segments, EndOf(segments), messageEnd - 1);
    visible := [];
    var overscanStart, overscanEnd := Max(0, first - 1), Min(|segments| - 1, last + 1);
    assert Reached(segments, first, viewportStart, messageEnd, overscanStart) == viewportStart by {
      ReachedStart(segments, first, viewportStart, messageEnd, overscanStart);
    }
    var position := overscanStart;
    while position <= overscanEnd
      invariant overscanStart <= position <= overscanEnd + 1 && timeline.Valid()
      invariant viewportStart <= Reached(segments, first, viewportStart, messageEnd, position) <= messageEnd
      invariant visible == Flatten(parts)[viewportStart..Reached(segments, first, viewportStart, messageEnd, position)]
    {
      var segment := segments[position];
      var lines := timeline.RenderMessage(timeline.messages.items[segment.messageIndex], width);
      assert lines == parts[position];
      ReachedStep(segments, parts, viewportStart, messageEnd, position);
      if !(position < first || position > last || segment.height <= 0) {
        var localStart := Max(0, viewportStart - segment.start);
        var localEnd := Min(segment.height, messageEnd - segment.start);
        visible := visible + lines[localStart..localEnd];
      }
      position := position + 1;
    }
    ReachedEnd(segments, viewportStart, messageEnd, position);
  }

  lemma ReachedStart(segments: seq<Segment>, first: nat, viewportStart: int, messageEnd: int, position: nat)
    requires position <= first && position <= |segments|
    ensures Reached(segments, first, viewportStart, messageEnd, position) == viewportStart
  {
  }

  lemma ReachedEnd(segments: seq<Segment>, viewportStart: int, messageEnd: int, position: nat)
    requires Contiguous(segments) && 0 <= viewportStart < messageEnd <= EndOf(segments)
    requires SegmentAt(segments, viewportStart) <= |segments| && SegmentAt(segments, messageEnd - 1) < position <= |segments|
    ensures Reached(segments, SegmentAt(segments, viewportStart), viewportStart, messageEnd, position) == messageEnd
  {
    hide Contiguous, SegmentAt;
    var first, last := SegmentAt(segments, viewportStart), SegmentAt(segments, messageEnd - 1);
    SegmentAtHolds(segments, viewportStart);
    SegmentAtHolds(segments, messageEnd - 1);
    if last < first { EndsAscend(segments, last, first); }
    EndsAscend(segments, last, position - 1);
  }

  /** The body from the end backwards, as many whole messages as `bodyHeight + scrollOffset` rows need. */
  method RenderBodyWindow(timeline: TimelineState, width: nat, bodyHeight: nat, scrollOffset: nat, tail: seq<Line>)
    returns (lines: seq<Line>)
    requires timeline.Valid()
    modifies timeline.cache`hits, timeline.cache`misses, timeline.cache`entries
    modifies timeline.cache`order, timeline.cache`uses, timeline.cache`stored
    ensures timeline.Valid()
    ensures IsTail(lines, Body(timeline, width, tail), bodyHeight + scrollOffset)
  {
    hide TimelineState.Valid, RenderCache.Fresh, Rendered, Flatten;
    ghost var parts := Rendered(timeline.cache, timeline.messages.items, Context(width, timeline.view));
    var targetLines := Max(1, bodyHeight + scrollOffset);
    var index := |timeline.messages.items|;
    lines := [];
    FlattenSuffix(parts, index);
    while index > 0 && |lines| + |tail| < targetLines
      invariant 0 <= index <= |parts| == |timeline.messages.items| && timeline.Valid()
      invariant lines == Flatten(parts[index..])
    {
      index := index - 1;
      var messageLines := timeline.RenderMessage(timeline.messages.items[index], width);
      assert messageLines == parts[index];
      FlattenSuffix(parts, index);
      lines := messageLines + lines;
    }
    assert parts == parts[..index] + parts[index..];
    FlattenConcat(parts[..index], parts[index..]);
    assert index == 0 ==> parts[index..] == parts;
    lines := lines + tail;
    assert parts == Rendered(timeline.cache, timeline.messages.items, Context(width, timeline.view));
    assert Flatten(parts) + tail == Flatten(parts[..index]) + lines;
  }

  /** `lines` ends `body`, and is all of it unless it has `target` rows. */
  predicate IsTail(lines: seq<Line>, body: seq<Line>, target: nat) {
    |lines| <= |body| && lines == body[|body| - |lines|..] && (|lines| >= target || lines == body)
  }

  lemma FlattenSuffix(parts: seq<seq<Line>>, i: nat)
    requires i <= |parts|
    ensures i == |parts| ==> Flatten(parts[i..]) == []
    ensures i < |parts| ==> Flatten(parts[i..]) == parts[i] + Flatten(parts[i + 1..])
  {
    if i < |parts| {
      assert parts[i..] == [parts[i]] + parts[i + 1..];
      FlattenConcat([parts[i]], parts[i + 1..]);
      assert Flatten([parts[i]]) == parts[i] by { assert [parts[i]][..0] == []; }
    }
  }

  lemma WindowOfTail(lines: seq<Line>, body: seq<Line>, height: nat, offset: nat)
    requires IsTail(lines, body, height + offset)
    ensures Window(lines, height, offset) == Window(body, height, offset)
  {
    if |lines| >= height + offset {
      var start := |lines| - height - offset;
      SliceOfDrop(body, |body| - |lines|, start, start + height);
    }
  }

  /** The conversation viewport: deep scroll positions go through the index, the others do not. */
  method RenderMainViewport(timeline: TimelineState, width: nat, bodyHeight: nat, scrollOffset: nat, tail: seq<Line>,
                            disableVirtualTimeline: bool)
    returns (visible: seq<Line>)
    requires timeline.Valid() && bodyHeight >= 1
    modifies timeline`index, timeline.index
    modifies timeline.cache`hits, timeline.cache`misses, timeline.cache`entries
    modifies timeline.cache`order, timeline.cache`uses, timeline.cache`stored
    ensures timeline.Valid()
    ensures visible == Window(old(Body(timeline, width, tail)), bodyHeight, scrollOffset)
  {
    hide TimelineState.Valid, Body, IsTail;
    if !disableVirtualTimeline && scrollOffset > bodyHeight * 4 && |timeline.messages.items| > 0 {
      visible := RenderIndexedBodyViewport(timeline, width, bodyHeight, scrollOffset, tail);
      return;
    }
    ghost var body := Body(timeline, width, tail);
    var bodyLines := RenderBodyWindow(timeline, width, bodyHeight, scrollOffset, tail);
    assert body == Body(timeline, width, tail);
    WindowOfTail(bodyLines, body, bodyHeight, scrollOffset);
    var start := Max(0, |bodyLines| - (bodyHeight + scrollOffset));
    visible := bodyLines[start..Min(|bodyLines|, start + bodyHeight)];
    visible := Pad(visible, bodyHeight);
  }
}
