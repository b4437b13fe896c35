/**
 Keeping the first visible message in place across a resize, and fitting the footer
 (frontend/terminal-ui/src/render.js).
 */
module ViewportAnchors {
  import opened Sequences
  import opened Wrappers
  import opened RenderCaches
  import opened TimelineRowIndexes
  import opened Timelines
  import opened TimelineFollows
  import opened Viewports

  // ---------------------------------------------------------------- the footer

  datatype Section = Section(name: string, lines: seq<Line>)

  function AllLines(sections: seq<Section>): seq<Line> {
    if sections == [] then [] else sections[0].lines + AllLines(sections[1..])
  }

  function PromptLines(sections: seq<Section>): seq<Line> {
    if sections == [] then []
    else if sections[0].name == "prompt" then sections[0].lines
    else PromptLines(sections[1..])
  }

  /** The lines of all sections but the prompt and the help. */
  function LeadingLines(sections: seq<Section>): seq<Line> {
    if sections == [] then []
    else (if sections[0].name == "prompt" || sections[0].name == "help" then [] else sections[0].lines) + LeadingLines(sections[1..])
  }

  /** All lines: every section is in its place. */
  lemma {:induction false} SectionInAll(before: seq<Section>, section: Section, after: seq<Section>)
    ensures AllLines(before + [section] + after) == AllLines(before) + (section.lines + AllLines(after)) && AllLines([]) == []
    decreases |before|
  {
    SectionAfter(before, section, after);
    if before == [] {
      EmptyAppend(section.lines + AllLines(after));
    } else {
      SectionInAll(before[1..], section, after);
      AppendAssoc(before[0].lines, AllLines(before[1..]), section.lines + AllLines(after));
    }
  }

  /** The leading lines: likewise, but for the prompt and the help. */
  lemma {:induction false} SectionInLeading(before: seq<Section>, section: Section, after: seq<Section>)
    ensures
      var lines := if section.name == "prompt" || section.name == "help" then [] else section.lines;
      LeadingLines(before + [section] + after) == LeadingLines(before) + (lines + LeadingLines(after)) && LeadingLines([]) == []
    decreases |before|
  {
    SectionAfter(before, section, after);
    var lines := if section.name == "prompt" || section.name == "help" then [] else section.lines;
    if before == [] {
      EmptyAppend(lines + LeadingLines(after));
    } else {
      SectionInLeading(before[1..], section, after);
      var first := if before[0].name == "prompt" || before[0].name == "help" then [] else before[0].lines;
      AppendAssoc(first, LeadingLines(before[1..]), lines + LeadingLines(after));
    }
  }

  /** The prompt is the first section of that name, if there is one. */
  lemma {:induction false} PromptIsFirst(before: seq<Section>, section: Section, after: seq<Section>)
    requires forall s :: s in before ==> s.name != "prompt"
    ensures PromptLines(before) == [] && (section.name == "prompt" ==> PromptLines(before + [section] + after) == section.lines)
    decreases |before|
  {
    SectionAfter(before, section, after);
    if before != [] { PromptIsFirst(before[1..], section, after); }
  }

  lemma SectionAfter(before: seq<Section>, section: Section, after: seq<Section>)
    ensures
      var all := before + [section] + after;
      if before == [] then all[0] == section && all[1..] == after
      else all[0] == before[0] && all[1..] == before[1..] + [section] + after
  {
  }

  function TakeFirst<T>(s: seq<T>, n: nat): seq<T> {
    if |s| <= n then s else s[..n]
  }

  /** What of the footer is shown: everything if it fits, else the end of the prompt below what else fits. */
  function ClampedFooter(sections: seq<Section>, height: nat): (r: seq<Line>)
    ensures |r| <= Max(0, height - 1)
  {
    var room := Max(0, height - 1);
    if |AllLines(sections)| <= room then AllLines(sections)
    else
      var prompt := TakeLast(PromptLines(sections), room);
      TakeFirst(LeadingLines(sections), room - |prompt|) + prompt
  }

  /**
   A footer that does not fit uses all the room there is for it: the end of the prompt, whose last
   line shows whenever any line can, below the start of the other sections.
   */
  lemma FooterUsesItsRoom(sections: seq<Section>, height: nat)
    ensures
      var footer, room := ClampedFooter(sections, height), Max(0, height - 1);
      var prompt, leading := PromptLines(sections), LeadingLines(sections);
      if |AllLines(sections)| <= room then footer == AllLines(sections)
      else
        && |footer| == Min(room, |prompt| + |leading|)
        && (forall k :: 0 <= k < |prompt| && k >= |prompt| - room ==> prompt[k] == footer[|footer| - |prompt| + k])
        && (forall k :: 0 <= k < |leading| && k < room - |prompt| ==> footer[k] == leading[k])
  {
    hide AllLines, PromptLines, LeadingLines;
  }

  method ClampFooterSections(sections: seq<Section>, height: nat) returns (footer: seq<Line>)
    ensures footer == ClampedFooter(sections, height)
  {
    hide AllLines, PromptLines, LeadingLines;
    var room := Max(0, height - 1);
    footer := AllLines(sections);
    if |footer| <= room { return; }
    if room <= 0 { return []; }
    var promptLines := TakeLast(PromptLines(sections), room);
    if |promptLines| >= room { return promptLines; }
    var leading := CollectLeading(sections, room - |promptLines|);
    footer := leading + promptLines;
  }

  method CollectLeading(sections: seq<Section>, remaining: nat) returns (leading: seq<Line>)
    requires remaining > 0
    ensures leading == TakeFirst(LeadingLines(sections), remaining)
  {
    hide LeadingLines, TakeFirst;
    leading := [];
    assert sections[0..] == sections && [] + LeadingLines(sections) == LeadingLines(sections);
    for i := 0 to |sections|
      invariant |leading| < remaining
      invariant TakeFirst(LeadingLines(sections), remaining) == TakeFirst(leading + LeadingLines(sections[i..]), remaining)
    {
      LeadingStep(sections, i, leading, remaining);
      var section := sections[i];
      if section.name == "prompt" || section.name == "help" { continue; }
      leading := leading + TakeFirst(section.lines, remaining - |leading|);
      if |leading| >= remaining { return; }
    }
    assert sections[|sections|..] == [];
    LeadingEnd(leading, remaining);
  }

  lemma LeadingStep(sections: seq<Section>, i: nat, leading: seq<Line>, remaining: nat)
    requires i < |sections| && |leading| < remaining
    ensures
      var section, rest := sections[i], LeadingLines(sections[i + 1..]);
      var leading' := leading + TakeFirst(section.lines, remaining - |leading|);
      if section.name == "prompt" || section.name == "help" then LeadingLines(sections[i..]) == rest
      else
        && |leading'| <= remaining
        && TakeFirst(leading + LeadingLines(sections[i..]), remaining) == TakeFirst(leading' + rest, remaining)
        && (|leading'| >= remaining ==> TakeFirst(leading' + rest, remaining) == leading')
  {
    assert sections[i..][1..] == sections[i + 1..];
  }

  lemma LeadingEnd(leading: seq<Line>, remaining: nat)
    requires |leading| < remaining
    ensures TakeFirst(leading + LeadingLines([]), remaining) == leading
  {
  }

  // ---------------------------------------------------------------- the anchor

  datatype Anchor = Anchor(messageId: string, messageIndex: int)

  datatype Layout = Layout(segments: seq<Segment>, bodyHeight: nat, tailLines: nat) {
    function MessageLines(): int { EndOf(segments) }

    function TotalBodyLines(): int { EndOf(segments) + tailLines }

    function MaxOffset(): int { Max(0, TotalBodyLines() - bodyHeight) }

    function FirstVisibleLine(offset: nat): int { Max(0, TotalBodyLines() - bodyHeight - offset) }

    predicate Valid() {
      Contiguous(segments) && bodyHeight >= 1 && forall i :: 0 <= i < |segments| ==> segments[i].messageIndex == i
    }
  }

  function FirstWithId(segments: seq<Segment>, id: string): (i: nat)
    ensures i <= |segments|
    ensures i < |segments| ==> segments[i].messageId == id
    ensures forall j :: 0 <= j < i ==> segments[j].messageId != id
  {
    if segments == [] || segments[0].messageId == id then 0
    else
      var i := FirstWithId(segments[1..], id);
      assert forall j :: 0 < j < i + 1 ==> segments[j] == segments[1..][j - 1];
      i + 1
  }

  predicate HasId(segments: seq<Segment>, id: string) {
    exists k :: 0 <= k < |segments| && segments[k].messageId == id
  }

  /** The anchored segment: by id if a message has it, else by position; -1 if neither. */
  function FindAnchorSegmentIndex(segments: seq<Segment>, anchor: Anchor): (i: int)
    ensures -1 <= i < |segments|
    ensures anchor.messageId != "" && HasId(segments, anchor.messageId) ==>
      i >= 0 && segments[i].messageId == anchor.messageId && forall j :: 0 <= j < i ==> segments[j].messageId != anchor.messageId
    ensures anchor.messageId == "" || !HasId(segments, anchor.messageId) ==>
      i == if anchor.messageIndex < |segments| && anchor.messageIndex >= 0 then anchor.messageIndex else -1
  {
    var byId := FirstWithId(segments, anchor.messageId);
    if anchor.messageId != "" && byId < |segments| then byId
    else if 0 <= anchor.messageIndex < |segments| then anchor.messageIndex
    else -1
  }

  /** The message at the top of the window, or the last one when only the tail is visible. */
  function AnchorAt(layout: Layout, offset: nat): Option<Anchor>
    requires layout.Valid()
  {
    if layout.segments == [] then None
    else
      var row := layout.FirstVisibleLine(offset);
      if row < layout.MessageLines() then
        SegmentAtHolds(layout.segments, row);
        var segment := layout.segments[SegmentAt(layout.segments, row)];
        Some(Anchor(segment.messageId, segment.messageIndex))
      else
        var last := layout.segments[|layout.segments| - 1];
        Some(Anchor(last.messageId, last.messageIndex))
  }

  /**
   The anchor names the message that the first visible row belongs to -- the row that many above the
   last window of the body, or the first one -- and the last message where that row is below them all.
   */
  lemma AnchorIsAtTop(layout: Layout, offset: nat)
    requires layout.Valid() && layout.segments != []
    ensures
      var above := EndOf(layout.segments) + layout.tailLines - layout.bodyHeight - offset;
      var row := if above < 0 then 0 else above;
      var anchor := AnchorAt(layout, offset);
      && anchor.Some? && 0 <= anchor.value.messageIndex < |layout.segments|
      && var segment := layout.segments[anchor.value.messageIndex];
      && anchor.value.messageId == segment.messageId
      && (if row < EndOf(layout.segments) then segment.start <= row < segment.end
          else anchor.value.messageIndex == |layout.segments| - 1)
  {
    hide Contiguous, EndOf;
    if layout.FirstVisibleLine(offset) < layout.MessageLines() {
      SegmentAtHolds(layout.segments, layout.FirstVisibleLine(offset));
    }
  }

  /** The offset that puts the anchor at the top, or the old offset kept in range. */
  function RestoredOffset(layout: Layout, anchor: Anchor, offset: nat): nat
    requires layout.Valid()
  {
    var target := FindAnchorSegmentIndex(layout.segments, anchor);
    if target < 0 then Min(layout.MaxOffset(), offset)
    else Min(layout.MaxOffset(), Max(0, layout.TotalBodyLines() - layout.bodyHeight - layout.segments[target].start))
  }

  /** The footer and the tail lines of a screen of some width. */
  datatype Chrome = Chrome(sections: seq<Section>, tail: seq<Line>)

  ghost function LayoutOf(timeline: TimelineState, width: nat, height: nat, chrome: Chrome): (layout: Layout)
    requires forall m :: m in timeline.messages.items ==> m in timeline.universe
    reads timeline`messages, timeline`universe, timeline`view, timeline.messages, timeline.universe, timeline.cache`messageRevisions
    ensures layout.Valid()
  {
    FreshIsContiguous(timeline.messages.items, timeline.Rows(Max(1, width)));
    Layout(FreshSegments(timeline.messages.items, timeline.Rows(Max(1, width))),
           Max(1, Max(1, height) - |ClampedFooter(chrome.sections, Max(1, height))|), |chrome.tail|)
  }

  method RenderViewportLayout(timeline: TimelineState, width: nat, height: nat, chrome: Chrome) returns (layout: Layout)
    requires timeline.Valid()
    modifies timeline`index, timeline.index
    modifies timeline.cache`hits, timeline.cache`misses, timeline.cache`entries
    modifies timeline.cache`order, timeline.cache`uses, timeline.cache`stored
    ensures timeline.Valid() && layout.Valid() && layout == LayoutOf(timeline, width, height, chrome)
    ensures timeline.index == old(timeline.index) || fresh(timeline.index)
  {
    hide RenderCache.Valid, TimelineState.Synced, FreshSegments, TimelineState.Rows, Contiguous;
    var safeHeight := Max(1, height);
    var footer := ClampFooterSections(chrome.sections, safeHeight);
    var index := timeline.EnsureTimelineRowIndex(Max(1, width));
    layout := Layout(index.segments, Max(1, safeHeight - |footer|), |chrome.tail|);
  }

  method CaptureViewportAnchor(timeline: TimelineState, follow: FollowState, width: nat, height: nat, chrome: Chrome)
    returns (anchor: Option<Anchor>)
    requires timeline.Valid()
    modifies timeline`index, timeline.index
    modifies timeline.cache`hits, timeline.cache`misses, timeline.cache`entries
    modifies timeline.cache`order, timeline.cache`uses, timeline.cache`stored
    ensures timeline.Valid() && (timeline.index == old(timeline.index) || fresh(timeline.index))
    ensures anchor == if follow.followTail || follow.scrollOffset <= 0 then None
                      else AnchorAt(LayoutOf(timeline, width, height, chrome), follow.scrollOffset)
  {
    hide TimelineState.Valid, LayoutOf, Contiguous;
    if follow.followTail || follow.scrollOffset <= 0 { return None; }
    var layout := RenderViewportLayout(timeline, width, height, chrome);
    if layout.segments == [] { return None; }
    var row := layout.FirstVisibleLine(follow.scrollOffset);
    var segment := layout.segments[|layout.segments| - 1];
    if row < layout.MessageLines() {
      var visibleSegment := FindTimelineSegmentAtRow(layout.segments, layout.MessageLines(), row);
      segment := layout.segments[visibleSegment];
    }
    anchor := Some(Anchor(segment.messageId, segment.messageIndex));
  }

  method RestoreViewportAnchor(timeline: TimelineState, follow: FollowState, anchor: Option<Anchor>,
                               width: nat, height: nat, chrome: Chrome)
    returns (offset: nat)
    requires timeline.Valid() && follow.Valid()
    modifies follow
    modifies timeline`index, timeline.index
    modifies timeline.cache`hits, timeline.cache`misses, timeline.cache`entries
    modifies timeline.cache`order, timeline.cache`uses, timeline.cache`stored
    ensures timeline.Valid() && follow.Valid() && (timeline.index == old(timeline.index) || fresh(timeline.index))
    ensures offset == follow.scrollOffset
    ensures offset == if old(follow.followTail) || anchor.None? then 0
                      else RestoredOffset(LayoutOf(timeline, width, height, chrome), anchor.value, old(follow.scrollOffset))
  {
    hide TimelineState.Valid, LayoutOf, Contiguous;
    if follow.followTail || anchor.None? {
      follow.JumpTimelineToLatest();
      return 0;
    }
    var layout := RenderViewportLayout(timeline, width, height, chrome);
    var next := RestoredOffset(layout, anchor.value, follow.scrollOffset);
    if next == 0 {
      follow.JumpTimelineToLatest();
    } else {
      follow.followTail, follow.scrollOffset := false, next;
    }
    offset := follow.scrollOffset;
  }

  /** A restored anchor starts the window, unless the body ends first; the offset stays in range. */
  lemma RestoreShowsAnchor(layout: Layout, anchor: Anchor, offset: nat)
    requires layout.Valid()
    ensures RestoredOffset(layout, anchor, offset) <= layout.MaxOffset()
    ensures FindAnchorSegmentIndex(layout.segments, anchor) < 0 ==>
      RestoredOffset(layout, anchor, offset) == if offset < layout.MaxOffset() then offset else layout.MaxOffset()
    ensures
      var target := FindAnchorSegmentIndex(layout.segments, anchor);
      target >= 0 ==>
        layout.FirstVisibleLine(RestoredOffset(layout, anchor, offset))
        == Min(layout.segments[target].start, Max(0, layout.TotalBodyLines() - layout.bodyHeight))
  {
    var target := FindAnchorSegmentIndex(layout.segments, anchor);
    if target >= 0 { EndsAscend(layout.segments, target, target); }
  }

  lemma SegmentAtStart(segments: seq<Segment>, t: nat)
    requires Contiguous(segments) && t < |segments| && segments[t].height > 0
    ensures SegmentAt(segments, segments[t].start) == t
  {
    EndsAscend(segments, t, t);
    EndsToTotal(segments, t);
    var i := SegmentAt(segments, segments[t].start);
    if i < t { EndsAscend(segments, i, t - 1); Adjacent(segments, t); }
  }

  /**
   An anchor taken in one layout, restored in another layout of the same messages and taken again,
   is the same anchor: the message at the top survives a resize.  Asked only that ids are distinct
   or absent, that the message still has a line, and that it does not fall to the end of the body.
   */
  lemma ResizeKeepsAnchor(before: Layout, after: Layout, offset: nat)
    requires before.Valid() && after.Valid() && |before.segments| == |after.segments| > 0
    requires forall i :: 0 <= i < |before.segments| ==> before.segments[i].messageId == after.segments[i].messageId
    requires forall i, j :: 0 <= i < j < |after.segments| && after.segments[i].messageId != "" ==>
      after.segments[i].messageId != after.segments[j].messageId
    ensures
      var anchor := AnchorAt(before, offset).value;
      && 0 <= anchor.messageIndex < |after.segments|
      && FindAnchorSegmentIndex(after.segments, anchor) == anchor.messageIndex
      && (after.segments[anchor.messageIndex].height > 0 && RestoredOffset(after, anchor, offset) > 0 ==>
            AnchorAt(after, RestoredOffset(after, anchor, offset)) == Some(anchor))
  {
    var anchor := AnchorAt(before, offset).value;
    if before.FirstVisibleLine(offset) < before.MessageLines() {
      SegmentAtHolds(before.segments, before.FirstVisibleLine(offset));
    }
    var t := anchor.messageIndex;
    assert 0 <= t < |after.segments| && after.segments[t].messageId == anchor.messageId;
    RestoreShowsAnchor(after, anchor, offset);
    if after.segments[t].height > 0 && RestoredOffset(after, anchor, offset) > 0 {
      SegmentAtStart(after.segments, t);
      EndsToTotal(after.segments, t);
    }
  }

  // ---------------------------------------------------------------- a resize, from end to end

  /** The size of the terminal, and what is shown around the messages at that size. */
  datatype Screen = Screen(width: nat, height: nat, chrome: Chrome)

  ghost function ScreenLayout(timeline: TimelineState, screen: Screen): (layout: Layout)
    requires forall m :: m in timeline.messages.items ==> m in timeline.universe
    reads timeline`messages, timeline`universe, timeline`view, timeline.messages, timeline.universe, timeline.cache`messageRevisions
    ensures layout.Valid()
  {
    LayoutOf(timeline, screen.width, screen.height, screen.chrome)
  }

  /** No two messages share an id; they may have none. */
  predicate DistinctIds(messages: seq<Message>)
    reads messages
  {
    forall i, j :: 0 <= i < j < |messages| && messages[i].id != "" ==> messages[i].id != messages[j].id
  }

  lemma LayoutHasMessages(timeline: TimelineState, screen: Screen)
    requires forall m :: m in timeline.messages.items ==> m in timeline.universe
    ensures
      var segments := ScreenLayout(timeline, screen).segments;
      && |segments| == |timeline.messages.items|
      && forall i :: 0 <= i < |segments| ==>
           && segments[i].messageId == timeline.messages.items[i].id
           && segments[i].height == |timeline.cache.Fresh(timeline.messages.items[i], Context(Max(1, screen.width), timeline.view))|
  {
    FreshSegmentsAt(timeline.messages.items, timeline.Rows(Max(1, screen.width)));
  }

  /** Where the window starts at a segment, its first row is the first line of the segment's message. */
  lemma WindowStartsWith(segments: seq<Segment>, parts: seq<seq<Line>>, tail: seq<Line>, height: nat, offset: nat, t: nat)
    requires Contiguous(segments) && |segments| == |parts| && t < |segments| && height >= 1
    requires forall k :: 0 <= k < |segments| ==> segments[k].height == |parts[k]|
    requires segments[t].height > 0 && Max(0, EndOf(segments) + |tail| - height - offset) == segments[t].start
    ensures Window(Flatten(parts) + tail, height, offset)[0] == parts[t][0]
  {
    hide Flatten;
    SegmentCovers(segments, parts, t);
    var flat := Flatten(parts);
    assert flat[segments[t].start..segments[t].end][0] == flat[segments[t].start];
  }

  /** What the window shows at its top: the first line of the message, unless the body ends too soon for that. */
  ghost predicate TopShows(timeline: TimelineState, screen: Screen, t: int, visible: seq<Line>)
    requires forall m :: m in timeline.messages.items ==> m in timeline.universe
    reads timeline`messages, timeline`universe, timeline`view, timeline.messages, timeline.universe, timeline.cache`messageRevisions
  {
    var layout, items := ScreenLayout(timeline, screen), timeline.messages.items;
    var ctx := Context(Max(1, screen.width), timeline.view);
    && 0 <= t < |items| == |layout.segments|
    && (layout.segments[t].height > 0 && layout.segments[t].start + layout.bodyHeight <= layout.TotalBodyLines() ==>
          |visible| > 0 && timeline.cache.Fresh(items[t], ctx) != [] && visible[0] == timeline.cache.Fresh(items[t], ctx)[0])
  }

  lemma InUniverse(timeline: TimelineState)
    requires timeline.Valid()
    ensures forall m :: m in timeline.messages.items ==> m in timeline.universe
  {
  }

  /** The anchor at the old size, the offset it gives at the new one, and the anchor there. */
  method MoveAnchor(timeline: TimelineState, follow: FollowState, before: Screen, after: Screen)
    returns (anchor: Option<Anchor>, again: Option<Anchor>)
    requires timeline.Valid() && follow.Valid()
    requires forall m :: m in timeline.messages.items ==> m in timeline.universe
    modifies follow
    modifies timeline`index, timeline.index
    modifies timeline.cache`hits, timeline.cache`misses, timeline.cache`entries
    modifies timeline.cache`order, timeline.cache`uses, timeline.cache`stored
    ensures timeline.Valid() && follow.Valid() && (timeline.index == old(timeline.index) || fresh(timeline.index))
    ensures anchor == if old(follow.followTail) then None else AnchorAt(ScreenLayout(timeline, before), old(follow.scrollOffset))
    ensures anchor.Some? ==>
      && follow.scrollOffset == RestoredOffset(ScreenLayout(timeline, after), anchor.value, old(follow.scrollOffset))
      && again == if follow.scrollOffset <= 0 then None else AnchorAt(ScreenLayout(timeline, after), follow.scrollOffset)
  {
    hide TimelineState.Valid, LayoutOf, Contiguous, AnchorAt, RestoredOffset;
    anchor := CaptureViewportAnchor(timeline, follow, before.width, before.height, before.chrome);
    var _ := RestoreViewportAnchor(timeline, follow, anchor, after.width, after.height, after.chrome);
    again := CaptureViewportAnchor(timeline, follow, after.width, after.height, after.chrome);
  }

  /**
   A terminal resize: the anchor is taken at the old size and restored at the new one.  The message
   at the top stays the anchor, and its first line is the first visible row of the next paint --
   unless the message has no line left, or the body no longer reaches down far enough.
   */
  method HandleTerminalResize(timeline: TimelineState, follow: FollowState, before: Screen, after: Screen, disableVirtualTimeline: bool)
    returns (anchor: Option<Anchor>, again: Option<Anchor>, visible: seq<Line>)
    requires timeline.Valid() && follow.Valid() && DistinctIds(timeline.messages.items)
    modifies follow
    modifies timeline`index, timeline.index
    modifies timeline.cache`hits, timeline.cache`misses, timeline.cache`entries
    modifies timeline.cache`order, timeline.cache`uses, timeline.cache`stored
    ensures timeline.Valid() && follow.Valid()
    ensures anchor.Some? <==> old(!follow.followTail && timeline.messages.items != [])
    ensures anchor.Some? ==>
      && anchor == AnchorAt(ScreenLayout(timeline, before), old(follow.scrollOffset))
      && TopShows(timeline, after, anchor.value.messageIndex, visible)
      && (follow.scrollOffset > 0 && ScreenLayout(timeline, after).segments[anchor.value.messageIndex].height > 0 ==> again == anchor)
  {
    hide TimelineState.Valid, ScreenLayout, AnchorAt, RestoredOffset, TopShows, Body, Window, DistinctIds;
    InUniverse(timeline);
    ghost var offset := follow.scrollOffset;
    anchor, again := MoveAnchor(timeline, follow, before, after);
    visible := PaintAt(timeline, after, follow.scrollOffset, disableVirtualTimeline);
    ResizeOutcome(timeline, before, after, offset);
  }

  method PaintAt(timeline: TimelineState, screen: Screen, offset: nat, disableVirtualTimeline: bool) returns (visible: seq<Line>)
    requires timeline.Valid()
    modifies timeline`index, timeline.index
    modifies timeline.cache`hits, timeline.cache`misses, timeline.cache`entries
    modifies timeline.cache`order, timeline.cache`uses, timeline.cache`stored
    ensures timeline.Valid()
    ensures visible == Window(Body(timeline, Max(1, screen.width), screen.chrome.tail), BodyHeight(screen), offset)
  {
    hide TimelineState.Valid, Body, Window;
    visible := RenderMainViewport(timeline, Max(1, screen.width), BodyHeight(screen), offset, screen.chrome.tail, disableVirtualTimeline);
  }

  /** What the steps of a resize come to. */
  lemma ResizeOutcome(timeline: TimelineState, before: Screen, after: Screen, offset: nat)
    requires (forall m :: m in timeline.messages.items ==> m in timeline.universe) && DistinctIds(timeline.messages.items)
    ensures AnchorAt(ScreenLayout(timeline, before), offset).Some? <==> timeline.messages.items != []
    ensures timeline.messages.items != [] ==>
      var anchor, layout := AnchorAt(ScreenLayout(timeline, before), offset).value, ScreenLayout(timeline, after);
      var restored := RestoredOffset(layout, anchor, offset);
      && 0 <= anchor.messageIndex < |layout.segments|
      && TopShows(timeline, after, anchor.messageIndex,
           Window(Body(timeline, Max(1, after.width), after.chrome.tail), BodyHeight(after), restored))
      && (restored > 0 && layout.segments[anchor.messageIndex].height > 0 ==> AnchorAt(layout, restored) == Some(anchor))
  {
    hide LayoutOf, Contiguous, AnchorAt, RestoredOffset, TopShows, Body, Window;
    var from, layout := ScreenLayout(timeline, before), ScreenLayout(timeline, after);
    LayoutHasMessages(timeline, before);
    LayoutHasMessages(timeline, after);
    AnchorExists(from, offset);
    if timeline.messages.items != [] {
      ResizeKeepsAnchor(from, layout, offset);
      RestoredTop(timeline, after, AnchorAt(from, offset).value, offset);
    }
  }

  lemma AnchorExists(layout: Layout, offset: nat)
    requires layout.Valid()
    ensures AnchorAt(layout, offset).Some? <==> layout.segments != []
  {
  }

  function BodyHeight(screen: Screen): nat {
    Max(1, Max(1, screen.height) - |ClampedFooter(screen.chrome.sections, Max(1, screen.height))|)
  }

  /** Body and footer fill the screen; the body has at least one row. */
  lemma BodyAndFooterFill(timeline: TimelineState, screen: Screen)
    requires forall m :: m in timeline.messages.items ==> m in timeline.universe
    ensures screen.height >= 1 ==> BodyHeight(screen) + |ClampedFooter(screen.chrome.sections, screen.height)| == screen.height
    ensures BodyHeight(screen) == ScreenLayout(timeline, screen).bodyHeight >= 1
  {
    hide AllLines, PromptLines, LeadingLines, FreshSegments;
  }

  /** The window at the restored offset, which starts with the anchor if the body reaches far enough. */
  lemma RestoredTop(timeline: TimelineState, screen: Screen, anchor: Anchor, offset: nat)
    requires forall m :: m in timeline.messages.items ==> m in timeline.universe
    requires FindAnchorSegmentIndex(ScreenLayout(timeline, screen).segments, anchor) == anchor.messageIndex >= 0
    ensures
      var layout := ScreenLayout(timeline, screen);
      TopShows(timeline, screen, anchor.messageIndex,
        Window(Body(timeline, Max(1, screen.width), screen.chrome.tail), BodyHeight(screen), RestoredOffset(layout, anchor, offset)))
  {
    hide Contiguous, Flatten, Window, FreshSegments, RestoredOffset;
    var layout, t := ScreenLayout(timeline, screen), anchor.messageIndex;
    var ctx := Context(Max(1, screen.width), timeline.view);
    var parts := Rendered(timeline.cache, timeline.messages.items, ctx);
    LayoutHasMessages(timeline, screen);
    RestoreShowsAnchor(layout, anchor, offset);
    if layout.segments[t].height > 0 && layout.segments[t].start + layout.bodyHeight <= layout.TotalBodyLines() {
      WindowStartsWith(layout.segments, parts, screen.chrome.tail, layout.bodyHeight, RestoredOffset(layout, anchor, offset), t);
    }
  }
}
