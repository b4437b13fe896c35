# Terminal UI: a verified model

A model of the state-keeping and stream-processing core of the terminal interface
(`frontend/terminal-ui/src`) and of the streaming Markdown highlighter of the Python command
line (`src/naumi_agent/main.py`).  Each part has a simple specification that its fast,
incremental or interrupted form is proved to agree with.  `dafny verify dfyconfig.toml` checks
everything.

**The timeline.**  `RenderCache.dfy` is the LRU cache of rendered messages and its bounded
mutation log; `TimelineRowIndex.dfy` and `Timeline.dfy` the row index that is patched from that
log, `TimelineEdit.dfy` what a run of edits does to what the index depends on; `Viewport.dfy` the bisection and the two ways to cut out the visible rows;
`ViewportAnchor.dfy` the footer and the anchor that survives a resize; `TimelineFollow.dfy`
following the newest output.  Messages are heap objects that are edited in place; rendering is an
opaque function of a key that contains the message's revision.  However the timeline was edited,
the viewport is the slice of "render everything".

**Stream parsers.**  `MarkdownHighlighter.dfy` proves the two mutually recursive drains equal to an
automaton that reads one character at a time, so the way a text is cut cannot matter.
`InputTokenizer.dfy` does the same for bracketed paste against a parser of the whole stream, and
`InputPress.dfy` for key presses: what a terminal sends for them, in whatever pieces it arrives, is
read as those presses.

**Protocol client.**  `DurableCursor.dfy` is the durable receipt cursor as a state machine in which
a crash may fall between any two steps.  A position of a stream is accounted for when it was
reduced, when a legacy or snapshot recovery covered it, or when it is not after the cursor first
found on disk.  `ProtocolEventBatcher.dfy` is the delta coalescer, `BridgeRecovery.dfy` the
reconnect tracker and the client's use of it.

**Terminal output.**  `AnsiText.dfy` wraps and cuts styled text; `ScreenPainter.dfy` runs the
painter's output on a model of a terminal's grid.

**Smaller algorithms.**  `CommandQuickOpen.dfy` (shell quoting and splitting, subsequence score),
`ScrollInput.dfy` (trackpad rate limiter), `InputCursor.dfy` (composer text, cursor, history walk)
and `InputHistory.dfy` (history shared by several sessions).  `Wrappers.dfy`, `Strings.dfy` and
`Sequences.dfy` hold what several modules use.

Objects whose methods update fields are classes; each method's contract equates the new state, or
the output, with a specification function, and the properties are lemmas about that function over
all inputs or all runs.  `ghost` fields record what happened (mutations, emissions, receipts)
where a property speaks of the past.

Some results differ from what one might expect of the code.  Each comes with an input and with the
exact condition under which the expected property holds:

- *A first receipt can leave a gap.*  A client that follows no stream takes a receipt at whatever
  position it comes (frontend/terminal-ui/src/index.js:1028-1032), so what lies before it may never
  be reduced, and a resume starts behind it (`SkippedReceipts`).  Nothing is skipped if and only if
  every such receipt lands: at position 1, or right after a position accounted for
  (`NothingSkippedIffAllLand`, `FirstReceiptDecides`).
- *A receipt can be reduced twice in one process lifetime.*  A session replayed after receipts have been
  taken brings back the launch snapshot's cursor (frontend/terminal-ui/src/index.js:1694-1704), and a plan
  that names that cursor passes the check (frontend/terminal-ui/src/index.js:1050-1054), so the receipts
  after it are reduced again (`ReceiptReducedTwice`).  A replay keeps the order if and only if it restores
  the cursor the client has, or restores none and the next receipt comes next
  (`ReplayKeepsOrderIffInPlace`); a whole run keeps it if and only if every
  receipt that is reduced finds the cursor where the ones before it left it (`ConsecutiveIffAllFollow`).
- *A paint can miss what a resize did.*  The painter compares sizes only (`ResizeBackIsMissed`).  A
  paint shows its frame if and only if it is a full one or the rows it takes for unchanged are on
  the grid (`PaintShowsFrame`, `RunShowsLastFrame`; `FramesShownIffNoneIsMissed` for every paint of a run).
- *Wrapping can change a text.*  A grapheme too wide for any line becomes an ellipsis, and
  zero-width graphemes after the last such one can be lost (`WrapWideGlyphAndMark`).  The text is
  kept if and only if every grapheme fits (`WrapAnsiLine`, which also says exactly when cells are
  lost and when a line does not end clean).
- *The recovery tracker can issue an attempt twice* (`UnguardedRunRepeats`), if and only if it is
  completed at rest in an incident that has issued an attempt (`CompleteRepeatsIffUnsafe`).  The
  client completes only an active recovery (frontend/terminal-ui/src/index.js:487-490).
- *A save can lose entries of other sessions* (`HundredEntriesForgetOne`, `FullFileForgetsOldest`,
  `FullHistoryReplacesOthers`).  It appends if and only if the file and the session's new entries
  together are within the caps (`SaveAppendsIffWithinLimits`).
- *The row index can be stale.*  It compares lengths, so an array cut below the indexed count and
  grown back with other messages passes for the indexed one (`RegrownIndexIsStale`).  A lookup is
  exact if and only if it builds the index anew or the reused one has the array's first messages
  (`EnsureTimelineRowIndex`), which an append preserves if and only if it does not complete such a
  regrowth (`AppendMessage`).  Over a whole run the edits alone decide (`RunThenEnsure`,
  `KeptIffAllFit`); where the array is never cut every lookup is exact.

Assumptions, where the source calls code outside this model: equal render keys render equally;
syntax colouring, whitespace classes and lower-casing are parameters; reducing a protocol record
is opaque (for the batcher: additive in a stream's deltas); a segmentation of text into graphemes
with widths is given; the clock, the disk and timers are events or parameters.

## Model

| member | source | states |
|---|---|---|
| `RenderCaches.RenderCache.RenderMutationsSince` | frontend/terminal-ui/src/render-cache.js:56-65 | no answer exactly when the log no longer reaches back; otherwise one record per revision after `previous`, each the recorded one, except that the log's oldest record may be the "all" an overflow left |
| `RenderCaches.RenderCache.RecordRenderMutation` | frontend/terminal-ui/src/render-cache.js:130-138 | the revision counts all mutations ever recorded; past 1024 records the log collapses to a single "all" and stays consistent with the full history |
| `RenderCaches.RenderCache.RenderCachedMessage` | frontend/terminal-ui/src/render-cache.js:17-35 | what comes back is the rendering for this width, view, id, face and revision, cached or not; a hit happens exactly when that key is among the most recent ones, which the cache keeps (`ValidEntries`); the returned list is a new one and never a stored one |
| `RenderCaches.RenderCache.KeysAgree` | frontend/terminal-ui/src/render-cache.js:67-104 | two lookups have one key if and only if width, view, id, face and revision all agree |
| `RenderCaches.RenderCache.HitIsARepeat` | frontend/terminal-ui/src/render-cache.js:17-24 | a hit is a lookup with the width, view, id, face and revision of an earlier one |
| `RenderCaches.RenderCache.MarkedIsRenderedAgain` | frontend/terminal-ui/src/render-cache.js:46-54 | a marked message is rendered again at every width and view |
| `RenderCaches.RenderCache.EvictOldEntries` | frontend/terminal-ui/src/render-cache.js:122-128 | what stays is the newest `maxEntries` keys in order, with their entries untouched |
| `RenderCaches.RenderCache.ClearRenderCache` | frontend/terminal-ui/src/render-cache.js:37-44 | empties the cache, starts a new generation and records one "all" mutation, keeping the messages' revisions |
| `RenderCaches.RenderCache.MarkMessageRenderDirty` | frontend/terminal-ui/src/render-cache.js:46-54 | raises one message's revision above that of every earlier use of it and records exactly that message; entries stay |
| `RenderCaches.LruStep` | frontend/terminal-ui/src/render-cache.js:17-35 | moving one key to the newest end and dropping the oldest keeps exactly the `n` most recently used distinct keys |
| `RenderCaches.RecencyKeepsMostRecent` | frontend/terminal-ui/src/render-cache.js:17-35 | a key is in the cache exactly when fewer than `n` other distinct keys were used since its last use |
| `RenderCaches.RecencyStep` | frontend/terminal-ui/src/render-cache.js:19-24 | a use moves its key to the most recent end and leaves the order of the others |
| `RenderCaches.ScribbleOnReturnedList` | frontend/terminal-ui/src/render-cache.js:17-35 | writing into a returned list changes no later render |
| `TimelineRowIndexes.RowIndex.Push` | frontend/terminal-ui/src/timeline-row-index.js:114-136 | a new segment starts where the last one ended; positions, total and contiguity are kept |
| `TimelineRowIndexes.RowIndex.Resize` | frontend/terminal-ui/src/timeline-row-index.js:138-163 | one segment gets its new height and every later one moves by the difference, in place; the total follows |
| `TimelineRowIndexes.ResizedIsContiguous` | frontend/terminal-ui/src/timeline-row-index.js:150-162 | the patched segments are contiguous and the total changes by the height difference |
| `TimelineRowIndexes.ResizedIsCurrent` | frontend/terminal-ui/src/timeline-row-index.js:138-163 | patching one stale message removes it, and only it, from the stale ones |
| `TimelineRowIndexes.CurrentIsFresh` | frontend/terminal-ui/src/timeline-row-index.js:23-66 | contiguous segments whose heights are all current are exactly those of a build from scratch |
| `Timelines.TimelineState.EnsureTimelineRowIndex` | frontend/terminal-ui/src/timeline-row-index.js:5-66 | the result equals the index a build from scratch over the current messages gives if and only if it was built anew or the reused one had the first messages of the array; it is reused exactly when array, width, generation, length and log allow it |
| `Timelines.TimelineState.ReuseIndex` | frontend/terminal-ui/src/timeline-row-index.js:15-40 | a reused index, with new messages appended and logged ones rendered again, is exact if and only if it had the first messages of the array; it is left alone exactly when messages were removed |
| `Timelines.TimelineState.StaleIsMutated` | frontend/terminal-ui/src/timeline-row-index.js:138-146 | without an "all" record, the log names every message whose segment may be out of date |
| `Timelines.TimelineState.AppendTimelineMessages` | frontend/terminal-ui/src/timeline-row-index.js:114-136 | appends a segment for every message after the indexed ones, or refuses a shrunken array |
| `Timelines.TimelineState.ApplyMessageMutations` | frontend/terminal-ui/src/timeline-row-index.js:138-163 | after re-rendering the distinct logged messages no segment is stale, where no message has several; no segment changes its message |
| `Timelines.TimelineState.RunThenEnsure` | frontend/terminal-ui/src/timeline-row-index.js:5-66 | after any run of appends, truncations, replacements, splices with a clear, marked edits, edits that keep the height, view changes and lookups, the messages, their ids and faces, the view and the index are what the edits say, and the next lookup is exact if and only if it builds anew or reuses an index of the array's first messages, as computed from the edits alone; it is exact whenever every message that joins fits, and whenever the array is never cut |
| `Timelines.TimelineState.SeenDecides` | frontend/terminal-ui/src/timeline-row-index.js:16-25 | the messages, the index's messages and width and the state of the log decide whether a lookup reuses the index and whether that is safe |
| `TimelineEdits.KeptIffAllFit` | frontend/terminal-ui/src/timeline-row-index.js:114-116 | over every run the index stays fit for reuse if and only if no append brings the array back to the indexed length with other messages than the indexed ones |
| `TimelineEdits.UncutRunIsInOrder` | frontend/terminal-ui/src/timeline-row-index.js:114-116 | over every run that never cuts the array the index has the array's first messages |
| `RenderCaches.MarkIsNamed` | frontend/terminal-ui/src/render-cache.js:130-138 | a log that names what an index missed still does after one more mark, if and only if it does not overflow |
| `Timelines.TimelineState.AppendMessage` | frontend/terminal-ui/src/timeline-row-index.js:114-115 | an append leaves the index fit for reuse if and only if it does not bring the array back to the indexed length with other messages than the indexed ones |
| `Timelines.RegrownIndexIsStale` | frontend/terminal-ui/src/timeline-row-index.js:114-115 | after a lookup, cutting the last message and appending another one makes the next lookup reuse an index that is not the current one |
| `Timelines.TimelineState.EditMessageQuietly` | frontend/terminal-ui/src/timeline-row-index.js:15-40 | an edit that keeps the id and the height at the indexed width needs no mark |
| `Timelines.TimelineState.EditMessage` | frontend/terminal-ui/src/render-cache.js:46-54 | an edit followed by a dirty mark keeps the index recoverable |
| `Timelines.TimelineState.SpliceMessages` | frontend/terminal-ui/src/render-cache.js:37-44 | any change of the array in place followed by a clear keeps the index recoverable |
| `TimelineFollows.FollowState.ScrollTimeline` | frontend/terminal-ui/src/timeline-follow.js:49-57 | the offset is clamped at 0; reaching 0 follows the tail and clears the unread outputs, anything else detaches |
| `TimelineFollows.FollowState.DetachTimeline` | frontend/terminal-ui/src/timeline-follow.js:36-40 | detaching means an offset of at least 1 |
| `TimelineFollows.FollowState.MarkTimelineOutput` | frontend/terminal-ui/src/timeline-follow.js:19-34 | a keyed output is unread once while detached and never while following |
| `Viewports.FindTimelineSegmentAtRow` | frontend/terminal-ui/src/timeline-row-index.js:68-85 | the bisection finds the first segment that ends after the clamped row, or -1 without rows |
| `Viewports.SegmentAtHolds` | frontend/terminal-ui/src/timeline-row-index.js:68-85 | the first segment that ends after a row holds it |
| `Viewports.SegmentCovers` | frontend/terminal-ui/src/timeline-row-index.js:114-136 | a segment's interval of the whole body is exactly its message's rendered lines |
| `Viewports.RenderIndexedBodyViewport` | frontend/terminal-ui/src/render.js:124-177 | the indexed viewport is the window of the whole body, for every offset and height |
| `Viewports.VisibleMessageLines` | frontend/terminal-ui/src/render.js:150-169 | bisection with one segment of overscan yields exactly the body's rows between the two bounds |
| `Viewports.RenderBodyWindow` | frontend/terminal-ui/src/render.js:226-244 | the tail window is a suffix of the whole body, long enough or all of it |
| `Viewports.WindowOfTail` | frontend/terminal-ui/src/render.js:116-121 | cutting the window out of such a suffix is cutting it out of the whole body |
| `Viewports.WindowRows` | frontend/terminal-ui/src/render.js:116-121 | row by row, the window shows the body from `offset` rows above its end, or from its start, and blanks below the end |
| `Viewports.RenderMainViewport` | frontend/terminal-ui/src/render.js:97-122 | whichever way is taken, the viewport is the slice of the naive body, padded with blanks |
| `ViewportAnchors.ClampFooterSections` | frontend/terminal-ui/src/render.js:203-224 | the footer that fits, else the end of the prompt below the start of the other sections without help |
| `ViewportAnchors.FooterUsesItsRoom` | frontend/terminal-ui/src/render.js:203-224 | a footer that does not fit fills the room it has: the end of the prompt, below the start of the other sections without help, in order |
| `ViewportAnchors.SectionInAll` | frontend/terminal-ui/src/render.js:203-207 | the footer's lines are those of all sections, each in its place |
| `ViewportAnchors.SectionInLeading` | frontend/terminal-ui/src/render.js:210-223 | the lines above the prompt are those of the sections other than the prompt and the help, each in its place |
| `ViewportAnchors.PromptIsFirst` | frontend/terminal-ui/src/render.js:208-209 | the prompt is the first section of that name |
| `ViewportAnchors.BodyAndFooterFill` | frontend/terminal-ui/src/render.js:324-348 | body and footer fill the screen, and the body has at least one row |
| `ViewportAnchors.FindAnchorSegmentIndex` | frontend/terminal-ui/src/render.js:350-359 | the first segment with the anchor's id, else the one at its position, else -1 |
| `ViewportAnchors.RenderViewportLayout` | frontend/terminal-ui/src/render.js:324-348 | the layout is that of a build from scratch at the new size |
| `ViewportAnchors.CaptureViewportAnchor` | frontend/terminal-ui/src/render.js:260-287 | no anchor while following; else the message at the top row, or the last message when only the tail shows |
| `ViewportAnchors.AnchorIsAtTop` | frontend/terminal-ui/src/render.js:260-287 | the anchor names the message that the first visible row belongs to, and the last message where that row is below them all |
| `ViewportAnchors.RestoreViewportAnchor` | frontend/terminal-ui/src/render.js:289-322 | the offset is the restored one and the tail is followed exactly when it is 0 |
| `ViewportAnchors.RestoreShowsAnchor` | frontend/terminal-ui/src/render.js:303-321 | the first visible row becomes min(anchor start, max(0, total - body height)), with the offset in range |
| `ViewportAnchors.ResizeKeepsAnchor` | frontend/terminal-ui/src/render.js:260-322 | an anchor restored in another layout of the same messages is found at its message, and capturing again gives the same anchor |
| `ViewportAnchors.MoveAnchor` | frontend/terminal-ui/src/index.js:1780-1794 | capture at the old size, restore at the new one, capture again |
| `ViewportAnchors.HandleTerminalResize` | frontend/terminal-ui/src/index.js:1780-1794 | over one timeline and two sizes: the message at the top stays the anchor and its first line is the first row of the next paint, unless it has no line left or the body ends too soon |
| `MarkdownHighlighters.StreamingMarkdownHighlighter.Feed` | src/naumi_agent/main.py:1429-1455 | one call produces the output and the state that a character-by-character automaton produces |
| `MarkdownHighlighters.StreamingMarkdownHighlighter.FeedChunks` | src/naumi_agent/main.py:1429-1455 | fed in pieces or at once, a text gives the same output and the same state |
| `MarkdownHighlighters.StreamingMarkdownHighlighter.FlushAll` | src/naumi_agent/main.py:1457-1467 | what the stream still holds comes out, as the reference flush says; `PlainStreamUnchanged`, `OpenHeaderFlush`, `UnclosedBlockFlush` and `ClosingFenceFlush` say what that is for every place a stream can end |
| `MarkdownHighlighters.StreamingMarkdownHighlighter.DrainTextBuffer` | src/naumi_agent/main.py:1469-1501 | draining text equals running the automaton over it, and terminates because the buffered length shrinks |
| `MarkdownHighlighters.StreamingMarkdownHighlighter.DrainCodeBuffer` | src/naumi_agent/main.py:1503-1540 | draining code equals running the automaton over it, and terminates because the buffered length shrinks |
| `MarkdownHighlighters.RunConcat` | src/naumi_agent/main.py:1429-1455 | running a then b is running a + b: same output, same state |
| `MarkdownHighlighters.ChunksDoNotMatter` | src/naumi_agent/main.py:1429-1455 | the output and the final state do not depend on how the text is cut, for all chunkings |
| `MarkdownHighlighters.FenceStep` | src/naumi_agent/main.py:1469-1501 | text up to the first fence comes out unchanged, then the header line, then the code state |
| `MarkdownHighlighters.CodeStep` | src/naumi_agent/main.py:1503-1540 | each complete line of code is highlighted, left out or ends the block |
| `MarkdownHighlighters.PlainStreamUnchanged` | src/naumi_agent/main.py:1457-1501 | a stream without a fence comes out as it went in |
| `MarkdownHighlighters.CodeBlockRun` | src/naumi_agent/main.py:1469-1540 | a fenced block comes out as header, at most the allowed highlighted lines, a note of how many were left out, and the closing line |
| `MarkdownHighlighters.UnclosedBlockFlush` | src/naumi_agent/main.py:1503-1540 | a block left open at the end of the stream still shows its last line, if it fits, and the note of what was left out, and stays open |
| `MarkdownHighlighters.ClosingFenceFlush` | src/naumi_agent/main.py:1524-1530 | a closing fence that the stream ends with, without a newline, closes the block: the note of what was left out, the dim fence, and text that follows comes out unchanged |
| `MarkdownHighlighters.OpenHeaderFlush` | src/naumi_agent/main.py:1457-1467 | a fence header that the stream ends in comes out as it was |
| `MarkdownHighlighters.LanguageIsHeader` | src/naumi_agent/main.py:1496-1496 | a block's language is its header without the white space around it, or "text" |
| `MarkdownHighlighters.FrameOfBlock` | src/naumi_agent/main.py:1542-1548 | header, closing line and note to the letter: dimmed, and with the number of lines left out and the limit |
| `InputTokenizers.InputTokenizer.TokenizeInputChunk` | frontend/terminal-ui/src/input-buffer.js:59-99 | the tokens, the open paste and the held-back text are those that the reference reading of the held-back text and the chunk gives; they account for all input in order, and the pastes are those of the whole stream |
| `InputPresses.PressesAreTold` | frontend/terminal-ui/src/input-buffer.js:101-153 | key presses sent one after the other (CSI and SS3 sequences, control characters, runs of text) are split into exactly those presses, in order |
| `InputPresses.PressesInOneChunk` | frontend/terminal-ui/src/input-buffer.js:55-99 | key presses without a paste that arrive in one chunk give one token each, in order, and nothing is held back |
| `InputPresses.PressAcrossChunks` | frontend/terminal-ui/src/input-buffer.js:386-407 | an escape sequence cut in two by the arrival of its chunks gives the token it gives in one piece; its beginning waits |
| `InputPresses.BeginningIsHeld` | frontend/terminal-ui/src/input-buffer.js:386-402 | any beginning of an escape sequence, up to the limit, is held back |
| `InputTokenizers.UnfinishedIsHeld` | frontend/terminal-ui/src/input-buffer.js:386-402 | what follows the last escape of a text is held back exactly when it is unfinished and has at most 16 characters |
| `InputPresses.ArrowWithoutEscape` | frontend/terminal-ui/src/input-buffer.js:117-121 | two characters of an arrow key without its escape are that arrow key |
| `InputTokenizers.KeysCoverText` | frontend/terminal-ui/src/input-buffer.js:101-153 | splitting into keys loses and reorders nothing |
| `InputTokenizers.LongestSuffixPrefix` | frontend/terminal-ui/src/input-buffer.js:409-418 | the result is the longest suffix, within the limit, that is a prefix of the marker |
| `InputTokenizers.InsideKeep` | frontend/terminal-ui/src/input-buffer.js:65-73 | holding back that suffix never lets an end marker straddle text already taken into the paste |
| `InputTokenizers.TrailingKeepsStart` | frontend/terminal-ui/src/input-buffer.js:386-402 | holding back an unfinished escape never lets a start marker straddle keys already given out |
| `InputTokenizers.StreamIsParsed` | frontend/terminal-ui/src/input-buffer.js:59-99 | the finished and open pastes are those a parser of the whole stream finds |
| `InputTokenizers.PasteIsParsed` | frontend/terminal-ui/src/input-buffer.js:59-99 | START + content + END with no earlier END is one paste with that content |
| `InputTokenizers.TokenizeStream` | frontend/terminal-ui/src/input-buffer.js:55-99 | for every cut into chunks, exactly the pastes of the whole stream are found, and the open one |
| `InputTokenizers.TokenizePaste` | frontend/terminal-ui/src/input-buffer.js:59-99 | START + content + END gives exactly one token, the paste, for every cut into chunks |
| `InputCursors.LocationGivesCursor` | frontend/terminal-ui/src/input-buffer.js:217-231 | line offset plus column is the cursor |
| `InputCursors.CursorGivesLocation` | frontend/terminal-ui/src/input-buffer.js:340-344 | every line and column is the location of exactly the cursor it gives |
| `InputCursors.InputBuffer.GetInputCursorLocation` | frontend/terminal-ui/src/input-buffer.js:217-231 | the loop computes the location of the clamped cursor |
| `InputCursors.InputBuffer.MoveInputCursorVertical` | frontend/terminal-ui/src/input-buffer.js:233-247 | moves as specified, and reports success exactly when the target line exists |
| `InputCursors.VerticalMoveArrives` | frontend/terminal-ui/src/input-buffer.js:233-247 | a move up arrives on the line above and a move down on the line below, at min(preferred column, its length) |
| `InputCursors.UpIsBefore` | frontend/terminal-ui/src/input-buffer.js:233-247 | there is a way up exactly where a line break comes before the cursor, and it leads before it; there is a way down exactly where one comes after, and it leads behind it |
| `InputCursors.LinesMakeText` | frontend/terminal-ui/src/input-buffer.js:217-231 | the lines have no line break in them and, joined by line breaks, make the text |
| `InputCursors.LocationCounts` | frontend/terminal-ui/src/input-buffer.js:217-231 | the line of a location is the number of line breaks before it, its column what comes after the last of them |
| `InputCursors.InsertPlaces` | frontend/terminal-ui/src/input-buffer.js:169-178 | an inserted text is at the old cursor, the new cursor is behind it, what was around it stays |
| `InputCursors.SetPlaces` | frontend/terminal-ui/src/input-buffer.js:159-163 | a text that is set has the cursor where it is asked for, within the text, and at its end if nothing is asked |
| `InputCursors.BoundaryMoveArrives` | frontend/terminal-ui/src/input-buffer.js:249-256 | home and end stay on the line and reach its start or end |
| `InputCursors.RunKeepsInv` | frontend/terminal-ui/src/input-buffer.js:159-256 | in every run of edits, moves and history steps, offset plus column reproduces the cursor and a set preferred column decides the column |
| `InputCursors.PathKeepsColumn` | frontend/terminal-ui/src/input-buffer.js:233-247 | along any path of vertical moves the column is min(starting preferred column, line length) |
| `InputCursors.ClosedPathRestoresCursor` | frontend/terminal-ui/src/input-buffer.js:233-247 | any path of vertical moves back to its line restores the cursor |
| `InputCursors.OppositeMoveRestoresCursor` | frontend/terminal-ui/src/input-buffer.js:233-247 | a successful vertical move can be undone by its opposite, which restores the cursor |
| `InputCursors.InsertIsUndone` | frontend/terminal-ui/src/input-buffer.js:169-190 | as many backspaces as inserted graphemes restore text and cursor |
| `InputCursors.BackspacesAreLeftsAndDeletions` | frontend/terminal-ui/src/input-buffer.js:180-211 | n backspaces are n moves left and n deletions forwards if and only if n graphemes are before the cursor or none behind it |
| `InputCursors.StepsReachTheEnds` | frontend/terminal-ui/src/input-buffer.js:204-211 | n steps to a side move the cursor by n, stopping at the end, which they reach exactly when n is large enough |
| `InputCursors.InputBuffer.InsertInputText` | frontend/terminal-ui/src/input-buffer.js:169-178 | splices at the cursor, moves behind the text, forgets preferred column and history walk |
| `InputCursors.InputBuffer.NavigateInputHistory` | frontend/terminal-ui/src/input-buffer.js:305-333 | walks the history, keeping the draft while it does |
| `InputCursors.UpsThenDownsRestoreDraft` | frontend/terminal-ui/src/input-buffer.js:305-333 | n steps back and n steps forth restore the draft, for every n up to the history's length |
| `DurableCursors.StepKeepsInv` | frontend/terminal-ui/src/index.js:787-910 | every step of receiving, recovering, saving, acknowledging, crashing and restarting keeps: cursors are reduced, from a snapshot or first found on disk; the run since the cursor was last set is consecutive; acknowledgements are saved |
| `DurableCursors.RunKeepsInv` | frontend/terminal-ui/src/index.js:787-910 | the same over every run |
| `DurableCursors.AcksAreSaved` | frontend/terminal-ui/src/index.js:892-904 | in every reachable state, a cursor is acknowledged only after it was written to disk |
| `DurableCursors.ResumeIsKnown` | frontend/terminal-ui/src/index.js:1002-1020 | after a crash at any step the next process resumes from a cursor that was reduced, came from a snapshot or was first found on disk; without legacy and snapshot steps, from a reduced one or the first one on disk |
| `DurableCursors.NothingSkippedIffAllLand` | frontend/terminal-ui/src/index.js:1028-1032 | over every run, nothing is ever skipped below a reduced receipt, the cursor or one that a resume may start from, if and only if every receipt taken without a cursor is at position 1 or right after a position accounted for |
| `DurableCursors.StepGapless` | frontend/terminal-ui/src/index.js:1022-1039 | the same for one step: only a first receipt that does not land leaves a gap |
| `DurableCursors.ResumeSkipsNothing` | frontend/terminal-ui/src/index.js:1002-1020 | if all first receipts land, the cursor a next process resumes from skips nothing, wherever a crash strikes |
| `DurableCursors.FirstReceiptDecides` | frontend/terminal-ui/src/index.js:1028-1032 | a first receipt, saved, then a crash: the resume cursor skips nothing if and only if the receipt landed; else the position before it is lost for good |
| `DurableCursors.SkippedReceipts` | frontend/terminal-ui/src/index.js:1028-1032 | an input: position 50 on disk, receipt 100 before the session is replayed; the next process resumes at 100 and 51 to 99 were never reduced |
| `DurableCursors.ConsecutiveIffAllFollow` | frontend/terminal-ui/src/index.js:1022-1059 | over every run, receipts are reduced in consecutive order, none skipped, none twice, if and only if each one that is reduced finds the cursor where those before it left it (or, where the cursor does not decide, is the next one itself) |
| `DurableCursors.ReplayKeepsOrderIffInPlace` | frontend/terminal-ui/src/index.js:1050-1054 | a replayed session whose plan is the cursor it restores takes the client there and the next receipt is reduced: in order with those reduced before if and only if the client was there already; restored to no cursor, the client reduces a receipt at any position, in order if and only if it is the next one |
| `DurableCursors.ReceiptReducedTwice` | frontend/terminal-ui/src/index.js:1694-1704 | an input: position 50 on disk, receipt 51 reduced, saved and acknowledged, then the session replayed from the launch snapshot; receipt 51 is reduced again in the same process |
| `DurableCursors.LifetimeIsConsecutive` | frontend/terminal-ui/src/index.js:1022-1059 | in one process lifetime without legacy and snapshot recovery, in which no replayed session takes a client that has reduced receipts elsewhere, receipts are reduced in consecutive order; a replay planned for a cursor that is not restored stops the client |
| `DurableCursors.ReplayCatchesUp` | frontend/terminal-ui/src/index.js:1002-1039 | a server replaying its log after the resume cursor brings the client to the log's end: each receipt reduced once, in order, saved and acknowledged |
| `DurableCursors.CrashThenReplay` | frontend/terminal-ui/src/index.js:880-904 | a crash at any step of a client that keeps to its session, then restart, session replay, the log from the cursor on disk and the end of the replay: everything is reduced and saved up to the log's end, and of the replayed receipts only the first can have been reduced before |
| `DurableCursors.StartCrashThenReplay` | frontend/terminal-ui/src/index.js:880-904 | the same from the start of a client, with a cursor on disk or with none and a first receipt at position 1: every position after the one first found on disk is reduced |
| `DurableCursors.SteadyRunTracks` | frontend/terminal-ui/src/index.js:787-910 | over any run with any number of crashes and restarts of such a client, every position up to the one on disk was reduced and at most one after it |
| `DurableCursors.TerminalEventClient.ProcessDurableRecord` | frontend/terminal-ui/src/index.js:781-804 | the handler takes exactly the steps of the state machine for its decision: acknowledge again, stop, or reduce, save, acknowledge |
| `DurableCursors.TerminalEventClient.PersistTerminalEventCursor` | frontend/terminal-ui/src/index.js:1094-1101 | saves the cursor in memory and on disk, or stops the process |
| `DurableCursors.TerminalEventClient.AcknowledgeTerminalEvent` | frontend/terminal-ui/src/index.js:1103-1116 | an acknowledgement is sent exactly when negotiated and the cursor is set |
| `DurableCursors.ReplayKeepsInv` | frontend/terminal-ui/src/index.js:880-887 | a restored session keeps the invariant, whichever snapshot it comes from |
| `DurableCursors.DoneKeepsInv` | frontend/terminal-ui/src/index.js:1061-1092 | the end of a recovery keeps the invariant, for replay and snapshot alike |
| `DurableCursors.DeliverOutcome` | frontend/terminal-ui/src/index.js:1022-1039 | a receipt of a client that follows a stream, outside a legacy recovery: one from before the cursor is only acknowledged again, the next one is reduced, any other one or one of another stream stops the client, and the next process resumes at the cursor |
| `DurableCursors.AnyReceiptIsTaken` | frontend/terminal-ui/src/index.js:1028-1032 | in a legacy recovery, and where no stream is followed, every receipt is reduced |
| `DurableCursors.ResumeNamesCursor` | frontend/terminal-ui/src/index.js:1002-1020 | a resume request asks for what follows the client's own cursor, or the stored one, and there is none without a cursor |
| `DurableCursors.WhatMayCome` | frontend/terminal-ui/src/index.js:781-804 | an idle client takes whatever the server sends; one that has to save or acknowledge does that, and then is idle or stops |
| `DurableCursors.RestartIsFresh` | frontend/terminal-ui/src/index.js:137-142 | a process that starts again knows nothing but what is on disk |
| `DurableCursors.RecoveryStarts` | frontend/terminal-ui/src/index.js:1041-1059 | a replayed session: a replay goes on if and only if the restored cursor is the planned one, a recovery after a gap starts from no cursor and saves that, a legacy one goes on from the restored cursor |
| `DurableCursors.ReplayMustArrive` | frontend/terminal-ui/src/index.js:1061-1092 | after the end of a replay the client is alive if and only if the result is for its session and there is no latest cursor or the client is at it; what it then acknowledges is the latest cursor |
| `DurableCursors.ArrivedReplayIsWhole` | frontend/terminal-ui/src/index.js:1068-1078 | over every run whose first receipts all land, a replay that ends without stopping the client has skipped nothing up to the latest cursor |
| `DurableCursors.SnapshotSetsCursor` | frontend/terminal-ui/src/index.js:1079-1091 | the end of a snapshot recovery sets the cursor to the latest one, or to none, saves it and then acknowledges it |
| `DurableCursors.LegacyModeEnds` | frontend/terminal-ui/src/index.js:905-910 | the legacy mode starts with a legacy plan and goes on until a runtime status, the start or end of another recovery, or a restart |
| `DurableCursors.RememberedIsRestored` | frontend/terminal-ui/src/index.js:1694-1704 | what is remembered of a session is the cursor that a replay restores, unless it takes the launch snapshot |
| `DurableCursors.TerminalEventClient.CompleteTerminalEventRecovery` | frontend/terminal-ui/src/index.js:1061-1092 | the end of a recovery, from its check to its acknowledgement: steps of the state machine; a replay leaves the client alive exactly when it has arrived; a client that goes on is at the latest cursor and acknowledges it |
| `DurableCursors.TerminalEventClient.RestoreSession` | frontend/terminal-ui/src/index.js:880-887 | a replayed session: the cursor is restored and the recovery plan applied to it, as steps of the state machine |
| `ProtocolEventBatchers.RunIsBatched` | frontend/terminal-ui/src/protocol-event-batcher.js:37-102 | over any run of pushes, flushes, timer firings and cancels, delivered and pending records are the pushed list cut into consecutive same-stream groups within both limits, each merged; the timer is armed exactly while something is pending |
| `ProtocolEventBatchers.BatchingIsInvisible` | frontend/terminal-ui/src/protocol-event-batcher.js:64-93 | any reducer additive in deltas ends in the same state as without batching |
| `ProtocolEventBatchers.PushesMergeAllTheyMay` | frontend/terminal-ui/src/protocol-event-batcher.js:64-93 | left alone by timers and flushes, no delivered group could have taken in the record that follows it |
| `ProtocolEventBatchers.MergedContent` | frontend/terminal-ui/src/protocol-event-batcher.js:129-141 | a merged group has all its content in order |
| `ProtocolEventBatchers.MergedIsLatest` | frontend/terminal-ui/src/protocol-event-batcher.js:129-141 | id, sequence number and request id are the last ones any record of the group names |
| `ProtocolEventBatchers.MergedIsOneDelta` | frontend/terminal-ui/src/protocol-event-batcher.js:115-141 | a merged group is itself a delta of the same stream |
| `ProtocolEventBatchers.GroupIsOneStream` | frontend/terminal-ui/src/protocol-event-batcher.js:104-120 | a group is one exactly when its records are all answer tokens or all thinking deltas, of one type, payload type, phase and request, within both limits; what they merge to has those fields too |
| `ProtocolEventBatchers.PushByFields` | frontend/terminal-ui/src/protocol-event-batcher.js:67-93 | what a push does, by the fields of the record and the pending one: straight through, joined while there is room, or sending the pending one on and taking its place |
| `ProtocolEventBatchers.MergedFields` | frontend/terminal-ui/src/protocol-event-batcher.js:129-141 | a merged group has the first record's own fields, and every payload field that any record has, as the last one that has it says |
| `ProtocolEventBatchers.ProtocolEventBatcher.PushRecord` | frontend/terminal-ui/src/protocol-event-batcher.js:64-93 | delivers, merges or starts a group as specified, and tells whether it batched |
| `ProtocolEventBatchers.ProtocolEventBatcher.FlushPending` | frontend/terminal-ui/src/protocol-event-batcher.js:37-46 | delivers the pending record, disarms the timer and returns the number of merged events |
| `ProtocolEventBatchers.ProtocolEventBatcher.CancelPending` | frontend/terminal-ui/src/protocol-event-batcher.js:95-101 | drops what is pending and returns its count |
| `ProtocolEventBatchers.ProtocolEventBatcher.constructor` | frontend/terminal-ui/src/protocol-event-batcher.js:10-25 | limits asked for out of range become the nearest ones in it, and missing ones 65536 characters and 2048 events |
| `BridgeRecoveries.AttemptsAreBounded` | frontend/terminal-ui/src/bridge-recovery.js:108-176 | between two settle or abort calls at most `maxAttempts` attempts are allowed, across any completions and new failures |
| `BridgeRecoveries.AttemptsIncrease` | frontend/terminal-ui/src/bridge-recovery.js:108-135 | in every run that completes a recovery only while it is active or settling, (incident, attempt) pairs strictly increase and the floor under them never falls |
| `BridgeRecoveries.AttemptsNeverRepeat` | frontend/terminal-ui/src/bridge-recovery.js:108-176 | the pairs increase strictly as long as every completion is safe: active, settling, or at rest in an incident that has issued no attempt |
| `BridgeRecoveries.CompleteRepeatsIffUnsafe` | frontend/terminal-ui/src/bridge-recovery.js:108-156 | after any such run, completing and failing again issues an attempt a second time if and only if the completion is not safe |
| `BridgeRecoveries.CompleteKeepsOrder` | frontend/terminal-ui/src/bridge-recovery.js:150-156 | completing lowers the floor under the next attempts if and only if the tracker is at rest |
| `BridgeRecoveries.UnguardedRunRepeats` | frontend/terminal-ui/src/bridge-recovery.js:108-176 | a run with an unguarded completion that issues attempt (1, 1) twice |
| `BridgeRecoveries.RequestIdInjective` | frontend/terminal-ui/src/index.js:809-809 | different attempts have different resume request ids |
| `BridgeRecoveries.TwelfthIncidentThirdAttempt` | frontend/terminal-ui/src/index.js:809-809 | a resume request id to the letter |
| `BridgeRecoveries.ClientRunAwaitsCurrent` | frontend/terminal-ui/src/index.js:487-490 | the client only completes an active recovery and only awaits its current attempt |
| `BridgeRecoveries.LateReplyNeverMatches` | frontend/terminal-ui/src/bridge-recovery.js:144-148 | once a later attempt was allowed, a reply to an earlier resume request never matches; the current one does |
| `BridgeRecoveries.BridgeRecoveryTracker.TakeAttempt` | frontend/terminal-ui/src/bridge-recovery.js:122-135 | an error when inactive, exhausted at the maximum, else the next attempt with its delay (the last delay repeats) |
| `BridgeRecoveries.BridgeRecoveryTracker.MarkResumeRequest` | frontend/terminal-ui/src/bridge-recovery.js:137-142 | fails on an inactive tracker, and on a blank id after having stored it |
| `BridgeRecoveries.BridgeRecoveryTracker.BeginRecovery` | frontend/terminal-ui/src/bridge-recovery.js:108-120 | a new incident only from rest; a recovery that fails while settling goes on with its incident and count |
| `BridgeRecoveries.SessionOfRecovery` | frontend/terminal-ui/src/bridge-recovery.js:108-176 | a recovery belongs to the session it began with until it is settled or aborted, which forgets its attempts; it awaits a reply only after the request for its attempt |
| `AnsiTexts.WrapAnsiLine` | frontend/terminal-ui/src/ansi.js:87-129 | the lines print the source's graphemes, each once, in order and under its own active list, if and only if every grapheme fits a line; cells are lost exactly when some grapheme but none with a width follows the last one that does not fit; every line fits and ends clean unless the source has no width and does not end clean itself; the source breaks where the next grapheme has no room or an ellipsis ended the line, and nowhere else; where every grapheme fits no line but the last has room for what the next begins with; a source that fits one line is one line; a line with an ellipsis shows nothing else with a width |
| `AnsiTexts.BreaksAreUnique` | frontend/terminal-ui/src/ansi.js:113-124 | there is exactly one way to break a text into lines |
| `AnsiTexts.WrapWideGlyphAndMark` | frontend/terminal-ui/src/ansi.js:97-103 | an input: a wide grapheme and a combining mark in one column leave only an ellipsis |
| `AnsiTexts.CutStep` | frontend/terminal-ui/src/ansi.js:96-124 | how one more token decides whether the end of a line is lost |
| `AnsiTexts.ReplayRestores` | frontend/terminal-ui/src/ansi.js:281-293 | printing the active list on a clean line brings it back and prints nothing |
| `AnsiTexts.UpdateKeepsReplayable` | frontend/terminal-ui/src/ansi.js:281-293 | no sequence in the active list resets, so it can be replayed |
| `AnsiTexts.ActiveIsSinceReset` | frontend/terminal-ui/src/ansi.js:281-293 | the active list holds exactly the SGR parameters printed since the last reset, in order |
| `AnsiTexts.LineBuilder.Take` | frontend/terminal-ui/src/ansi.js:96-124 | one token extends what the lines print by exactly that token, or by an ellipsis if it is too wide, and the parts that the lines show break into lines as `BreaksInto` says |
| `AnsiTexts.TruncateAnsi` | frontend/terminal-ui/src/ansi.js:131-156 | a line that fits is unchanged; else the longest prefix that leaves room for an ellipsis, with its styles, ending clean |
| `AnsiTexts.PaddedLineFills` | frontend/terminal-ui/src/ansi.js:158-160 | padding makes a self-contained line exactly as wide as the screen |
| `ScreenPainters.PaintShowsFrame` | frontend/terminal-ui/src/screen-painter.js:15-42 | whatever is remembered and whatever the terminal shows, a paint leaves exactly the frame on the grid, cell for cell, if and only if it is a full one or the rows it takes for unchanged are there |
| `ScreenPainters.RunShowsLastFrame` | frontend/terminal-ui/src/screen-painter.js:15-62 | the same after any run of paints, resets and resizes, whatever sizes and contents the resizes bring |
| `ScreenPainters.FramesShownIffNoneIsMissed` | frontend/terminal-ui/src/screen-painter.js:15-62 | over any run of paints, resets and resizes, every frame painted is shown if and only if each paint is a full one or finds on the grid the rows it takes for unchanged |
| `ScreenPainters.MemoryIsTrueIffAllNoticed` | frontend/terminal-ui/src/screen-painter.js:15-62 | what is remembered stays true of the terminal throughout a run if and only if every resize changes the size away from the remembered one or loses nothing; then every frame painted is shown |
| `ScreenPainters.StepAgrees` | frontend/terminal-ui/src/screen-painter.js:50-62 | one step keeps the memory true of the terminal if and only if a resize, if it is one, is noticed |
| `ScreenPainters.ChangesRepaint` | frontend/terminal-ui/src/screen-painter.js:27-40 | a partial paint rewrites the changed rows and leaves every other row as it was |
| `ScreenPainters.ChangesAreAll` | frontend/terminal-ui/src/screen-painter.js:27-38 | nothing is written exactly when no row changed |
| `ScreenPainters.JoinedPaints` | frontend/terminal-ui/src/screen-painter.js:20-26 | a full paint prints the frame line after line from the top |
| `ScreenPainters.PrintExact` | frontend/terminal-ui/src/screen-painter.js:27-36 | a line of exactly the width replaces its row and nothing else |
| `ScreenPainters.ResizeBackIsMissed` | frontend/terminal-ui/src/screen-painter.js:17-19 | a run: paint, resize away, resize back, paint the same frame; the grid is left as the terminal made it |
| `ScreenPainters.ScreenPainter.PaintFrame` | frontend/terminal-ui/src/screen-painter.js:15-54 | rejects a frame of the wrong size; else writes the specified output and remembers the frame |
| `ScreenPainters.PaintIsMarked` | frontend/terminal-ui/src/screen-painter.js:44-48 | a paint that writes begins and ends with the marks of synchronized output if the terminal has it, and has them nowhere else |
| `CommandQuickOpens.SplitUndoesQuote` | frontend/terminal-ui/src/command-quick-open.js:697-738 | splitting a command line of quoted words gives back the words, whatever they contain |
| `CommandQuickOpens.PlainIsUnquoted` | frontend/terminal-ui/src/command-quick-open.js:697-700 | a word goes without quotes exactly when it has letters, digits and harmless punctuation only |
| `CommandQuickOpens.SplitMeansWords` | frontend/terminal-ui/src/command-quick-open.js:702-738 | any line of words, each spelled in pieces with quotes, backslashes or neither, and with any white space around them, is split into what the words mean; white space inside quotes stays |
| `CommandQuickOpens.LastBackslash` | frontend/terminal-ui/src/command-quick-open.js:733-735 | a backslash at the very end stands for itself |
| `CommandQuickOpens.AgentLinkRoundTrip` | frontend/terminal-ui/src/command-quick-open.js:443-483 | a link is offered exactly for a safe name, and parses back to that name |
| `CommandQuickOpens.QuotedIsRead` | frontend/terminal-ui/src/command-quick-open.js:697-700 | a quoted word is read as the word itself and leaves no quote open |
| `CommandQuickOpens.BackslashedIsRead` | frontend/terminal-ui/src/command-quick-open.js:702-738 | outside quotes and inside double quotes a backslash takes the next character as it is |
| `CommandQuickOpens.OpenQuoteGivesNothing` | frontend/terminal-ui/src/command-quick-open.js:736-736 | a single quote never closed leaves no words, whatever came before |
| `CommandQuickOpens.SpacesAreSkipped` | frontend/terminal-ui/src/command-quick-open.js:718-724 | any white space where no word has begun is skipped |
| `CommandQuickOpens.SplitShellWords` | frontend/terminal-ui/src/command-quick-open.js:702-738 | the loop computes the specified words; an open quote gives none |
| `CommandQuickOpens.ParseAgentDeepLink` | frontend/terminal-ui/src/command-quick-open.js:474-483 | the name of a three-word link, or none |
| `CommandQuickOpens.SubsequenceGap` | frontend/terminal-ui/src/command-quick-open.js:765-775 | a score exactly when the term is a subsequence of the target, and then the least number of skipped characters over all embeddings |
| `CommandQuickOpens.GapsTelescope` | frontend/terminal-ui/src/command-quick-open.js:771-772 | the summed gaps are last index - term length + 1 |
| `CommandQuickOpens.GreedyStaysEarliest` | frontend/terminal-ui/src/command-quick-open.js:768-773 | taking each next match as early as possible ends no later than any embedding |
| `CommandQuickOpens.GreedyFailsRightly` | frontend/terminal-ui/src/command-quick-open.js:769-770 | where the greedy search fails there is no embedding |
| `ScrollInputs.RunKeepsInv` | frontend/terminal-ui/src/scroll-input.js:27-95 | in every interleaving of pushes, timer firings and dispose: times never decrease, same-direction steps are an interval apart, a pending direction is the last emitted one, the timer is armed exactly then |
| `ScrollInputs.RateIsLimited` | frontend/terminal-ui/src/scroll-input.js:68-86 | n intervals pass between n + 1 steps in one direction |
| `ScrollInputs.NothingAfterDispose` | frontend/terminal-ui/src/scroll-input.js:90-94 | nothing is emitted after dispose |
| `ScrollInputs.EveryStepHasOneFate` | frontend/terminal-ui/src/scroll-input.js:40-94 | in every run each accepted step was passed on at once, joined to one that waits, delivered by the timer or dropped as out of date, or waits while the timer is armed; as many steps are emitted as were passed on at once or delivered |
| `ScrollInputs.BurstIsDeliveredOnce` | frontend/terminal-ui/src/scroll-input.js:40-88 | a burst of steps that all come too soon ends in one delivery, no earlier than an interval after the last emission, if the timer fires while the burst is fresh, and in none otherwise |
| `ScrollInputs.TrackpadScrollController.PushDirection` | frontend/terminal-ui/src/scroll-input.js:62-88 | accepts, emits or holds a step as specified |
| `ScrollInputs.TrackpadScrollController.OnTimer` | frontend/terminal-ui/src/scroll-input.js:40-60 | the timer's callback does the specified step |
| `ScrollInputs.TrackpadScrollController.constructor` | frontend/terminal-ui/src/scroll-input.js:12-18 | the interval asked for is kept within 0 to 1000, the idle reset within 0 to the interval; 48 and 24 if none is asked for |
| `InputHistories.SanitizeInputHistory` | frontend/terminal-ui/src/ui-state-store.js:386-398 | the loop from the newest entry keeps the specified entries |
| `InputHistories.SanitizeIsIdempotent` | frontend/terminal-ui/src/ui-state-store.js:386-398 | the result is within the caps and in order; it is the input exactly when that was within them; cleaning twice is cleaning once |
| `InputHistories.NewestIsKept` | frontend/terminal-ui/src/ui-state-store.js:386-398 | the newest entry that fits is kept |
| `InputHistories.SanitizeOneOlder` | frontend/terminal-ui/src/ui-state-store.js:386-398 | an older entry is left out exactly when it does not fit by itself or the newer kept ones leave it no room |
| `InputHistories.MergeInputHistory` | frontend/terminal-ui/src/ui-state-store.js:296-309 | the loop finds the common prefix and appends the rest of the local history |
| `InputHistories.MergeAppendsDelta` | frontend/terminal-ui/src/ui-state-store.js:296-309 | merging base ++ delta within the caps gives sanitize(persisted ++ delta) |
| `InputHistories.SaveAppendsIffWithinLimits` | frontend/terminal-ui/src/ui-state-store.js:120-168 | a save appends what the session added to the file if and only if file and addition together are within the caps; otherwise something is lost, and what is left is in order |
| `InputHistories.FullFileForgetsOldest` | frontend/terminal-ui/src/ui-state-store.js:386-398 | on top of a full file a new entry drops the file's oldest one, though the session's own history is within the caps |
| `InputHistories.HundredEntriesForgetOne` | frontend/terminal-ui/src/ui-state-store.js:296-309 | an input: a file of a hundred entries of one character, a session that knows only the first and submits another; the save drops the first |
| `InputHistories.MissingFile` | frontend/terminal-ui/src/ui-state-store.js:137-143 | without a readable file, a session with nothing to add writes its whole history back, any other one only what it has added |
| `InputHistories.SubmissionExtendsBase` | frontend/terminal-ui/src/ui-state-store.js:296-309 | the base stays a prefix of the local history after a submission if and only if the history with it is within the caps |
| `InputHistories.FullHistoryReplacesOthers` | frontend/terminal-ui/src/ui-state-store.js:296-309 | at the cap the merge replaces what other sessions persisted |
| `InputHistories.SaveKeepsAll` | frontend/terminal-ui/src/ui-state-store.js:120-168 | a save within the caps keeps the file as a prefix and adds all the session had |
| `InputHistories.RunKeepsEntries` | frontend/terminal-ui/src/ui-state-store.js:120-168 | below the caps, any interleaving of several sessions' submissions and saves keeps every entry submitted by a session that has saved |
| `InputHistories.EntryReachesOthers` | frontend/terminal-ui/src/ui-state-store.js:120-168 | an entry given to a session that then saves is in the file, after all that was there, and in every session opened after that |
| `InputHistories.HistoryLimits` | frontend/terminal-ui/src/ui-state-store.js:13-15 | a project's history has at most 100 entries and a million characters, each entry 1 to 200000 |
| `InputHistories.UiStateStore.SaveUiStateStore` | frontend/terminal-ui/src/ui-state-store.js:120-168 | reads, merges and writes, with or without a file; the written history becomes the store's history and base; a save that cannot write changes nothing and says so |
| `InputHistories.UiStateStore.SubmitComposer` | frontend/terminal-ui/src/index.js:1492-1493 | a submission is remembered, unless blank or a repeat of the last, and handed to the store |
| `InputHistories.SubmissionIsRemembered` | frontend/terminal-ui/src/input-buffer.js:294-303 | a submission is remembered without the white space around it, unless nothing is left or it repeats the last one; in a full list the oldest one gives way |
| `Strings.DecimalInjective` | frontend/terminal-ui/src/index.js:809-809 | different numbers print differently in a request id |
| `Strings.DecimalHasValue` | frontend/terminal-ui/src/index.js:809-809 | the digits of a number stand for the number, without a zero in front |
| `Strings.Find` | frontend/terminal-ui/src/input-buffer.js:67-90 | the first occurrence of a marker, or -1 if there is none |
| `Strings.SpaceCodes` | frontend/terminal-ui/src/input-buffer.js:295-295 | which code points `trim` takes for white space |
| `Strings.StripTight` | frontend/terminal-ui/src/input-buffer.js:295-295 | white space around a word is all that stripping takes away |

## Left out

- Row index: index namespaces other than the current one (a namespace has an index of its own) and the debug counters' export; the counters themselves are fields but nothing is stated of them.
- Array edits in place other than appending and cutting, without a clear, and height-changing edits without a mark: the source's callers do not make them.
- Viewport: `lastRenderedRange` is debugging output and is not kept; offsets and heights are whole numbers, as the callers pass them.
- Screen: the welcome screen, the inspector split, the other pages and the tail's own rendering are parameters or absent; a state without a render cache renders every message afresh and is not modelled.
- HandleTerminalResize: message ids are distinct or absent; with duplicate ids the first one is found (`FindAnchorSegmentIndex`).
- Following: non-finite scroll deltas and the normalisation of missing fields.
- Unread outputs: which protocol records carry an output key (`timelineOutputKey`) is a parameter.
- Highlighter: `_ansi_syntax`, the whitespace class of `strip` and the line limit are parameters.
- TokenizeInputChunk: characters stand for UTF-16 code units, so the limit on a held-back escape counts characters; the timed flush of a lone escape key is not a step of the model.
- WrapAnsiLine: segmentation and widths are given with the tokens; the extra column that joiners across tokens can cause, OSC and non-SGR sequences are outside; an SGR parameter is a number, so leading zeros are not distinguished.
- PaintFrame: a write that throws or reports back-pressure; the memory changes only after a successful write.
- Terminal: its own reflow on a resize is arbitrary; nothing is stated of it beyond a clean cursor state.
- Durable cursors: whether the launch or the stored snapshot is restored is nondeterministic; other sessions' snapshots, the server sequence guard, the reducer, records without receipts and the deferred send queue are absent.
- Resume requests: one is attempted for any non-empty stream name; the source also checks the name's pattern and the safe-integer range.
- Protocol event batcher: re-entrant pushes from the callback and the delay of the timer.
- Bridge recovery: the idle assessment before a recovery, the deadline and stability timers and the bridge process.
- Search score: characters stand for code points; both term and target are already normalised.
- Quick open: the other providers of the quick-open list and their scores.
- Rate limiter: the delay asked of the timer; a timer may fire at any time while armed.
- Composer: text is a list of clusters, so clusters that merge across an insertion and `\r\n` clusters are outside; rendering the composer is absent.
- State store: the lock is modelled by saves being single steps; stale locks, older or newer files, the replacement of the file and the sessions stored beside the history are absent; a corrupt file is one that cannot be read.
- RunKeepsEntries: the file is not removed in the middle of a run (`MissingFile` says what a save then writes).  It keeps entries, not their number: an entry can be appended twice because the interface's own list is not refreshed after a save.
- RunThenEnsure: says of a message's face what the last marked edit left, unless an edit that needs no mark may have changed it since; whether such an edit keeps the height depends on the rendering, and one that does not is left out of the run.
