/**
 The timeline's state: the message array, the render cache and the row index kept beside them
 (frontend/terminal-ui/src/timeline-row-index.js, with the edits that state.js makes).
 */
module Timelines {
  import opened Wrappers
  import opened RenderCaches
  import opened TimelineEdits
  import opened TimelineRowIndexes

  class TimelineState {
    const cache: RenderCache
    var messages: MessageList
    var view: string
    var index: RowIndex?
    ghost var universe: set<Message>

    ghost predicate ValidBase()
      reads this`messages, this`universe, messages, cache, cache.stored
    {
      cache.Valid() && Distinct(messages.items) && forall m :: m in messages.items ==> m in universe
    }

    /** A mutation of `m` was recorded after revision `since`. */
    ghost predicate Pending(since: nat, m: Message)
      reads cache`history
    {
      since <= |cache.history| && One(m) in cache.history[since..]
    }

    ghost function Rows(width: nat): map<Message, Row>
      reads `universe, `view, universe, cache`messageRevisions
    {
      map m | m in universe :: Row(m.id, |cache.Fresh(m, Context(width, view))|)
    }

    twostate lemma RowsFrame(width: nat)
      requires unchanged(`universe, `view, cache`messageRevisions)
      requires forall m :: m in old(universe) ==> m.id == old(m.id) && m.face == old(m.face)
      ensures Rows(width) == old(Rows(width))
    {
    }

    /** The messages marked after revision `since`. */
    ghost function MarkedSince(since: nat): set<Message>
      reads `universe, cache`history
    {
      set m | m in universe && Pending(since, m)
    }

    /** The indexed messages are still the first ones of the array. */
    ghost predicate IsPrefix(ix: RowIndex)
      reads this`messages, messages, ix`segments
    {
      HasMessages(ix.segments, messages.items)
    }

    /** An index over this array that no clear has outdated. */
    predicate Applicable(ix: RowIndex)
      reads this`messages, cache`generation
    {
      ix.messages == messages && ix.generation == cache.generation
    }

    /**
     What holds of the index between two calls: segments are current but for the messages marked
     since, unless a message has several.
     */
    ghost predicate Synced(ix: RowIndex)
      reads this`messages, this`view, this`universe, messages, ix, universe
      reads cache`history, cache`messageRevisions, cache`generation, cache`revision
    {
      && ix.WellFormed()
      && ix.generation <= cache.generation && ix.cacheRevision <= cache.revision
      && (forall i :: 0 <= i < |ix.segments| ==> ix.segments[i].message in universe)
      && (Applicable(ix) && DistinctSegments(ix.segments) ==>
            CurrentExcept(ix.segments, Rows(ix.width), MarkedSince(ix.cacheRevision)))
    }

    ghost predicate Coherent()
      reads this, messages, cache, cache.stored, universe, index
    {
      ValidBase() && (index != null ==> Synced(index))
    }

    /** An index that may be used for this array has its first messages, unless the array is now too short. */
    ghost predicate Kept()
      reads this`index, this`messages, messages, index, cache`generation
    {
      index != null && Applicable(index) && |messages.items| >= |index.segments| ==> IsPrefix(index)
    }

    ghost predicate Valid()
      reads this, messages, cache, cache.stored, universe, index
    {
      Coherent() && Kept()
    }

    /** What decides, from here on, which lookups reuse the index and which of them are exact. */
    ghost function Seen(): Snapshot
      reads this`messages, this`index, messages, index, cache`generation, cache`revision, cache`mutations
    {
      SeenWith(cache.mutations, cache.revision)
    }

    ghost function SeenWith(mutations: seq<Mutation>, revision: nat): Snapshot
      reads this`messages, this`index, messages, index, cache`generation
    {
      var held :=
        if index != null && Applicable(index)
        then Some(Held(MessagesOf(index.segments), index.width, Names(mutations, revision, index.cacheRevision)))
        else None;
      Snapshot(messages.items, held, |mutations|)
    }

    /** What is seen tells whether a lookup reuses the index, and whether that is safe. */
    lemma SeenDecides(width: nat)
      requires Coherent()
      ensures Reusable(width) <==> Reuses(Seen(), width)
      ensures Kept() <==> KeptIn(Seen())
      ensures (Reusable(width) ==> IsPrefix(index)) <==> Safe(Seen(), width)
      ensures Seen().items == messages.items && Seen().logged == |cache.mutations|
      ensures Reusable(width) ==> Seen().held.value.messages == MessagesOf(index.segments)
    {
      hide RenderCache.ValidLog, RenderCache.ValidEntries, RenderCache.RenderMutationsSince, Names, CurrentExcept, MarkedSince, Rows;
      if index != null {
        PrefixOf(index.segments, messages.items);
        cache.AnswerNames(index.cacheRevision);
      }
    }

    /** What is seen after a lookup, from what the index then holds. */
    lemma SeenAfterLookup(before: Snapshot, width: nat)
      requires index != null && Applicable(index) && index.width == width && index.cacheRevision == cache.revision
      requires before.items == messages.items && before.logged == |cache.mutations|
      requires MessagesOf(index.segments) == LookedUp(before, width).messages
      ensures Seen() == After(before, Ensure(width))
    {
    }

    lemma SyncedCount(ix: RowIndex)
      requires Synced(ix)
      ensures ix.messageCount == |ix.segments| && ix.WellFormed()
      ensures ix.generation <= cache.generation && ix.cacheRevision <= cache.revision
      ensures forall i :: 0 <= i < |ix.segments| ==> ix.segments[i].message in universe
    {
    }

    /** Messages that are the first of an array of distinct ones are distinct. */
    lemma PrefixIsDistinct(ix: RowIndex)
      requires Distinct(messages.items) && IsPrefix(ix)
      ensures DistinctSegments(ix.segments)
    {
    }

    constructor (cache: RenderCache)
      requires cache.Valid()
      ensures Valid() && this.cache == cache && index == null && messages.items == [] && fresh(messages)
    {
      this.cache, view, index, universe := cache, "", null, {};
      messages := new MessageList([]);
    }

    // -------------------------------------------------------------- the index

    /** The index is the one a build from scratch over the current messages would give. */
    ghost predicate Exact(ix: RowIndex, width: nat)
      reads this, messages, universe, cache`messageRevisions, ix
    {
      && ix.messages == messages && ix.width == width && ix.WellFormed()
      && (forall m :: m in messages.items ==> m in universe)
      && ix.segments == FreshSegments(messages.items, Rows(width))
    }

    ghost predicate Reusable(width: nat)
      requires cache.ValidLog()
      reads this`index, this`messages, messages, index, cache`generation, cache`revision, cache`mutations, cache`history
    {
      && index != null && index.messages == messages && index.width == width && index.generation == cache.generation
      && |messages.items| >= index.messageCount 
      && var ms := cache.RenderMutationsSince(index.cacheRevision);
         ms.Some? && forall m :: m in ms.value ==> m.scope != All
    }

    /** A complete, current, well-formed index is exact. */
    lemma CurrentIsExact(ix: RowIndex)
      requires ix.messages == messages && ix.WellFormed() && IsPrefix(ix) && |ix.segments| == |messages.items|
      requires CurrentExcept(ix.segments, Rows(ix.width), {})
      ensures Exact(ix, ix.width)
    {
      CurrentIsFresh(ix.segments, messages.items, Rows(ix.width));
    }

    lemma ExactWidth(ix: RowIndex, width: nat)
      requires Exact(ix, width)
      ensures ix.messages == messages && ix.width == width
    {
    }

    /** An exact index has the messages of the array. */
    lemma ExactIsPrefix(ix: RowIndex, width: nat)
      requires Exact(ix, width)
      ensures IsPrefix(ix) && |ix.segments| == |messages.items|
    {
      FreshSegmentsAt(messages.items, Rows(width));
    }

    /**
     Reuses the index when it can and builds it anew when it cannot.  The result is exact if and only
     if it was built anew or the old index had the first messages of the array.
     */
    method EnsureTimelineRowIndex(width: nat) returns (ix: RowIndex)
      requires Coherent()
      modifies `index, index
      modifies cache`hits, cache`misses, cache`entries, cache`order, cache`uses, cache`stored
      ensures Coherent() && ix == index
      ensures Exact(ix, width) <==> old(Reusable(width) ==> IsPrefix(index))
      ensures old(Kept()) ==> Valid() && Exact(ix, width)
      ensures ix.generation == cache.generation && ix.cacheRevision == cache.revision
      ensures ix == old(index) || fresh(ix)
      ensures ix == old(index) <==> old(Reusable(width))
      ensures Seen() == After(old(Seen()), Ensure(width))
    {
      hide RenderCache.ValidLog, RenderCache.ValidEntries, RenderCache.RenderMutationsSince;
      hide Rows, RowIndex.WellFormed, FreshSegments, Distinct, CurrentExcept, IsPrefix, SeenWith, After, KeptIn, Safe, Names;
      ghost var before := Seen();
      SeenDecides(width);
      if index != null && index.messages == messages && index.width == width && index.generation == cache.generation {
        var mutations := cache.RenderMutationsSince(index.cacheRevision);
        SyncedCount(index);
        if mutations.Some? && !(exists m :: m in mutations.value && m.scope == All) {
          var reused := ReuseIndex(index, mutations.value);
          if reused {
            SeenAfterLookup(before, width);
            return index;
          }
        }
      }
      index := BuildIndex(width, if index == null then 1 else index.buildCount + 1);
      ix := index;
      SeenAfterLookup(before, width);
    }

    method ReuseIndex(ix: RowIndex, mutations: seq<Mutation>) returns (reused: bool)
      requires Coherent() && ix == index && Applicable(ix)
      requires cache.RenderMutationsSince(ix.cacheRevision) == Some(mutations)
      requires !exists m :: m in mutations && m.scope == All
      modifies ix
      modifies cache`hits, cache`misses, cache`entries, cache`order, cache`uses, cache`stored
      ensures ValidBase() && (reused <==> |messages.items| >= old(ix.messageCount))
      ensures reused ==> Synced(ix) && ix.cacheRevision == cache.revision
      ensures reused ==> (Exact(ix, ix.width) <==> old(IsPrefix(ix)))
      ensures reused ==> (old(IsPrefix(ix)) ==> IsPrefix(ix))
      ensures reused ==> MessagesOf(ix.segments) == old(MessagesOf(ix.segments)) + messages.items[old(|ix.segments|)..]
      ensures !reused ==> unchanged(ix)
    {
      hide RenderCache.Valid, RenderCache.RenderMutationsSince, RowIndex.WellFormed;
      hide Rows, Distinct, DistinctSegments, HasMessages, CurrentExcept, Mutated, MarkedSince, Exact, Synced;
      SyncedCount(ix);
      StaleIsMutated(ix, mutations);
      reused := AppendTimelineMessages(ix, Rows(ix.width), Mutated(mutations));
      if reused {
        RowsFrame(ix.width);
        PatchIndex(ix, mutations);
      }
    }

    /** The second half of a reuse: the logged messages rendered again. */
    method PatchIndex(ix: RowIndex, mutations: seq<Mutation>)
      requires ValidBase() && ix.WellFormed() && ix.messages == messages && |ix.segments| == |messages.items|
      requires ix.generation <= cache.generation
      requires forall i :: 0 <= i < |ix.segments| ==> ix.segments[i].message in universe
      requires DistinctSegments(ix.segments) ==> CurrentExcept(ix.segments, Rows(ix.width), Mutated(mutations))
      modifies ix
      modifies cache`hits, cache`misses, cache`entries, cache`order, cache`uses, cache`stored
      ensures ValidBase() && Synced(ix) && ix.cacheRevision == cache.revision
      ensures (Exact(ix, ix.width) <==> old(IsPrefix(ix))) && (IsPrefix(ix) <==> old(IsPrefix(ix)))
      ensures MessagesOf(ix.segments) == old(MessagesOf(ix.segments))
    {
      hide RenderCache.Valid, RowIndex.WellFormed, Rows, Distinct, DistinctSegments, HasMessages, SameMessages, CurrentExcept, Mutated;
      hide Exact, Synced, Positioned;
      ghost var distinct, was := DistinctSegments(ix.segments), ix.segments;
      if distinct { WellFormedIsPositioned(ix); }
      ApplyMessageMutations(ix, Rows(ix.width), mutations, distinct);
      SameMessagesSamePlace(ix, was);
      MessagesCount(ix.segments, was);
      ix.cacheRevision := cache.revision;
      ix.reuseCount := ix.reuseCount + 1;
      RowsFrame(ix.width);
      ReusedIsSynced(ix);
      ExactIffPrefix(ix);
    }

    lemma MessagesCount(a: seq<Segment>, b: seq<Segment>)
      requires SameMessages(a, b)
      ensures |a| == |b| && MessagesOf(a) == MessagesOf(b)
    {
    }

    /** Without an "all" record, the log names every message whose segment may be out of date. */
    lemma StaleIsMutated(ix: RowIndex, mutations: seq<Mutation>)
      requires Coherent() && ix == index && Applicable(ix)
      requires cache.RenderMutationsSince(ix.cacheRevision) == Some(mutations)
      requires !exists m :: m in mutations && m.scope == All
      ensures DistinctSegments(ix.segments) ==> CurrentExcept(ix.segments, Rows(ix.width), Mutated(mutations))
    {
      forall m | m in MarkedSince(ix.cacheRevision)
        ensures m in Mutated(mutations)
      {
        var r :| 0 <= r < |cache.history| - ix.cacheRevision && cache.history[ix.cacheRevision..][r] == One(m);
        assert mutations[r] in mutations && mutations[r].scope == One(m);
      }
    }

    /** An index of the array's length with current segments is exact exactly when it has the array's messages. */
    lemma ExactIffPrefix(ix: RowIndex)
      requires ValidBase() && ix.messages == messages && ix.WellFormed() && |ix.segments| == |messages.items|
      requires DistinctSegments(ix.segments) ==> CurrentExcept(ix.segments, Rows(ix.width), {})
      ensures Exact(ix, ix.width) <==> IsPrefix(ix)
    {
      hide Exact, Rows, CurrentExcept, RowIndex.WellFormed, FreshSegments, HasMessages, DistinctSegments, RenderCache.Valid;
      if IsPrefix(ix) {
        PrefixIsDistinct(ix);
        CurrentIsExact(ix);
      }
      if Exact(ix, ix.width) { ExactIsPrefix(ix, ix.width); }
    }

    lemma WellFormedIsPositioned(ix: RowIndex)
      requires ix.WellFormed() && DistinctSegments(ix.segments)
      ensures Positioned(ix.segments, ix.messagePositions)
    {
      LocatedIsPositioned(ix.segments, ix.messagePositions);
    }

    lemma SameMessagesSamePlace(ix: RowIndex, was: seq<Segment>)
      requires SameMessages(ix.segments, was)
      ensures DistinctSegments(ix.segments) <==> DistinctSegments(was)
      ensures IsPrefix(ix) <==> HasMessages(was, messages.items)
      ensures forall i :: 0 <= i < |was| && was[i].message in universe ==> ix.segments[i].message in universe
    {
    }

    lemma ReusedIsSynced(ix: RowIndex)
      requires ValidBase() && ix.WellFormed() && ix.generation <= cache.generation && ix.cacheRevision == cache.revision
      requires forall i :: 0 <= i < |ix.segments| ==> ix.segments[i].message in universe
      requires DistinctSegments(ix.segments) ==> CurrentExcept(ix.segments, Rows(ix.width), {})
      ensures Synced(ix)
    {
    }

    method BuildIndex(width: nat, buildCount: nat) returns (ix: RowIndex)
      requires ValidBase()
      modifies cache`hits, cache`misses, cache`entries, cache`order, cache`uses, cache`stored
      ensures ValidBase() && fresh(ix) && Exact(ix, width) && Synced(ix) && IsPrefix(ix)
      ensures ix.generation == cache.generation && ix.cacheRevision == cache.revision && ix.buildCount == buildCount
      ensures MessagesOf(ix.segments) == messages.items
    {
      hide RenderCache.Valid, Rows, RowIndex.WellFormed, Distinct, DistinctSegments, FreshSegments, Exact, Synced, CurrentExcept;
      ix := new RowIndex(messages, width, cache.generation, cache.revision, buildCount);
      assert CurrentExcept(ix.segments, Rows(width), {}) by { NothingIsStale(Rows(width)); }
      PushFrom(ix, Rows(width), {}, true);
      RowsFrame(width);
      CurrentIsExact(ix);
      ReusedIsSynced(ix);
      PrefixOf(ix.segments, messages.items);
    }

    lemma NothingIsStale(rows: map<Message, Row>)
      ensures CurrentExcept([], rows, {})
    {
    }

    /** `renderMessage(message)`, through the cache. */
    method RenderMessage(message: Message, width: nat) returns (lines: seq<Line>)
      requires Valid()
      modifies cache`hits, cache`misses, cache`entries, cache`order, cache`uses, cache`stored
      ensures Valid() && lines == cache.Fresh(message, Context(width, view))
    {
      hide RenderCache.Valid, Synced;
      var list := cache.RenderCachedMessage(message, Context(width, view));
      lines := list.items;
    }

    /** `renderMessage(message).length`, through the cache. */
    method RenderHeight(message: Message, width: nat, ghost rows: map<Message, Row>) returns (height: nat)
      requires ValidBase() && message in universe && rows == Rows(width)
      modifies cache`hits, cache`misses, cache`entries, cache`order, cache`uses, cache`stored
      ensures ValidBase() && message in rows && rows[message] == Row(message.id, height)
    {
      var lines := cache.RenderCachedMessage(message, Context(width, view));
      height := |lines.items|;
    }

    /**
     Renders and records every message after the indexed ones; `sound` says whether the indexed ones
     are current.
     */
    method PushFrom(ix: RowIndex, ghost rows: map<Message, Row>, ghost stale: set<Message>, ghost sound: bool)
      requires ValidBase() && ix.WellFormed() && |ix.segments| <= |messages.items|
      requires forall i :: 0 <= i < |ix.segments| ==> ix.segments[i].message in universe
      requires rows == Rows(ix.width) && (sound ==> CurrentExcept(ix.segments, rows, stale))
      modifies ix`segments, ix`totalLines, ix`messagePositions, ix`messageCount
      modifies cache`hits, cache`misses, cache`entries, cache`order, cache`uses, cache`stored
      ensures ValidBase() && ix.WellFormed() && |ix.segments| == |messages.items|
      ensures old(ix.segments) <= ix.segments
      ensures forall i :: |old(ix.segments)| <= i < |ix.segments| ==> ix.segments[i].message == messages.items[i]
      ensures forall i :: 0 <= i < |ix.segments| ==> ix.segments[i].message in universe
      ensures sound ==> CurrentExcept(ix.segments, rows, stale)
    {
      hide RenderCache.Valid, Rows, Contiguous, Located, Distinct;
      var position := |ix.segments|;
      while position < |messages.items|
        invariant |old(ix.segments)| <= position == |ix.segments| <= |messages.items|
        invariant ValidBase() && ix.WellFormed() && old(ix.segments) <= ix.segments
        invariant forall i :: |old(ix.segments)| <= i < |ix.segments| ==> ix.segments[i].message == messages.items[i]
        invariant forall i :: 0 <= i < |ix.segments| ==> ix.segments[i].message in universe
        invariant sound ==> CurrentExcept(ix.segments, rows, stale)
      {
        var message := messages.items[position];
        var height := RenderHeight(message, ix.width, rows);
        ix.Push(message, height);
        position := position + 1;
      }
    }

    method AppendTimelineMessages(ix: RowIndex, ghost rows: map<Message, Row>, ghost stale: set<Message>) returns (appended: bool)
      requires ValidBase() && ix.WellFormed() && rows == Rows(ix.width)
      requires forall i :: 0 <= i < |ix.segments| ==> ix.segments[i].message in universe
      requires DistinctSegments(ix.segments) ==> CurrentExcept(ix.segments, rows, stale)
      modifies ix`segments, ix`totalLines, ix`messagePositions, ix`messageCount, ix`appendCount
      modifies cache`hits, cache`misses, cache`entries, cache`order, cache`uses, cache`stored
      ensures ValidBase() && ix.WellFormed()
      ensures appended <==> |messages.items| >= old(ix.messageCount)
      ensures appended ==> |ix.segments| == |messages.items| && old(ix.segments) <= ix.segments
      ensures appended ==> (IsPrefix(ix) <==> old(IsPrefix(ix)))
      ensures appended ==> MessagesOf(ix.segments) == old(MessagesOf(ix.segments)) + messages.items[old(|ix.segments|)..]
      ensures !appended ==> unchanged(ix)
      ensures forall i :: 0 <= i < |ix.segments| ==> ix.segments[i].message in universe
      ensures DistinctSegments(ix.segments) ==> CurrentExcept(ix.segments, rows, stale)
    {
      hide RenderCache.Valid, Contiguous, Located, Distinct, CurrentExcept, Rows;
      if |messages.items| < ix.messageCount { return false; }
      ix.appendCount := ix.appendCount + |messages.items| - ix.messageCount;
      PushFrom(ix, rows, stale, DistinctSegments(ix.segments));
      appended := true;
    }

    /** Renders the mutated messages again and patches their segments; `distinct` if no message has several. */
    method ApplyMessageMutations(ix: RowIndex, ghost rows: map<Message, Row>, mutations: seq<Mutation>, ghost distinct: bool)
      requires ValidBase() && ix.WellFormed() && rows == Rows(ix.width)
      requires forall i :: 0 <= i < |ix.segments| ==> ix.segments[i].message in universe
      requires distinct ==> Positioned(ix.segments, ix.messagePositions) && CurrentExcept(ix.segments, rows, Mutated(mutations))
      modifies ix`segments, ix`totalLines, ix`partialUpdateCount
      modifies cache`hits, cache`misses, cache`entries, cache`order, cache`uses, cache`stored
      ensures ValidBase() && ix.WellFormed() && SameMessages(ix.segments, old(ix.segments))
      ensures distinct ==> CurrentExcept(ix.segments, rows, {})
    {
      hide RenderCache.Valid, Rows, Contiguous, Positioned, Located, Distinct, CurrentExcept, Mutated, Resized, EndOf;
      var mutated := Mutated(mutations);
      while mutated != {}
        invariant ValidBase() && ix.WellFormed() && SameMessages(ix.segments, old(ix.segments))
        invariant distinct ==> Positioned(ix.segments, ix.messagePositions) && CurrentExcept(ix.segments, rows, mutated)
        decreases mutated
      {
        var message :| message in mutated;
        if distinct { ResizedIsCurrent(ix.segments, ix.messagePositions, rows, message, mutated); }
        mutated := mutated - {message};
        if message in ix.messagePositions {
          var position := LocatedAt(ix, message);
          var height := RenderHeight(message, ix.width, rows);
          ResizedIsLocated(ix.segments, position, message.id, height, ix.messagePositions);
          ix.Resize(position, height);
          ix.partialUpdateCount := ix.partialUpdateCount + 1;
        }
      }
    }

    method LocatedAt(ix: RowIndex, message: Message) returns (position: nat)
      requires ix.WellFormed() && message in ix.messagePositions
      ensures position == ix.messagePositions[message] < |ix.segments| && ix.segments[position].message == message
    {
      position := ix.messagePositions[message];
    }

    // -------------------------------------------------------------- edits

    /** Any new message may join; the index stays fit for reuse if and only if the message fits. */
    method AppendMessage(message: Message)
      requires Coherent() && message !in messages.items
      modifies `universe, messages
      ensures Coherent() && messages.items == old(messages.items) + [message]
      ensures Seen() == After(old(Seen()), Append(message))
      ensures old(Kept()) ==> (Kept() <==> Fits(old(Seen()), Append(message)))
    {
      hide RenderCache.Valid, RowIndex.WellFormed, CurrentExcept, Kept, KeptIn, Fits;
      SeenDecides(0);
      messages.items := messages.items + [message];
      universe := universe + {message};
      if index != null { MoreMessages(index); }
      SeenDecides(0);
      if old(Kept()) { FitKeeps(old(Seen()), Append(message)); }
    }

    /** A message that joins changes nothing for those already indexed. */
    twostate lemma MoreMessages(ix: RowIndex)
      requires unchanged(ix) && unchanged(`view, `index) && unchanged(cache)
      requires old(universe) <= universe && messages == old(messages)
      requires forall m :: m in old(universe) ==> m.id == old(m.id) && m.face == old(m.face)
      requires forall i :: 0 <= i < |ix.segments| ==> ix.segments[i].message in old(universe)
      ensures old(CurrentExcept(ix.segments, Rows(ix.width), MarkedSince(ix.cacheRevision))) ==>
        CurrentExcept(ix.segments, Rows(ix.width), MarkedSince(ix.cacheRevision))
    {
    }

    method TruncateMessages(count: nat)
      requires Coherent() && count <= |messages.items|
      modifies messages
      ensures Coherent() && (old(Kept()) ==> Kept()) && messages.items == old(messages.items)[..count]
      ensures Seen() == After(old(Seen()), Truncate(count))
    {
      hide RenderCache.Valid, RowIndex.WellFormed;
      messages.items := messages.items[..count];
    }

    /** `state.messages = items`: a new array. */
    method ReplaceMessages(items: seq<Message>)
      requires Coherent() && Distinct(items)
      modifies `universe, `messages
      ensures Coherent() && (old(Kept()) ==> Kept()) && messages.items == items && fresh(messages)
      ensures Seen() == After(old(Seen()), Replace(items))
    {
      hide RenderCache.Valid, RowIndex.WellFormed;
      messages := new MessageList(items);
      universe := universe + Elements(items);
    }

    /** Any change of the array in place, followed by a clear of the render cache. */
    method SpliceMessages(items: seq<Message>)
      requires Coherent() && Distinct(items)
      modifies `universe, messages, cache
      ensures Coherent() && (old(Kept()) ==> Kept()) && messages.items == items
      ensures Seen() == After(old(Seen()), Splice(items))
    {
      hide RenderCache.ValidLog, RenderCache.ValidEntries, RowIndex.WellFormed;
      messages.items := items;
      universe := universe + Elements(items);
      cache.ClearRenderCache();
    }

    /** A change of the view state that enters every render key, followed by a clear. */
    method SetView(view: string)
      requires Coherent()
      modifies `view, cache
      ensures Coherent() && (old(Kept()) ==> Kept()) && this.view == view
      ensures Seen() == After(old(Seen()), View(view))
    {
      hide RenderCache.ValidLog, RenderCache.ValidEntries, RowIndex.WellFormed;
      this.view := view;
      cache.ClearRenderCache();
    }

    /** An edit of one message, followed by a dirty mark. */
    method EditMessage(message: Message, id: string, face: string)
      requires Coherent()
      modifies message, cache
      ensures Coherent() && (old(Kept()) ==> Kept()) && message.id == id && message.face == face
      ensures Seen() == After(old(Seen()), Mark(message, id, face))
    {
      hide RenderCache.ValidEntries, RowIndex.WellFormed, SeenWith, Logged, After, Kept, Distinct;
      message.id, message.face := id, face;
      cache.MarkMessageRenderDirty(message);
      SeenAfterMark(old(cache.mutations), old(cache.revision), message, id, face);
      if index != null {
        var since := index.cacheRevision;
        assert cache.history[since..] == old(cache.history)[since..] + [One(message)];
      }
    }

    lemma SeenAfterMark(mutations: seq<Mutation>, revision: nat, message: Message, id: string, face: string)
      requires index != null ==> index.cacheRevision <= revision
      ensures SeenWith(Logged(mutations, One(message), revision + 1), revision + 1)
           == After(SeenWith(mutations, revision), Mark(message, id, face))
    {
      hide Names;
      if index != null { MarkIsNamed(mutations, revision, index.cacheRevision, message); }
    }

    predicate SameHeight(message: Message, face: string)
      requires index != null
      reads `index, `view, index, cache`messageRevisions, message
    {
      var key := cache.KeyOf(message, Context(index.width, view));
      |cache.render(key.(face := face))| == |cache.render(key)|
    }

    /** An edit that changes neither the id nor the height at the indexed width needs no mark. */
    method EditMessageQuietly(message: Message, face: string)
      requires Coherent()
      requires index != null ==> SameHeight(message, face)
      modifies message
      ensures Coherent() && (old(Kept()) ==> Kept()) && message.face == face && message.id == old(message.id)
      ensures Seen() == old(Seen())
    {
      hide RenderCache.Valid, RowIndex.WellFormed;
      message.face := face;
    }

    // -------------------------------------------------------------- runs

    /** What the source's callers see to: distinct messages, and a mark for edits that change a height. */
    predicate Legal(edit: Edit)
      reads `index, `messages, `view, messages, index, cache, Edited([edit])
    {
      match edit
      case Append(message) => message !in messages.items
      case Truncate(count) => count <= |messages.items|
      case Replace(items) => Distinct(items)
      case Splice(items) => Distinct(items)
      case View(_) => true
      case Mark(_, _, _) => true
      case Quiet(message, face) => assert edit in [edit]; index != null ==> SameHeight(message, face)
      case Ensure(_) => true
    }

    method Perform(edit: Edit)
      requires Coherent() && Legal(edit)
      modifies `index, `messages, `view, `universe, messages, index, cache, Edited([edit])
      ensures Coherent()
      ensures Seen() == After(old(Seen()), edit)
      ensures view == if edit.View? then edit.view else old(view)
      ensures edit.Mark? ==> edit.message.id == edit.id && edit.message.face == edit.face
      ensures edit.Quiet? ==> edit.message.id == old(edit.message.id) && edit.message.face == edit.face
      ensures (messages == old(messages) || fresh(messages)) && (index == old(index) || fresh(index))
    {
      hide RenderCache.Valid, Synced, Kept, SeenWith;
      assert edit in [edit];
      match edit
      case Append(message) => AppendMessage(message);
      case Truncate(count) => TruncateMessages(count);
      case Replace(items) => ReplaceMessages(items);
      case Splice(items) => SpliceMessages(items);
      case View(view) => SetView(view);
      case Mark(message, id, face) => EditMessage(message, id, face);
      case Quiet(message, face) => EditMessageQuietly(message, face);
      case Ensure(width) => var _ := EnsureTimelineRowIndex(width);
    }

    /** An edit that is not legal is not possible, or needs no mark. */
    lemma NotLegal(edit: Edit)
      requires !Legal(edit)
      ensures After(Seen(), edit) == Seen() && !edit.View? && !edit.Mark?
    {
    }

    /** The first `n` edits have been made, from what was seen and shown before them. */
    ghost predicate Made(edits: seq<Edit>, n: nat, seen: Snapshot, view: string, texts: map<Message, Text>)
      requires n <= |edits|
      reads this, messages, index, cache`generation, cache`revision, cache`mutations, Edited(edits)
    {
      && Seen() == AfterAll(seen, edits[..n]) && this.view == ViewAfter(view, edits[..n])
      && TextsShown(edits, n, texts)
    }

    lemma NothingMade(edits: seq<Edit>)
      ensures Made(edits, 0, Seen(), view, TextsOf(edits))
    {
    }

    /** One edit, if it is legal. */
    method PerformNext(edits: seq<Edit>, n: nat, ghost seen: Snapshot, ghost view: string, ghost texts: map<Message, Text>)
      requires Coherent() && n < |edits| && Made(edits, n, seen, view, texts)
      modifies `index, `messages, `view, `universe, messages, index, cache, Edited(edits)
      ensures Coherent() && Made(edits, n + 1, seen, view, texts)
      ensures (messages == old(messages) || fresh(messages)) && (index == old(index) || fresh(index))
    {
      hide RenderCache.Valid, Coherent, Legal, SeenWith, After, AfterAll, ViewAfter, TextAfter;
      assert edits[..n + 1] == edits[..n] + [edits[n]];
      AfterOneMore(seen, view, edits[..n], edits[n]);
      if Legal(edits[n]) {
        EditedOne(edits, n);
        Perform(edits[n]);
      } else {
        NotLegal(edits[n]);
      }
      forall m | m in Edited(edits) ensures Shows(m, TextAfter(m, texts[m], edits[..n + 1])) {
        TextAfterOneMore(m, texts[m], edits[..n], edits[n]);
        assert Shows(m, TextAfterOne(m, TextAfter(m, texts[m], edits[..n]), edits[n]));
      }
    }

    /**
     Any run of edits and lookups -- what no caller does is left out -- then a lookup.  It is exact if
     and only if it builds anew or reuses an index of the array's first messages, as the edits decide;
     so it is when every message that joins fits, and when the array is never cut.
     */
    method RunThenEnsure(edits: seq<Edit>, width: nat) returns (ix: RowIndex)
      requires Coherent()
      modifies `index, `messages, `view, `universe, messages, index, cache, Edited(edits)
      ensures Coherent() && ix == index
      ensures Seen() == After(AfterAll(old(Seen()), edits), Ensure(width)) && view == ViewAfter(old(view), edits)
      ensures TextsShown(edits, |edits|, old(TextsOf(edits)))
      ensures Exact(ix, width) <==> Safe(AfterAll(old(Seen()), edits), width)
      ensures old(Kept()) && AllFit(old(Seen()), edits) ==> Valid() && Exact(ix, width)
      ensures InOrder(old(Seen())) && (forall e :: e in edits ==> !e.Truncate?) ==> Exact(ix, width)
    {
      hide RenderCache.Valid, Coherent, Kept, KeptIn, Exact, Seen, After, Safe, InOrder, AllFit, TextsShown;
      ghost var seen, texts := Seen(), TextsOf(edits);
      SeenDecides(width);
      NothingMade(edits);
      for i := 0 to |edits|
        invariant Coherent() && Made(edits, i, seen, old(view), texts)
        invariant (messages == old(messages) || fresh(messages)) && (index == old(index) || fresh(index))
      {
        PerformNext(edits, i, seen, old(view), texts);
      }
      assert edits[..|edits|] == edits;
      SeenDecides(width);
      ix := EnsureTimelineRowIndex(width);
      if old(Kept()) && AllFit(seen, edits) { FittingRunIsSafe(seen, edits, width); }
      if InOrder(seen) && forall e :: e in edits ==> !e.Truncate? {
        UncutRunIsInOrder(seen, edits);
        InOrderIsSafe(AfterAll(seen, edits), width);
      }
    }
  }

  /** What the messages that the edits change show. */
  function TextsOf(edits: seq<Edit>): (texts: map<Message, Text>)
    reads Edited(edits)
    ensures forall m :: m in Edited(edits) ==> m in texts
  {
    map m | m in Edited(edits) :: Text(m.id, Some(m.face))
  }

  /** After the first `n` edits each message shows what they left of its text. */
  predicate TextsShown(edits: seq<Edit>, n: nat, texts: map<Message, Text>)
    requires n <= |edits|
    reads Edited(edits)
  {
    forall m :: m in Edited(edits) ==> m in texts && Shows(m, TextAfter(m, texts[m], edits[..n]))
  }

  predicate Shows(message: Message, text: Text)
    reads message
  {
    message.id == text.id && (text.face.Some? ==> message.face == text.face.value)
  }

  /**
   After a lookup, an array cut by its last message and grown by another one has the indexed length
   again, and the next lookup takes the old index for current.
   */
  method RegrownIndexIsStale(timeline: TimelineState, message: Message, width: nat) returns (ix: RowIndex)
    requires timeline.Coherent() && timeline.index != null && timeline.Exact(timeline.index, width)
    requires timeline.index.generation == timeline.cache.generation && timeline.index.cacheRevision == timeline.cache.revision
    requires timeline.messages.items != [] && message !in timeline.messages.items
    modifies timeline`index, timeline`universe, timeline.messages, timeline.index
    modifies timeline.cache`hits, timeline.cache`misses, timeline.cache`entries
    modifies timeline.cache`order, timeline.cache`uses, timeline.cache`stored
    ensures timeline.messages.items == old(timeline.messages.items[..|timeline.messages.items| - 1]) + [message]
    ensures ix == old(timeline.index) && !timeline.Exact(ix, width)
  {
    hide TimelineState.Rows, RowIndex.WellFormed, CurrentExcept;
    hide TimelineState.Exact;
    timeline.ExactIsPrefix(timeline.index, width);
    timeline.ExactWidth(timeline.index, width);
    timeline.TruncateMessages(|timeline.messages.items| - 1);
    timeline.AppendMessage(message);
    var last := |timeline.messages.items| - 1;
    assert timeline.index.segments[last].message != timeline.messages.items[last];
    timeline.SyncedCount(timeline.index);
    assert timeline.Reusable(width);
    ix := timeline.EnsureTimelineRowIndex(width);
  }

  /** The segments are for the first of the messages. */
  predicate HasMessages(segments: seq<Segment>, items: seq<Message>) {
    |segments| <= |items| && forall i :: 0 <= i < |segments| ==> segments[i].message == items[i]
  }

  function MessagesOf(segments: seq<Segment>): seq<Message> {
    seq(|segments|, i requires 0 <= i < |segments| => segments[i].message)
  }

  lemma PrefixOf(segments: seq<Segment>, items: seq<Message>)
    ensures HasMessages(segments, items) <==> MessagesOf(segments) <= items
  {
    if HasMessages(segments, items) {
      assert MessagesOf(segments) == items[..|segments|];
    }
    if MessagesOf(segments) <= items {
      assert forall i :: 0 <= i < |segments| ==> segments[i].message == MessagesOf(segments)[i] == items[i];
    }
  }

  predicate SameMessages(a: seq<Segment>, b: seq<Segment>) {
    |a| == |b| && forall i :: 0 <= i < |a| ==> a[i].message == b[i].message
  }

  /** The distinct messages that the log names. */
  function Mutated(mutations: seq<Mutation>): set<Message> {
    set m | m in mutations && m.scope.One? :: m.scope.message
  }
}
