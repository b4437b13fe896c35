/**
 The LRU cache of rendered messages and its bounded log of render mutations
 (frontend/terminal-ui/src/render-cache.js).
 */
module RenderCaches {
  import opened Sequences
  import opened Wrappers

  const MAX_RENDER_MUTATIONS := 1024

  /** A timeline message.  `face` stands for the fields that the render key serialises. */
  class Message {
    var id: string
    var face: string

    constructor (id: string, face: string)
      ensures this.id == id && this.face == face
    {
      this.id, this.face := id, face;
    }
  }

  /** The render context: the width and the view state (folds, task panel) that enters the key. */
  datatype Context = Context(width: nat, view: string)

  datatype RenderKey = RenderKey(width: nat, view: string, id: string, face: string, revision: nat)

  type Line = string

  datatype Scope = All | One(message: Message)

  datatype Mutation = Mutation(scope: Scope, revision: nat)

  // ---------------------------------------------------------------- recency

  function Without<K(==)>(s: seq<K>, k: K): seq<K> {
    if s == [] then [] else (if s[0] == k then [] else [s[0]]) + Without(s[1..], k)
  }

  function TakeLast<K>(s: seq<K>, n: nat): seq<K> {
    if |s| <= n then s else s[|s| - n..]
  }

  function Elements<K(==)>(s: seq<K>): (r: set<K>) {
    set x | x in s
  }

  predicate Distinct<K(==)>(s: seq<K>) {
    forall i, j :: 0 <= i < j < |s| ==> s[i] != s[j]
  }

  /** The distinct keys of `uses`, ordered by last use. */
  function Recency<K(==)>(uses: seq<K>): seq<K> {
    if uses == [] then []
    else (if uses[0] in uses[1..] then [] else [uses[0]]) + Recency(uses[1..])
  }

  /** The keys used after the last use of `k`. */
  function UsedSince<K(==)>(uses: seq<K>, k: K): set<K>
    requires k in uses
  {
    if k in uses[1..] then UsedSince(uses[1..], k) else Elements(uses[1..])
  }

  /** `k` is one of the `n` most recently used distinct keys. */
  predicate AmongMostRecent<K(==)>(uses: seq<K>, k: K, n: nat) {
    k in uses && |UsedSince(uses, k)| < n
  }

  lemma {:induction false} WithoutFacts<K>(s: seq<K>, k: K)
    ensures forall x :: x in Without(s, k) <==> x in s && x != k
    ensures Distinct(s) ==> Distinct(Without(s, k))
    ensures |Without(s, k)| <= |s|
    ensures k !in s ==> Without(s, k) == s
  {
    if s != [] {
      var rest := Without(s[1..], k);
      WithoutFacts(s[1..], k);
      assert s == [s[0]] + s[1..];
      if Distinct(s) {
        assert Distinct(s[1..]) && s[0] !in rest;
        assert Distinct([s[0]] + rest);
      }
    }
  }

  lemma {:induction false} WithoutConcat<K>(a: seq<K>, b: seq<K>, k: K)
    ensures Without(a + b, k) == Without(a, k) + Without(b, k)
  {
    if a == [] {
      assert a + b == b;
    } else {
      HeadOfAppend(a, b);
      WithoutConcat(a[1..], b, k);
      AppendAssoc(if a[0] == k then [] else [a[0]], Without(a[1..], k), Without(b, k));
    }
  }

  lemma {:induction false} WithoutShrinks<K>(s: seq<K>, k: K)
    requires Distinct(s) && k in s
    ensures |Without(s, k)| == |s| - 1
  {
    if s[0] == k {
      WithoutFacts(s[1..], k);
    } else {
      WithoutShrinks(s[1..], k);
    }
  }

  lemma {:induction false} RecencyFacts<K>(uses: seq<K>)
    ensures Distinct(Recency(uses))
    ensures forall k :: k in Recency(uses) <==> k in uses
  {
    if uses != [] {
      RecencyFacts(uses[1..]);
      assert uses == [uses[0]] + uses[1..];
    }
  }

  /** A use moves the key to the most recent end. */
  lemma {:induction false} RecencyStep<K>(uses: seq<K>, k: K)
    ensures Recency(uses + [k]) == Without(Recency(uses), k) + [k]
  {
    if uses == [] {
      assert uses + [k] == [k];
    } else {
      RecencyStep(uses[1..], k);
      assert (uses + [k])[1..] == uses[1..] + [k];
      WithoutConcat(if uses[0] in uses[1..] then [] else [uses[0]], Recency(uses[1..]), k);
    }
  }

  lemma {:induction false} TakeLastWithout<K>(r: seq<K>, k: K, n: nat)
    requires Distinct(r)
    ensures TakeLast(Without(r, k) + [k], n) == TakeLast(Without(TakeLast(r, n), k) + [k], n)
  {
    if |r| > n {
      var a, b := r[..|r| - n], r[|r| - n..];
      assert r == a + b;
      WithoutConcat(a, b, k);
      var wa, wb := Without(a, k), Without(b, k);
      assert Without(r, k) + [k] == wa + (wb + [k]);
      if k in b {
        WithoutShrinks(b, k);
      } else {
        WithoutFacts(b, k);
      }
      assert |wb + [k]| >= n;
      TakeLastConcat(wa, wb + [k], n);
    }
  }

  lemma TakeLastConcat<K>(a: seq<K>, b: seq<K>, n: nat)
    requires |b| >= n
    ensures TakeLast(a + b, n) == TakeLast(b, n)
  {
  }

  lemma CachedWasUsed<K>(uses: seq<K>, k: K, n: nat)
    requires k in TakeLast(Recency(uses), n)
    ensures k in uses
  {
    RecencyFacts(uses);
  }

  /** Reinserting one key and dropping the oldest keys keeps exactly the `n` most recent ones. */
  lemma {:induction false} LruStep<K>(uses: seq<K>, k: K, n: nat)
    ensures TakeLast(Recency(uses + [k]), n) == TakeLast(Without(TakeLast(Recency(uses), n), k) + [k], n)
  {
    RecencyStep(uses, k);
    RecencyFacts(uses);
    TakeLastWithout(Recency(uses), k, n);
  }

  /** The order after a use, by whether the key was cached. */
  lemma {:induction false} OrderAfterUse<K>(uses: seq<K>, order: seq<K>, k: K, n: nat)
    requires order == TakeLast(Recency(uses), n)
    ensures Distinct(order) && |order| <= n
    ensures k in order ==> Without(order, k) + [k] == TakeLast(Recency(uses + [k]), n)
    ensures k !in order ==> TakeLast(order + [k], n) == TakeLast(Recency(uses + [k]), n)
  {
    RecencyFacts(uses);
    LruStep(uses, k, n);
    WithoutFacts(order, k);
    if k in order {
      WithoutShrinks(order, k);
    }
  }

  lemma DropOldest<K>(s: seq<K>)
    requires Distinct(s) && s != []
    ensures Distinct(s[1..]) && forall k :: k in s[1..] <==> k in s && k != s[0]
  {
    assert s == [s[0]] + s[1..];
  }

  lemma {:induction false} ElementsOfDistinct<K>(s: seq<K>)
    requires Distinct(s)
    ensures |Elements(s)| == |s|
  {
    if s != [] {
      ElementsOfDistinct(s[1..]);
      assert Elements(s) == {s[0]} + Elements(s[1..]);
    }
  }

  /** What stays in the cache, said without ordering keys: fewer than `n` other keys used since. */
  lemma {:induction false} RecencyKeepsMostRecent<K>(uses: seq<K>, k: K, n: nat)
    ensures k in TakeLast(Recency(uses), n) <==> AmongMostRecent(uses, k, n)
  {
    RecencyFacts(uses);
    if k in uses {
      var rest := uses[1..];
      var r, r' := Recency(uses), Recency(rest);
      RecencyFacts(rest);
      if k in rest {
        RecencyKeepsMostRecent(rest, k, n);
        RecencySuffix(uses, k, n);
      } else {
        assert uses[0] == k;
        ElementsOfDistinct(r');
        assert Elements(r') == Elements(rest);
        assert r == [k] + r';
      }
    }
  }

  lemma {:induction false} RecencySuffix<K>(uses: seq<K>, k: K, n: nat)
    requires uses != [] && k in uses[1..]
    ensures k in TakeLast(Recency(uses), n) <==> k in TakeLast(Recency(uses[1..]), n)
  {
    var r, r' := Recency(uses), Recency(uses[1..]);
    RecencyFacts(uses[1..]);
    RecencyFacts(uses);
    if r != r' {
      assert r == [uses[0]] + r' && uses[0] != k;
      if |r'| >= n {
        assert TakeLast(r, n) == TakeLast(r', n);
      }
    }
  }

  // ---------------------------------------------------------------- the cache

  /** A lookup: for which message, under which key. */
  datatype Use = Use(message: Message, key: RenderKey)

  function Keys(uses: seq<Use>): (keys: seq<RenderKey>)
    ensures |keys| == |uses|
  {
    seq(|uses|, i requires 0 <= i < |uses| => uses[i].key)
  }

  lemma KeysPush(uses: seq<Use>, u: Use)
    ensures Keys(uses + [u]) == Keys(uses) + [u.key]
  {
  }

  /** The log with one more record; one too many leaves a single "all". */
  function Logged(mutations: seq<Mutation>, scope: Scope, revision: nat): seq<Mutation> {
    if |mutations| < MAX_RENDER_MUTATIONS then mutations + [Mutation(scope, revision)] else [Mutation(All, revision)]
  }

  /** A log that ends at `revision` names each mutation after `since`. */
  predicate Names(mutations: seq<Mutation>, revision: nat, since: nat) {
    since <= revision <= since + |mutations| && forall m :: m in mutations[|mutations| - (revision - since)..] ==> m.scope != All
  }

  /** A mark leaves it that way until it is one too many. */
  lemma MarkIsNamed(mutations: seq<Mutation>, revision: nat, since: nat, message: Message)
    requires since <= revision
    ensures Names(Logged(mutations, One(message), revision + 1), revision + 1, since) <==>
      Names(mutations, revision, since) && |mutations| < MAX_RENDER_MUTATIONS
  {
    var now, one := Logged(mutations, One(message), revision + 1), Mutation(One(message), revision + 1);
    if |mutations| < MAX_RENDER_MUTATIONS && revision <= since + |mutations| {
      var k := |mutations| - (revision - since);
      assert now[k..] == mutations[k..] + [one];
      assert forall m :: m in now[k..] <==> m in mutations[k..] || m == one;
    } else if since == revision {
      assert now == [Mutation(All, revision + 1)] && now[0] in now[0..];
    }
  }

  /** How many records the log then has. */
  function LoggedCount(count: nat): nat {
    if count < MAX_RENDER_MUTATIONS then count + 1 else 1
  }

  /** A mutable list of lines. */
  class LineList {
    var items: seq<Line>

    constructor (items: seq<Line>)
      ensures this.items == items
    {
      this.items := items;
    }
  }

  class RenderCache {
    const maxEntries: nat
    /** What a render call returns for a key: equal keys imply equal rendering. */
    const render: RenderKey -> seq<Line>

    var entries: map<RenderKey, LineList>
    var order: seq<RenderKey>   // insertion order of `entries`
    var hits: nat
    var misses: nat
    var generation: nat
    var revision: nat
    var mutations: seq<Mutation>
    var messageRevisions: map<Message, nat>

    ghost var uses: seq<Use>         // what was looked up since the last clear
    ghost var stored: set<LineList>   // every list ever put in `entries`
    ghost var history: seq<Scope>    // every mutation ever recorded; revision r is history[r - 1]

    ghost predicate ValidLog()
      reads `revision, `mutations, `history
    {
      && revision == |history|
      && |mutations| <= MAX_RENDER_MUTATIONS
      && |mutations| <= revision
      && (revision > 0 ==> mutations != [])
      && forall i :: 0 <= i < |mutations| ==>
           && mutations[i].revision == revision - |mutations| + 1 + i
           && (mutations[i].scope == history[revision - |mutations| + i] || (i == 0 && mutations[i].scope == All))
    }

    ghost predicate ValidEntries()
      reads `entries, `order, `uses, `stored, stored
    {
      && order == TakeLast(Recency(Keys(uses)), maxEntries)
      && (forall k :: k in entries <==> k in order)
      && forall k :: k in entries ==> entries[k] in stored && entries[k].items == render(k)
    }

    /** No message was looked up under a revision that it has not reached yet. */
    ghost predicate ValidUses()
      reads `uses, `messageRevisions
    {
      forall u :: u in uses ==> u.key.revision <= RevisionOf(u.message)
    }

    ghost predicate Valid()
      reads this, stored
    {
      ValidLog() && ValidEntries() && ValidUses()
    }

    constructor (maxEntries: nat, render: RenderKey -> seq<Line>)
      ensures Valid() && fresh(stored)
      ensures this.maxEntries == maxEntries && this.render == render
      ensures revision == 0 && generation == 0 && history == [] && messageRevisions == map[]
    {
      this.maxEntries, this.render := maxEntries, render;
      entries, order, hits, misses := map[], [], 0, 0;
      generation, revision, mutations, messageRevisions := 0, 0, [], map[];
      uses, stored, history := [], {}, [];
    }

    function RevisionOf(message: Message): nat
      reads `messageRevisions
    {
      if message in messageRevisions then messageRevisions[message] else 0
    }

    function KeyOf(message: Message, ctx: Context): RenderKey
      reads `messageRevisions, message
    {
      RenderKey(ctx.width, ctx.view, message.id, message.face, RevisionOf(message))
    }

    /** The lines a render from scratch would give. */
    function Fresh(message: Message, ctx: Context): seq<Line>
      reads `messageRevisions, message
    {
      render(KeyOf(message, ctx))
    }

    /** A cached render equals a fresh one; the returned list is never a stored one. */
    method RenderCachedMessage(message: Message, ctx: Context) returns (lines: LineList)
      requires Valid()
      modifies `hits, `misses, `entries, `order, `uses, `stored
      ensures Valid() && lines.items == Fresh(message, ctx)
      ensures
        var key := RenderKey(ctx.width, ctx.view, message.id, message.face, RevisionOf(message));
        && lines.items == render(key) && uses == old(uses) + [Use(message, key)]
        && (if key in old(entries) then hits == old(hits) + 1 && misses == old(misses)
            else misses == old(misses) + 1 && hits == old(hits))
      ensures fresh(lines) && lines !in stored && old(stored) <= stored && fresh(stored - old(stored))
    {
      hide Recency, Without, TakeLast;
      var key := KeyOf(message, ctx);
      OrderAfterUse(Keys(uses), order, key, maxEntries);
      KeysPush(uses, Use(message, key));
      if key in entries {
        lines := Hit(message, key);
      } else {
        lines := Miss(message, key);
      }
    }

    method Hit(ghost message: Message, key: RenderKey) returns (lines: LineList)
      requires ValidEntries() && key in entries
      requires Without(order, key) + [key] == TakeLast(Recency(Keys(uses + [Use(message, key)])), maxEntries)
      modifies `hits, `order, `uses
      ensures ValidEntries() && lines.items == render(key) && fresh(lines)
      ensures uses == old(uses) + [Use(message, key)] && hits == old(hits) + 1
    {
      hide Recency, Without, TakeLast, Keys;
      hits := hits + 1;
      WithoutFacts(order, key);
      order := Without(order, key) + [key];
      uses := uses + [Use(message, key)];
      var cached := entries[key];
      lines := new LineList(cached.items);
    }

    method Miss(ghost message: Message, key: RenderKey) returns (lines: LineList)
      requires ValidEntries() && key !in entries && Distinct(order)
      requires TakeLast(order + [key], maxEntries) == TakeLast(Recency(Keys(uses + [Use(message, key)])), maxEntries)
      modifies `misses, `entries, `order, `uses, `stored
      ensures ValidEntries() && lines.items == render(key)
      ensures fresh(lines) && lines !in stored && old(stored) <= stored && fresh(stored - old(stored))
      ensures uses == old(uses) + [Use(message, key)] && misses == old(misses) + 1
    {
      hide Recency, Without, TakeLast, Keys;
      misses := misses + 1;
      var rendered := render(key);
      lines := new LineList(rendered);
      var copy := new LineList(rendered);
      entries := entries[key := copy];
      stored := stored + {copy};
      order := order + [key];
      uses := uses + [Use(message, key)];
      EvictOldEntries();
    }

    /** Two lookups have one key exactly when width, view, id, face and revision agree. */
    lemma KeysAgree(a: Message, b: Message, x: Context, y: Context)
      ensures KeyOf(a, x) == KeyOf(b, y) <==>
        x.width == y.width && x.view == y.view && a.id == b.id && a.face == b.face && RevisionOf(a) == RevisionOf(b)
    {
    }

    /**
     A cached render is reused only for a message that was looked up at this width, in this view and
     with this face and revision before -- or for another one of the same id.
     */
    lemma HitIsARepeat(message: Message, ctx: Context)
      requires Valid() && KeyOf(message, ctx) in entries
      ensures exists u :: u in uses && u.key == RenderKey(ctx.width, ctx.view, message.id, message.face, RevisionOf(message))
    {
      hide Recency, TakeLast;
      CachedWasUsed(Keys(uses), KeyOf(message, ctx), maxEntries);
      var i :| 0 <= i < |uses| && Keys(uses)[i] == KeyOf(message, ctx);
      assert uses[i] in uses;
    }

    /** So a message that was marked is rendered again, whatever the width and the view. */
    lemma MarkedIsRenderedAgain(message: Message, ctx: Context)
      requires Valid() && forall u :: u in uses && u.key.id == message.id ==> u.message == message
      requires forall u :: u in uses && u.message == message ==> u.key.revision < RevisionOf(message)
      ensures KeyOf(message, ctx) !in entries
    {
      hide Recency, TakeLast;
      if KeyOf(message, ctx) in entries { HitIsARepeat(message, ctx); }
    }

    method EvictOldEntries()
      requires Distinct(order) && forall k :: k in entries <==> k in order
      modifies `entries, `order
      ensures order == TakeLast(old(order), maxEntries)
      ensures forall k :: k in entries <==> k in order
      ensures forall k :: k in entries ==> k in old(entries) && entries[k] == old(entries)[k]
    {
      hide Distinct;
      ghost var all, dropped := order, 0;
      while |order| > maxEntries
        invariant 0 <= dropped <= |all| && order == all[dropped..] && Distinct(order)
        invariant dropped > 0 ==> |all| - dropped >= maxEntries
        invariant forall k :: k in entries <==> k in order
        invariant forall k :: k in entries ==> k in old(entries) && entries[k] == old(entries)[k]
      {
        DropOldest(order);
        entries := entries - {order[0]};
        order, dropped := order[1..], dropped + 1;
      }
    }

    method ClearRenderCache()
      requires Valid()
      modifies this
      ensures Valid() && entries == map[] && uses == []
      ensures generation == old(generation) + 1 && history == old(history) + [All] && revision == old(revision) + 1
      ensures mutations == Logged(old(mutations), All, revision)
      ensures unchanged(`messageRevisions)
    {
      entries, order, hits, misses := map[], [], 0, 0;
      uses := [];
      generation := generation + 1;
      RecordRenderMutation(All);
    }

    method MarkMessageRenderDirty(message: Message)
      requires Valid()
      modifies this
      ensures Valid() && history == old(history) + [One(message)] && revision == old(revision) + 1
      ensures mutations == Logged(old(mutations), One(message), revision)
      ensures messageRevisions == old(messageRevisions[message := RevisionOf(message) + 1])
      ensures unchanged(`entries, `order, `uses, `generation)
      ensures forall u :: u in uses && u.message == message ==> u.key.revision < RevisionOf(message)
    {
      messageRevisions := messageRevisions[message := RevisionOf(message) + 1];
      RecordRenderMutation(One(message));
    }

    method RecordRenderMutation(scope: Scope)
      requires ValidLog()
      modifies `revision, `mutations, `history
      ensures ValidLog() && history == old(history) + [scope] && revision == old(revision) + 1
      ensures mutations == Logged(old(mutations), scope, revision)
      ensures |old(mutations)| < 1024 ==> mutations == old(mutations) + [Mutation(scope, revision)]
      ensures |old(mutations)| >= 1024 ==> mutations == [Mutation(All, revision)]
    {
      revision := revision + 1;
      history := history + [scope];
      mutations := mutations + [Mutation(scope, revision)];
      if |mutations| > MAX_RENDER_MUTATIONS {
        mutations := [Mutation(All, revision)];
      }
    }

    /**
     The mutations after revision `previous`, or nothing once the log no longer reaches back
     that far.  An answer has one record per revision; each is the one that was recorded, except
     that the oldest record of the log may be the "all" that an overflow left behind.
     */
    function RenderMutationsSince(previous: nat): (r: Option<seq<Mutation>>)
      requires ValidLog()
      reads `revision, `mutations, `history
      ensures r.None? <==> previous < revision - |mutations| || (previous > revision == 0)
      ensures r.Some? ==>
        && |r.value| == (if previous <= revision then revision - previous else 0)
        && forall i :: 0 <= i < |r.value| ==>
             && r.value[i].revision == previous + 1 + i
             && (r.value[i].scope == history[previous + i]
                 || (r.value[i].scope == All && i == 0 && |r.value| == |mutations|))
    {
      if previous == revision then Some([])
      else if mutations == [] then None
      else
        var first := mutations[0].revision;
        if previous < first - 1 then None
        else
          var offset := if previous - first + 1 > 0 then previous - first + 1 else 0;
          Some(if offset <= |mutations| then mutations[offset..] else [])
    }

    /** What the log answers, without an "all". */
    lemma AnswerNames(since: nat)
      requires ValidLog() && since <= revision
      ensures Names(mutations, revision, since) <==>
        var ms := RenderMutationsSince(since);
        ms.Some? && forall m :: m in ms.value ==> m.scope != All
    {
      var ms := RenderMutationsSince(since);
      if ms.Some? { assert ms.value == mutations[|mutations| - (revision - since)..]; }
    }
  }

  /** Writing into a returned list leaves every stored list, and so every later render, as it was. */
  method ScribbleOnReturnedList(cache: RenderCache, message: Message, ctx: Context, i: nat, text: Line)
    returns (again: LineList)
    requires cache.Valid() && i < |cache.Fresh(message, ctx)|
    modifies cache
    ensures cache.Valid() && again.items == old(cache.Fresh(message, ctx))
  {
    var lines := cache.RenderCachedMessage(message, ctx);
    lines.items := lines.items[i := text];
    again := cache.RenderCachedMessage(message, ctx);
  }
}
