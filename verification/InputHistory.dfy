/**
 The project's input history: cleaned, merged with what other sessions saved, and written back
 (frontend/terminal-ui/src/ui-state-store.js); submissions feed it
 (frontend/terminal-ui/src/input-buffer.js, frontend/terminal-ui/src/index.js).
 */
module InputHistories {
  import opened Sequences
  import opened Wrappers
  import Strings

  datatype Limits = Limits(maxEntries: int, maxEntryChars: int, maxTotalChars: int)

  const HISTORY_LIMITS := Limits(100, 200000, 1000000)

  type History = seq<string>

  // ---------------------------------------------------------------- cleaning

  predicate FitsEntry(limits: Limits, value: string) {
    1 <= |value| <= limits.maxEntryChars
  }

  function Total(history: History): (r: int)
    ensures r >= 0
    decreases |history|
  {
    if history == [] then 0 else Total(history[..|history| - 1]) + |history[|history| - 1]|
  }

  /** What is kept of a history, newest first, once `count` newer entries of `total` characters are kept. */
  function Kept(limits: Limits, history: History, count: int, total: int): History
    decreases |history|
  {
    if history == [] || count >= limits.maxEntries then []
    else
      var older, value := history[..|history| - 1], history[|history| - 1];
      if !FitsEntry(limits, value) || total + |value| > limits.maxTotalChars then Kept(limits, older, count, total)
      else Kept(limits, older, count + 1, total + |value|) + [value]
  }

  function Sanitized(limits: Limits, history: History): History {
    Kept(limits, history, 0, 0)
  }

  function Reversed(s: History): (r: History)
    ensures |r| == |s|
    decreases |s|
  {
    if s == [] then [] else [s[|s| - 1]] + Reversed(s[..|s| - 1])
  }

  method SanitizeInputHistory(limits: Limits, history: History) returns (r: History)
    ensures r == Sanitized(limits, history)
  {
    var keptNewestFirst: History := [];
    var totalChars := 0;
    var i := |history|;
    assert history[..i] == history && Kept(limits, history, 0, 0) + [] == Kept(limits, history, 0, 0);
    while i > 0
      invariant 0 <= i <= |history| && totalChars >= 0
      invariant Sanitized(limits, history) == Kept(limits, history[..i], |keptNewestFirst|, totalChars) + Reversed(keptNewestFirst)
    {
      if |keptNewestFirst| >= limits.maxEntries { break; }
      i := i - 1;
      var value := history[i];
      assert history[..i + 1][..i] == history[..i];
      if !FitsEntry(limits, value) { continue; }
      if totalChars + |value| > limits.maxTotalChars { continue; }
      assert (keptNewestFirst + [value])[..|keptNewestFirst|] == keptNewestFirst;
      keptNewestFirst := keptNewestFirst + [value];
      totalChars := totalChars + |value|;
    }
    r := Reversed(keptNewestFirst);
    assert [] + r == r;
  }

  /** Within every limit. */
  predicate Clean(limits: Limits, history: History) {
    && |history| <= limits.maxEntries
    && Total(history) <= limits.maxTotalChars
    && forall v :: v in history ==> FitsEntry(limits, v)
  }

  /** Some entries of `history`, in the same order. */
  predicate Subsequence(part: History, history: History)
    decreases |history|
  {
    part == []
    || (history != []
        && (Subsequence(part, history[..|history| - 1])
            || (part[|part| - 1] == history[|history| - 1] && Subsequence(part[..|part| - 1], history[..|history| - 1]))))
  }

  lemma TotalGrows(history: History, value: string)
    ensures Total(history + [value]) == Total(history) + |value|
  {
    assert (history + [value])[..|history|] == history;
  }

  lemma {:induction false} KeptFits(limits: Limits, history: History, count: int, total: int)
    requires 0 <= count <= limits.maxEntries && 0 <= total <= limits.maxTotalChars
    ensures
      var r := Kept(limits, history, count, total);
      && count + |r| <= limits.maxEntries && total + Total(r) <= limits.maxTotalChars
      && (forall v :: v in r ==> FitsEntry(limits, v)) && Subsequence(r, history)
    decreases |history|
  {
    if history != [] && count < limits.maxEntries {
      var older, value := history[..|history| - 1], history[|history| - 1];
      if !FitsEntry(limits, value) || total + |value| > limits.maxTotalChars {
        KeptFits(limits, older, count, total);
      } else {
        KeptFits(limits, older, count + 1, total + |value|);
        var kept := Kept(limits, older, count + 1, total + |value|);
        TotalGrows(kept, value);
        assert (kept + [value])[..|kept|] == kept;
      }
    }
  }

  lemma {:induction false} AllIsKept(limits: Limits, history: History, count: int, total: int)
    requires 0 <= count && count + |history| <= limits.maxEntries && 0 <= total && total + Total(history) <= limits.maxTotalChars
    requires forall v :: v in history ==> FitsEntry(limits, v)
    ensures Kept(limits, history, count, total) == history
    decreases |history|
  {
    if history != [] {
      var older, value := history[..|history| - 1], history[|history| - 1];
      AllIsKept(limits, older, count + 1, total + |value|);
      assert older + [value] == history;
    }
  }

  predicate ValidLimits(limits: Limits) {
    limits.maxEntries >= 1 && limits.maxEntryChars >= 1 && limits.maxTotalChars >= limits.maxEntryChars
  }

  /**
   Cleaning keeps entries in order and within the limits, changes nothing exactly when the history
   already is within them, and so is idempotent.
   */
  lemma SanitizeIsIdempotent(limits: Limits, history: History)
    requires ValidLimits(limits)
    ensures Clean(limits, Sanitized(limits, history)) && Subsequence(Sanitized(limits, history), history)
    ensures Sanitized(limits, history) == history <==> Clean(limits, history)
    ensures Sanitized(limits, Sanitized(limits, history)) == Sanitized(limits, history)
  {
    hide Kept, Total, Subsequence, FitsEntry;
    KeptFits(limits, history, 0, 0);
    AllIsKept(limits, Sanitized(limits, history), 0, 0);
    if Clean(limits, history) { AllIsKept(limits, history, 0, 0); }
  }

  /** The newest entry is kept whenever it fits at all. */
  lemma NewestIsKept(limits: Limits, history: History, value: string)
    requires ValidLimits(limits) && FitsEntry(limits, value)
    ensures
      var r := Sanitized(limits, history + [value]);
      r != [] && r[|r| - 1] == value
  {
    assert (history + [value])[..|history|] == history;
  }

  lemma {:induction false} KeptOneMore(limits: Limits, value: string, history: History, count: int, total: int)
    requires 0 <= count && 0 <= total
    ensures
      var newer := Kept(limits, history, count, total);
      Kept(limits, [value] + history, count, total)
      == if FitsEntry(limits, value) && count + |newer| < limits.maxEntries && total + Total(newer) + |value| <= limits.maxTotalChars
         then [value] + newer else newer
    decreases |history|
  {
    var longer := [value] + history;
    if history == [] {
      assert longer[..0] == [] && longer[0] == value;
      assert Kept(limits, [], count, total) == [] && Kept(limits, [], count + 1, total + |value|) == [];
      EmptyAppend([value]);
    } else if count < limits.maxEntries {
      var older, last := history[..|history| - 1], history[|history| - 1];
      assert longer[..|longer| - 1] == [value] + older && longer[|longer| - 1] == last;
      if !FitsEntry(limits, last) || total + |last| > limits.maxTotalChars {
        KeptOneMore(limits, value, older, count, total);
      } else {
        KeptOneMore(limits, value, older, count + 1, total + |last|);
        var kept := Kept(limits, older, count + 1, total + |last|);
        TotalGrows(kept, last);
        AppendAssoc([value], kept, [last]);
      }
    }
  }

  /** An older entry is left out exactly when it does not fit by itself or the newer ones leave it no room. */
  lemma SanitizeOneOlder(limits: Limits, value: string, history: History)
    ensures
      var newer := Sanitized(limits, history);
      Sanitized(limits, [value] + history)
      == if FitsEntry(limits, value) && |newer| < limits.maxEntries && Total(newer) + |value| <= limits.maxTotalChars
         then [value] + newer else newer
  {
    KeptOneMore(limits, value, history, 0, 0);
  }

  // ---------------------------------------------------------------- merging

  function CommonPrefix(a: History, b: History): (r: int)
    ensures 0 <= r <= |a| && r <= |b| && a[..r] == b[..r]
    ensures r < |a| && r < |b| ==> a[r] != b[r]
  {
    if a == [] || b == [] || a[0] != b[0] then 0
    else
      var r := CommonPrefix(a[1..], b[1..]);
      assert a[..r + 1] == [a[0]] + a[1..][..r] && b[..r + 1] == [b[0]] + b[1..][..r];
      r + 1
  }

  lemma CommonPrefixUnique(a: History, b: History, r: int)
    requires 0 <= r <= |a| && r <= |b| && a[..r] == b[..r] && (r < |a| && r < |b| ==> a[r] != b[r])
    ensures r == CommonPrefix(a, b)
  {
    var k := CommonPrefix(a, b);
    assert forall j :: 0 <= j < k ==> a[j] == a[..k][j] == b[..k][j] == b[j];
    assert forall j :: 0 <= j < r ==> a[j] == a[..r][j] == b[..r][j] == b[j];
  }

  function Merged(limits: Limits, persisted: History, base: History, local: History): History {
    var safeLocal := Sanitized(limits, local);
    Sanitized(limits, Sanitized(limits, persisted) + safeLocal[CommonPrefix(Sanitized(limits, base), safeLocal)..])
  }

  method MergeInputHistory(limits: Limits, persisted: History, base: History, local: History) returns (r: History)
    ensures r == Merged(limits, persisted, base, local)
  {
    var safePersisted := SanitizeInputHistory(limits, persisted);
    var safeBase := SanitizeInputHistory(limits, base);
    var safeLocal := SanitizeInputHistory(limits, local);
    var prefix := 0;
    while prefix < |safeBase| && prefix < |safeLocal| && safeBase[prefix] == safeLocal[prefix]
      invariant 0 <= prefix <= |safeBase| && prefix <= |safeLocal| && safeBase[..prefix] == safeLocal[..prefix]
    {
      assert safeBase[..prefix + 1] == safeBase[..prefix] + [safeBase[prefix]];
      assert safeLocal[..prefix + 1] == safeLocal[..prefix] + [safeLocal[prefix]];
      prefix := prefix + 1;
    }
    CommonPrefixUnique(safeBase, safeLocal, prefix);
    r := SanitizeInputHistory(limits, safePersisted + safeLocal[prefix..]);
  }

  /** A local history that only added to its base: what was added goes behind what is persisted. */
  lemma MergeAppendsDelta(limits: Limits, persisted: History, base: History, delta: History)
    requires ValidLimits(limits) && Clean(limits, persisted) && Clean(limits, base) && Clean(limits, base + delta)
    ensures Merged(limits, persisted, base, base + delta) == Sanitized(limits, persisted + delta)
  {
    hide Kept, Clean;
    SanitizeIsIdempotent(limits, persisted);
    SanitizeIsIdempotent(limits, base);
    SanitizeIsIdempotent(limits, base + delta);
    CommonPrefixUnique(base, base + delta, |base|);
  }

  /** The history after one more submission, before it is trimmed: a repeat of the last one is not added. */
  function Longer(history: History, value: string): History {
    if history != [] && history[|history| - 1] == value then history else history + [value]
  }

  function Remembered(limits: Limits, history: History, value: string): History
    requires limits.maxEntries >= 1
  {
    var longer := Longer(history, value);
    if |longer| <= limits.maxEntries then longer else longer[|longer| - limits.maxEntries..]
  }

  lemma {:induction false} SubsequenceIsShorter(part: History, history: History)
    requires Subsequence(part, history)
    ensures |part| <= |history| && (|part| == |history| ==> part == history)
    decreases |history|
  {
    if part != [] {
      var older := history[..|history| - 1];
      if Subsequence(part, older) {
        SubsequenceIsShorter(part, older);
      } else {
        SubsequenceIsShorter(part[..|part| - 1], older);
        assert part == part[..|part| - 1] + [part[|part| - 1]];
        assert history == older + [history[|history| - 1]];
      }
    }
  }

  /**
   A submission only adds to the local history exactly while the history with it stays within the
   limits: the condition under which a save appends it.
   */
  lemma SubmissionExtendsBase(limits: Limits, base: History, value: string)
    requires ValidLimits(limits) && Clean(limits, base) && FitsEntry(limits, value)
    requires base == [] || base[|base| - 1] != value
    ensures base <= Sanitized(limits, Remembered(limits, base, value)) <==> Clean(limits, base + [value])
  {
    hide Kept, FitsEntry, Subsequence;
    var local := Remembered(limits, base, value);
    var r := Sanitized(limits, local);
    SanitizeIsIdempotent(limits, local);
    var older := if |base| < limits.maxEntries then base else base[1..];
    assert local == older + [value];
    NewestIsKept(limits, older, value);
    SubsequenceIsShorter(r, local);
    if base <= r {
      assert |r| == |base| ==> r == base;
      assert r == local == base + [value];
    }
  }

  /**
   At the limit the merge is not an append: a full local history replaces whatever other sessions
   had persisted.
   */
  lemma FullHistoryReplacesOthers(limits: Limits, persisted: History, base: History, value: string)
    requires ValidLimits(limits) && Clean(limits, base) && |base| == limits.maxEntries
    requires base[|base| - 1] != value && Clean(limits, base[1..] + [value]) && base[0] != (base[1..] + [value])[0]
    ensures Merged(limits, persisted, base, Remembered(limits, base, value)) == base[1..] + [value]
  {
    hide Kept, FitsEntry, Subsequence;
    var local := base[1..] + [value];
    assert Remembered(limits, base, value) == local by { assert (base + [value])[1..] == local; }
    SanitizeIsIdempotent(limits, base);
    SanitizeIsIdempotent(limits, local);
    CommonPrefixUnique(base, local, 0);
    assert local[0..] == local;
    FullSuffixIsKept(limits, Sanitized(limits, persisted), local);
  }

  lemma {:induction false} KeptOfSuffix(limits: Limits, older: History, suffix: History, count: int, total: int)
    requires 0 <= count && count + |suffix| <= limits.maxEntries && 0 <= total && total + Total(suffix) <= limits.maxTotalChars
    requires forall v :: v in suffix ==> FitsEntry(limits, v)
    ensures Kept(limits, older + suffix, count, total) == Kept(limits, older, count + |suffix|, total + Total(suffix)) + suffix
    decreases |suffix|
  {
    if suffix == [] {
      assert older + suffix == older;
      assert Kept(limits, older, count, total) + [] == Kept(limits, older, count, total);
    } else {
      var front, value := suffix[..|suffix| - 1], suffix[|suffix| - 1];
      assert (older + suffix)[..|older + suffix| - 1] == older + front;
      KeptOfSuffix(limits, older, front, count + 1, total + |value|);
      assert Kept(limits, older, count + |suffix|, total + Total(suffix)) + front + [value]
          == Kept(limits, older, count + |suffix|, total + Total(suffix)) + suffix;
    }
  }

  lemma FullSuffixIsKept(limits: Limits, older: History, suffix: History)
    requires Clean(limits, suffix) && |suffix| == limits.maxEntries
    ensures Sanitized(limits, older + suffix) == suffix
  {
    KeptOfSuffix(limits, older, suffix, 0, 0);
    assert [] + suffix == suffix;
  }

  // ---------------------------------------------------------------- several sessions, one file

  /** `shown` is the interface's own list, `stored` and `base` the store's, `submitted` all it was given. */
  datatype Session = Session(shown: History, stored: History, base: History, dirty: bool, submitted: set<string>)

  /** `disk` is the file's history, `None` when there is no file that can be read. */
  datatype World = World(disk: Option<History>, sessions: map<int, Session>)

  datatype Event = Open(id: int) | Submit(id: int, text: string) | Save(id: int, writes: bool)

  function Entries(disk: Option<History>): History {
    if disk.Some? then disk.value else []
  }

  function OpenSession(history: History): Session {
    Session(history, history, history, false, {})
  }

  function Submitted(limits: Limits, s: Session, text: string): Session
    requires limits.maxEntries >= 1
  {
    var value := Strings.Trim(text);
    if value == "" then s
    else
      var shown := Remembered(limits, s.shown, value);
      Session(shown, Sanitized(limits, shown), s.base, true, s.submitted + {value})
  }

  /**
   What a submission does to the interface's list: white space around it is left out, nothing else is
   not remembered, a repeat of the last one is not added, and the oldest one gives way when the list is full.
   */
  lemma SubmissionIsRemembered(limits: Limits, s: Session, before: string, value: string, after: string)
    requires limits.maxEntries >= 1 && |s.shown| <= limits.maxEntries
    requires Strings.Blank(before, Strings.IsSpace) && Strings.Blank(after, Strings.IsSpace)
    ensures Submitted(limits, s, before) == s
    ensures Strings.Tight(value, Strings.IsSpace) ==>
      var t := Submitted(limits, s, before + value + after);
      && t.shown == (if s.shown != [] && s.shown[|s.shown| - 1] == value then s.shown
                     else if |s.shown| < limits.maxEntries then s.shown + [value] else s.shown[1..] + [value])
      && t.stored == Sanitized(limits, t.shown) && t.base == s.base && t.dirty && t.submitted == s.submitted + {value}
  {
    hide Strings.Strip, Sanitized;
    Strings.BlankStrips(before, Strings.IsSpace);
    if Strings.Tight(value, Strings.IsSpace) { Strings.StripTight(before, value, after, Strings.IsSpace); }
  }

  /** What the session has added to its history since it last saved. */
  function Unsaved(s: Session): History {
    s.stored[CommonPrefix(s.base, s.stored)..]
  }

  /** Without a file a session that has nothing to add writes its own history. */
  function SavedHistory(limits: Limits, disk: Option<History>, s: Session): History {
    if s.dirty then Merged(limits, Sanitized(limits, Entries(disk)), s.base, s.stored)
    else if disk.Some? then Sanitized(limits, disk.value)
    else Sanitized(limits, s.stored)
  }

  function Step(limits: Limits, w: World, e: Event): World
    requires limits.maxEntries >= 1
  {
    match e
    case Open(id) => w.(sessions := w.sessions[id := OpenSession(Sanitized(limits, Entries(w.disk)))])
    case Submit(id, text) =>
      if id in w.sessions then w.(sessions := w.sessions[id := Submitted(limits, w.sessions[id], text)]) else w
    case Save(id, writes) =>
      if id !in w.sessions || !writes then w
      else
        var s := w.sessions[id];
        var saved := SavedHistory(limits, w.disk, s);
        World(Some(saved), w.sessions[id := s.(stored := saved, base := saved, dirty := false)])
  }

  /** The step keeps every list within the limits. */
  predicate WithinLimits(limits: Limits, w: World, e: Event) {
    match e
    case Open(_) => true
    case Submit(id, text) => id in w.sessions ==> Strings.Trim(text) == "" || Clean(limits, Longer(w.sessions[id].shown, Strings.Trim(text)))
    case Save(id, writes) => writes && id in w.sessions && w.sessions[id].dirty ==> Clean(limits, Entries(w.disk) + Unsaved(w.sessions[id]))
  }

  predicate RunWithinLimits(limits: Limits, w: World, events: seq<Event>)
    requires limits.maxEntries >= 1
    decreases |events|
  {
    events == [] || (WithinLimits(limits, w, events[0]) && RunWithinLimits(limits, Step(limits, w, events[0]), events[1..]))
  }

  function RunAll(limits: Limits, w: World, events: seq<Event>): World
    requires limits.maxEntries >= 1
    decreases |events|
  {
    if events == [] then w else RunAll(limits, Step(limits, w, events[0]), events[1..])
  }

  /** What a session was given is in its list, and in the file unless it still has to save. */
  predicate SessionInv(limits: Limits, disk: History, s: Session) {
    && Clean(limits, s.shown) && Clean(limits, s.stored) && Clean(limits, s.base)
    && (forall v :: v in s.base ==> v in disk)
    && (forall v :: v in s.submitted ==> v in s.shown)
    && (s.dirty ==> s.stored == s.shown)
    && (!s.dirty ==> forall v :: v in s.shown ==> v in disk)
  }

  predicate Inv(limits: Limits, w: World) {
    && ValidLimits(limits) && Clean(limits, Entries(w.disk))
    && forall id :: id in w.sessions ==> SessionInv(limits, Entries(w.disk), w.sessions[id])
  }

  /**
   A save appends to the file what the session has added since its last one if and only if file and
   addition together are within the limits; otherwise something is lost.
   */
  lemma SaveAppendsIffWithinLimits(limits: Limits, disk: Option<History>, s: Session)
    requires ValidLimits(limits) && Clean(limits, Entries(disk)) && Clean(limits, s.base) && Clean(limits, s.stored) && s.dirty
    ensures SavedHistory(limits, disk, s) == Entries(disk) + Unsaved(s) <==> Clean(limits, Entries(disk) + Unsaved(s))
    ensures !Clean(limits, Entries(disk) + Unsaved(s)) ==> |SavedHistory(limits, disk, s)| < |Entries(disk) + Unsaved(s)|
    ensures Subsequence(SavedHistory(limits, disk, s), Entries(disk) + Unsaved(s))
  {
    hide Kept, Total, FitsEntry, Subsequence, Entries;
    SanitizeIsIdempotent(limits, Entries(disk));
    SanitizeIsIdempotent(limits, s.base);
    SanitizeIsIdempotent(limits, s.stored);
    SanitizeIsIdempotent(limits, Entries(disk) + Unsaved(s));
    SubsequenceIsShorter(SavedHistory(limits, disk, s), Entries(disk) + Unsaved(s));
  }

  /**
   What is lost can be another session's: a new entry on top of a full file drops the file's oldest
   one, though the saving session's own history is well within the limits.
   */
  lemma FullFileForgetsOldest(limits: Limits, disk: History, s: Session, value: string)
    requires ValidLimits(limits) && Clean(limits, disk) && |disk| == limits.maxEntries && s.dirty
    requires Clean(limits, s.base) && s.stored == s.base + [value] && Clean(limits, s.stored) && Clean(limits, disk[1..] + [value])
    ensures SavedHistory(limits, Some(disk), s) == disk[1..] + [value]
  {
    hide Kept, FitsEntry, Total;
    SanitizeIsIdempotent(limits, disk);
    SanitizeIsIdempotent(limits, s.base);
    SanitizeIsIdempotent(limits, s.stored);
    CommonPrefixUnique(s.base, s.stored, |s.base|);
    assert Unsaved(s) == [value];
    FullSuffixIsKept(limits, [disk[0]], disk[1..] + [value]);
    assert [disk[0]] + (disk[1..] + [value]) == disk + [value];
  }

  /** Entry "a" and 99 more of one character each. */
  function FullFile(): History {
    ["a"] + seq(99, i => if i % 2 == 0 then "b" else "d")
  }

  /** A full file; a session that knows only its first entry adds "c", and the save drops that entry. */
  lemma HundredEntriesForgetOne()
    ensures
      var s := Session(["a", "c"], ["a", "c"], ["a"], true, {"c"});
      var saved := SavedHistory(HISTORY_LIMITS, Some(FullFile()), s);
      Clean(HISTORY_LIMITS, FullFile()) && saved == FullFile()[1..] + ["c"] && "a" in FullFile() && "a" !in saved
  {
    hide SavedHistory, FitsEntry;
    var s := Session(["a", "c"], ["a", "c"], ["a"], true, {"c"});
    OneCharacterEach(FullFile());
    OneCharacterEach(FullFile()[1..] + ["c"]);
    OneCharacterEach(["a"]);
    OneCharacterEach(["a", "c"]);
    assert ["a"] + ["c"] == ["a", "c"] && FullFile()[0] == "a";
    FullFileForgetsOldest(HISTORY_LIMITS, FullFile(), s, "c");
  }

  lemma OneCharacterEach(history: History)
    requires |history| <= 100 && forall v :: v in history ==> |v| == 1
    ensures Clean(HISTORY_LIMITS, history)
  {
    TotalOfOnes(history);
  }

  lemma {:induction false} TotalOfOnes(history: History)
    requires forall v :: v in history ==> |v| == 1
    ensures Total(history) == |history|
    decreases |history|
  {
    if history != [] { TotalOfOnes(history[..|history| - 1]); }
  }

  /**
   Without a file: a session that has submitted nothing since it last saved brings its whole history
   back, any other one only what it has added since.
   */
  lemma MissingFile(limits: Limits, s: Session)
    requires ValidLimits(limits) && Clean(limits, s.base) && Clean(limits, s.stored)
    ensures SavedHistory(limits, None, s) == if s.dirty then Unsaved(s) else s.stored
  {
    assert Sanitized(limits, []) == [];
    hide Kept, Total, FitsEntry, Subsequence;
    SanitizeIsIdempotent(limits, s.base);
    SanitizeIsIdempotent(limits, s.stored);
    EmptyAppend(Unsaved(s));
    SuffixIsClean(limits, s.stored, CommonPrefix(s.base, s.stored));
    SanitizeIsIdempotent(limits, Unsaved(s));
  }

  lemma {:induction false} SuffixIsClean(limits: Limits, history: History, k: int)
    requires Clean(limits, history) && 0 <= k <= |history|
    ensures Clean(limits, history[k..])
  {
    TotalOfSuffix(history, k);
  }

  lemma {:induction false} TotalOfSuffix(history: History, k: int)
    requires 0 <= k <= |history|
    ensures Total(history[k..]) <= Total(history)
    decreases |history|
  {
    if k < |history| {
      TotalOfSuffix(history[..|history| - 1], k);
      assert history[k..][..|history[k..]| - 1] == history[..|history| - 1][k..];
    }
  }

  /** A save within the limits keeps the file as a prefix and adds everything the session still had. */
  lemma SaveKeepsAll(limits: Limits, disk: Option<History>, s: Session)
    requires ValidLimits(limits) && Clean(limits, Entries(disk)) && SessionInv(limits, Entries(disk), s)
    requires s.dirty ==> Clean(limits, Entries(disk) + Unsaved(s))
    ensures Entries(disk) <= SavedHistory(limits, disk, s) && Clean(limits, SavedHistory(limits, disk, s))
    ensures forall v :: v in s.shown ==> v in SavedHistory(limits, disk, s)
  {
    hide Sanitized, Total;
    SanitizeIsIdempotent(limits, Entries(disk));
    SanitizeIsIdempotent(limits, s.stored);
    if s.dirty {
      SanitizeIsIdempotent(limits, s.base);
      var k := CommonPrefix(s.base, s.stored);
      SanitizeIsIdempotent(limits, Entries(disk) + s.stored[k..]);
      forall v | v in s.shown ensures v in Entries(disk) + s.stored[k..] {
        assert s.stored == s.stored[..k] + s.stored[k..] == s.base[..k] + s.stored[k..];
        assert v in s.base[..k] ==> v in s.base;
      }
    }
  }

  lemma SubmitKeepsSession(limits: Limits, disk: History, s: Session, text: string)
    requires ValidLimits(limits) && SessionInv(limits, disk, s)
    requires Strings.Trim(text) == "" || Clean(limits, Longer(s.shown, Strings.Trim(text)))
    ensures SessionInv(limits, disk, Submitted(limits, s, text))
  {
    hide Sanitized, Total, FitsEntry;
    var value := Strings.Trim(text);
    if value != "" { SanitizeIsIdempotent(limits, Remembered(limits, s.shown, value)); }
  }

  lemma StepKeepsInv(limits: Limits, w: World, e: Event)
    requires Inv(limits, w) && WithinLimits(limits, w, e)
    ensures Inv(limits, Step(limits, w, e)) && Entries(w.disk) <= Entries(Step(limits, w, e).disk)
  {
    hide Sanitized, Total, Clean, Submitted, SavedHistory, CommonPrefix;
    match e
    case Open(id) => SanitizeIsIdempotent(limits, Entries(w.disk));
    case Submit(id, text) => if id in w.sessions { SubmitKeepsSession(limits, Entries(w.disk), w.sessions[id], text); }
    case Save(id, _) => if id in w.sessions && e.writes { SaveKeepsAll(limits, w.disk, w.sessions[id]); }
  }

  /**
   While the limits are kept, any interleaving of several sessions' submissions and saves loses
   nothing: the file only grows, in order, and holds all that every session which has saved was given.
   */
  lemma {:induction false} RunKeepsEntries(limits: Limits, w: World, events: seq<Event>)
    requires Inv(limits, w) && RunWithinLimits(limits, w, events)
    ensures
      var t := RunAll(limits, w, events);
      && Inv(limits, t) && Entries(w.disk) <= Entries(t.disk)
      && forall id, v :: id in t.sessions && !t.sessions[id].dirty && v in t.sessions[id].submitted ==> v in Entries(t.disk)
    decreases |events|
  {
    hide Step, WithinLimits, Clean;
    if events != [] {
      StepKeepsInv(limits, w, events[0]);
      RunKeepsEntries(limits, Step(limits, w, events[0]), events[1..]);
    }
  }

  /** So an entry that a session was given and has saved is there for every session that is opened after that. */
  lemma EntryReachesOthers(limits: Limits, w: World, id: int, other: int, value: string)
    requires Inv(limits, w) && id in w.sessions && other != id && Strings.Tight(value, Strings.IsSpace)
    requires WithinLimits(limits, w, Submit(id, value))
    requires WithinLimits(limits, Step(limits, w, Submit(id, value)), Save(id, true))
    ensures
      var t := RunAll(limits, w, [Submit(id, value), Save(id, true), Open(other)]);
      && t.disk.Some? && value in t.disk.value && Entries(w.disk) <= t.disk.value
      && id in t.sessions && other in t.sessions && t.sessions[other] == OpenSession(t.disk.value)
      && var s := t.sessions[id];
      && !s.dirty && s.stored == s.base == t.disk.value && value in s.submitted && value in s.shown
  {
    assert limits.maxEntries >= 1;
    hide Step, WithinLimits, Inv, RunAll, RunWithinLimits, Strings.Tight;
    var submit, save := Submit(id, value), Save(id, true);
    var given := Step(limits, w, submit);
    var kept := Step(limits, given, save);
    ThreeSteps(limits, w, submit, save, Open(other));
    EntryIsGiven(limits, w, id, value);
    StepKeepsInv(limits, w, submit);
    StepKeepsInv(limits, given, save);
    EntryIsSaved(limits, given, id, value);
    OpenedHasFile(limits, kept, other);
  }

  lemma ThreeSteps(limits: Limits, w: World, a: Event, b: Event, c: Event)
    requires limits.maxEntries >= 1
    ensures RunAll(limits, w, [a, b, c]) == Step(limits, Step(limits, Step(limits, w, a), b), c)
  {
    hide Step, WithinLimits;
    var x := Step(limits, w, a);
    assert [a, b, c][1..] == [b, c] && [b, c][1..] == [c] && [c][1..] == [];
    var y := Step(limits, x, b);
    assert RunAll(limits, y, [c]) == Step(limits, y, c);
    assert RunAll(limits, x, [b, c]) == RunAll(limits, y, [c]);
  }

  lemma EntryIsGiven(limits: Limits, w: World, id: int, value: string)
    requires Inv(limits, w) && id in w.sessions && Strings.Tight(value, Strings.IsSpace) && WithinLimits(limits, w, Submit(id, value))
    ensures
      var t := Step(limits, w, Submit(id, value));
      id in t.sessions && value in t.sessions[id].shown && value in t.sessions[id].submitted && t.disk == w.disk
  {
    hide Sanitized, Strings.Strip, Total;
    Strings.StripTight("", value, "", Strings.IsSpace);
    assert "" + value + "" == value;
  }

  lemma EntryIsSaved(limits: Limits, w: World, id: int, value: string)
    requires Inv(limits, w) && id in w.sessions && WithinLimits(limits, w, Save(id, true))
    requires value in w.sessions[id].shown && value in w.sessions[id].submitted
    ensures
      var t := Step(limits, w, Save(id, true));
      && t.disk.Some? && value in t.disk.value && id in t.sessions
      && var s := t.sessions[id];
      && !s.dirty && s.stored == s.base == t.disk.value && value in s.submitted && value in s.shown
  {
    hide Sanitized, Clean, CommonPrefix;
    SaveKeepsAll(limits, w.disk, w.sessions[id]);
  }

  lemma OpenedHasFile(limits: Limits, w: World, id: int)
    requires Inv(limits, w)
    ensures
      var t := Step(limits, w, Open(id));
      && t.disk == w.disk && id in t.sessions && t.sessions[id] == OpenSession(Entries(w.disk))
      && forall k :: k in w.sessions && k != id ==> k in t.sessions && t.sessions[k] == w.sessions[k]
  {
    hide Sanitized;
    SanitizeIsIdempotent(limits, Entries(w.disk));
  }

  /** The limits that a project's history has. */
  lemma HistoryLimits(history: History)
    ensures Clean(HISTORY_LIMITS, history) <==>
      |history| <= 100 && Total(history) <= 1000000 && forall v :: v in history ==> v != "" && |v| <= 200000
  {
    hide Total;
    if Clean(HISTORY_LIMITS, history) {
      forall v | v in history ensures v != "" && |v| <= 200000 { assert FitsEntry(HISTORY_LIMITS, v); }
    }
  }

  // ---------------------------------------------------------------- the store

  /** The file that the sessions of a project share. */
  class StateFile {
    var inputHistory: Option<History>   // `None` while there is no file that can be read
    constructor () { inputHistory := None; }
  }

  /** A session's store and the interface's own list. */
  class UiStateStore {
    const limits: Limits := HISTORY_LIMITS
    const file: StateFile
    var shown: History
    var inputHistory: History
    var baseInputHistory: History
    var inputHistoryDirty: bool
    ghost var submitted: set<string>

    ghost function View(): Session
      reads this
    {
      Session(shown, inputHistory, baseInputHistory, inputHistoryDirty, submitted)
    }

    constructor (file: StateFile)
      ensures this.file == file
      ensures View() == OpenSession(Sanitized(HISTORY_LIMITS, Entries(file.inputHistory)))
    {
      var history := SanitizeInputHistory(HISTORY_LIMITS, Entries(file.inputHistory));
      this.file := file;
      shown, inputHistory, baseInputHistory, inputHistoryDirty, submitted := history, history, history, false, {};
    }

    /** A submission is remembered by the interface and handed to the store. */
    method SubmitComposer(text: string)
      modifies this
      ensures View() == Submitted(limits, old(View()), text)
    {
      hide Strings.Trim, Kept;
      var value := Strings.Trim(text);
      if value == "" { return; }
      var history := shown;
      if history == [] || history[|history| - 1] != value { history := history + [value]; }
      shown := if |history| <= limits.maxEntries then history else history[|history| - limits.maxEntries..];
      inputHistory := SanitizeInputHistory(limits, shown);
      inputHistoryDirty := true;
      submitted := submitted + {value};
    }

    /** Read, merge and write, under the lock; a save that cannot write changes nothing. */
    method SaveUiStateStore(writes: bool) returns (saved: bool)
      modifies this, file
      ensures saved <==> writes
      ensures saved ==>
        var history := SavedHistory(limits, old(file.inputHistory), old(View()));
        && file.inputHistory == Some(history)
        && View() == old(View()).(stored := history, base := history, dirty := false)
      ensures !saved ==> file.inputHistory == old(file.inputHistory) && View() == old(View())
    {
      if !writes { return false; }
      var history: History;
      if inputHistoryDirty {
        history := SanitizeInputHistory(limits, Entries(file.inputHistory));
        history := MergeInputHistory(limits, history, baseInputHistory, inputHistory);
      } else if file.inputHistory.Some? {
        history := SanitizeInputHistory(limits, file.inputHistory.value);
      } else {
        history := SanitizeInputHistory(limits, inputHistory);
      }
      file.inputHistory := Some(history);
      inputHistory, baseInputHistory, inputHistoryDirty := history, history, false;
      return true;
    }
  }
}
