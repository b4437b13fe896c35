/**
 Cutting terminal input into keys and bracketed pastes
 (frontend/terminal-ui/src/input-buffer.js).
 */
module InputTokenizers {
  import opened Sequences
  import opened Wrappers
  import opened Strings

  const ESC := '\U{1B}'
  const PASTE_START := "\U{1B}[200~"
  const PASTE_END := "\U{1B}[201~"
  const MAX_PENDING_ESCAPE_CHARS := 16

  // ---------------------------------------------------------------- escape sequences

  predicate IsLetter(c: char) {
    'A' <= c <= 'Z' || 'a' <= c <= 'z'
  }

  predicate IsParameter(c: char) {
    '0' <= c <= '9' || c == ';' || c == '?'
  }

  function ParameterRun(s: string): (n: nat)
    ensures n <= |s| && forall i :: 0 <= i < n ==> IsParameter(s[i])
    ensures n < |s| ==> !IsParameter(s[n])
  {
    if s == "" || !IsParameter(s[0]) then 0 else 1 + ParameterRun(s[1..])
  }

  /** The length of the CSI sequence that starts the text, or 0. */
  function CsiLength(s: string): (n: nat)
    ensures n <= |s|
  {
    if |s| >= 2 && s[0] == ESC && s[1] == '[' then
      var n := ParameterRun(s[2..]);
      if 2 + n < |s| && (s[2 + n] == '~' || IsLetter(s[2 + n])) then 3 + n else 0
    else 0
  }

  predicate StartsSs3(s: string) {
    |s| >= 2 && s[0] == ESC && (s[1] == 'O' || s[1] == 'o')
  }

  predicate IsSs3(s: string) {
    StartsSs3(s) && |s| >= 3 && IsLetter(s[2])
  }

  function LastIndexOf(s: string, c: char): (r: int)
    ensures -1 <= r < |s|
    ensures r >= 0 ==> s[r] == c
    ensures forall j :: r < j < |s| ==> s[j] != c
  {
    if s == "" then -1
    else if s[|s| - 1] == c then |s| - 1
    else LastIndexOf(s[..|s| - 1], c)
  }

  /** The unfinished escape sequence at the end of the text, if any. */
  function ExtractTrailingIncompleteEscape(text: string): (r: string)
    ensures |r| <= |text| && r == text[|text| - |r|..]
    ensures r != "" ==> r[0] == ESC && forall i :: 0 < i < |r| ==> r[i] != ESC
  {
    var i := LastIndexOf(text, ESC);
    if i < 0 then ""
    else
      var suffix := text[i..];
      if |suffix| > MAX_PENDING_ESCAPE_CHARS then ""
      else if suffix == [ESC] || suffix == [ESC, '['] || suffix == [ESC, 'O'] || suffix == [ESC, 'o'] then suffix
      else if |suffix| >= 2 && suffix[1] == '[' && CsiLength(suffix) == 0 then suffix
      else if StartsSs3(suffix) && !IsSs3(suffix) then suffix
      else ""
  }

  // ---------------------------------------------------------------- keys

  datatype RawKey = Ss3(text: string) | Ss3WithoutEscape(text: string) | Csi(text: string) | Control(text: string) | Printable(text: string)

  predicate IsControlInput(c: char) {
    c < ' ' || c == '\U{7F}'
  }

  function PrintableRun(s: string): (n: nat)
    ensures n <= |s| && forall i :: 0 <= i < n ==> !IsControlInput(s[i])
  {
    if s == "" || IsControlInput(s[0]) then 0 else 1 + PrintableRun(s[1..])
  }

  /** The key that the text starts with. */
  function FirstKey(s: string): (k: RawKey)
    requires s != ""
    ensures 0 < |k.text| <= |s| && k.text == s[..|k.text|]
  {
    if IsSs3(s) then Ss3(s[..3])
    else if |s| == 2 && s[0] in "Oo" && s[1] in "ABab" then Ss3WithoutEscape(s)
    else if CsiLength(s) > 0 then Csi(s[..CsiLength(s)])
    else if IsControlInput(s[0]) then Control(s[..1])
    else Printable(s[..PrintableRun(s)])
  }

  function SplitKeys(s: string): seq<RawKey>
    decreases |s|
  {
    if s == "" then [] else [FirstKey(s)] + SplitKeys(s[|FirstKey(s).text|..])
  }

  function Upper(c: char): char {
    if 'a' <= c <= 'z' then c - 'a' + 'A' else c
  }

  function NormalizeSs3Key(s: string): string {
    if |s| < 3 then s else [ESC, 'O'] + seq(|s| - 2, i requires 0 <= i < |s| - 2 => Upper(s[2 + i]))
  }

  function KeyValue(key: RawKey): string {
    match key
    case Ss3(text) => NormalizeSs3Key(text)
    case Ss3WithoutEscape(text) => NormalizeSs3Key([ESC] + text)
    case _ => key.text
  }

  function NormalizeModifiedEnter(key: string): string {
    if key == "\U{1B}[27;2;13~" then "\U{1B}[13;2u"
    else if key == "\U{1B}[27;5;13~" then "\U{1B}[13;5u"
    else key
  }

  // ---------------------------------------------------------------- tokens

  datatype Token = Key(value: string) | Paste(value: string)

  /** A token together with the input it stands for. */
  datatype Event = Typed(key: RawKey) | Pasted(content: string) {
    function Token(): Token {
      match this
      case Typed(key) => Key(NormalizeModifiedEnter(KeyValue(key)))
      case Pasted(content) => Paste(content)
    }

    function Source(): string {
      match this
      case Typed(key) => key.text
      case Pasted(content) => PASTE_START + content + PASTE_END
    }
  }

  function Tokens(events: seq<Event>): seq<Token> {
    seq(|events|, i requires 0 <= i < |events| => events[i].Token())
  }

  function Sources(events: seq<Event>): string {
    Concat(SourceList(events))
  }

  function SourceList(events: seq<Event>): seq<string> {
    seq(|events|, i requires 0 <= i < |events| => events[i].Source())
  }

  function Pastes(events: seq<Event>): seq<string> {
    if events == [] then []
    else (if events[0].Pasted? then [events[0].content] else []) + Pastes(events[1..])
  }

  lemma {:induction false} PastesAppend(a: seq<Event>, b: seq<Event>)
    ensures Pastes(a + b) == Pastes(a) + Pastes(b)
  {
    if a == [] {
      assert a + b == b;
    } else {
      HeadOfAppend(a, b);
      PastesAppend(a[1..], b);
      AppendAssoc(if a[0].Pasted? then [a[0].content] else [], Pastes(a[1..]), Pastes(b));
    }
  }

  lemma TokensAppend(a: seq<Event>, b: seq<Event>)
    ensures Tokens(a + b) == Tokens(a) + Tokens(b) && Tokens([]) == []
  {
  }

  lemma OneToken(e: Event)
    ensures Tokens([e]) == [e.Token()]
  {
  }

  lemma SourceListAppend(a: seq<Event>, b: seq<Event>)
    ensures SourceList(a + b) == SourceList(a) + SourceList(b)
  {
    hide Event.Source;
  }

  lemma EventsAppend(a: seq<Event>, b: seq<Event>)
    ensures Sources(a + b) == Sources(a) + Sources(b)
    ensures Pastes(a + b) == Pastes(a) + Pastes(b)
    ensures Tokens(a + b) == Tokens(a) + Tokens(b)
  {
    hide SourceList, Tokens, Pastes, Concat;
    SourceListAppend(a, b);
    TokensAppend(a, b);
    ConcatAppend(SourceList(a), SourceList(b));
    PastesAppend(a, b);
  }

  function TypedAll(keys: seq<RawKey>): seq<Event> {
    seq(|keys|, i requires 0 <= i < |keys| => Typed(keys[i]))
  }

  predicate NoEmptyKeys(events: seq<Event>) {
    forall e :: e in events && e.Typed? ==> e.key.text != ""
  }

  /** The keys of a text are the text, cut up. */
  lemma {:induction false} KeysCoverText(s: string)
    ensures Sources(TypedAll(SplitKeys(s))) == s && Pastes(TypedAll(SplitKeys(s))) == []
    ensures NoEmptyKeys(TypedAll(SplitKeys(s)))
    decreases |s|
  {
    hide FirstKey, Sources, Pastes, Tokens;
    if s == "" {
      assert TypedAll([]) == [];
      NoEvents();
    } else {
      var key := FirstKey(s);
      var rest := s[|key.text|..];
      KeysCoverText(rest);
      assert TypedAll(SplitKeys(s)) == [Typed(key)] + TypedAll(SplitKeys(rest));
      EventsAppend([Typed(key)], TypedAll(SplitKeys(rest)));
      OneKey(key);
      assert s == key.text + rest;
    }
  }

  lemma NoEvents()
    ensures Sources([]) == "" && Pastes([]) == []
  {
    assert SourceList([]) == [];
  }

  lemma OneKey(key: RawKey)
    ensures Sources([Typed(key)]) == key.text && Pastes([Typed(key)]) == []
  {
    assert [Typed(key)][1..] == [];
    assert SourceList([Typed(key)]) == [key.text];
    ConcatOne(key.text);
  }

  // ---------------------------------------------------------------- the reference

  /** The finished pastes of a stream, and what an unfinished one holds. */
  datatype Parsed = Parsed(pastes: seq<string>, open: Option<string>)

  function Outside(s: string): Parsed
    decreases |s|
  {
    var start := Find(s, PASTE_START);
    if start < 0 then Parsed([], None) else Inside("", s[start + |PASTE_START|..])
  }

  function Inside(content: string, s: string): Parsed
    decreases |s|
  {
    var end := Find(s, PASTE_END);
    if end < 0 then Parsed([], Some(content + s))
    else After([content + s[..end]], Outside(s[end + |PASTE_END|..]))
  }

  function After(pastes: seq<string>, rest: Parsed): Parsed {
    Parsed(pastes + rest.pastes, rest.open)
  }

  function ParseRest(paste: Option<string>, s: string): Parsed {
    match paste
    case None => Outside(s)
    case Some(content) => Inside(content, s)
  }

  /**
   Having read `seen` amounts to having found `pastes`, with an open paste or none, and having
   `text` still to read -- whatever comes after it.
   */
  ghost predicate Remains(seen: string, pastes: seq<string>, paste: Option<string>, text: string) {
    forall future: string :: Outside(seen + future) == After(pastes, ParseRest(paste, text + future))
  }

  // ---------------------------------------------------------------- marker search

  lemma {:induction false} FindShift(a: string, b: string, pattern: string)
    requires pattern != "" && forall i :: 0 <= i < |a| ==> !OccursAt(a + b, pattern, i)
    ensures Find(a + b, pattern) == if Find(b, pattern) < 0 then -1 else |a| + Find(b, pattern)
  {
    if a == "" {
      assert a + b == b;
    } else {
      assert (a + b)[1..] == a[1..] + b;
      OccursAtTail(a + b, pattern);
      assert forall i :: 0 <= i < |a[1..]| ==> !OccursAt(a[1..] + b, pattern, i) by {
        assert forall i :: 0 <= i < |a[1..]| ==> (OccursAt(a + b, pattern, i + 1) <==> OccursAt(a[1..] + b, pattern, i));
      }
      FindShift(a[1..], b, pattern);
      assert !OccursAt(a + b, pattern, 0);
    }
  }

  /** The first occurrence in a text is the first one in any longer text. */
  lemma FindExtends(s: string, future: string, pattern: string)
    requires pattern != "" && Find(s, pattern) >= 0
    ensures Find(s + future, pattern) == Find(s, pattern)
  {
    hide Find;
    var f, g := Find(s, pattern), Find(s + future, pattern);
    assert (s + future)[f..f + |pattern|] == s[f..f + |pattern|];
    assert OccursAt(s + future, pattern, f);
    assert 0 <= g <= f;
    assert (s + future)[g..g + |pattern|] == s[g..g + |pattern|];
    assert OccursAt(s, pattern, g);
  }

  lemma OccursInPrefix(s: string, future: string, pattern: string, i: nat)
    requires OccursAt(s + future, pattern, i) && i + |pattern| <= |s|
    ensures Occurs(s, pattern)
  {
    assert s[i..i + |pattern|] == (s + future)[i..i + |pattern|];
    assert OccursAt(s, pattern, i);
  }

  /** A marker that starts in the text but does not lie in it continues a prefix of itself. */
  lemma Straddles(s: string, future: string, pattern: string, i: nat)
    requires i < |s| && OccursAt(s + future, pattern, i) && !Occurs(s, pattern)
    ensures |s| - i < |pattern| && s[i..] == pattern[..|s| - i]
  {
    if i + |pattern| <= |s| {
      OccursInPrefix(s, future, pattern, i);
      assert false;
    }
    forall k | 0 <= k < |s| - i && k < |pattern|
      ensures s[i..][k] == pattern[k]
    {
      assert (s + future)[i..i + |pattern|][k] == s[i + k];
    }
  }

  /** An escape, alone or the beginning of a CSI or SS3 sequence that its last character does not end. */
  predicate Unfinished(s: string)
    requires s != ""
  {
    || |s| == 1
    || (s[1] == '[' && CsiLength(s) == 0)
    || ((s[1] == 'O' || s[1] == 'o') && (|s| == 2 || !IsLetter(s[2])))
  }

  /** What follows the last escape of a text is held back exactly when it is unfinished and not too long. */
  lemma UnfinishedIsHeld(before: string, suffix: string)
    requires suffix != "" && suffix[0] == ESC && forall k :: 0 < k < |suffix| ==> suffix[k] != ESC
    ensures ExtractTrailingIncompleteEscape(before + suffix) == if |suffix| <= 16 && Unfinished(suffix) then suffix else ""
  {
    LastEscape(before, suffix);
  }

  lemma LastEscape(before: string, suffix: string)
    requires suffix != "" && suffix[0] == ESC && forall k :: 0 < k < |suffix| ==> suffix[k] != ESC
    ensures LastIndexOf(before + suffix, ESC) == |before| && (before + suffix)[|before|..] == suffix
  {
    hide LastIndexOf;
    var text := before + suffix;
    assert text[|before|] == suffix[0] == ESC;
    assert forall r :: |before| < r < |text| ==> text[r] == suffix[r - |before|];
  }

  /** The escape held back keeps every start marker whole. */
  lemma TrailingKeepsStart(text: string, future: string, i: nat)
    requires !Occurs(text, PASTE_START)
    requires i < |text| - |ExtractTrailingIncompleteEscape(text)|
    ensures !OccursAt(text + future, PASTE_START, i)
  {
    hide Occurs, OccursAt, ExtractTrailingIncompleteEscape, CsiLength;
    if OccursAt(text + future, PASTE_START, i) {
      Straddles(text, future, PASTE_START, i);
      var suffix := text[i..];
      assert suffix == PASTE_START[..|suffix|] && text == text[..i] + suffix;
      StartPrefixIsIncomplete(suffix);
      UnfinishedIsHeld(text[..i], suffix);
    }
  }

  lemma StartPrefixIsIncomplete(s: string)
    requires 0 < |s| < |PASTE_START| && s == PASTE_START[..|s|]
    ensures Unfinished(s)
    ensures s[0] == ESC && forall k :: 0 < k < |s| ==> s[k] != ESC
  {
    if |s| > 2 {
      assert forall k :: 0 <= k < |s| - 2 ==> s[2..][k] == PASTE_START[k + 2] && IsParameter(s[2..][k]);
      assert ParameterRun(s[2..]) == |s| - 2;
    }
  }

  function LongestSuffixPrefix(text: string, marker: string, limit: nat): (r: nat)
    requires limit < |marker| && limit <= |text|
    ensures r <= limit && text[|text| - r..] == marker[..r]
    ensures forall k :: r < k <= limit ==> text[|text| - k..] != marker[..k]
  {
    if limit == 0 || text[|text| - limit..] == marker[..limit] then limit
    else LongestSuffixPrefix(text, marker, limit - 1)
  }

  // ---------------------------------------------------------------- what one chunk gives

  /** What a chunk gives: the events in it, the paste it leaves open, and what is held back of it. */
  datatype Reading = Reading(events: seq<Event>, paste: Option<string>, pending: string)

  function Following(events: seq<Event>, rest: Reading): Reading {
    rest.(events := events + rest.events)
  }

  lemma FollowingTwice(a: seq<Event>, b: seq<Event>, rest: Reading)
    ensures Following(a, Following(b, rest)) == Following(a + b, rest)
  {
    AppendAssoc(a, b, rest.events);
  }

  lemma FollowingLast(a: seq<Event>, b: seq<Event>, paste: Option<string>, pending: string)
    ensures Following(a, Reading(b, paste, pending)) == Reading(a + b, paste, pending)
    ensures Following([], Reading(b, paste, pending)) == Reading(b, paste, pending)
    ensures Following(a, Reading([], paste, pending)) == Reading(a, paste, pending)
  {
    EmptyAppend(a);
    EmptyAppend(b);
  }

  function KeyEvents(text: string): seq<Event> {
    TypedAll(SplitKeys(text))
  }

  function ReadText(paste: Option<string>, text: string): Reading
    decreases |text|
  {
    match paste
    case Some(content) =>
      var end := Find(text, PASTE_END);
      if end < 0 then
        var kept := |text| - LongestSuffixPrefix(text, PASTE_END, if |text| < |PASTE_END| - 1 then |text| else |PASTE_END| - 1);
        Reading([], Some(content + text[..kept]), text[kept..])
      else Following([Pasted(content + text[..end])], ReadText(None, text[end + |PASTE_END|..]))
    case None =>
      var start := Find(text, PASTE_START);
      if start >= 0 then Following(KeyEvents(text[..start]), ReadText(Some(""), text[start + |PASTE_START|..]))
      else
        var trailing := ExtractTrailingIncompleteEscape(text);
        Reading(KeyEvents(text[..|text| - |trailing|]), None, trailing)
  }

  lemma ReadNothing(paste: Option<string>)
    ensures ReadText(paste, "") == Reading([], paste, "")
  {
    assert SplitKeys("") == [] && paste.Some? ==> paste.value + "" == paste.value;
  }

  // ---------------------------------------------------------------- one step of the tokenizer

  lemma OutsideStart(text: string, future: string)
    requires Find(text, PASTE_START) >= 0
    ensures Outside(text + future) == Inside("", text[Find(text, PASTE_START) + |PASTE_START|..] + future)
  {
    hide Find;
    FindExtends(text, future, PASTE_START);
    var i := Find(text, PASTE_START) + |PASTE_START|;
    assert (text + future)[i..] == text[i..] + future;
  }

  lemma OutsideKeep(text: string, future: string)
    requires Find(text, PASTE_START) < 0
    ensures Outside(text + future) == Outside(ExtractTrailingIncompleteEscape(text) + future)
  {
    hide Find, ExtractTrailingIncompleteEscape;
    var trailing := ExtractTrailingIncompleteEscape(text);
    var complete := text[..|text| - |trailing|];
    assert text + future == complete + (trailing + future);
    forall i | 0 <= i < |complete| ensures !OccursAt(text + future, PASTE_START, i) {
      TrailingKeepsStart(text, future, i);
    }
    FindShift(complete, trailing + future, PASTE_START);
    var f := Find(trailing + future, PASTE_START);
    if f >= 0 {
      assert (text + future)[|complete| + f + |PASTE_START|..] == (trailing + future)[f + |PASTE_START|..];
    }
  }

  lemma InsideEnd(content: string, text: string, future: string)
    requires Find(text, PASTE_END) >= 0
    ensures
      var end := Find(text, PASTE_END);
      Inside(content, text + future) == After([content + text[..end]], Outside(text[end + |PASTE_END|..] + future))
  {
    hide Find, Outside;
    FindExtends(text, future, PASTE_END);
    var end := Find(text, PASTE_END);
    assert (text + future)[..end] == text[..end];
    assert (text + future)[end + |PASTE_END|..] == text[end + |PASTE_END|..] + future;
  }

  lemma InsideKeep(content: string, text: string, overlap: nat, future: string)
    requires !Occurs(text, PASTE_END) && overlap <= |text| && overlap < |PASTE_END|
    requires forall k :: overlap < k < |PASTE_END| && k <= |text| ==> text[|text| - k..] != PASTE_END[..k]
    ensures Inside(content, text + future)
         == Inside(content + text[..|text| - overlap], text[|text| - overlap..] + future)
  {
    hide Find, Outside, OccursAt;
    var kept, held := text[..|text| - overlap], text[|text| - overlap..];
    assert text + future == kept + (held + future);
    forall i | 0 <= i < |kept| ensures !OccursAt(kept + (held + future), PASTE_END, i) {
      OverlapKeepsEnd(text, overlap, future, i);
    }
    FindShift(kept, held + future, PASTE_END);
    InsideShift(content, kept, held + future);
  }

  lemma OverlapKeepsEnd(text: string, overlap: nat, future: string, i: nat)
    requires !Occurs(text, PASTE_END) && overlap < |PASTE_END| && i < |text| - overlap
    requires forall k :: overlap < k < |PASTE_END| && k <= |text| ==> text[|text| - k..] != PASTE_END[..k]
    ensures !OccursAt(text + future, PASTE_END, i)
  {
    assert text[|text| - (|text| - i)..] == text[i..];
    if OccursAt(text + future, PASTE_END, i) {
      Straddles(text, future, PASTE_END, i);
      assert false;
    }
  }

  lemma InsideShift(content: string, kept: string, rest: string)
    requires Find(kept + rest, PASTE_END) == if Find(rest, PASTE_END) < 0 then -1 else |kept| + Find(rest, PASTE_END)
    ensures Inside(content, kept + rest) == Inside(content + kept, rest)
  {
    hide Find, Outside;
    var f := Find(rest, PASTE_END);
    if f >= 0 {
      assert content + (kept + rest)[..|kept| + f] == (content + kept) + rest[..f];
      assert (kept + rest)[|kept| + f + |PASTE_END|..] == rest[f + |PASTE_END|..];
    } else {
      assert content + (kept + rest) == (content + kept) + rest;
    }
  }

  lemma RemainsMore(seen: string, pastes: seq<string>, paste: Option<string>, text: string, chunk: string)
    requires Remains(seen, pastes, paste, text)
    ensures Remains(seen + chunk, pastes, paste, text + chunk)
  {
    hide Outside, Inside;
    forall future: string
      ensures Outside((seen + chunk) + future) == After(pastes, ParseRest(paste, (text + chunk) + future))
    {
      assert (seen + chunk) + future == seen + (chunk + future) && (text + chunk) + future == text + (chunk + future);
    }
  }

  lemma RemainsStep(seen: string, pastes: seq<string>, paste: Option<string>, text: string,
                    more: seq<string>, paste': Option<string>, text': string)
    requires Remains(seen, pastes, paste, text)
    requires forall future: string :: ParseRest(paste, text + future) == After(more, ParseRest(paste', text' + future))
    ensures Remains(seen, pastes + more, paste', text')
  {
    hide Outside, Inside;
    forall future: string
      ensures Outside(seen + future) == After(pastes + more, ParseRest(paste', text' + future))
    {
      assert ParseRest(paste, text + future) == After(more, ParseRest(paste', text' + future));
      var rest := ParseRest(paste', text' + future).pastes;
      assert pastes + (more + rest) == (pastes + more) + rest;
    }
  }

  // ---------------------------------------------------------------- the whole stream

  /** What the tokenizer has found is what the reference finds in the whole stream. */
  lemma StreamIsParsed(seen: string, events: seq<Event>, paste: Option<string>, pending: string)
    requires Remains(seen, Pastes(events), paste, pending)
    requires paste.None? ==> !Occurs(pending, PASTE_START)
    requires paste.Some? ==> |pending| < |PASTE_END|
    ensures Outside(seen) == Parsed(Pastes(events), if paste.None? then None else Some(paste.value + pending))
  {
    hide Pastes;
    assert Outside(seen + "") == After(Pastes(events), ParseRest(paste, pending + ""));
    assert seen + "" == seen && pending + "" == pending && Pastes(events) + [] == Pastes(events);
  }

  lemma NoEarlierEnd(content: string, i: nat)
    requires !Occurs(content, PASTE_END) && i < |content|
    ensures !OccursAt(content + PASTE_END, PASTE_END, i)
  {
    var s := content + PASTE_END;
    assert s[|content|] == ESC;
    if OccursAt(s, PASTE_END, i) {
      Straddles(content, PASTE_END, PASTE_END, i);
      OccursAtChar(s, PASTE_END, i, |content| - i);
      assert false;
    }
  }

  /** An end marker cannot overlap another one. */
  lemma EndIsFirst(content: string)
    requires !Occurs(content, PASTE_END)
    ensures Find(content + PASTE_END, PASTE_END) == |content|
  {
    hide Find, Occurs;
    var s := content + PASTE_END;
    assert s[|content|..|content| + |PASTE_END|] == PASTE_END;
    assert OccursAt(s, PASTE_END, |content|);
    var f := Find(s, PASTE_END);
    if f < |content| { NoEarlierEnd(content, f); }
  }

  /** One paste, as the reference reads it. */
  lemma PasteIsParsed(content: string)
    requires !Occurs(content, PASTE_END)
    ensures Outside(PASTE_START + content + PASTE_END) == Parsed([content], None)
  {
    hide Find;
    var s := PASTE_START + content + PASTE_END;
    var rest := content + PASTE_END;
    assert s == PASTE_START + rest && s[0..|PASTE_START|] == PASTE_START && s[|PASTE_START|..] == rest;
    assert OccursAt(s, PASTE_START, 0);
    assert Outside(s) == Inside("", rest);
    EndIsFirst(content);
    assert rest[..|content|] == content && rest[|content| + |PASTE_END|..] == "" && "" + content == content;
    assert Outside("") == Parsed([], None);
    assert Inside("", rest) == After([content], Outside(""));
  }

  lemma SourcesCons(events: seq<Event>)
    requires events != []
    ensures Sources(events) == events[0].Source() + Sources(events[1..])
  {
    assert SourceList(events)[1..] == SourceList(events[1..]);
  }

  lemma PastesCons(events: seq<Event>)
    requires events != []
    ensures events[0].Typed? ==> Pastes(events) == Pastes(events[1..])
    ensures events[0].Pasted? && |Pastes(events)| == 1 ==> Pastes(events) == [events[0].content] && Pastes(events[1..]) == []
  {
    assert [] + Pastes(events[1..]) == Pastes(events[1..]);
    if events[0].Pasted? { assert |Pastes(events)| == 1 + |Pastes(events[1..])|; }
  }

  lemma {:induction false} SourceLengths(events: seq<Event>)
    requires NoEmptyKeys(events) && Pastes(events) == []
    ensures |Sources(events)| >= |events|
  {
    hide Sources;
    if events != [] {
      SourcesCons(events);
      SourceLengths(events[1..]);
    }
  }

  lemma {:induction false} PasteSourceLength(events: seq<Event>, content: string)
    requires Pastes(events) == [content]
    ensures |Sources(events)| >= |PASTE_START + content + PASTE_END|
  {
    hide Sources;
    SourcesCons(events);
    PastesCons(events);
    if events[0].Typed? { PasteSourceLength(events[1..], content); }
  }

  /** Events that stand for one paste and nothing else are that paste. */
  lemma {:induction false} OnlyThePaste(events: seq<Event>, pending: string, content: string)
    requires NoEmptyKeys(events) && Pastes(events) == [content]
    requires |Sources(events) + pending| <= |PASTE_START + content + PASTE_END|
    ensures events == [Pasted(content)] && pending == ""
  {
    hide Sources;
    SourcesCons(events);
    PastesCons(events);
    assert events[0] in events;
    if events[0].Typed? {
      PasteSourceLength(events[1..], content);
      assert false;
    }
    SourceLengths(events[1..]);
    assert events == [events[0]] + events[1..];
  }

  /** Chunk by chunk, a fresh tokenizer finds exactly the pastes of the whole stream. */
  method TokenizeStream(chunks: seq<string>) returns (tokenizer: InputTokenizer, tokens: seq<Token>)
    ensures fresh(tokenizer) && tokenizer.Valid() && tokenizer.seen == Concat(chunks)
    ensures tokens == Tokens(tokenizer.events)
    ensures Outside(Concat(chunks)).pastes == Pastes(tokenizer.events)
    ensures Outside(Concat(chunks)).open
         == if tokenizer.pasteBuffer.None? then None else Some(tokenizer.pasteBuffer.value + tokenizer.pendingEscape)
  {
    hide Remains, Sources, Pastes, Outside, Occurs, Concat, Tokens, ReadText, Find;
    tokenizer := new InputTokenizer();
    tokens := [];
    TokensAppend([], []);
    assert Concat(chunks[..0]) == "" by { assert chunks[..0] == []; ConcatNone(); }
    for i := 0 to |chunks|
      invariant fresh(tokenizer) && tokenizer.Valid() && tokenizer.seen == Concat(chunks[..i])
      invariant tokens == Tokens(tokenizer.events)
    {
      ghost var before := tokenizer.events;
      var more := tokenizer.TokenizeInputChunk(chunks[i]);
      TokensAppend(before, tokenizer.events[|before|..]);
      tokens := tokens + more;
      assert tokenizer.events == before + tokenizer.events[|before|..];
      assert chunks[..i + 1] == chunks[..i] + [chunks[i]];
      ConcatAppend(chunks[..i], [chunks[i]]);
      ConcatOne(chunks[i]);
    }
    assert chunks[..|chunks|] == chunks;
    StreamIsParsed(tokenizer.seen, tokenizer.events, tokenizer.pasteBuffer, tokenizer.pendingEscape);
  }

  /** A bracketed paste, cut anywhere, is one paste token with its content and nothing else. */
  method TokenizePaste(chunks: seq<string>, ghost content: string) returns (tokens: seq<Token>)
    requires Concat(chunks) == PASTE_START + content + PASTE_END && !Occurs(content, PASTE_END)
    ensures tokens == [Paste(content)]
  {
    hide Remains, Sources, Pastes, Outside;
    var tokenizer;
    tokenizer, tokens := TokenizeStream(chunks);
    PasteIsParsed(content);
    OnlyThePaste(tokenizer.events, tokenizer.pendingEscape, content);
  }

  // ---------------------------------------------------------------- the tokenizer

  /** What an unfinished paste has consumed. */
  function OpenSource(paste: Option<string>): string {
    if paste.Some? then PASTE_START + paste.value else ""
  }

  lemma InsideRest(content: string, s: string)
    ensures ParseRest(Some(content), s) == Inside(content, s) == After([], Inside(content, s))
  {
    assert [] + Inside(content, s).pastes == Inside(content, s).pastes;
  }

  lemma OutsideRest(s: string)
    ensures ParseRest(None, s) == Outside(s) == After([], Outside(s))
  {
    assert [] + Outside(s).pastes == Outside(s).pastes;
  }

  lemma OnePaste(content: string)
    ensures Sources([Pasted(content)]) == PASTE_START + content + PASTE_END && Pastes([Pasted(content)]) == [content]
  {
    assert SourceList([Pasted(content)]) == [PASTE_START + content + PASTE_END];
    ConcatOne(PASTE_START + content + PASTE_END);
    assert [Pasted(content)][1..] == [];
  }

  method SplitInputChunk(chunk: string) returns (keys: seq<RawKey>)
    ensures keys == SplitKeys(chunk)
  {
    hide FirstKey;
    keys := [];
    var text := chunk;
    while text != ""
      invariant SplitKeys(chunk) == keys + SplitKeys(text)
      decreases |text|
    {
      var key := FirstKey(text);
      keys := keys + [key];
      text := text[|key.text|..];
    }
  }

  class InputTokenizer {
    var pendingEscape: string
    var pasteBuffer: Option<string>

    ghost var seen: string         // all input so far
    ghost var events: seq<Event>   // all tokens so far, with their sources

    /** All input is accounted for in order, and the pastes are those of the whole stream. */
    ghost predicate Valid()
      reads this
    {
      && Sources(events) + OpenSource(pasteBuffer) + pendingEscape == seen
      && Remains(seen, Pastes(events), pasteBuffer, pendingEscape)
      && NoEmptyKeys(events)
      && (pasteBuffer.None? ==> !Occurs(pendingEscape, PASTE_START))
      && (pasteBuffer.Some? ==> |pendingEscape| < |PASTE_END|)
    }

    constructor ()
      ensures Valid() && pendingEscape == "" && pasteBuffer == None && seen == "" && events == []
    {
      pendingEscape, pasteBuffer, seen, events := "", None, "", [];
      new;
      forall future: string ensures Outside("" + future) == After([], ParseRest(None, "" + future)) {
        assert [] + Outside("" + future).pastes == Outside("" + future).pastes;
      }
    }

    /** The events and the open paste account for all input but `text`, which is still to be read. */
    ghost predicate StillReading(text: string)
      reads this
    {
      && Sources(events) + OpenSource(pasteBuffer) + text == seen
      && Remains(seen, Pastes(events), pasteBuffer, text)
      && NoEmptyKeys(events)
    }

    /** An unfinished paste: all but a possible start of the end marker belongs to it. */
    method HoldBackPaste(text: string)
      requires pasteBuffer.Some? && StillReading(text) && Find(text, PASTE_END) < 0
      modifies `pendingEscape, `pasteBuffer
      ensures Valid() && ReadText(old(pasteBuffer), text) == Reading([], pasteBuffer, pendingEscape)
    {
      hide Remains, Sources, Pastes, Find, ParseRest;
      var overlap := LongestSuffixPrefix(text, PASTE_END, if |text| < |PASTE_END| - 1 then |text| else |PASTE_END| - 1);
      var content, taken, held := pasteBuffer.value, text[..|text| - overlap], text[|text| - overlap..];
      forall future: string
        ensures ParseRest(pasteBuffer, text + future) == After([], ParseRest(Some(content + taken), held + future))
      {
        InsideKeep(content, text, overlap, future);
        InsideRest(content, text + future);
        InsideRest(content + taken, held + future);
      }
      RemainsStep(seen, Pastes(events), pasteBuffer, text, [], Some(content + taken), held);
      assert Pastes(events) + [] == Pastes(events);
      assert Sources(events) + (PASTE_START + content) + text == Sources(events) + (PASTE_START + (content + taken)) + held;
      pasteBuffer := Some(content + taken);
      pendingEscape := held;
    }

    /** The end marker: the paste is complete. */
    method FinishPaste(text: string, end: nat) returns (token: Token, rest: string)
      requires pasteBuffer.Some? && StillReading(text) && end == Find(text, PASTE_END)
      modifies `pasteBuffer, `events
      ensures pasteBuffer == None && StillReading(rest) && |rest| < |text|
      ensures |events| == |old(events)| + 1 && old(events) <= events && token == events[|old(events)|].Token()
      ensures ReadText(old(pasteBuffer), text) == Following([events[|old(events)|]], ReadText(pasteBuffer, rest))
    {
      hide Remains, Sources, Pastes, Find, ParseRest;
      var before, content := pasteBuffer.value, pasteBuffer.value + text[..end];
      rest := text[end + |PASTE_END|..];
      forall future: string
        ensures ParseRest(pasteBuffer, text + future) == After([content], ParseRest(None, rest + future))
      {
        InsideEnd(before, text, future);
        InsideRest(before, text + future);
        OutsideRest(rest + future);
      }
      RemainsStep(seen, Pastes(events), pasteBuffer, text, [content], None, rest);
      EventsAppend(events, [Pasted(content)]);
      OnePaste(content);
      assert text == text[..end] + PASTE_END + rest by { assert text[end..end + |PASTE_END|] == PASTE_END; }
      assert Sources(events) + (PASTE_START + before) + text == Sources(events) + (PASTE_START + content + PASTE_END) + "" + rest;
      events := events + [Pasted(content)];
      token := Paste(content);
      pasteBuffer := None;
    }

    /** The start marker: what comes before it are keys. */
    method StartPaste(text: string, start: nat) returns (keys: seq<Token>, rest: string)
      requires pasteBuffer == None && StillReading(text) && start == Find(text, PASTE_START)
      modifies `pasteBuffer, `events
      ensures StillReading(rest) && |rest| < |text|
      ensures old(events) <= events && keys == Tokens(events[|old(events)|..])
      ensures ReadText(old(pasteBuffer), text) == Following(events[|old(events)|..], ReadText(pasteBuffer, rest))
    {
      hide Remains, Sources, Pastes, Find, ParseRest, SplitKeys;
      rest := text[start + |PASTE_START|..];
      forall future: string
        ensures ParseRest(pasteBuffer, text + future) == After([], ParseRest(Some(""), rest + future))
      {
        OutsideStart(text, future);
        InsideRest("", rest + future);
        OutsideRest(text + future);
      }
      RemainsStep(seen, Pastes(events), pasteBuffer, text, [], Some(""), rest);
      assert Pastes(events) + [] == Pastes(events);
      var raw := SplitInputChunk(text[..start]);
      keys := Tokens(TypedAll(raw));
      KeysCoverText(text[..start]);
      EventsAppend(events, TypedAll(raw));
      assert text == text[..start] + PASTE_START + rest by { assert text[start..start + |PASTE_START|] == PASTE_START; }
      assert Sources(events) + "" + text == (Sources(events) + text[..start]) + (PASTE_START + "") + rest;
      events := events + TypedAll(raw);
      pasteBuffer := Some("");
    }

    /** No marker: all but an unfinished escape sequence are keys. */
    method HoldBackEscape(text: string) returns (keys: seq<Token>)
      requires pasteBuffer == None && StillReading(text) && Find(text, PASTE_START) < 0
      modifies `pendingEscape, `events
      ensures Valid() && old(events) <= events && keys == Tokens(events[|old(events)|..])
      ensures ReadText(old(pasteBuffer), text) == Reading(events[|old(events)|..], pasteBuffer, pendingEscape)
    {
      hide Remains, Sources, Pastes, Find, ParseRest, SplitKeys, ExtractTrailingIncompleteEscape;
      var trailing := ExtractTrailingIncompleteEscape(text);
      var complete := text[..|text| - |trailing|];
      forall future: string
        ensures ParseRest(pasteBuffer, text + future) == After([], ParseRest(None, trailing + future))
      {
        OutsideKeep(text, future);
        OutsideRest(text + future);
        OutsideRest(trailing + future);
      }
      RemainsStep(seen, Pastes(events), pasteBuffer, text, [], None, trailing);
      assert Pastes(events) + [] == Pastes(events);
      var raw := SplitInputChunk(complete);
      keys := Tokens(TypedAll(raw));
      KeysCoverText(complete);
      EventsAppend(events, TypedAll(raw));
      assert text == complete + trailing;
      NotInParts(complete, trailing, PASTE_START);
      assert Sources(events) + "" + text == (Sources(events) + complete) + "" + trailing;
      events := events + TypedAll(raw);
      pendingEscape := trailing;
    }

    method TokenizeInputChunk(chunk: string) returns (tokens: seq<Token>)
      requires Valid()
      modifies this
      ensures Valid() && seen == old(seen) + chunk
      ensures old(events) <= events && tokens == Tokens(events[|old(events)|..])
      ensures ReadText(old(pasteBuffer), old(pendingEscape) + chunk) == Reading(events[|old(events)|..], pasteBuffer, pendingEscape)
    {
      hide Remains, Sources, Pastes, OpenSource, Find, ReadText, Following, Tokens, NoEmptyKeys;
      var text := pendingEscape + chunk;
      Begin(chunk);
      seen := seen + chunk;
      pendingEscape := "";
      tokens := [];
      ghost var got, was, reading := [], events, ReadText(pasteBuffer, text);
      FollowingLast([], reading.events, reading.paste, reading.pending);
      TokensAppend([], []);
      while text != ""
        invariant StillReading(text) && seen == old(seen) + chunk
        invariant pendingEscape == "" && events == was + got && tokens == Tokens(got)
        invariant reading == Following(got, ReadText(pasteBuffer, text))
        decreases |text|
      {
        ghost var before := events;
        if pasteBuffer.Some? {
          var end := Find(text, PASTE_END);
          if end < 0 {
            HoldBackPaste(text);
            FollowingLast(got, [], pasteBuffer, pendingEscape);
            return;
          }
          var token;
          token, text := FinishPaste(text, end);
          tokens := tokens + [token];
          OneToken(events[|before|]);
          got := GotMore(was, got, before, [events[|before|]], text);
          continue;
        }
        var start := Find(text, PASTE_START);
        if start >= 0 {
          var keys;
          keys, text := StartPaste(text, start);
          tokens := tokens + keys;
          got := GotMore(was, got, before, events[|before|..], text);
          continue;
        }
        var keys := HoldBackEscape(text);
        tokens := tokens + keys;
        FollowingLast(got, events[|before|..], pasteBuffer, pendingEscape);
        got := GotMore(was, got, before, events[|before|..], pendingEscape);
        return;
      }
      ReadNothing(pasteBuffer);
      FollowingLast(got, [], pasteBuffer, "");
      NothingLeft();
    }

    lemma Begin(chunk: string)
      requires Valid()
      ensures Sources(events) + OpenSource(pasteBuffer) + (pendingEscape + chunk) == seen + chunk
      ensures Remains(seen + chunk, Pastes(events), pasteBuffer, pendingEscape + chunk)
    {
      RemainsMore(seen, Pastes(events), pasteBuffer, pendingEscape, chunk);
      AppendAssoc(Sources(events) + OpenSource(pasteBuffer), pendingEscape, chunk);
    }

    lemma NothingLeft()
      requires StillReading("") && pendingEscape == ""
      ensures Valid()
    {
    }

    /** The events after `more` of them, and their tokens. */
    lemma GotMore(was: seq<Event>, got: seq<Event>, before: seq<Event>, more: seq<Event>, text: string) returns (all: seq<Event>)
      requires before == was + got && events == before + more
      ensures all == got + more && events == was + all && Tokens(all) == Tokens(got) + Tokens(more)
      ensures Following(got, Following(more, ReadText(pasteBuffer, text))) == Following(all, ReadText(pasteBuffer, text))
    {
      all := got + more;
      AppendAssoc(was, got, more);
      TokensAppend(got, more);
      FollowingTwice(got, more, ReadText(pasteBuffer, text));
    }
  }
}
