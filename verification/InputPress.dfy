/**
 What a terminal sends for key presses, and the tokens that come of it
 (frontend/terminal-ui/src/input-buffer.js).
 */
module InputPresses {
  import opened Sequences
  import opened Wrappers
  import opened Strings
  import opened InputTokenizers

  /** A key that sends a CSI or an SS3 sequence, a control character, or some text. */
  datatype Press =
    | CsiPress(parameters: string, final: char)
    | Ss3Press(lower: bool, letter: char)
    | ControlPress(control: char)
    | Word(text: string)

  predicate IsParameters(s: string) {
    forall c :: c in s ==> '0' <= c <= '9' || c == ';' || c == '?'
  }

  predicate IsFinal(c: char) {
    'A' <= c <= 'Z' || 'a' <= c <= 'z'
  }

  predicate IsText(s: string) {
    s != "" && forall c :: c in s ==> ' ' <= c && c != '\U{7F}'
  }

  predicate ValidPress(p: Press) {
    match p
    case CsiPress(parameters, final) => IsParameters(parameters) && (final == '~' || IsFinal(final))
    case Ss3Press(_, letter) => IsFinal(letter)
    case ControlPress(c) => (c < ' ' || c == '\U{7F}') && c != '\U{1B}'
    case Word(text) => IsText(text)
  }

  /** What the terminal sends. */
  function Sent(p: Press): string {
    match p
    case CsiPress(parameters, final) => "\U{1B}[" + parameters + [final]
    case Ss3Press(lower, letter) => (if lower then "\U{1B}o" else "\U{1B}O") + [letter]
    case ControlPress(c) => [c]
    case Word(text) => text
  }

  /** What the interface is told: SS3 keys in capitals, and one name for each modified enter key. */
  function Told(p: Press): string {
    match p
    case CsiPress(parameters, final) =>
      if parameters == "27;2;13" && final == '~' then "\U{1B}[13;2u"
      else if parameters == "27;5;13" && final == '~' then "\U{1B}[13;5u"
      else Sent(p)
    case Ss3Press(_, letter) => "\U{1B}O" + [if 'a' <= letter <= 'z' then (letter as int - 32) as char else letter]
    case _ => Sent(p)
  }

  function SentAll(presses: seq<Press>): string {
    if presses == [] then "" else Sent(presses[0]) + SentAll(presses[1..])
  }

  function ToldAll(presses: seq<Press>): seq<Token> {
    seq(|presses|, i requires 0 <= i < |presses| => Key(Told(presses[i])))
  }

  /** Two letters that, alone, are taken for an arrow key that lost its escape. */
  predicate LooksLikeArrow(s: string) {
    |s| == 2 && (s[0] == 'O' || s[0] == 'o') && (s[1] == 'A' || s[1] == 'B' || s[1] == 'a' || s[1] == 'b')
  }

  /** Valid presses; pieces of text are one word, and the last one is not taken for an arrow. */
  predicate Distinguished(presses: seq<Press>) {
    presses != [] ==>
      && ValidPress(presses[0]) && Distinguished(presses[1..])
      && (presses[0].Word? ==> if |presses| == 1 then !LooksLikeArrow(presses[0].text) else !presses[1].Word?)
  }

  // ---------------------------------------------------------------- the first key

  lemma {:induction false} ParametersRun(parameters: string, final: char, rest: string)
    requires IsParameters(parameters) && (final == '~' || IsFinal(final))
    ensures ParameterRun(parameters + [final] + rest) == |parameters|
    decreases |parameters|
  {
    var s := parameters + [final] + rest;
    if parameters != "" {
      assert parameters[0] in parameters && forall c :: c in parameters[1..] ==> c in parameters;
      ParametersRun(parameters[1..], final, rest);
      assert s[1..] == parameters[1..] + [final] + rest;
    }
  }

  /** The text that begins with a CSI sequence has it as its first key. */
  lemma CsiComesFirst(p: Press, rest: string)
    requires p.CsiPress? && ValidPress(p)
    ensures CsiLength(Sent(p) + rest) == |Sent(p)| && FirstKey(Sent(p) + rest) == Csi(Sent(p))
  {
    var s, n := Sent(p) + rest, |p.parameters|;
    ParametersRun(p.parameters, p.final, rest);
    hide ParameterRun, IsParameters;
    assert s[2..] == p.parameters + [p.final] + rest && s[..n + 3] == Sent(p);
    assert s[0] == ESC && s[1] == '[' && s[2 + n] == p.final && |Sent(p)| == n + 3;
    assert CsiLength(s) == n + 3;
    hide CsiLength, Sent;
    assert !IsSs3(s) && s[0] !in "Oo";
  }

  lemma Ss3ComesFirst(p: Press, rest: string)
    requires p.Ss3Press? && ValidPress(p)
    ensures FirstKey(Sent(p) + rest) == Ss3(Sent(p))
  {
    var s := Sent(p) + rest;
    assert s[0] == ESC && (s[1] == 'O' || s[1] == 'o') && s[2] == p.letter && s[..3] == Sent(p);
  }

  lemma ControlComesFirst(p: Press, rest: string)
    requires p.ControlPress? && ValidPress(p)
    ensures FirstKey(Sent(p) + rest) == Control(Sent(p))
  {
    var s := Sent(p) + rest;
    assert s[0] == p.control && s[..1] == Sent(p);
  }

  lemma {:induction false} TextRun(text: string, rest: string)
    requires forall c :: c in text ==> ' ' <= c && c != '\U{7F}'
    requires rest != "" ==> rest[0] < ' ' || rest[0] == '\U{7F}'
    ensures PrintableRun(text + rest) == |text|
    decreases |text|
  {
    if text != "" {
      assert text[0] in text && forall c :: c in text[1..] ==> c in text;
      TextRun(text[1..], rest);
      assert (text + rest)[1..] == text[1..] + rest;
    } else {
      assert text + rest == rest;
    }
  }

  lemma WordComesFirst(p: Press, rest: string)
    requires p.Word? && ValidPress(p)
    requires if rest == "" then !LooksLikeArrow(p.text) else rest[0] < ' ' || rest[0] == '\U{7F}'
    ensures FirstKey(Sent(p) + rest) == Printable(Sent(p))
  {
    var s := p.text + rest;
    TextRun(p.text, rest);
    assert p.text[0] in p.text && s[0] == p.text[0] && s[..|p.text|] == p.text;
    assert rest == "" ==> s == p.text;
    assert rest != "" && |s| == 2 ==> s[1] == rest[0];
  }

  lemma FirstPress(presses: seq<Press>)
    requires Distinguished(presses) && presses != []
    ensures Sent(presses[0]) != "" && SentAll(presses)[..|Sent(presses[0])|] == Sent(presses[0])
    ensures FirstKey(SentAll(presses)).text == Sent(presses[0])
    ensures Typed(FirstKey(SentAll(presses))).Token() == Key(Told(presses[0]))
  {
    var p, rest := presses[0], SentAll(presses[1..]);
    match p
    case CsiPress(_, _) =>
      CsiComesFirst(p, rest);
      ModifiedEnter(p);
    case Ss3Press(_, _) =>
      Ss3ComesFirst(p, rest);
      Ss3Value(p);
    case ControlPress(_) => ControlComesFirst(p, rest);
    case Word(_) =>
      if |presses| > 1 { assert presses[1..][0] == presses[1]; }
      WordComesFirst(p, rest);
  }

  lemma ModifiedEnter(p: Press)
    requires p.CsiPress?
    ensures NormalizeModifiedEnter(Sent(p)) == Told(p)
  {
    var s := Sent(p);
    assert s[2..|s| - 1] == p.parameters && s[|s| - 1] == p.final;
    assert "\U{1B}[27;2;13~"[2..9] == "27;2;13" && "\U{1B}[27;5;13~"[2..9] == "27;5;13";
    assert "\U{1B}[" + "27;2;13" + "~" == "\U{1B}[27;2;13~" && "\U{1B}[" + "27;5;13" + "~" == "\U{1B}[27;5;13~";
  }

  lemma Ss3Value(p: Press)
    requires p.Ss3Press? && ValidPress(p)
    ensures Typed(Ss3(Sent(p))).Token() == Key(Told(p))
  {
  }

  // ---------------------------------------------------------------- all of them

  /** Key presses sent one after the other are told apart: one token each, in order. */
  lemma {:induction false} PressesAreTold(presses: seq<Press>)
    requires Distinguished(presses)
    ensures Tokens(KeyEvents(SentAll(presses))) == ToldAll(presses)
    decreases |presses|
  {
    hide FirstKey, Sent, Told, ValidPress, Tokens;
    if presses == [] {
      TokensAppend([], []);
    } else {
      FirstPress(presses);
      PressesAreTold(presses[1..]);
      var s, rest := SentAll(presses), SentAll(presses[1..]);
      var first := Typed(FirstKey(s));
      assert s[|Sent(presses[0])|..] == rest;
      assert KeyEvents(s) == [first] + KeyEvents(rest);
      TokensAppend([first], KeyEvents(rest));
      OneToken(first);
      assert ToldAll(presses) == [Key(Told(presses[0]))] + ToldAll(presses[1..]);
    }
  }

  lemma ArrowWithoutEscape(text: string)
    requires LooksLikeArrow(text)
    ensures Tokens(KeyEvents(text)) == [Key("\U{1B}O" + (if text[1] == 'A' || text[1] == 'a' then "A" else "B"))]
  {
    assert FirstKey(text) == Ss3WithoutEscape(text) && text[2..] == "";
    assert SplitKeys(text) == [Ss3WithoutEscape(text)] + [];
    assert KeyEvents(text) == [Typed(Ss3WithoutEscape(text))];
    assert KeyValue(Ss3WithoutEscape(text)) == "\U{1B}O" + (if text[1] == 'A' || text[1] == 'a' then "A" else "B");
    OneToken(Typed(Ss3WithoutEscape(text)));
  }

  // ---------------------------------------------------------------- what is held back

  /** Nothing is held back of the text, nor after more of it without an escape. */
  ghost predicate Settled(text: string) {
    forall tail: string :: ESC !in tail ==> ExtractTrailingIncompleteEscape(text + tail) == ""
  }

  lemma NothingToHold()
    ensures Settled("")
  {
    forall tail: string | ESC !in tail ensures ExtractTrailingIncompleteEscape("" + tail) == "" {
      assert "" + tail == tail;
    }
  }

  lemma CompleteIsNotHeld(before: string, p: Press, tail: string)
    requires ValidPress(p) && (p.CsiPress? || p.Ss3Press?) && ESC !in tail
    ensures ExtractTrailingIncompleteEscape(before + Sent(p) + tail) == ""
  {
    hide CsiLength, FirstKey, LastIndexOf;
    var suffix := Sent(p) + tail;
    AppendAssoc(before, Sent(p), tail);
    EscapeIsFirst(p);
    assert suffix[0] == ESC && forall k :: 0 < k < |suffix| ==> suffix[k] != ESC;
    LastEscape(before, suffix);
    if p.CsiPress? {
      CsiComesFirst(p, tail);
      assert suffix[1] == '[' && CsiLength(suffix) >= 3;
    } else {
      assert IsSs3(suffix);
    }
  }

  lemma EscapeIsFirst(p: Press)
    requires ValidPress(p)
    ensures Sent(p) != "" && forall k :: 0 < k < |Sent(p)| ==> Sent(p)[k] != ESC
    ensures Sent(p)[0] == ESC <==> p.CsiPress? || p.Ss3Press?
  {
    match p
    case CsiPress(parameters, _) =>
      forall k | 0 < k < |Sent(p)| ensures Sent(p)[k] != ESC {
        if 2 <= k < |Sent(p)| - 1 { assert Sent(p)[k] == parameters[k - 2] && parameters[k - 2] in parameters; }
      }
    case Word(text) => assert forall k :: 0 <= k < |text| ==> text[k] in text;
    case _ =>
  }

  lemma PressSettles(before: string, p: Press)
    requires Settled(before) && ValidPress(p)
    ensures Settled(before + Sent(p))
  {
    hide ExtractTrailingIncompleteEscape;
    EscapeIsFirst(p);
    forall tail: string | ESC !in tail ensures ExtractTrailingIncompleteEscape(before + Sent(p) + tail) == "" {
      if p.CsiPress? || p.Ss3Press? {
        CompleteIsNotHeld(before, p, tail);
      } else {
        assert ESC !in Sent(p) + tail;
        AppendAssoc(before, Sent(p), tail);
      }
    }
  }

  lemma {:induction false} PressesSettle(before: string, presses: seq<Press>)
    requires Settled(before) && Distinguished(presses)
    ensures Settled(before + SentAll(presses))
    decreases |presses|
  {
    hide Settled, Sent;
    if presses == [] {
      EmptyAppend(before);
    } else {
      PressSettles(before, presses[0]);
      PressesSettle(before + Sent(presses[0]), presses[1..]);
      AppendAssoc(before, Sent(presses[0]), SentAll(presses[1..]));
    }
  }

  // ---------------------------------------------------------------- through the tokenizer

  /** No press is the start of a bracketed paste. */
  predicate NoPaste(presses: seq<Press>) {
    forall p :: p in presses ==> p != CsiPress("200", '~')
  }

  lemma StartIsAPress(p: Press, rest: string, i: nat)
    requires ValidPress(p) && i < |Sent(p)| && OccursAt(Sent(p) + rest, PASTE_START, i)
    ensures p == CsiPress("200", '~')
  {
    var s := Sent(p) + rest;
    EscapeIsFirst(p);
    OccursAtChar(s, PASTE_START, i, 0);
    assert i == 0;
    OccursAtChar(s, PASTE_START, 0, 1);
    assert p.CsiPress?;
    CsiComesFirst(p, rest);
    assert PASTE_START == Sent(CsiPress("200", '~'));
    CsiComesFirst(CsiPress("200", '~'), s[6..]);
    assert s == PASTE_START + s[6..] && s == Sent(CsiPress("200", '~')) + s[6..];
    hide CsiLength, OccursAt;
    assert |Sent(p)| == 6 && Sent(p) == s[..6] == PASTE_START;
    assert Sent(p)[2..5] == p.parameters && PASTE_START[2..5] == "200" && Sent(p)[5] == p.final;
  }

  lemma {:induction false} PressesNoStart(presses: seq<Press>)
    requires Distinguished(presses) && NoPaste(presses)
    ensures !Occurs(SentAll(presses), PASTE_START)
    decreases |presses|
  {
    hide OccursAt, Sent, ValidPress;
    if presses == [] {
      assert !Occurs("", PASTE_START) by { NoStartInNothing(); }
    } else {
      var first, rest := Sent(presses[0]), SentAll(presses[1..]);
      assert presses[0] in presses && forall p :: p in presses[1..] ==> p in presses;
      PressesNoStart(presses[1..]);
      forall i | 0 <= i <= |first + rest| && OccursAt(first + rest, PASTE_START, i) ensures false {
        if i < |first| { StartIsAPress(presses[0], rest, i); } else { OccursInRest(first, rest, i); }
      }
    }
  }

  lemma NoStartInNothing()
    ensures !Occurs("", PASTE_START)
  {
  }

  lemma OccursInRest(first: string, rest: string, i: nat)
    requires |first| <= i && OccursAt(first + rest, PASTE_START, i)
    ensures Occurs(rest, PASTE_START)
  {
    assert (first + rest)[i..i + |PASTE_START|] == rest[i - |first|..i - |first| + |PASTE_START|];
    assert OccursAt(rest, PASTE_START, i - |first|);
  }

  lemma NotFound(text: string, pattern: string)
    requires !Occurs(text, pattern)
    ensures Find(text, pattern) < 0
  {
  }

  /** Key presses that arrive in one piece: one token each, in order, and nothing held back. */
  lemma PressesInOneChunk(presses: seq<Press>)
    requires Distinguished(presses) && NoPaste(presses)
    ensures
      var reading := ReadText(None, SentAll(presses));
      Tokens(reading.events) == ToldAll(presses) && reading.paste == None && reading.pending == ""
  {
    hide Find, Occurs, ExtractTrailingIncompleteEscape, Distinguished, Tokens;
    var text := SentAll(presses);
    PressesAreTold(presses);
    PressesNoStart(presses);
    NotFound(text, PASTE_START);
    NothingToHold();
    PressesSettle("", presses);
    EmptyAppend(text);
    assert text[..|text|] == text;
  }

  /** The beginning of an escape sequence is held back. */
  lemma BeginningIsHeld(before: string, p: Press, k: nat)
    requires ValidPress(p) && (p.CsiPress? || p.Ss3Press?) && 0 < k < |Sent(p)| && k <= 16
    ensures ExtractTrailingIncompleteEscape(before + Sent(p)[..k]) == Sent(p)[..k]
  {
    var beginning := Sent(p)[..k];
    EscapeIsFirst(p);
    if p.CsiPress? && k >= 2 {
      assert beginning[2..] == p.parameters[..k - 2];
      PrefixIsParameters(p.parameters, k - 2);
      OnlyParameters(p.parameters[..k - 2]);
      assert CsiLength(beginning) == 0;
    }
    UnfinishedIsHeld(before, beginning);
  }

  lemma PrefixIsParameters(s: string, n: nat)
    requires IsParameters(s) && n <= |s|
    ensures IsParameters(s[..n])
  {
    forall c | c in s[..n] ensures c in s {
      var i :| 0 <= i < n && s[..n][i] == c;
      assert s[i] == c;
    }
  }

  lemma {:induction false} OnlyParameters(s: string)
    requires IsParameters(s)
    ensures ParameterRun(s) == |s|
    decreases |s|
  {
    if s != "" {
      assert s[0] in s && forall c :: c in s[1..] ==> c in s;
      OnlyParameters(s[1..]);
    }
  }

  /**
   Key presses that arrive in two pieces, cut inside an escape sequence: its beginning waits for the
   rest, and the tokens are those of the presses, before and after.
   */
  lemma PressAcrossChunks(a: seq<Press>, p: Press, b: seq<Press>, k: nat)
    requires Distinguished(a) && Distinguished([p] + b) && NoPaste(a) && NoPaste([p] + b)
    requires (p.CsiPress? || p.Ss3Press?) && 0 < k < |Sent(p)| && k <= 16
    ensures
      var first := ReadText(None, SentAll(a) + Sent(p)[..k]);
      var second := ReadText(first.paste, first.pending + (Sent(p)[k..] + SentAll(b)));
      && Tokens(first.events) == ToldAll(a) && first.paste == None && first.pending == Sent(p)[..k]
      && Tokens(second.events) == ToldAll([p] + b) && second.paste == None && second.pending == ""
  {
    hide Find, Occurs, ExtractTrailingIncompleteEscape, Sent, Tokens, ToldAll, KeyEvents;
    var beginning, text := Sent(p)[..k], SentAll(a) + Sent(p)[..k];
    assert ([p] + b)[1..] == b && ([p] + b)[0] == p && p in [p] + b && SentAll([p] + b) == Sent(p) + SentAll(b);
    hide SentAll, ValidPress;
    assert Sent(p) == beginning + Sent(p)[k..];
    AppendAssoc(beginning, Sent(p)[k..], SentAll(b));
    BeginningIsHeld(SentAll(a), p, k);
    PressesAreTold(a);
    PressesNoStart(a);
    NoStartAtCut(SentAll(a), p, k);
    NotFound(text, PASTE_START);
    assert text[..|text| - |beginning|] == SentAll(a);
    PressesInOneChunk([p] + b);
  }

  lemma NoStartAtCut(before: string, p: Press, k: nat)
    requires !Occurs(before, PASTE_START) && ValidPress(p) && (p.CsiPress? || p.Ss3Press?) && p != CsiPress("200", '~')
    requires 0 < k < |Sent(p)|
    ensures !Occurs(before + Sent(p)[..k], PASTE_START)
  {
    hide ValidPress, Sent;
    var text := before + Sent(p)[..k];
    EscapeIsFirst(p);
    forall i | 0 <= i <= |text| && OccursAt(text, PASTE_START, i) ensures false {
      if i + |PASTE_START| <= |before| {
        OccursInPrefix(before, Sent(p)[..k], PASTE_START, i);
      } else if i < |before| {
        OccursAtChar(text, PASTE_START, i, |before| - i);
      } else {
        assert text[i..i + |PASTE_START|] == (Sent(p) + "")[i - |before|..i - |before| + |PASTE_START|];
        StartIsAPress(p, "", i - |before|);
      }
    }
  }
}
