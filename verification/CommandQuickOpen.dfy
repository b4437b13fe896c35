/**
 Quoting an agent's name into a command and reading it back, and the score of a search term
 (frontend/terminal-ui/src/command-quick-open.js).
 */
module CommandQuickOpens {
  import opened Sequences
  import opened Strings
  import opened Wrappers

  // ---------------------------------------------------------------- quoting

  predicate IsPlain(c: char) {
    'A' <= c <= 'Z' || 'a' <= c <= 'z' || '0' <= c <= '9' || c in "_@%+=:,./-"
  }

  /** Inside single quotes, a single quote is written as the five characters '"'"'. */
  function EscapeQuotes(value: string): string {
    if value == "" then "" else (if value[0] == '\'' then "'\"'\"'" else [value[0]]) + EscapeQuotes(value[1..])
  }

  function ShellQuote(value: string): string {
    if value != "" && forall i :: 0 <= i < |value| ==> IsPlain(value[i]) then value else "'" + EscapeQuotes(value) + "'"
  }

  /** A word goes without quotes exactly when nothing in it needs them. */
  lemma PlainIsUnquoted(value: string)
    ensures ShellQuote(value) == value <==>
      value != "" && forall i :: 0 <= i < |value| ==>
        var n := value[i] as int;
        48 <= n <= 57 || 65 <= n <= 90 || 97 <= n <= 122 || value[i] in "_@%+=:,./-"
  {
    EscapedIsLonger(value);
  }

  lemma {:induction false} EscapedIsLonger(value: string)
    ensures |EscapeQuotes(value)| >= |value|
    decreases |value|
  {
    if value != "" { EscapedIsLonger(value[1..]); }
  }

  // ---------------------------------------------------------------- splitting

  /** The splitter's variables: finished words, the word being read, the open quote, whether a word has begun. */
  datatype Splitter = Splitter(words: seq<string>, word: string, quote: Option<char>, started: bool)

  const START := Splitter([], "", None, false)

  /** One turn of the loop on text that is not at its end: the new variables and how many characters it took. */
  function Turn(value: string, w: Splitter): (r: (Splitter, int))
    requires value != ""
    ensures 1 <= r.1 <= |value|
  {
    var c := value[0];
    if w.quote.Some? then
      if c == w.quote.value then (w.(quote := None, started := true), 1)
      else if w.quote.value == '"' && c == '\\' && |value| > 1 then (w.(word := w.word + [value[1]], started := true), 2)
      else (w.(word := w.word + [c], started := true), 1)
    else if c == '\'' || c == '"' then (w.(quote := Some(c), started := true), 1)
    else if IsSpace(c) then
      (if w.started then Splitter(w.words + [w.word], "", None, false) else w, 1)
    else if c == '\\' && |value| > 1 then (w.(word := w.word + [value[1]], started := true), 2)
    else (w.(word := w.word + [c], started := true), 1)
  }

  function Walk(value: string, w: Splitter): Splitter
    decreases |value|
  {
    if value == "" then w else
      var r := Turn(value, w);
      Walk(value[r.1..], r.0)
  }

  lemma WalkTurn(value: string, index: int, w: Splitter)
    requires 0 <= index < |value|
    ensures
      var step := Turn(value[index..], w);
      Walk(value[index..], w) == Walk(value[index + step.1..], step.0)
  {
    var step := Turn(value[index..], w);
    assert value[index..][step.1..] == value[index + step.1..];
  }

  lemma WalkNothing(w: Splitter)
    ensures Walk("", w) == w
  {
  }

  /** An open quote at the end gives no words at all. */
  function WordsOf(w: Splitter): seq<string> {
    if w.quote.Some? then [] else if w.started then w.words + [w.word] else w.words
  }

  method SplitShellWords(value: string) returns (words: seq<string>)
    ensures words == WordsOf(Walk(value, START))
  {
    hide Walk, IsSpace;
    var w := START;
    var index := 0;
    assert value[0..] == value;
    while index < |value|
      invariant 0 <= index <= |value|
      invariant Walk(value[index..], w) == Walk(value, START)
    {
      WalkTurn(value, index, w);
      ghost var step, start := Turn(value[index..], w), index;
      var character := value[index];
      if w.quote.Some? {
        if character == w.quote.value {
          w := w.(quote := None);
        } else if w.quote.value == '"' && character == '\\' && index + 1 < |value| {
          index := index + 1;
          w := w.(word := w.word + [value[index]]);
        } else {
          w := w.(word := w.word + [character]);
        }
        w := w.(started := true);
      } else if character == '\'' || character == '"' {
        w := w.(quote := Some(character), started := true);
      } else if IsSpace(character) {
        if w.started {
          w := w.(words := w.words + [w.word], word := "", started := false);
        }
      } else if character == '\\' && index + 1 < |value| {
        index := index + 1;
        w := w.(word := w.word + [value[index]], started := true);
      } else {
        w := w.(word := w.word + [character], started := true);
      }
      index := index + 1;
      assert w == step.0 && index == start + step.1;
    }
    assert value[index..] == "";
    WalkNothing(w);
    if w.quote.Some? { return []; }
    if w.started { w := w.(words := w.words + [w.word]); }
    return w.words;
  }

  // ---------------------------------------------------------------- the round trip

  /** One turn that takes one character. */
  lemma TurnOne(c: char, rest: string, w: Splitter)
    requires Turn([c] + rest, w).1 == 1
    ensures Walk([c] + rest, w) == Walk(rest, Turn([c] + rest, w).0)
  {
    assert ([c] + rest)[1..] == rest;
  }

  lemma PlainIsNotSpecial(c: char)
    requires IsPlain(c)
    ensures !IsSpace(c) && c != '\'' && c != '"' && c != '\\'
  {
  }

  lemma PlainCharIsRead(c: char, rest: string, w: Splitter)
    requires w.quote == None && IsPlain(c)
    ensures Walk([c] + rest, w) == Walk(rest, w.(word := w.word + [c], started := true))
  {
    hide Walk, IsPlain, IsSpace;
    PlainIsNotSpecial(c);
    TurnOne(c, rest, w);
  }

  lemma {:induction false} PlainIsRead(value: string, rest: string, w: Splitter)
    requires w.quote == None && forall i :: 0 <= i < |value| ==> IsPlain(value[i])
    ensures Walk(value + rest, w) == Walk(rest, if value == "" then w else w.(word := w.word + value, started := true))
    decreases |value|
  {
    hide Walk, Turn, IsPlain;
    if value == "" {
      assert value + rest == rest;
    } else {
      var next := w.(word := w.word + [value[0]], started := true);
      assert value + rest == [value[0]] + (value[1..] + rest);
      PlainCharIsRead(value[0], value[1..] + rest, w);
      PlainIsRead(value[1..], rest, next);
      assert next.word + value[1..] == w.word + value && next.word + "" == next.word;
    }
  }

  /** Out of the single quotes, a quoted quote, and back in. */
  lemma EscapedQuoteIsRead(rest: string, w: Splitter)
    requires w.quote == Some('\'') && w.started
    ensures Walk("'\"'\"'" + rest, w) == Walk(rest, w.(word := w.word + "'"))
  {
    hide Walk;
    var out := w.(quote := None);
    var inner := w.(quote := Some('"'));
    var read := inner.(word := w.word + "'");
    assert "'\"'\"'" + rest == ['\''] + ("\"'\"'" + rest);
    TurnOne('\'', "\"'\"'" + rest, w);
    assert "\"'\"'" + rest == ['"'] + ("'\"'" + rest);
    TurnOne('"', "'\"'" + rest, out);
    assert "'\"'" + rest == ['\''] + ("\"'" + rest);
    TurnOne('\'', "\"'" + rest, inner);
    assert "\"'" + rest == ['"'] + ("'" + rest);
    TurnOne('"', "'" + rest, read);
    TurnOne('\'', rest, read.(quote := None));
  }

  lemma {:induction false} EscapedIsRead(value: string, rest: string, w: Splitter)
    requires w.quote == Some('\'') && w.started
    ensures Walk(EscapeQuotes(value) + rest, w) == Walk(rest, w.(word := w.word + value))
    decreases |value|
  {
    hide Walk, Turn;
    if value == "" {
      assert EscapeQuotes(value) + rest == rest && w.word + value == w.word;
    } else {
      var next := w.(word := w.word + [value[0]]);
      var tail := EscapeQuotes(value[1..]) + rest;
      EscapedIsRead(value[1..], rest, next);
      assert next.word + value[1..] == w.word + value;
      if value[0] == '\'' {
        assert EscapeQuotes(value) + rest == "'\"'\"'" + tail;
        EscapedQuoteIsRead(tail, w);
      } else {
        assert EscapeQuotes(value) + rest == [value[0]] + tail;
        InQuotesIsRead(value[0], tail, w);
      }
    }
  }

  lemma InQuotesIsRead(c: char, rest: string, w: Splitter)
    requires w.quote == Some('\'') && w.started && c != '\''
    ensures Walk([c] + rest, w) == Walk(rest, w.(word := w.word + [c]))
  {
    TurnOne(c, rest, w);
  }

  /** A quoted word is read back as the word itself, and leaves no quote open. */
  lemma QuotedIsRead(value: string, rest: string, w: Splitter)
    requires w.quote == None && w.word == ""
    ensures Walk(ShellQuote(value) + rest, w) == Walk(rest, w.(word := value, started := true))
  {
    hide Walk;
    if value != "" && forall i :: 0 <= i < |value| ==> IsPlain(value[i]) {
      PlainIsRead(value, rest, w);
      assert "" + value == value;
    } else {
      var inside := w.(quote := Some('\''), started := true);
      var tail := EscapeQuotes(value) + ("'" + rest);
      assert ShellQuote(value) + rest == ['\''] + tail;
      TurnOne('\'', tail, w);
      EscapedIsRead(value, "'" + rest, inside);
      assert "" + value == value;
      TurnOne('\'', rest, inside.(word := value));
    }
  }

  /** Words quoted and joined by single spaces, as a command is written. */
  function CommandLine(words: seq<string>): string {
    if words == [] then "" else if |words| == 1 then ShellQuote(words[0])
    else ShellQuote(words[0]) + (" " + CommandLine(words[1..]))
  }

  lemma {:induction false} CommandLineIsRead(words: seq<string>, before: seq<string>)
    requires words != []
    ensures Walk(CommandLine(words), Splitter(before, "", None, false))
         == Splitter(before + words[..|words| - 1], words[|words| - 1], None, true)
    decreases |words|
  {
    hide Walk, ShellQuote;
    var w := Splitter(before, "", None, false);
    if |words| == 1 {
      QuotedIsRead(words[0], "", w);
      assert ShellQuote(words[0]) + "" == ShellQuote(words[0]) && before + [] == before;
      WalkNothing(w.(word := words[0], started := true));
    } else {
      var tail := CommandLine(words[1..]);
      QuotedIsRead(words[0], " " + tail, w);
      var read := w.(word := words[0], started := true);
      assert " " + tail == [' '] + tail;
      TurnOne(' ', tail, read);
      CommandLineIsRead(words[1..], before + [words[0]]);
      assert before + [words[0]] + words[1..][..|words| - 2] == before + words[..|words| - 1];
    }
  }

  /** The quoter and the splitter undo each other, for any words whatever they contain. */
  lemma {:induction false} SplitUndoesQuote(words: seq<string>)
    ensures WordsOf(Walk(CommandLine(words), START)) == words
  {
    hide Walk, ShellQuote;
    if words == [] {
      WalkNothing(START);
    } else {
      var n := |words| - 1;
      CommandLineIsRead(words, []);
      assert [] + words[..n] == words[..n] && words[..n] + [words[n]] == words;
    }
  }

  /** Every character behind a backslash. */
  function Backslashed(value: string): string {
    if value == "" then "" else ['\\', value[0]] + Backslashed(value[1..])
  }

  /** Outside quotes and inside double quotes a backslash takes the next character as it is. */
  lemma {:induction false} BackslashedIsRead(value: string, rest: string, w: Splitter)
    requires w.quote == None || w.quote == Some('"')
    ensures Walk(Backslashed(value) + rest, w) == Walk(rest, if value == "" then w else w.(word := w.word + value, started := true))
    decreases |value|
  {
    hide Walk, Turn;
    if value == "" {
      assert Backslashed(value) + rest == rest;
    } else {
      var tail := Backslashed(value[1..]) + rest;
      var next := w.(word := w.word + [value[0]], started := true);
      AppendAssoc(['\\', value[0]], Backslashed(value[1..]), rest);
      BackslashIsRead(value[0], tail, w);
      BackslashedIsRead(value[1..], rest, next);
      AppendAssoc(w.word, [value[0]], value[1..]);
      EmptyAppend(next.word);
      assert [value[0]] + value[1..] == value;
    }
  }

  lemma BackslashIsRead(c: char, rest: string, w: Splitter)
    requires w.quote == None || w.quote == Some('"')
    ensures Walk(['\\', c] + rest, w) == Walk(rest, w.(word := w.word + [c], started := true))
  {
    var text := ['\\', c] + rest;
    assert !IsSpace('\\');
    assert Turn(text, w).1 == 2 && text[2..] == rest;
  }

  /** Any white space where no word has begun is skipped. */
  lemma {:induction false} SpacesAreSkipped(spaces: string, rest: string, w: Splitter)
    requires w.quote == None && !w.started && forall c :: c in spaces ==> IsSpace(c)
    ensures Walk(spaces + rest, w) == Walk(rest, w)
    decreases |spaces|
  {
    hide Walk, IsSpace;
    if spaces == "" {
      EmptyAppend(rest);
    } else {
      assert spaces[0] in spaces && spaces + rest == [spaces[0]] + (spaces[1..] + rest);
      SpaceIsSkipped(spaces[0], spaces[1..] + rest, w);
      SpacesAreSkipped(spaces[1..], rest, w);
    }
  }

  lemma SpaceIsSkipped(c: char, rest: string, w: Splitter)
    requires w.quote == None && !w.started && IsSpace(c)
    ensures Walk([c] + rest, w) == Walk(rest, w)
  {
    hide Walk;
    TurnOne(c, rest, w);
  }

  // ---------------------------------------------------------------- any way to spell words

  /** A piece of a word: a character, bare or behind a backslash, or some of them in quotes. */
  datatype Piece = Bare(c: char) | Escaped(c: char) | Single(text: string) | Double(inner: seq<Inner>)

  /** Inside double quotes: a character, or one behind a backslash. */
  datatype Inner = Plain(c: char) | Behind(c: char)

  predicate ValidPiece(p: Piece) {
    match p
    case Bare(c) => c != '\'' && c != '"' && c != '\\' && !IsSpace(c)
    case Escaped(_) => true
    case Single(text) => '\'' !in text
    case Double(inner) => forall x :: x in inner && x.Plain? ==> x.c != '"' && x.c != '\\'
  }

  function SpelledInner(inner: seq<Inner>): string {
    if inner == [] then ""
    else (if inner[0].Plain? then [inner[0].c] else ['\\', inner[0].c]) + SpelledInner(inner[1..])
  }

  function MeantInner(inner: seq<Inner>): string {
    seq(|inner|, i requires 0 <= i < |inner| => inner[i].c)
  }

  function Spelled(p: Piece): string {
    match p
    case Bare(c) => [c]
    case Escaped(c) => ['\\', c]
    case Single(text) => "'" + (text + "'")
    case Double(inner) => "\"" + (SpelledInner(inner) + "\"")
  }

  function Meant(p: Piece): string {
    match p
    case Bare(c) => [c]
    case Escaped(c) => [c]
    case Single(text) => text
    case Double(inner) => MeantInner(inner)
  }

  function SpelledWord(pieces: seq<Piece>): string {
    if pieces == [] then "" else Spelled(pieces[0]) + SpelledWord(pieces[1..])
  }

  function MeantWord(pieces: seq<Piece>): string {
    if pieces == [] then "" else Meant(pieces[0]) + MeantWord(pieces[1..])
  }

  lemma BareIsRead(c: char, rest: string, w: Splitter)
    requires w.quote == None && c != '\'' && c != '"' && c != '\\' && !IsSpace(c)
    ensures Walk([c] + rest, w) == Walk(rest, w.(word := w.word + [c], started := true))
  {
    hide Walk, IsSpace;
    TurnOne(c, rest, w);
  }

  /** In quotes every character counts, white space and the other quote included. */
  lemma CharIsRead(c: char, rest: string, w: Splitter)
    requires w.quote.Some? && c != w.quote.value && (w.quote.value == '"' ==> c != '\\')
    ensures Walk([c] + rest, w) == Walk(rest, w.(word := w.word + [c], started := true))
  {
    hide Walk, IsSpace;
    TurnOne(c, rest, w);
  }

  lemma {:induction false} SingleIsRead(text: string, rest: string, w: Splitter)
    requires w.quote == Some('\'') && w.started && '\'' !in text
    ensures Walk(text + rest, w) == Walk(rest, w.(word := w.word + text))
    decreases |text|
  {
    hide Walk, Turn;
    if text == "" {
      EmptyAppend(rest);
      EmptyAppend(w.word);
    } else {
      var next := w.(word := w.word + [text[0]]);
      assert text + rest == [text[0]] + (text[1..] + rest) && text == [text[0]] + text[1..];
      assert text[0] in text && forall c :: c in text[1..] ==> c in text;
      CharIsRead(text[0], text[1..] + rest, w);
      SingleIsRead(text[1..], rest, next);
      AppendAssoc(w.word, [text[0]], text[1..]);
    }
  }

  lemma {:induction false} InnerIsRead(inner: seq<Inner>, rest: string, w: Splitter)
    requires w.quote == Some('"') && w.started && ValidPiece(Double(inner))
    ensures Walk(SpelledInner(inner) + rest, w) == Walk(rest, w.(word := w.word + MeantInner(inner)))
    decreases |inner|
  {
    hide Walk, Turn;
    if inner == [] {
      EmptyAppend(rest);
      EmptyAppend(w.word);
    } else {
      var x, tail := inner[0], SpelledInner(inner[1..]) + rest;
      var next := w.(word := w.word + [x.c]);
      assert x in inner && forall y :: y in inner[1..] ==> y in inner;
      AppendAssoc(if x.Plain? then [x.c] else ['\\', x.c], SpelledInner(inner[1..]), rest);
      if x.Plain? { CharIsRead(x.c, tail, w); } else { BackslashIsRead(x.c, tail, w); }
      InnerIsRead(inner[1..], rest, next);
      assert MeantInner(inner) == [x.c] + MeantInner(inner[1..]);
      AppendAssoc(w.word, [x.c], MeantInner(inner[1..]));
    }
  }

  lemma PieceIsRead(p: Piece, rest: string, w: Splitter)
    requires w.quote == None && ValidPiece(p)
    ensures Walk(Spelled(p) + rest, w) == Walk(rest, w.(word := w.word + Meant(p), started := true))
  {
    hide Walk, IsSpace, SpelledInner, MeantInner;
    match p
    case Bare(c) => BareIsRead(c, rest, w);
    case Escaped(c) => BackslashIsRead(c, rest, w);
    case Single(text) =>
      AppendAssoc("'", text + "'", rest);
      AppendAssoc(text, "'", rest);
      QuoteToggles('\'', text + ("'" + rest), w);
      SingleIsRead(text, "'" + rest, w.(quote := Some('\''), started := true));
      QuoteToggles('\'', rest, w.(quote := Some('\''), started := true, word := w.word + text));
    case Double(inner) =>
      var text := SpelledInner(inner);
      AppendAssoc("\"", text + "\"", rest);
      AppendAssoc(text, "\"", rest);
      QuoteToggles('"', text + ("\"" + rest), w);
      InnerIsRead(inner, "\"" + rest, w.(quote := Some('"'), started := true));
      QuoteToggles('"', rest, w.(quote := Some('"'), started := true, word := w.word + MeantInner(inner)));
  }

  lemma QuoteToggles(q: char, rest: string, w: Splitter)
    requires (q == '\'' || q == '"') && (w.quote == None || w.quote == Some(q))
    ensures Walk([q] + rest, w) == Walk(rest, w.(quote := if w.quote == None then Some(q) else None, started := true))
  {
    hide Walk, IsSpace;
    TurnOne(q, rest, w);
  }

  /** However a word is spelled, it is read as what is meant, and no quote is left open. */
  lemma {:induction false} WordIsRead(pieces: seq<Piece>, rest: string, w: Splitter)
    requires w.quote == None && pieces != [] && forall p :: p in pieces ==> ValidPiece(p)
    ensures Walk(SpelledWord(pieces) + rest, w) == Walk(rest, w.(word := w.word + MeantWord(pieces), started := true))
    decreases |pieces|
  {
    hide Walk, Spelled, Meant, ValidPiece;
    var p, tail := pieces[0], SpelledWord(pieces[1..]);
    var next := w.(word := w.word + Meant(p), started := true);
    AppendAssoc(Spelled(p), tail, rest);
    PieceIsRead(p, tail + rest, w);
    if |pieces| == 1 {
      EmptyAppend(rest);
      EmptyAppend(Meant(p));
    } else {
      assert forall q :: q in pieces[1..] ==> q in pieces;
      WordIsRead(pieces[1..], rest, next);
      AppendAssoc(w.word, Meant(p), MeantWord(pieces[1..]));
    }
  }

  /** A word and the white space after it. */
  datatype Chunk = Chunk(pieces: seq<Piece>, space: string)

  predicate ValidChunk(k: Chunk) {
    k.pieces != [] && (forall p :: p in k.pieces ==> ValidPiece(p)) && (forall c :: c in k.space ==> IsSpace(c))
  }

  /** Words with white space between them. */
  predicate ValidLine(line: seq<Chunk>) {
    forall i :: 0 <= i < |line| ==> ValidChunk(line[i]) && (i < |line| - 1 ==> line[i].space != "")
  }

  function SpelledLine(line: seq<Chunk>): string {
    if line == [] then "" else SpelledWord(line[0].pieces) + (line[0].space + SpelledLine(line[1..]))
  }

  function MeantLine(line: seq<Chunk>): seq<string> {
    seq(|line|, i requires 0 <= i < |line| => MeantWord(line[i].pieces))
  }

  /** White space ends the word. */
  lemma SpaceEndsWord(space: string, rest: string, w: Splitter)
    requires w.quote == None && w.started && space != "" && forall c :: c in space ==> IsSpace(c)
    ensures Walk(space + rest, w) == Walk(rest, Splitter(w.words + [w.word], "", None, false))
  {
    hide Walk, IsSpace;
    assert space[0] in space && forall c :: c in space[1..] ==> c in space;
    assert space + rest == [space[0]] + (space[1..] + rest);
    SpaceEnds(space[0], space[1..] + rest, w);
    SpacesAreSkipped(space[1..], rest, Splitter(w.words + [w.word], "", None, false));
  }

  lemma SpaceEnds(c: char, rest: string, w: Splitter)
    requires w.quote == None && w.started && IsSpace(c)
    ensures Walk([c] + rest, w) == Walk(rest, Splitter(w.words + [w.word], "", None, false))
  {
    hide Walk;
    TurnOne(c, rest, w);
  }

  lemma {:induction false} LineIsRead(line: seq<Chunk>, before: seq<string>)
    requires ValidLine(line)
    ensures WordsOf(Walk(SpelledLine(line), Splitter(before, "", None, false))) == before + MeantLine(line)
    decreases |line|
  {
    hide Walk, IsSpace, SpelledWord, MeantWord, ValidPiece;
    var w := Splitter(before, "", None, false);
    if line == [] {
      WalkNothing(w);
    } else {
      var word, rest := MeantWord(line[0].pieces), SpelledLine(line[1..]);
      var read := w.(word := word, started := true);
      WordIsRead(line[0].pieces, line[0].space + rest, w);
      EmptyAppend(word);
      if line[0].space == "" {
        assert line[1..] == [] && "" + "" == "" && MeantLine(line) == [word];
        WalkNothing(read);
      } else {
        SpaceEndsWord(line[0].space, rest, read);
        LineIsRead(line[1..], before + [word]);
        assert MeantLine(line) == [word] + MeantLine(line[1..]);
        AppendAssoc(before, [word], MeantLine(line[1..]));
      }
    }
  }

  /**
   Any line of words, each spelled in any way and with any white space around them, is split into what
   the words mean.
   */
  lemma SplitMeansWords(space: string, line: seq<Chunk>)
    requires ValidLine(line) && forall c :: c in space ==> IsSpace(c)
    ensures WordsOf(Walk(space + SpelledLine(line), START)) == MeantLine(line)
  {
    hide Walk, IsSpace, ValidLine;
    SpacesAreSkipped(space, SpelledLine(line), START);
    LineIsRead(line, []);
    EmptyAppend(MeantLine(line));
  }

  /** A backslash at the very end stands for itself. */
  lemma LastBackslash(w: Splitter)
    requires w.quote == None || w.quote == Some('"')
    ensures Walk("\\", w) == w.(word := w.word + "\\", started := true)
  {
    hide Walk;
    assert "\\" == ['\\'] + "" && !IsSpace('\\');
    TurnOne('\\', "", w);
    WalkNothing(w.(word := w.word + "\\", started := true));
  }

  /** A single quote that is never closed leaves no words, whatever came before it. */
  lemma {:induction false} OpenQuoteGivesNothing(words: seq<string>, value: string)
    requires words != [] && '\'' !in value
    ensures WordsOf(Walk(CommandLine(words) + " '" + value, START)) == []
  {
    hide Walk;
    CommandLineThenSpace(words, [], "'" + value);
    assert CommandLine(words) + " '" + value == CommandLine(words) + (" " + ("'" + value));
    var w := Splitter(words, "", None, false);
    assert [] + words == words;
    TurnOne('\'', value, w);
    InQuoteToTheEnd(value, w.(quote := Some('\''), started := true));
  }

  lemma {:induction false} CommandLineThenSpace(words: seq<string>, before: seq<string>, rest: string)
    requires words != []
    ensures Walk(CommandLine(words) + (" " + rest), Splitter(before, "", None, false))
         == Walk(rest, Splitter(before + words, "", None, false))
    decreases |words|
  {
    hide Walk, ShellQuote;
    var w := Splitter(before, "", None, false);
    var read := w.(word := words[0], started := true);
    if |words| == 1 {
      QuotedIsRead(words[0], " " + rest, w);
      assert " " + rest == [' '] + rest && words == [words[0]];
      TurnOne(' ', rest, read);
    } else {
      var tail := CommandLine(words[1..]) + (" " + rest);
      assert CommandLine(words) + (" " + rest) == ShellQuote(words[0]) + (" " + tail);
      QuotedIsRead(words[0], " " + tail, w);
      assert " " + tail == [' '] + tail;
      TurnOne(' ', tail, read);
      CommandLineThenSpace(words[1..], before + [words[0]], rest);
      assert before + [words[0]] + words[1..] == before + words;
    }
  }

  lemma {:induction false} InQuoteToTheEnd(value: string, w: Splitter)
    requires w.quote == Some('\'') && w.started && '\'' !in value
    ensures Walk(value, w).quote == w.quote
    decreases |value|
  {
    hide Walk;
    if value == "" {
      WalkNothing(w);
    } else {
      assert value == [value[0]] + value[1..];
      InQuotesIsRead(value[0], value[1..], w);
      InQuoteToTheEnd(value[1..], w.(word := w.word + [value[0]]));
    }
  }

  // ---------------------------------------------------------------- agent links

  const AGENT_STATES: set<string> := {"running", "ready", "spawned", "idle", "uninitialized", "destroyed"}
  const AGENT_KINDS: set<string> := {"dynamic", "preset"}

  datatype AgentEntry = AgentEntry(name: string, state: string, kind: string)

  predicate IsSafeAgentName(name: string) {
    1 <= |name| <= 200 && forall c :: c in name ==> ' ' <= c && c != '\U{7F}'
  }

  predicate IsSafeAgentEntry(entry: AgentEntry) {
    IsSafeAgentName(entry.name) && entry.state in AGENT_STATES && entry.kind in AGENT_KINDS
  }

  /** `None` stands for the exception. */
  function AgentTemplate(entry: AgentEntry): Option<string> {
    if IsSafeAgentEntry(entry) then Some("/agents agent " + ShellQuote(entry.name)) else None
  }

  function AgentOf(parts: seq<string>, lower: string -> string): Option<string> {
    if |parts| == 3 && lower(parts[0]) == "/agents" && lower(parts[1]) == "agent" && IsSafeAgentName(parts[2]) then Some(parts[2])
    else None
  }

  method ParseAgentDeepLink(text: string, lower: string -> string) returns (name: Option<string>)
    ensures name == AgentOf(WordsOf(Walk(text, START)), lower)
  {
    var parts := SplitShellWords(text);
    name := AgentOf(parts, lower);
  }

  lemma LinkIsCommandLine(name: string)
    ensures CommandLine(["/agents", "agent", name]) == "/agents agent " + ShellQuote(name)
  {
    var words, quoted := ["/agents", "agent", name], ShellQuote(name);
    PlainNeedsNoQuotes();
    hide ShellQuote;
    assert words[1..] == ["agent", name] && words[1..][1..] == [name];
    assert CommandLine([name]) == quoted;
    assert CommandLine(words[1..]) == "agent" + (" " + quoted);
    assert "/agents agent " + quoted == "/agents" + (" " + ("agent" + (" " + quoted)));
  }

  lemma PlainNeedsNoQuotes()
    ensures ShellQuote("/agents") == "/agents" && ShellQuote("agent") == "agent"
  {
  }

  /**
   Every link made for an agent leads back to that agent, whatever quotes, spaces or backslashes its
   name has, and a name is offered exactly when it is safe; `lower` is the locale's lower-casing.
   */
  lemma AgentLinkRoundTrip(entry: AgentEntry, lower: string -> string)
    requires lower("/agents") == "/agents" && lower("agent") == "agent"
    ensures AgentTemplate(entry).Some? <==>
      && 1 <= |entry.name| <= 200 && (forall i :: 0 <= i < |entry.name| ==> ' ' <= entry.name[i] && entry.name[i] != '\U{7F}')
      && entry.state in ["running", "ready", "spawned", "idle", "uninitialized", "destroyed"] && entry.kind in ["dynamic", "preset"]
    ensures AgentTemplate(entry).Some? ==>
      AgentOf(WordsOf(Walk(AgentTemplate(entry).value, START)), lower) == Some(entry.name)
  {
    hide Walk, ShellQuote, CommandLine, WordsOf;
    SplitUndoesQuote(["/agents", "agent", entry.name]);
    LinkIsCommandLine(entry.name);
    assert forall i :: 0 <= i < |entry.name| ==> entry.name[i] in entry.name;
  }

  // ---------------------------------------------------------------- subsequence score

  /** Where the characters of `term` are found in `target`, from left to right. */
  predicate Embeds(term: string, target: string, at: seq<int>) {
    && |at| == |term|
    && (forall k :: 0 <= k < |at| ==> 0 <= at[k] < |target| && target[at[k]] == term[k])
    && (forall j, k :: 0 <= j < k < |at| ==> at[j] < at[k])
  }

  /** The characters skipped before each match, added up. */
  function Gaps(at: seq<int>): int
    decreases |at|
  {
    if at == [] then 0
    else if |at| == 1 then at[0]
    else Gaps(at[..|at| - 1]) + (at[|at| - 1] - at[|at| - 2] - 1)
  }

  lemma {:induction false} GapsTelescope(at: seq<int>)
    requires at != []
    ensures Gaps(at) == at[|at| - 1] - |at| + 1
    decreases |at|
  {
    if |at| > 1 { GapsTelescope(at[..|at| - 1]); }
  }

  lemma EmbedsPrefix(term: string, target: string, at: seq<int>, n: int)
    requires Embeds(term, target, at) && 0 <= n <= |term|
    ensures Embeds(term[..n], target, at[..n])
  {
  }

  function LastOf(at: seq<int>): int {
    if at == [] then -1 else at[|at| - 1]
  }

  /** `at` embeds `term`, and no embedding ends earlier. */
  ghost predicate Earliest(term: string, target: string, at: seq<int>) {
    Embeds(term, target, at)
    && forall e :: Embeds(term, target, e) && e != [] ==> at[|at| - 1] <= e[|e| - 1]
  }

  /** Every embedding finds its next character after the earliest one has found those before it. */
  lemma NextMatchIsLater(term: string, target: string, at: seq<int>, k: int, e: seq<int>)
    requires 0 <= k < |term| && Earliest(term[..k], target, at) && Embeds(term, target, e)
    ensures LastOf(at) < e[k] < |target| && target[e[k]] == term[k]
  {
    EmbedsPrefix(term, target, e, k);
    if k > 0 { assert e[..k][k - 1] == e[k - 1] < e[k]; }
  }

  /** Taking each next match as early as possible stays earliest. */
  lemma GreedyStaysEarliest(term: string, target: string, at: seq<int>, k: int, next: int)
    requires 0 <= k < |term| && Earliest(term[..k], target, at)
    requires LastOf(at) < next < |target| && target[next] == term[k]
    requires forall j :: LastOf(at) < j < next ==> target[j] != term[k]
    ensures Earliest(term[..k + 1], target, at + [next])
  {
    forall e | Embeds(term[..k + 1], target, e) && e != [] ensures next <= e[|e| - 1] {
      assert term[..k + 1][..k] == term[..k];
      NextMatchIsLater(term[..k + 1], target, at, k, e);
    }
    assert forall j :: 0 <= j < k ==> term[..k + 1][j] == term[..k][j];
  }

  /** Where the greedy search fails, there is no embedding. */
  lemma GreedyFailsRightly(term: string, target: string, at: seq<int>, k: int, e: seq<int>)
    requires 0 <= k < |term| && Earliest(term[..k], target, at)
    requires forall j :: LastOf(at) < j < |target| ==> target[j] != term[k]
    ensures !Embeds(term, target, e)
  {
    if Embeds(term, target, e) {
      NextMatchIsLater(term, target, at, k, e);
    }
  }

  /**
   The score is defined exactly when the term is a subsequence of the target, and is then the least
   number of skipped characters over all the ways to find it.
   */
  method SubsequenceGap(term: string, target: string) returns (score: Option<int>)
    ensures score.Some? <==> exists at :: Embeds(term, target, at)
    ensures score.Some? ==> exists at :: Embeds(term, target, at) && Gaps(at) == score.value
    ensures forall at :: Embeds(term, target, at) ==> score.Some? && score.value <= Gaps(at)
  {
    hide Embeds, Earliest;
    var position, total := -1, 0;
    ghost var at: seq<int> := [];
    assert Earliest(term[..0], target, at) by { EarliestNothing(target); assert term[..0] == ""; }
    for k := 0 to |term|
      invariant -1 <= position < |target| && position == LastOf(at) && |at| == k
      invariant Earliest(term[..k], target, at)
      invariant total == Gaps(at)
    {
      var found := IndexOf(target[position + 1..], term[k]);
      if found < 0 {
        forall e ensures !Embeds(term, target, e) {
          NotFrom(target, position + 1, term[k]);
          GreedyFailsRightly(term, target, at, k, e);
        }
        return None;
      }
      var nextPosition := position + 1 + found;
      FirstFrom(target, position + 1, term[k]);
      GreedyStaysEarliest(term, target, at, k, nextPosition);
      assert (at + [nextPosition])[..|at|] == at;
      total := total + (if position < 0 then nextPosition else nextPosition - position - 1);
      position := nextPosition;
      at := at + [nextPosition];
    }
    assert term[..|term|] == term;
    forall e | Embeds(term, target, e) ensures total <= Gaps(e) {
      EarliestIsLeast(term, target, at, e);
    }
    assert Embeds(term, target, at) by { EarliestEmbeds(term, target, at); }
    return Some(total);
  }

  lemma EarliestNothing(target: string)
    ensures Earliest("", target, [])
  {
  }

  lemma EarliestEmbeds(term: string, target: string, at: seq<int>)
    requires Earliest(term, target, at)
    ensures Embeds(term, target, at)
  {
  }

  lemma EarliestIsLeast(term: string, target: string, at: seq<int>, e: seq<int>)
    requires Earliest(term, target, at) && Embeds(term, target, e)
    ensures Gaps(at) <= Gaps(e)
  {
    if e != [] {
      GapsTelescope(at);
      GapsTelescope(e);
    }
  }

  lemma NotFrom(target: string, start: int, c: char)
    requires 0 <= start <= |target| && IndexOf(target[start..], c) < 0
    ensures forall j :: start <= j < |target| ==> target[j] != c
  {
    forall j | start <= j < |target| ensures target[j] != c {
      assert target[start..][j - start] == target[j];
    }
  }

  lemma FirstFrom(target: string, start: int, c: char)
    requires 0 <= start <= |target| && IndexOf(target[start..], c) >= 0
    ensures
      var next := start + IndexOf(target[start..], c);
      next < |target| && target[next] == c && forall j :: start <= j < next ==> target[j] != c
  {
    var found := IndexOf(target[start..], c);
    forall j | start <= j < start + found ensures target[j] != c {
      assert target[start..][..found][j - start] == target[j];
    }
  }
}
