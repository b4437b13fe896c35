/**
 Wrapping and cutting styled text (frontend/terminal-ui/src/ansi.js).
 A line is a sequence of tokens: a grapheme with its width in cells, or an SGR sequence
 (section 8.3.117 of ECMA-48) with its parameter values, an omitted parameter being 0.
 */
module AnsiTexts {
  import opened Sequences
  type Sgr = seq<nat>

  datatype Token = Style(values: Sgr) | Glyph(text: string, width: int)

  /** The SGR sequences in force, oldest first. */
  type Active = seq<Sgr>

  /** A glyph as it appears: with the active SGR list it is printed under. */
  datatype Cell = Cell(text: string, width: int, style: Active)

  const RESET := Style([0])
  const ELLIPSIS := Glyph("…", 1)

  predicate Valid(tokens: seq<Token>) {
    forall t :: t in tokens ==> (t.Style? ==> t.values != []) && (t.Glyph? ==> t.width >= 0)
  }

  function LastZero(values: Sgr): (i: int)
    ensures -1 <= i < |values|
    ensures i >= 0 ==> values[i] == 0
    ensures forall j :: i < j < |values| ==> values[j] != 0
  {
    if values == [] then -1
    else if values[|values| - 1] == 0 then |values| - 1
    else
      var i := LastZero(values[..|values| - 1]);
      assert forall j :: i < j < |values| - 1 ==> values[..|values| - 1][j] == values[j];
      i
  }

  /** A sequence with a reset keeps only what follows its last reset. */
  function UpdateActive(active: Active, values: Sgr): Active {
    if 0 in values then
      var rest := values[LastZero(values) + 1..];
      if rest == [] then [] else [rest]
    else active + [values]
  }

  /** The active list after printing the tokens. */
  function StyleAfter(active: Active, tokens: seq<Token>): Active {
    if tokens == [] then active
    else
      var before, last := StyleAfter(active, tokens[..|tokens| - 1]), tokens[|tokens| - 1];
      if last.Style? then UpdateActive(before, last.values) else before
  }

  /** The cells printed by the tokens. */
  function Cells(active: Active, tokens: seq<Token>): seq<Cell> {
    if tokens == [] then []
    else
      var init, last := tokens[..|tokens| - 1], tokens[|tokens| - 1];
      if last.Style? then Cells(active, init)
      else Cells(active, init) + [Cell(last.text, last.width, StyleAfter(active, init))]
  }

  function VisibleWidth(tokens: seq<Token>): int {
    if tokens == [] then 0
    else VisibleWidth(tokens[..|tokens| - 1]) + if tokens[|tokens| - 1].Glyph? then tokens[|tokens| - 1].width else 0
  }

  /** The cells of several lines, each printed from a clean state. */
  function CellsOfLines(lines: seq<seq<Token>>): seq<Cell> {
    if lines == [] then [] else CellsOfLines(lines[..|lines| - 1]) + Cells([], lines[|lines| - 1])
  }

  /** No sequence in the list resets. */
  predicate Replayable(active: Active) {
    forall sgr :: sgr in active ==> sgr != [] && 0 !in sgr
  }

  function Replay(active: Active): seq<Token> {
    seq(|active|, i requires 0 <= i < |active| => Style(active[i]))
  }

  /** `active.join("")` on a clean line brings the active list back and prints nothing. */
  lemma {:induction false} ReplayRestores(active: Active)
    requires Replayable(active)
    ensures StyleAfter([], Replay(active)) == active
    ensures Cells([], Replay(active)) == [] && VisibleWidth(Replay(active)) == 0 && Valid(Replay(active))
  {
    if active != [] {
      var init := active[..|active| - 1];
      assert forall sgr :: sgr in init ==> sgr in active;
      ReplayRestores(init);
      assert Replay(active)[..|active| - 1] == Replay(init);
      assert active == init + [active[|active| - 1]];
    }
  }

  lemma UpdateKeepsReplayable(active: Active, values: Sgr)
    requires Replayable(active) && values != []
    ensures Replayable(UpdateActive(active, values))
  {
    hide LastZero;
    if 0 !in values {
      assert forall sgr :: sgr in active + [values] ==> sgr in active || sgr == values;
    }
  }

  /** One more token. */
  lemma PushToken(active: Active, tokens: seq<Token>, t: Token)
    ensures StyleAfter(active, tokens + [t])
         == if t.Style? then UpdateActive(StyleAfter(active, tokens), t.values) else StyleAfter(active, tokens)
    ensures Cells(active, tokens + [t])
         == Cells(active, tokens) + if t.Style? then [] else [Cell(t.text, t.width, StyleAfter(active, tokens))]
    ensures VisibleWidth(tokens + [t]) == VisibleWidth(tokens) + if t.Glyph? then t.width else 0
  {
    assert (tokens + [t])[..|tokens + [t]| - 1] == tokens;
  }

  /** Every SGR parameter printed, in order. */
  function Parameters(tokens: seq<Token>): Sgr {
    if tokens == [] then []
    else
      var last := tokens[|tokens| - 1];
      Parameters(tokens[..|tokens| - 1]) + if last.Style? then last.values else []
  }

  function SinceReset(values: Sgr): Sgr {
    values[LastZero(values) + 1..]
  }

  function Flattened(active: Active): Sgr {
    if active == [] then [] else Flattened(active[..|active| - 1]) + active[|active| - 1]
  }

  lemma SinceResetPush(values: Sgr, value: nat)
    ensures SinceReset(values + [value]) == if value == 0 then [] else SinceReset(values) + [value]
  {
    var all := values + [value];
    assert all[..|all| - 1] == values;
    var k := LastZero(values) + 1;
    assert all[k..] == values[k..] + [value];
  }

  lemma {:induction false} SinceResetAppend(a: Sgr, b: Sgr)
    ensures SinceReset(a + b) == if 0 in b then SinceReset(b) else SinceReset(a) + b
    decreases |b|
  {
    hide LastZero, SinceReset;
    if b == [] {
      EmptyAppend(a);
      EmptyAppend(SinceReset(a));
    } else {
      var init, last := b[..|b| - 1], b[|b| - 1];
      assert b == init + [last];
      SinceResetAppend(a, init);
      SinceResetPush(a + init, last);
      SinceResetPush(init, last);
      AppendAssoc(a, init, [last]);
      AppendAssoc(SinceReset(a), init, [last]);
    }
  }

  /** The active list holds exactly the parameters printed since the last reset, in order. */
  lemma {:induction false} ActiveIsSinceReset(tokens: seq<Token>)
    ensures Flattened(StyleAfter([], tokens)) == SinceReset(Parameters(tokens))
  {
    hide LastZero, UpdateActive, SinceReset;
    if tokens == [] {
      NothingSinceReset();
    } else {
      var init, last := tokens[..|tokens| - 1], tokens[|tokens| - 1];
      ActiveIsSinceReset(init);
      EmptyAppend(Parameters(init));
      if last.Style? {
        SinceResetAppend(Parameters(init), last.values);
        FlattenedUpdate(StyleAfter([], init), last.values);
      }
    }
  }

  lemma NothingSinceReset()
    ensures SinceReset([]) == [] && Flattened([]) == []
  {
  }

  lemma FlattenedUpdate(active: Active, values: Sgr)
    ensures Flattened(UpdateActive(active, values)) == if 0 in values then SinceReset(values) else Flattened(active) + values
  {
    hide LastZero;
    var rest := SinceReset(values);
    assert Flattened([rest]) == rest by {
      var before := [rest][..0];
      assert before == [] && Flattened(before) + rest == rest;
    }
    assert (active + [values])[..|active|] == active;
  }

  // ---------------------------------------------------------------- wrapping

  /** What the wrapper prints for a token: a glyph too wide for the line becomes an ellipsis. */
  function Fitted(t: Token, width: nat): Token {
    if t.Glyph? && t.width > width then ELLIPSIS else t
  }

  function FittedAll(tokens: seq<Token>, width: nat): seq<Token> {
    seq(|tokens|, i requires 0 <= i < |tokens| => Fitted(tokens[i], width))
  }

  predicate AllFit(tokens: seq<Token>, width: nat) {
    forall t :: t in tokens && t.Glyph? ==> t.width <= width
  }

  predicate TooWide(t: Token, width: nat) {
    t.Glyph? && t.width > width
  }

  /** A glyph too wide for a line, and nothing with a width after it. */
  predicate EndsCut(tokens: seq<Token>, width: nat, i: int) {
    && 0 <= i < |tokens| && TooWide(tokens[i], width)
    && forall k :: i < k < |tokens| ==> tokens[k].Style? || tokens[k].width <= 0
  }

  /** Some glyph follows there: it has no line to stand on. */
  ghost predicate LosesEnd(tokens: seq<Token>, width: nat) {
    exists i, j :: EndsCut(tokens, width, i) && i < j < |tokens| && tokens[j].Glyph?
  }

  ghost predicate AfterCut(tokens: seq<Token>, width: nat) {
    exists i :: EndsCut(tokens, width, i)
  }

  /** One more token, by its kind. */
  lemma CutStep(tokens: seq<Token>, t: Token, width: nat)
    requires t.Glyph? ==> t.width >= 0
    ensures AfterCut(tokens + [t], width) <==> TooWide(t, width) || ((t.Style? || t.width == 0) && AfterCut(tokens, width))
    ensures LosesEnd(tokens + [t], width) <==>
      (t.Style? && LosesEnd(tokens, width)) || (t.Glyph? && t.width == 0 && !TooWide(t, width) && AfterCut(tokens, width))
  {
    var n, all := |tokens|, tokens + [t];
    forall i | 0 <= i < n ensures EndsCut(all, width, i) <==> EndsCut(tokens, width, i) && (t.Style? || t.width <= 0) {
      assert forall k :: 0 <= k < n ==> all[k] == tokens[k];
    }
    assert EndsCut(all, width, n) <==> TooWide(t, width);
    if LosesEnd(tokens, width) && t.Style? {
      var i, j :| EndsCut(tokens, width, i) && i < j < n && tokens[j].Glyph?;
      assert EndsCut(all, width, i) && all[j].Glyph?;
    }
    if AfterCut(tokens, width) && t.Glyph? && t.width == 0 {
      var i :| EndsCut(tokens, width, i);
      assert EndsCut(all, width, i) && all[n].Glyph?;
    }
    if AfterCut(tokens, width) && t.Style? {
      var i :| EndsCut(tokens, width, i);
      assert EndsCut(all, width, i);
    }
    if LosesEnd(all, width) {
      var i, j :| EndsCut(all, width, i) && i < j < |all| && all[j].Glyph?;
      assert EndsCut(tokens, width, i);
      assert j < n ==> tokens[j].Glyph?;
    }
  }

  lemma NoCutYet(width: nat)
    ensures !AfterCut([], width) && !LosesEnd([], width)
  {
  }

  lemma {:induction false} CellsFit(active: Active, tokens: seq<Token>, width: nat)
    ensures AllFit(tokens, width) <==> forall c :: c in Cells(active, tokens) ==> c.width <= width
  {
    if tokens != [] {
      var init, last := tokens[..|tokens| - 1], tokens[|tokens| - 1];
      CellsFit(active, init, width);
      assert tokens == init + [last];
      assert last.Glyph? ==>
        Cells(active, tokens) == Cells(active, init) + [Cell(last.text, last.width, StyleAfter(active, init))];
      AllFitPrefix(init, last, width);
    }
  }

  lemma FittedFits(tokens: seq<Token>, width: nat)
    requires width >= 1
    ensures AllFit(FittedAll(tokens, width), width)
    ensures AllFit(tokens, width) ==> FittedAll(tokens, width) == tokens
  {
  }

  /** Lines that print all or all but the end of the fitted cells print the source's exactly if all glyphs fit. */
  lemma SameCellsIffAllFit(source: seq<Token>, width: nat, printed: seq<Cell>, lost: seq<Cell>)
    requires width >= 1 && printed + lost == Cells([], FittedAll(source, width)) && (AllFit(source, width) ==> lost == [])
    ensures printed == Cells([], source) <==> AllFit(source, width)
  {
    hide Cells, AllFit, FittedAll;
    FittedFits(source, width);
    CellsFit([], source, width);
    CellsFit([], FittedAll(source, width), width);
    EmptyAppend(printed);
    assert forall c :: c in printed ==> c in printed + lost;
  }

  /** A line that fits and leaves the terminal as clean as it found it. */
  predicate SelfContained(line: seq<Token>, width: nat) {
    VisibleWidth(line) <= width && StyleAfter([], line) == []
  }

  lemma {:induction false} NoWidthNoCells(active: Active, tokens: seq<Token>)
    requires Valid(tokens)
    ensures VisibleWidth(tokens) >= 0
    ensures VisibleWidth(tokens) == 0 ==> forall c :: c in Cells(active, tokens) ==> c.width == 0
  {
    if tokens != [] {
      var n := |tokens| - 1;
      NoWidthNoCells(active, tokens[..n]);
      assert tokens[n] in tokens;
    }
  }

  // ---------------------------------------------------------------- where lines break

  /** What shows of the tokens, whatever its style. */
  function Shown(tokens: seq<Token>): seq<Token> {
    if tokens == [] then []
    else
      var last := tokens[|tokens| - 1];
      Shown(tokens[..|tokens| - 1]) + if last.Glyph? then [last] else []
  }

  lemma ShownPush(tokens: seq<Token>, t: Token)
    ensures Shown(tokens + [t]) == Shown(tokens) + if t.Glyph? then [t] else []
  {
    assert (tokens + [t])[..|tokens|] == tokens;
  }

  lemma ShownStart()
    ensures Shown([]) == []
  {
  }

  lemma {:induction false} ShownOfReplay(active: Active)
    ensures Shown(Replay(active)) == []
    decreases |active|
  {
    if active != [] {
      var init := active[..|active| - 1];
      ShownOfReplay(init);
      assert Replay(active) == Replay(init) + [Style(active[|active| - 1])];
      ShownPush(Replay(init), Style(active[|active| - 1]));
    }
  }

  /** The cells are what shows, with its styles. */
  lemma {:induction false} ShownIsCells(active: Active, tokens: seq<Token>)
    ensures VisibleWidth(tokens) == VisibleWidth(Shown(tokens)) && |Cells(active, tokens)| == |Shown(tokens)|
    ensures forall i :: 0 <= i < |Shown(tokens)| ==>
      Shown(tokens)[i] == Glyph(Cells(active, tokens)[i].text, Cells(active, tokens)[i].width)
  {
    if tokens != [] {
      var init, last := tokens[..|tokens| - 1], tokens[|tokens| - 1];
      ShownIsCells(active, init);
      assert tokens == init + [last];
      PushToken(active, init, last);
      ShownPush(init, last);
      PushToken([], Shown(init), last);
      assert Shown(init) + [] == Shown(init);
    }
  }

  predicate EndsTooWide(part: seq<Token>, width: nat) {
    part != [] && TooWide(part[|part| - 1], width)
  }

  /**
   After what a line has taken in, the token begins a new one: the line ended with an ellipsis, or it
   shows something and the token is too wide for any line or for what is left of this one.
   */
  predicate MustBreak(part: seq<Token>, t: Token, width: nat) {
    || EndsTooWide(part, width)
    || (t.Glyph? && VisibleWidth(part) > 0 && (TooWide(t, width) || VisibleWidth(part) + t.width > width))
  }

  function JoinedParts(parts: seq<seq<Token>>): seq<Token> {
    if parts == [] then [] else JoinedParts(parts[..|parts| - 1]) + parts[|parts| - 1]
  }

  /** No break inside the part. */
  predicate Unbroken(part: seq<Token>, width: nat) {
    part != [] && forall k :: 0 < k < |part| ==> !MustBreak(part[..k], part[k], width)
  }

  predicate AllUnbroken(parts: seq<seq<Token>>, width: nat) {
    forall i :: 0 <= i < |parts| ==> Unbroken(parts[i], width)
  }

  predicate BreaksBefore(parts: seq<seq<Token>>, j: nat, width: nat)
    requires 0 < j < |parts|
  {
    parts[j] != [] && MustBreak(parts[j - 1], parts[j][0], width)
  }

  predicate BreaksBetween(parts: seq<seq<Token>>, width: nat) {
    forall j :: 0 < j < |parts| ==> BreaksBefore(parts, j, width)
  }

  /** The parts of a text that make up its lines: it breaks where it must and nowhere else. */
  predicate BreaksInto(source: seq<Token>, parts: seq<seq<Token>>, width: nat) {
    JoinedParts(parts) == source && AllUnbroken(parts, width) && BreaksBetween(parts, width)
  }

  /** One more token. */
  function Placed(parts: seq<seq<Token>>, t: Token, width: nat): seq<seq<Token>> {
    var n := |parts| - 1;
    if parts == [] || MustBreak(parts[n], t, width) then parts + [[t]] else parts[..n] + [parts[n] + [t]]
  }

  lemma PlacedBreaks(source: seq<Token>, parts: seq<seq<Token>>, t: Token, width: nat)
    requires BreaksInto(source, parts, width)
    ensures BreaksInto(source + [t], Placed(parts, t, width), width)
  {
    hide MustBreak, Unbroken;
    var n, more := |parts| - 1, Placed(parts, t, width);
    if parts == [] || MustBreak(parts[n], t, width) {
      assert more[..|parts|] == parts;
      OneIsUnbroken(t, width);
    } else {
      assert more[..n] == parts[..n];
      AppendAssoc(JoinedParts(parts[..n]), parts[n], [t]);
      UnbrokenGrows(parts[n], t, width);
    }
    assert JoinedParts(more) == source + [t];
    forall j | 0 < j < |more| ensures BreaksBefore(more, j, width) {
      assert more[j - 1] == parts[j - 1];
      if j < |parts| { assert BreaksBefore(parts, j, width) && more[j][0] == parts[j][0]; }
    }
    forall i | 0 <= i < |more| ensures Unbroken(more[i], width) {
      if i < |more| - 1 { assert more[i] == parts[i]; }
    }
  }

  lemma OneIsUnbroken(t: Token, width: nat)
    ensures Unbroken([t], width)
  {
  }

  lemma UnbrokenGrows(part: seq<Token>, t: Token, width: nat)
    requires Unbroken(part, width) && !MustBreak(part, t, width)
    ensures Unbroken(part + [t], width) && (part + [t])[0] == part[0]
  {
    hide MustBreak;
    var more := part + [t];
    forall k | 0 < k < |more| ensures !MustBreak(more[..k], more[k], width) {
      if k < |part| { assert more[..k] == part[..k]; } else { assert more[..k] == part; }
    }
  }

  lemma {:induction false} JoinedFirst(parts: seq<seq<Token>>)
    requires parts != []
    ensures JoinedParts(parts) == parts[0] + JoinedParts(parts[1..]) && (|parts| == 1 ==> JoinedParts(parts) == parts[0])
    decreases |parts|
  {
    if |parts| > 1 {
      var n := |parts| - 1;
      JoinedFirst(parts[..n]);
      assert parts[..n][1..] == parts[1..][..n - 1] && parts[1..][n - 1] == parts[n];
      AppendAssoc(parts[0], JoinedParts(parts[1..n]), parts[n]);
    } else {
      assert parts[..0] == [] && parts[1..] == [];
      EmptyAppend(parts[0]);
    }
  }

  lemma RestBreaks(source: seq<Token>, parts: seq<seq<Token>>, width: nat)
    requires BreaksInto(source, parts, width) && parts != []
    ensures parts[0] <= source && Unbroken(parts[0], width)
    ensures BreaksInto(source[|parts[0]|..], parts[1..], width)
  {
    hide MustBreak, Unbroken, JoinedParts;
    var rest := parts[1..];
    JoinedFirst(parts);
    assert source == parts[0] + JoinedParts(rest);
    assert source[|parts[0]|..] == JoinedParts(rest);
    forall j | 0 < j < |rest| ensures BreaksBefore(rest, j, width) {
      assert BreaksBefore(parts, j + 1, width) && rest[j - 1] == parts[j] && rest[j] == parts[j + 1];
    }
    forall i | 0 <= i < |rest| ensures Unbroken(rest[i], width) { assert rest[i] == parts[i + 1]; }
  }

  /** Where the first part ends, the text breaks. */
  lemma BreaksAfterFirst(source: seq<Token>, parts: seq<seq<Token>>, width: nat)
    requires BreaksInto(source, parts, width) && parts != [] && |parts[0]| < |source|
    ensures parts[0] <= source && MustBreak(parts[0], source[|parts[0]|], width)
  {
    hide MustBreak, Unbroken;
    JoinedFirst(parts);
    JoinedFirst(parts[1..]);
    assert parts[1..][0] == parts[1] && BreaksBefore(parts, 1, width);
    assert source[|parts[0]|] == JoinedParts(parts[1..])[0] == parts[1][0];
  }

  lemma FirstPartIsLongest(source: seq<Token>, a: seq<seq<Token>>, b: seq<seq<Token>>, width: nat)
    requires BreaksInto(source, a, width) && BreaksInto(source, b, width) && a != [] && b != []
    ensures |a[0]| >= |b[0]|
  {
    hide MustBreak, BreaksInto;
    RestBreaks(source, a, width);
    RestBreaks(source, b, width);
    var k := |a[0]|;
    if k < |b[0]| {
      assert b[0][..k] == source[..k] == a[0] && b[0][k] == source[k] && k > 0;
      BreaksAfterFirst(source, a, width);
    }
  }

  /** There is one way to break a text. */
  lemma {:induction false} BreaksAreUnique(source: seq<Token>, a: seq<seq<Token>>, b: seq<seq<Token>>, width: nat)
    requires BreaksInto(source, a, width) && BreaksInto(source, b, width)
    ensures a == b
    decreases |a|
  {
    hide MustBreak;
    if a != [] { RestBreaks(source, a, width); }
    if b != [] { RestBreaks(source, b, width); }
    if a != [] && b != [] {
      FirstPartIsLongest(source, a, b, width);
      FirstPartIsLongest(source, b, a, width);
      assert a[0] == source[..|a[0]|] == b[0];
      BreaksAreUnique(source[|a[0]|..], a[1..], b[1..], width);
      assert a == [a[0]] + a[1..] && b == [b[0]] + b[1..];
    }
  }

  // ---------------------------------------------------------------- lines and parts

  /** The parts whose lines are finished: all but the one being built. */
  function Finished(parts: seq<seq<Token>>, width: nat): (n: nat)
    ensures n <= |parts| <= n + 1
  {
    if parts == [] || EndsTooWide(parts[|parts| - 1], width) then |parts| else |parts| - 1
  }

  /** Each finished line shows its part, and the line being built shows the rest. */
  predicate Lays(parts: seq<seq<Token>>, result: seq<seq<Token>>, current: seq<Token>, width: nat) {
    && |result| == Finished(parts, width)
    && (forall i :: 0 <= i < |result| ==> Shown(result[i]) == Shown(FittedAll(parts[i], width)))
    && Shown(current) == if |result| == |parts| then [] else Shown(parts[|parts| - 1])
  }

  /** What a text that breaks into `parts` shows, line by line; an end without a width has no line of its own. */
  predicate ShowsParts(lines: seq<seq<Token>>, parts: seq<seq<Token>>, width: nat) {
    var n := |parts|;
    && |lines| == (if n <= 1 then 1 else if EndsTooWide(parts[n - 1], width) || VisibleWidth(parts[n - 1]) > 0 then n else n - 1)
    && forall i :: 0 <= i < |lines| && i < n ==> Shown(lines[i]) == Shown(FittedAll(parts[i], width))
  }

  lemma FittedPush(tokens: seq<Token>, t: Token, width: nat)
    ensures FittedAll(tokens + [t], width) == FittedAll(tokens, width) + [Fitted(t, width)]
    ensures Shown(FittedAll(tokens + [t], width))
         == Shown(FittedAll(tokens, width)) + if t.Glyph? then [Fitted(t, width)] else []
  {
    ShownPush(FittedAll(tokens, width), Fitted(t, width));
    assert FittedAll(tokens + [t], width) == FittedAll(tokens, width) + [Fitted(t, width)];
  }

  lemma FittedNone(width: nat)
    ensures FittedAll([], width) == [] && Shown(FittedAll([], width)) == []
  {
  }

  /** Only the end of a part can be too wide. */
  lemma OnlyEndIsTooWide(part: seq<Token>, k: nat, width: nat)
    requires Unbroken(part, width) && k + 1 < |part|
    ensures !TooWide(part[k], width)
  {
    assert !MustBreak(part[..k + 1], part[k + 1], width);
  }

  lemma OpenPartFits(part: seq<Token>, width: nat)
    requires Unbroken(part, width) && !EndsTooWide(part, width) && width >= 1
    ensures FittedAll(part, width) == part
  {
    forall k | 0 <= k < |part| ensures !TooWide(part[k], width) {
      if k + 1 < |part| { OnlyEndIsTooWide(part, k, width); }
    }
  }

  /** Whether the next token begins a new part, by what the line being built shows. */
  lemma LineDecides(source: seq<Token>, parts: seq<seq<Token>>, result: seq<seq<Token>>, current: seq<Token>, t: Token, width: nat)
    requires width >= 1 && BreaksInto(source, parts, width) && Lays(parts, result, current, width)
    ensures |result| == |parts| ==> VisibleWidth(current) == 0 && (parts == [] || MustBreak(parts[|parts| - 1], t, width))
    ensures |result| < |parts| ==>
      && FittedAll(parts[|result|], width) == parts[|result|] && !EndsTooWide(parts[|result|], width)
      && (MustBreak(parts[|result|], t, width) <==>
            t.Glyph? && VisibleWidth(current) > 0 && (TooWide(t, width) || VisibleWidth(current) + t.width > width))
  {
    hide FittedAll, Shown, VisibleWidth;
    ShownIsCells([], current);
    if |result| < |parts| {
      OpenPartFits(parts[|result|], width);
      ShownIsCells([], parts[|result|]);
    } else {
      EmptyLine();
    }
  }

  /** A token that joins the line being built. */
  lemma JoinLays(source: seq<Token>, parts: seq<seq<Token>>, result: seq<seq<Token>>, current: seq<Token>, t: Token, width: nat)
    requires width >= 1 && BreaksInto(source, parts, width) && Lays(parts, result, current, width) && !TooWide(t, width)
    requires t.Glyph? && VisibleWidth(current) > 0 ==> VisibleWidth(current) + t.width <= width
    ensures Lays(Placed(parts, t, width), result, current + [t], width)
  {
    hide FittedAll, Shown, MustBreak;
    LineDecides(source, parts, result, current, t, width);
    ShownPush(current, t);
    if |result| == |parts| {
      ShownStart();
      ShownPush([], t);
      assert [] + [t] == [t];
    } else {
      ShownPush(parts[|result|], t);
    }
  }

  /** The line being built ends, and a token begins the next one. */
  lemma BreakLays(source: seq<Token>, parts: seq<seq<Token>>, result: seq<seq<Token>>, current: seq<Token>,
                  line: seq<Token>, next: seq<Token>, t: Token, width: nat)
    requires width >= 1 && BreaksInto(source, parts, width) && Lays(parts, result, current, width)
    requires t.Glyph? && VisibleWidth(current) > 0 && !TooWide(t, width) && VisibleWidth(current) + t.width > width
    requires Shown(line) == Shown(current) && Shown(next) == [t]
    ensures Lays(Placed(parts, t, width), result + [line], next, width)
  {
    hide FittedAll, Shown, MustBreak;
    LineDecides(source, parts, result, current, t, width);
    ShownStart();
    ShownPush([], t);
    assert [] + [t] == [t];
  }

  /** A token too wide for any line ends the line being built, if that shows a width, and then its own. */
  lemma WideLays(source: seq<Token>, parts: seq<seq<Token>>, result: seq<seq<Token>>, current: seq<Token>,
                 lines: seq<seq<Token>>, next: seq<Token>, t: Token, width: nat)
    requires width >= 1 && BreaksInto(source, parts, width) && Lays(parts, result, current, width) && TooWide(t, width)
    requires Shown(next) == []
    requires
      if VisibleWidth(current) > 0 then |lines| == 2 && Shown(lines[0]) == Shown(current) && Shown(lines[1]) == [ELLIPSIS]
      else |lines| == 1 && Shown(lines[0]) == Shown(current) + [ELLIPSIS]
    ensures Lays(Placed(parts, t, width), result + lines, next, width)
  {
    hide FittedAll, Shown, MustBreak, BreaksInto, VisibleWidth;
    LineDecides(source, parts, result, current, t, width);
    EllipsisAlone(t, width);
    var more, all := Placed(parts, t, width), result + lines;
    if |result| < |parts| {
      FittedPush(parts[|result|], t, width);
      assert all[|result|] == lines[0];
    }
    forall i | 0 <= i < |result| ensures Shown(all[i]) == Shown(FittedAll(more[i], width)) {
      assert all[i] == result[i] && more[i] == parts[i];
    }
    assert all[|all| - 1] == lines[|lines| - 1];
  }

  lemma EllipsisAlone(t: Token, width: nat)
    requires TooWide(t, width)
    ensures Shown(FittedAll([t], width)) == [ELLIPSIS] && [] + [ELLIPSIS] == [ELLIPSIS]
  {
    FittedNone(width);
    FittedPush([], t, width);
    assert [] + [t] == [t];
  }

  /** The wrapper's state: the finished lines and the line being built. */
  class LineBuilder {
    const width: nat
    var result: seq<seq<Token>>
    var activeSgr: Active
    var current: seq<Token>
    var visible: int
    ghost var parts: seq<seq<Token>>   // the parts of the source that make up the lines

    /** The lines print the tokens read so far, and the current line is where they left off. */
    ghost predicate Printed(tokens: seq<Token>)
      reads this
    {
      && width >= 1 && Valid(current) && Replayable(activeSgr)
      && (forall line :: line in result ==> SelfContained(line, width))
      && CellsOfLines(result) + Cells([], current) == Cells([], tokens)
      && StyleAfter([], current) == StyleAfter([], tokens) == activeSgr
      && VisibleWidth(current) == visible && 0 <= visible <= width
    }

    /** The lines break the source where it must break, and each shows its part of it. */
    ghost predicate Laid(source: seq<Token>)
      reads this
    {
      BreaksInto(source, parts, width) && Lays(parts, result, current, width)
    }

    constructor (width: int)
      ensures Printed([]) && Laid([]) && result == [] && visible == 0 && this.width == if width < 1 then 1 else width
    {
      this.width := if width < 1 then 1 else width;
      result, activeSgr, current, visible, parts := [], [], [], 0, [];
    }

    /** Ends a line that shows something; the next one starts under the same styles. */
    method FinishLine(ghost tokens: seq<Token>)
      requires Printed(tokens)
      modifies `result, `current, `visible
      ensures Printed(tokens) && visible == 0
      ensures
        if old(visible) > 0 then
          && |result| == |old(result)| + 1 && result[..|old(result)|] == old(result)
          && Cells([], current) == [] && Shown(current) == [] && Shown(result[|old(result)|]) == Shown(old(current))
        else result == old(result) && current == old(current)
    {
      if visible <= 0 { return; }
      ShownPush(current, RESET);
      ShownOfReplay(activeSgr);
      var line := if activeSgr != [] then current + [RESET] else current;
      PushToken([], current, RESET);
      ReplayRestores(activeSgr);
      assert (result + [line])[..|result|] == result;
      assert CellsOfLines(result + [line]) == CellsOfLines(result) + Cells([], line);
      result := result + [line];
      current := Replay(activeSgr);
      visible := 0;
    }

    method AddStyle(ghost tokens: seq<Token>, t: Token)
      requires Printed(tokens) && t.Style? && t.values != []
      modifies `activeSgr, `current
      ensures Printed(tokens + [t]) && current == old(current) + [t]
      ensures Cells([], current) == old(Cells([], current))
    {
      PushToken([], current, t);
      PushToken([], tokens, t);
      UpdateKeepsReplayable(activeSgr, t.values);
      current := current + [t];
      activeSgr := UpdateActive(activeSgr, t.values);
    }

    method AddGlyph(ghost tokens: seq<Token>, t: Token)
      requires Printed(tokens) && t.Glyph? && 0 <= t.width && visible + t.width <= width
      modifies `current, `visible
      ensures Printed(tokens + [t]) && visible == old(visible) + t.width && current == old(current) + [t]
      ensures Cells([], current) != []
    {
      hide Cells, StyleAfter, VisibleWidth, CellsOfLines, SelfContained, Replayable;
      PushToken([], current, t);
      PushToken([], tokens, t);
      AppendAssoc(CellsOfLines(result), Cells([], current), [Cell(t.text, t.width, StyleAfter([], current))]);
      current := current + [t];
      visible := visible + t.width;
    }

    /** One token of the source; `tokens` is what the lines print of the `source` so far. */
    method Take(ghost source: seq<Token>, ghost tokens: seq<Token>, t: Token)
      requires Printed(tokens) && Laid(source) && Valid([t])
      modifies this
      ensures Printed(tokens + [Fitted(t, width)]) && Laid(source + [t])
      ensures TooWide(t, width) ==> result != [] && visible == 0 && Cells([], current) == []
      ensures !TooWide(t, width) && t.Glyph? && t.width > 0 ==> visible > 0
      ensures t.Glyph? && t.width == 0 ==> result == old(result) && visible == old(visible) && Cells([], current) != []
      ensures t.Style? ==> result == old(result) && visible == old(visible) && Cells([], current) == old(Cells([], current))
    {
      hide Cells, CellsOfLines, VisibleWidth, StyleAfter, SelfContained, Shown, Lays, Placed, BreaksInto;
      assert t in [t];
      ghost var before, line := result, current;
      PlacedBreaks(source, parts, t, width);
      if t.Style? {
        JoinLays(source, parts, result, current, t, width);
        AddStyle(tokens, t);
      } else if t.width > width {
        FinishLine(tokens);
        ghost var rest := current;
        AddGlyph(tokens, ELLIPSIS);
        ShownPush(rest, ELLIPSIS);
        FinishLine(tokens + [ELLIPSIS]);
        assert result == before + result[|before|..];
        assert [] + [ELLIPSIS] == [ELLIPSIS];
        WideLays(source, parts, before, line, result[|before|..], current, t, width);
      } else if visible > 0 && visible + t.width > width {
        FinishLine(tokens);
        ShownPush(current, t);
        AddGlyph(tokens, t);
        assert [] + [t] == [t];
        assert result == before + [result[|before|]];
        BreakLays(source, parts, before, line, result[|before|], current, t, width);
      } else {
        JoinLays(source, parts, result, current, t, width);
        AddGlyph(tokens, t);
      }
      parts := Placed(parts, t, width);
    }

    /** The last line, and what there was of a line that showed nothing. */
    method Finish(ghost source: seq<Token>, ghost tokens: seq<Token>) returns (lines: seq<seq<Token>>, ghost lost: seq<Cell>)
      requires Printed(tokens) && Laid(source)
      modifies `result, `current, `visible
      ensures lines != [] && CellsOfLines(lines) + lost == Cells([], tokens)
      ensures BreaksInto(source, parts, width) && ShowsParts(lines, parts, width)
      ensures forall c :: c in lost ==> c.width == 0
      ensures lost != [] <==> old(result != [] && visible == 0 && Cells([], current) != [])
      ensures old(result != [] || visible > 0) ==> forall line :: line in lines ==> SelfContained(line, width)
      ensures old(result == [] && visible <= 0) ==> lines == [old(current)] && (SelfContained(lines[0], width) <==> StyleAfter([], tokens) == [])
    {
      hide Cells, VisibleWidth, StyleAfter, BreaksInto, FittedAll, Shown, Lays, ShowsParts;
      ghost var before, line := result, current;
      FinishLine(tokens);
      lines := result;
      lost := Cells([], current);
      NoWidthNoCells([], current);
      if lines == [] {
        lines := [current];
        assert lines[..0] == [] && CellsOfLines(lines) == CellsOfLines([]) + lost;
        assert lost + [] == lost;
        lost := [];
      }
      LastLine(source, parts, before, line, lines, width);
    }
  }

  /** At the end of the text the line being built is one, if it shows a width or there is no other. */
  lemma LastLine(source: seq<Token>, parts: seq<seq<Token>>, result: seq<seq<Token>>, current: seq<Token>,
                 lines: seq<seq<Token>>, width: nat)
    requires width >= 1 && BreaksInto(source, parts, width) && Lays(parts, result, current, width)
    requires
      if VisibleWidth(current) > 0 then
        |lines| == |result| + 1 && lines[..|result|] == result && Shown(lines[|result|]) == Shown(current)
      else lines == if result == [] then [current] else result
    ensures ShowsParts(lines, parts, width)
  {
    hide FittedAll, Shown, MustBreak, BreaksInto, VisibleWidth;
    LineDecides(source, parts, result, current, RESET, width);
    ShownIsCells([], current);
    if |result| < |parts| { ShownIsCells([], parts[|result|]); }
    assert forall i :: 0 <= i < |result| && i < |lines| ==> lines[i] == result[i];
  }

  function LineWidth(width: int): nat {
    if width < 1 then 1 else width
  }

  /**
   Lines no wider than asked, each leaving a clean state, that print the source's cells once, in
   order and under the source's styles if and only if every glyph fits a line.  A glyph that does not
   gives way to an ellipsis; cells are lost exactly when, after the last such glyph, there is some
   glyph but none with a width.  Only a source without any width can give a line, a single one, that
   does not end clean, and does exactly when the source does not.

   The lines show the parts into which the source breaks.  So, where every glyph fits, no line but the
   last has room for what the next one begins with; a source that fits a line is one line; and a line
   that shows an ellipsis for a glyph shows nothing else with a width.
   */
  method WrapAnsiLine(source: seq<Token>, width: int)
    returns (lines: seq<seq<Token>>, ghost lost: seq<Cell>, ghost parts: seq<seq<Token>>)
    requires Valid(source)
    ensures lines != []
    ensures BreaksInto(source, parts, LineWidth(width)) && ShowsParts(lines, parts, LineWidth(width))
    ensures AllFit(source, LineWidth(width)) ==> LinesAreFull(lines, LineWidth(width))
    ensures VisibleWidth(source) <= LineWidth(width) ==> |lines| == 1
    ensures EllipsesAlone(lines, parts, LineWidth(width))
    ensures CellsOfLines(lines) + lost == Cells([], FittedAll(source, LineWidth(width)))
    ensures CellsOfLines(lines) == Cells([], source) <==> AllFit(source, LineWidth(width))
    ensures lost != [] <==> LosesEnd(source, LineWidth(width))
    ensures forall c :: c in lost ==> c.width == 0
    ensures (forall line :: line in lines ==> SelfContained(line, LineWidth(width)))
       <==> VisibleWidth(source) > 0 || StyleAfter([], source) == []
  {
    hide LineBuilder.Printed, LineBuilder.Laid, BreaksInto, ShowsParts, LinesAreFull, EllipsesAlone, Cells, CellsOfLines, VisibleWidth, StyleAfter, SelfContained, AllFit, LosesEnd, AfterCut;
    var builder := new LineBuilder(width);
    ghost var fitted := FittedAll(source, builder.width);
    assert source[..0] == [] && fitted[..0] == [];
    NoCutYet(builder.width);
    EmptyLine();
    for i := 0 to |source|
      invariant builder.width == LineWidth(width)
      invariant fresh(builder) && builder.Printed(fitted[..i]) && builder.Laid(source[..i])
      invariant builder.result != [] || builder.visible > 0 <==> VisibleWidth(source[..i]) > 0
      invariant builder.result != [] && builder.visible <= 0 <==> AfterCut(source[..i], builder.width)
      invariant builder.result != [] && builder.visible <= 0 && Cells([], builder.current) != [] <==> LosesEnd(source[..i], builder.width)
    {
      assert source[i] in source && fitted[..i + 1] == fitted[..i] + [Fitted(source[i], builder.width)];
      assert source[..i + 1] == source[..i] + [source[i]];
      CutStep(source[..i], source[i], builder.width);
      PushToken([], source[..i], source[i]);
      PrefixWidth(source, i);
      builder.Take(source[..i], fitted[..i], source[i]);
    }
    assert source[..|source|] == source && fitted[..|source|] == fitted;
    VisibleIsNotNegative(builder, fitted);
    FittedStyle(source, builder.width);
    lines, lost := builder.Finish(source, fitted);
    parts := builder.parts;
    WideGlyphsStandAlone(source, lines, parts, LineWidth(width));
    if AllFit(source, LineWidth(width)) {
      FitsLosesNothing(source, LineWidth(width));
      FittingLinesAreFull(source, lines, parts, LineWidth(width));
    }
    if VisibleWidth(source) <= LineWidth(width) { FittingSourceIsOneLine(source, lines, parts, LineWidth(width)); }
    SameCellsIffAllFit(source, LineWidth(width), CellsOfLines(lines), lost);
  }

  /** No line but the last has room for what the next one begins with. */
  predicate LinesAreFull(lines: seq<seq<Token>>, width: nat) {
    forall i :: 0 < i < |lines| ==> Cells([], lines[i]) != [] && VisibleWidth(lines[i - 1]) + Cells([], lines[i])[0].width > width
  }

  /** A glyph too wide for a line has one to itself, but for what has no width. */
  predicate EllipsesAlone(lines: seq<seq<Token>>, parts: seq<seq<Token>>, width: nat) {
    forall i, k :: 0 <= i < |lines| && i < |parts| && 0 <= k < |parts[i]| && TooWide(parts[i][k], width) ==>
      k == |parts[i]| - 1 && VisibleWidth(lines[i]) == 1
  }

  lemma WideGlyphsStandAlone(source: seq<Token>, lines: seq<seq<Token>>, parts: seq<seq<Token>>, width: nat)
    requires width >= 1 && Valid(source) && BreaksInto(source, parts, width) && ShowsParts(lines, parts, width)
    ensures EllipsesAlone(lines, parts, width)
  {
    hide VisibleWidth, FittedAll, Shown, MustBreak;
    forall i, k | 0 <= i < |lines| && i < |parts| && 0 <= k < |parts[i]| && TooWide(parts[i][k], width)
      ensures k == |parts[i]| - 1 && VisibleWidth(lines[i]) == 1
    {
      PartIsInSource(parts, i);
      ShownIsCells([], lines[i]);
      ShownIsCells([], FittedAll(parts[i], width));
      WidePartIsOneWide(parts[i], k, width);
    }
  }

  lemma WidePartIsOneWide(part: seq<Token>, k: nat, width: nat)
    requires width >= 1 && Valid(part) && Unbroken(part, width) && k < |part| && TooWide(part[k], width)
    ensures k == |part| - 1 && VisibleWidth(FittedAll(part, width)) == 1
  {
    hide VisibleWidth, FittedAll;
    if k + 1 < |part| { OnlyEndIsTooWide(part, k, width); }
    var before, t := part[..k], part[k];
    assert part == before + [t];
    FittedPush(before, t, width);
    WidthGrows(part, k);
    if k > 0 {
      assert !MustBreak(before, t, width);
      UnbrokenPrefix(part, k, width);
      OpenPartFits(before, width);
    } else {
      FittedNone(width);
    }
    PushToken([], FittedAll(before, width), ELLIPSIS);
    EmptyLine();
  }

  lemma UnbrokenPrefix(part: seq<Token>, k: nat, width: nat)
    requires Unbroken(part, width) && 0 < k <= |part|
    ensures Unbroken(part[..k], width)
  {
    hide MustBreak;
    forall j | 0 < j < k ensures !MustBreak(part[..k][..j], part[..k][j], width) { assert part[..k][..j] == part[..j]; }
  }

  lemma {:induction false} PartIsInSource(parts: seq<seq<Token>>, i: nat)
    requires i < |parts|
    ensures forall t :: t in parts[i] ==> t in JoinedParts(parts)
    decreases |parts|
  {
    var n := |parts| - 1;
    if i < n {
      PartIsInSource(parts[..n], i);
      assert parts[..n][i] == parts[i];
    }
  }

  lemma {:induction false} ShownFirst(part: seq<Token>)
    requires part != [] && part[0].Glyph?
    ensures Shown(part) != [] && Shown(part)[0] == part[0]
    decreases |part|
  {
    if |part| > 1 {
      ShownFirst(part[..|part| - 1]);
    } else {
      ShownStart();
      assert part[..0] == [];
    }
  }

  lemma FittingLinesAreFull(source: seq<Token>, lines: seq<seq<Token>>, parts: seq<seq<Token>>, width: nat)
    requires width >= 1 && BreaksInto(source, parts, width) && ShowsParts(lines, parts, width) && AllFit(source, width)
    ensures LinesAreFull(lines, width)
  {
    hide FittedAll, Shown, Cells, AllUnbroken, VisibleWidth;
    forall i | 0 < i < |lines|
      ensures Cells([], lines[i]) != [] && VisibleWidth(lines[i - 1]) + Cells([], lines[i])[0].width > width
    {
      PartFits(source, parts, i - 1, width);
      PartFits(source, parts, i, width);
      assert BreaksBefore(parts, i, width);
      ShownFirst(parts[i]);
      ShownIsCells([], lines[i - 1]);
      ShownIsCells([], parts[i - 1]);
      ShownIsCells([], lines[i]);
    }
  }

  lemma PartFits(source: seq<Token>, parts: seq<seq<Token>>, i: nat, width: nat)
    requires width >= 1 && JoinedParts(parts) == source && AllFit(source, width) && i < |parts|
    ensures FittedAll(parts[i], width) == parts[i] && !EndsTooWide(parts[i], width)
  {
    PartIsInSource(parts, i);
    FittedFits(parts[i], width);
  }

  lemma {:induction false} WidthOfBoth(a: seq<Token>, b: seq<Token>)
    ensures VisibleWidth(a + b) == VisibleWidth(a) + VisibleWidth(b)
    decreases |b|
  {
    if b == [] {
      EmptyAppend(a);
    } else {
      var n := |b| - 1;
      WidthOfBoth(a, b[..n]);
      AppendAssoc(a, b[..n], [b[n]]);
      assert b == b[..n] + [b[n]];
      PushToken([], a + b[..n], b[n]);
      PushToken([], b[..n], b[n]);
    }
  }

  lemma FittingSourceIsOneLine(source: seq<Token>, lines: seq<seq<Token>>, parts: seq<seq<Token>>, width: nat)
    requires Valid(source) && BreaksInto(source, parts, width) && ShowsParts(lines, parts, width) && VisibleWidth(source) <= width
    ensures |lines| == 1
  {
    hide VisibleWidth;
    if |parts| > 1 {
      JoinedFirst(parts);
      JoinedFirst(parts[1..]);
      assert BreaksBefore(parts, 1, width) && parts[1..][0] == parts[1];
      var k := |parts[0]|;
      assert source[..k] == parts[0] && source[k] == parts[1][0];
      BreakIsTooWide(source, k, width);
    }
  }

  lemma WidthGrows(source: seq<Token>, k: nat)
    requires Valid(source) && k < |source|
    ensures 0 <= VisibleWidth(source[..k])
    ensures VisibleWidth(source[..k]) + (if source[k].Glyph? then source[k].width else 0) <= VisibleWidth(source)
  {
    hide Cells, VisibleWidth;
    var before, t, after := source[..k], source[k], source[k + 1..];
    assert source == before + [t] + after;
    WidthOfBoth(before + [t], after);
    PushToken([], before, t);
    NoWidthNoCells([], before);
    NoWidthNoCells([], after);
  }

  lemma BreakIsTooWide(source: seq<Token>, k: nat, width: nat)
    requires Valid(source) && k < |source| && MustBreak(source[..k], source[k], width)
    ensures VisibleWidth(source) > width
  {
    hide VisibleWidth, Valid;
    WidthGrows(source, k);
    if EndsTooWide(source[..k], width) { WidthGrows(source, k - 1); }
  }

  lemma PrefixWidth(source: seq<Token>, i: nat)
    requires Valid(source) && i <= |source|
    ensures VisibleWidth(source[..i]) >= 0
  {
    NoWidthNoCells([], source[..i]);
  }

  lemma {:induction false} FittedStyle(tokens: seq<Token>, width: nat)
    ensures StyleAfter([], FittedAll(tokens, width)) == StyleAfter([], tokens)
  {
    if tokens != [] {
      var n := |tokens| - 1;
      FittedStyle(tokens[..n], width);
      assert FittedAll(tokens, width)[..n] == FittedAll(tokens[..n], width);
    }
  }

  lemma VisibleIsNotNegative(builder: LineBuilder, tokens: seq<Token>)
    requires builder.Printed(tokens)
    ensures builder.visible >= 0
  {
  }

  lemma FitsLosesNothing(tokens: seq<Token>, width: nat)
    requires AllFit(tokens, width)
    ensures !LosesEnd(tokens, width)
  {
  }

  /** A wide glyph and a combining mark in one column: only an ellipsis is left. */
  method WrapWideGlyphAndMark() returns (lines: seq<seq<Token>>)
    ensures !AllFit([Glyph("漢", 2), Glyph("\U{0301}", 0)], 1)
    ensures CellsOfLines(lines) == [Cell("…", 1, [])]
  {
    hide CellsOfLines, LosesEnd, AllFit, BreaksInto, ShowsParts, LinesAreFull, EllipsesAlone, Cells, FittedAll, VisibleWidth, SelfContained;
    var source := [Glyph("漢", 2), Glyph("\U{0301}", 0)];
    ghost var lost, parts;
    assert LosesEnd(source, 1) && !AllFit(source, 1) by { WideThenMark(source[0], source[1]); }
    lines, lost, parts := WrapAnsiLine(source, 1);
    OnlyEllipsisIsLeft(source[0], source[1], CellsOfLines(lines), lost);
  }

  lemma OnlyEllipsisIsLeft(wide: Token, mark: Token, printed: seq<Cell>, lost: seq<Cell>)
    requires TooWide(wide, 1) && mark.Glyph? && mark.width == 0
    requires printed + lost == Cells([], FittedAll([wide, mark], 1))
    requires lost != [] && forall c :: c in lost ==> c.width == 0
    ensures printed == [Cell("…", 1, [])]
  {
    assert FittedAll([wide, mark], 1) == [ELLIPSIS, mark];
    PushToken([], [], ELLIPSIS);
    PushToken([], [ELLIPSIS], mark);
    assert [] + [ELLIPSIS] == [ELLIPSIS] && [ELLIPSIS] + [mark] == [ELLIPSIS, mark];
    EmptyLine();
    OnlyLastLost(printed, lost, Cell("…", 1, []), Cell(mark.text, 0, []));
  }

  lemma OnlyLastLost(printed: seq<Cell>, lost: seq<Cell>, a: Cell, b: Cell)
    requires printed + lost == [a, b] && lost != [] && a !in lost
    ensures printed == [a]
  {
    assert printed == [] ==> lost == [a, b];
    assert a in [a, b] && |printed| + |lost| == |[a, b]|;
    assert (printed + lost)[..|printed|] == printed;
  }

  lemma WideThenMark(wide: Token, mark: Token)
    requires TooWide(wide, 1) && mark.Glyph? && mark.width == 0
    ensures LosesEnd([wide, mark], 1) && !AllFit([wide, mark], 1)
  {
    var tokens := [wide, mark];
    assert EndsCut(tokens, 1, 0) && tokens[1].Glyph?;
    assert wide in tokens;
  }

  lemma AllFitPrefix(tokens: seq<Token>, t: Token, width: nat)
    ensures AllFit(tokens + [t], width) <==> AllFit(tokens, width) && (t.Glyph? ==> t.width <= width)
  {
    assert forall x :: x in tokens + [t] <==> x in tokens || x == t;
  }

  // ---------------------------------------------------------------- cutting and padding

  lemma {:induction false} CellsPrefix(a: seq<Token>, b: seq<Token>)
    ensures Cells([], a) <= Cells([], a + b)
  {
    if b == [] {
      assert a + b == a;
    } else {
      var n := |b| - 1;
      CellsPrefix(a, b[..n]);
      assert a + b == (a + b[..n]) + [b[n]];
      PushToken([], a + b[..n], b[n]);
    }
  }

  /**
   A line that fits is unchanged.  Any other is cut to its first `kept` cells under their own
   styles, the most that leave room for an ellipsis, and leaves a clean state.
   */
  method TruncateAnsi(line: seq<Token>, width: int) returns (out: seq<Token>, ghost kept: nat)
    requires Valid(line)
    ensures VisibleWidth(out) <= Max(0, width)
    ensures width <= 0 ==> out == []
    ensures width > 0 && VisibleWidth(line) <= width ==> out == line
    ensures width > 0 && VisibleWidth(line) > width ==>
      && StyleAfter([], out) == [] && kept < |Cells([], line)|
      && |Cells([], out)| == kept + 1 && Cells([], out)[..kept] == Cells([], line)[..kept]
      && Cells([], out)[kept] == Cell("…", 1, Cells([], line)[kept].style)
      && VisibleWidth(out) + Cells([], line)[kept].width > width
  {
    hide Cells, StyleAfter, UpdateActive;
    out, kept := [], 0;
    if width <= 0 { return; }
    if VisibleWidth(line) <= width { return line, 0; }
    var target, used := width - 1, 0;
    var activeSgr: Active := [];
    var i := 0;
    assert line[..0] == [] && StyleAfter([], []) == [] by { EmptyLine(); }
    while i < |line|
      invariant 0 <= i <= |line| && out == line[..i] && used == VisibleWidth(out) <= target
      invariant activeSgr == StyleAfter([], out)
    {
      var t := line[i];
      assert t in line && line[..i + 1] == line[..i] + [t];
      PushToken([], out, t);
      if t.Style? {
        activeSgr := UpdateActive(activeSgr, t.values);
      } else {
        if used + t.width > target { break; }
        used := used + t.width;
      }
      out := out + [t];
      i := i + 1;
    }
    assert line[..|line|] == line;
    kept := |Cells([], out)|;
    CutAt(line, i);
    out := out + [ELLIPSIS] + if activeSgr != [] then [RESET] else [];
  }

  /** A line cut before glyph `i`, with an ellipsis and, if need be, a reset. */
  lemma CutAt(line: seq<Token>, i: nat)
    requires Valid(line) && i < |line| && line[i].Glyph?
    ensures
      var init := line[..i];
      var out := init + [ELLIPSIS] + if StyleAfter([], init) != [] then [RESET] else [];
      var kept := |Cells([], init)|;
      && VisibleWidth(out) == VisibleWidth(init) + 1 && StyleAfter([], out) == []
      && kept < |Cells([], line)| && Cells([], line)[..kept] == Cells([], init)
      && Cells([], line)[kept] == Cell(line[i].text, line[i].width, StyleAfter([], init))
      && Cells([], out) == Cells([], init) + [Cell(ELLIPSIS.text, 1, StyleAfter([], init))]
  {
    hide Cells, StyleAfter, VisibleWidth, UpdateActive;
    var init, t := line[..i], line[i];
    assert line == (init + [t]) + line[i + 1..];
    CellsPrefix(init + [t], line[i + 1..]);
    PushToken([], init, t);
    PushToken([], init, ELLIPSIS);
    PushToken([], init + [ELLIPSIS], RESET);
    ResetClears(StyleAfter([], init));
    assert init + [ELLIPSIS] + [] == init + [ELLIPSIS];
  }

  lemma EmptyLine()
    ensures StyleAfter([], []) == [] && Cells([], []) == [] && VisibleWidth([]) == 0
  {
  }

  lemma ResetClears(active: Active)
    ensures UpdateActive(active, [0]) == []
  {
  }

  function Max(a: int, b: int): int { if a < b then b else a }

  const SPACE := Glyph(" ", 1)

  function PadRight(line: seq<Token>, width: int): seq<Token> {
    line + seq(Max(0, width - VisibleWidth(line)), _ => SPACE)
  }

  lemma {:induction false} Spaces(line: seq<Token>, n: nat)
    ensures VisibleWidth(line + seq(n, _ => SPACE)) == VisibleWidth(line) + n
    ensures StyleAfter([], line + seq(n, _ => SPACE)) == StyleAfter([], line)
  {
    if n == 0 {
      assert line + seq(0, _ => SPACE) == line;
    } else {
      Spaces(line, n - 1);
      assert line + seq(n, _ => SPACE) == (line + seq(n - 1, _ => SPACE)) + [SPACE];
      PushToken([], line + seq(n - 1, _ => SPACE), SPACE);
    }
  }

  /** Padding brings a self-contained line that fits to the exact width, still self-contained. */
  lemma PaddedLineFills(line: seq<Token>, width: nat)
    requires Valid(line) && SelfContained(line, width)
    ensures VisibleWidth(PadRight(line, width)) == width && SelfContained(PadRight(line, width), width)
    ensures Valid(PadRight(line, width)) && line <= PadRight(line, width)
    ensures forall t :: t in PadRight(line, width)[|line|..] ==> t == Glyph(" ", 1)
  {
    Spaces(line, width - VisibleWidth(line));
  }
}
