/**
 Painting frames by difference (frontend/terminal-ui/src/screen-painter.js) onto a terminal that
 prints tokens, moves its cursor and wraps late.
 */
module ScreenPainters {
  import opened Sequences
  import opened Wrappers
  import opened AnsiTexts

  type Line = seq<Token>

  // ---------------------------------------------------------------- the terminal

  /** One square of the grid: a glyph or a further column of a wide one, under its styles. */
  datatype Square = Square(text: string, column: int, style: Active)

  const BLANK := Square(" ", 0, [])

  datatype Terminal =
    Terminal(width: nat, height: nat, grid: seq<seq<Square>>, row: int, col: int, style: Active)
  {
    predicate Valid() {
      && width >= 1 && height >= 1 && |grid| == height && (forall r :: r in grid ==> |r| == width)
      && 0 <= row < height && 0 <= col <= width
    }
  }

  predicate Clean(t: Terminal) {
    t.Valid() && t.style == []
  }

  datatype Op = ClearScreen | CursorTo(row: int, column: int) | LineFeed | Print(line: Line) | SyncOn | SyncOff

  function BlankRow(width: nat): seq<Square> {
    seq(width, _ => BLANK)
  }

  function Squares(text: string, width: nat, style: Active): seq<Square> {
    seq(width, k => Square(text, k, style))
  }

  /** Down one line, scrolling at the bottom. */
  function NextRow(t: Terminal): (u: Terminal)
    requires t.Valid()
    ensures u.Valid() && u.width == t.width && u.height == t.height && u.col == 0
  {
    if t.row + 1 < t.height then t.(row := t.row + 1, col := 0)
    else t.(grid := t.grid[1..] + [BlankRow(t.width)], col := 0)
  }

  /** A glyph without width joins the square before the cursor, if there is one. */
  function Combine(t: Terminal, text: string): (u: Terminal)
    requires t.Valid()
    ensures u.Valid() && u.width == t.width && u.height == t.height
  {
    if t.col == 0 then t
    else
      var line := t.grid[t.row];
      var square := line[t.col - 1];
      t.(grid := t.grid[t.row := line[t.col - 1 := square.(text := square.text + text)]])
  }

  /** A glyph that no longer fits on the line goes to the next one. */
  function Put(t: Terminal, text: string, width: nat): (u: Terminal)
    requires t.Valid()
    ensures u.Valid() && u.width == t.width && u.height == t.height
  {
    if width == 0 then Combine(t, text)
    else if width > t.width then t
    else
      var u := if t.col + width > t.width then NextRow(t) else t;
      var line := u.grid[u.row];
      u.(grid := u.grid[u.row := line[..u.col] + Squares(text, width, u.style) + line[u.col + width..]], col := u.col + width)
  }

  function PrintTokens(t: Terminal, tokens: Line): (u: Terminal)
    requires t.Valid()
    ensures u.Valid() && u.width == t.width && u.height == t.height
  {
    if tokens == [] then t
    else
      var before, last := PrintTokens(t, tokens[..|tokens| - 1]), tokens[|tokens| - 1];
      if last.Style? then before.(style := UpdateActive(before.style, last.values))
      else Put(before, last.text, Max(0, last.width))
  }

  function Perform(t: Terminal, op: Op): (u: Terminal)
    requires t.Valid()
    ensures u.Valid() && u.width == t.width && u.height == t.height
  {
    match op
    case ClearScreen => t.(grid := seq(t.height, _ => BlankRow(t.width)), row := 0, col := 0)
    case CursorTo(row, column) =>
      t.(row := Max(0, if row > t.height then t.height - 1 else row - 1),
         col := Max(0, if column > t.width then t.width - 1 else column - 1))
    case LineFeed => NextRow(t)
    case Print(line) => PrintTokens(t, line)
    case SyncOn => t
    case SyncOff => t
  }

  function PerformAll(t: Terminal, ops: seq<Op>): (u: Terminal)
    requires t.Valid()
    ensures u.Valid() && u.width == t.width && u.height == t.height
  {
    if ops == [] then t
    else Perform(PerformAll(t, ops[..|ops| - 1]), ops[|ops| - 1])
  }

  // ---------------------------------------------------------------- lines on the grid

  /** A row with one more glyph. */
  function Extend(row: seq<Square>, text: string, width: nat, style: Active): seq<Square> {
    if width > 0 then row + Squares(text, width, style)
    else if row == [] then []
    else row[|row| - 1 := row[|row| - 1].(text := row[|row| - 1].text + text)]
  }

  /** The squares a line fills when printed from the first column of a clean terminal. */
  function RowOf(tokens: Line): seq<Square> {
    if tokens == [] then []
    else
      var init, last := tokens[..|tokens| - 1], tokens[|tokens| - 1];
      if last.Style? then RowOf(init) else Extend(RowOf(init), last.text, Max(0, last.width), StyleAfter([], init))
  }

  /** A line of exactly the width that leaves a clean state. */
  predicate Exact(line: Line, width: nat) {
    AnsiTexts.Valid(line) && VisibleWidth(line) == width && StyleAfter([], line) == []
  }

  function RowsOf(lines: seq<Line>): seq<seq<Square>> {
    seq(|lines|, i requires 0 <= i < |lines| => RowOf(lines[i]))
  }

  /** The terminal once `row` is printed into its current row. */
  function Filled(t: Terminal, row: seq<Square>, style: Active): (u: Terminal)
    requires t.Valid() && |row| <= t.width
    ensures u.Valid()
  {
    t.(grid := t.grid[t.row := row + t.grid[t.row][|row|..]], col := |row|, style := style)
  }

  lemma PutFills(t: Terminal, row: seq<Square>, style: Active, text: string, width: nat)
    requires t.Valid() && |row| + width <= t.width
    ensures |Extend(row, text, width, style)| == |row| + width
    ensures Put(Filled(t, row, style), text, width) == Filled(t, Extend(row, text, width, style), style)
  {
    var u := Filled(t, row, style);
    var line := u.grid[u.row];
    var row' := Extend(row, text, width, style);
    if width > 0 {
      assert line[..|row|] + Squares(text, width, style) + line[|row| + width..] == row' + t.grid[t.row][|row'|..];
    } else if row != [] {
      var k := |row| - 1;
      assert line[k := line[k].(text := line[k].text + text)] == row' + t.grid[t.row][|row'|..];
    }
  }

  lemma FilledNone(t: Terminal)
    requires t.Valid() && t.col == 0
    ensures Filled(t, [], t.style) == t
  {
    assert [] + t.grid[t.row][0..] == t.grid[t.row];
    assert t.grid[t.row := t.grid[t.row]] == t.grid;
  }

  lemma FilledStyle(t: Terminal, row: seq<Square>, style: Active, style': Active)
    requires t.Valid() && |row| <= t.width
    ensures Filled(t, row, style).(style := style') == Filled(t, row, style') && Filled(t, row, style).style == style
  {
  }

  /** The terminal while a line is printed into row `t.row`. */
  lemma {:induction false} PrintFills(t: Terminal, tokens: Line)
    requires t.Valid() && AnsiTexts.Valid(tokens) && t.col == 0 && t.style == [] && VisibleWidth(tokens) <= t.width
    ensures |RowOf(tokens)| == VisibleWidth(tokens)
    ensures PrintTokens(t, tokens) == Filled(t, RowOf(tokens), StyleAfter([], tokens))
  {
    hide Put, Extend, UpdateActive, Filled;
    if tokens == [] {
      FilledNone(t);
    } else {
      var n := |tokens| - 1;
      assert tokens[n] in tokens;
      assert VisibleWidth(tokens[..n]) <= VisibleWidth(tokens);
      PrintFills(t, tokens[..n]);
      FilledStyle(t, RowOf(tokens[..n]), StyleAfter([], tokens[..n]), StyleAfter([], tokens));
      if tokens[n].Glyph? {
        PutFills(t, RowOf(tokens[..n]), StyleAfter([], tokens[..n]), tokens[n].text, tokens[n].width);
      }
    }
  }

  /** An exact line replaces its row and nothing else. */
  lemma PrintExact(t: Terminal, line: Line)
    requires t.Valid() && t.col == 0 && t.style == [] && Exact(line, t.width)
    ensures |RowOf(line)| == t.width
    ensures PrintTokens(t, line) == t.(grid := t.grid[t.row := RowOf(line)], col := t.width)
  {
    hide RowOf, PrintTokens;
    PrintFills(t, line);
    assert RowOf(line) + t.grid[t.row][t.width..] == RowOf(line);
  }

  predicate AllExact(lines: seq<Line>, width: nat) {
    forall line :: line in lines ==> Exact(line, width)
  }

  lemma {:induction false} PerformConcat(t: Terminal, a: seq<Op>, b: seq<Op>)
    requires t.Valid()
    ensures PerformAll(t, a + b) == PerformAll(PerformAll(t, a), b)
  {
    hide Perform;
    if b == [] {
      assert a + b == a;
    } else {
      var n := |b| - 1;
      PerformConcat(t, a, b[..n]);
      assert (a + b)[..|a + b| - 1] == a + b[..n];
    }
  }

  lemma PerformOne(t: Terminal, op: Op)
    requires t.Valid()
    ensures PerformAll(t, [op]) == Perform(t, op)
  {
    assert [op][..0] == [];
  }

  lemma PerformTwo(t: Terminal, a: Op, b: Op)
    requires t.Valid()
    ensures PerformAll(t, [a, b]) == Perform(Perform(t, a), b)
  {
    assert [a, b] == [a] + [b];
    PerformConcat(t, [a], [b]);
    PerformOne(t, a);
    PerformOne(Perform(t, a), b);
  }

  /** A line printed on the next row, or on a row of its own choosing. */
  lemma FeedAndPrint(t: Terminal, line: Line)
    requires t.Valid() && t.row + 1 < t.height && t.style == [] && Exact(line, t.width)
    ensures PerformAll(t, [LineFeed, Print(line)])
         == t.(grid := t.grid[t.row + 1 := RowOf(line)], row := t.row + 1, col := t.width)
  {
    hide RowOf, PrintTokens, PerformAll, Exact;
    PerformTwo(t, LineFeed, Print(line));
    PrintExact(NextRow(t), line);
  }

  lemma MoveAndPrint(t: Terminal, n: int, line: Line)
    requires t.Valid() && 1 <= n <= t.height && t.style == [] && Exact(line, t.width)
    ensures PerformAll(t, [CursorTo(n, 1), Print(line)])
         == t.(grid := t.grid[n - 1 := RowOf(line)], row := n - 1, col := t.width)
  {
    hide RowOf, PrintTokens, PerformAll, Exact;
    PerformTwo(t, CursorTo(n, 1), Print(line));
    PrintExact(Perform(t, CursorTo(n, 1)), line);
  }

  // ---------------------------------------------------------------- what the painter writes

  /** `lines.join("\n")`. */
  function Joined(lines: seq<Line>): seq<Op> {
    if lines == [] then []
    else
      var n := |lines| - 1;
      Joined(lines[..n]) + (if n == 0 then [Print(lines[n])] else [LineFeed, Print(lines[n])])
  }

  /** The rows among the first `n` that changed. */
  function Changes(previous: seq<Line>, lines: seq<Line>, n: nat): seq<Op>
    requires n <= |lines| == |previous|
  {
    if n == 0 then []
    else Changes(previous, lines, n - 1) + if lines[n - 1] == previous[n - 1] then [] else [CursorTo(n, 1), Print(lines[n - 1])]
  }

  lemma {:induction false} ChangesAreAll(previous: seq<Line>, lines: seq<Line>, n: nat)
    requires n <= |lines| == |previous|
    ensures Changes(previous, lines, n) == [] <==> lines[..n] == previous[..n]
  {
    if n > 0 {
      ChangesAreAll(previous, lines, n - 1);
      assert lines[..n] == lines[..n - 1] + [lines[n - 1]] && previous[..n] == previous[..n - 1] + [previous[n - 1]];
    }
  }

  /** What the painter remembers of the last frame. */
  datatype Memory = Memory(previous: Option<seq<Line>>, width: int, height: int)

  predicate NeedsFullPaint(m: Memory, lines: seq<Line>, width: int, height: int) {
    m.previous.None? || m.width != width || m.height != height || |m.previous.value| != |lines|
  }

  function Committed(ops: seq<Op>, synchronized: bool): seq<Op> {
    if synchronized then [SyncOn] + ops + [SyncOff] else ops
  }

  function PaintOutput(m: Memory, lines: seq<Line>, width: int, height: int, synchronized: bool): seq<Op> {
    if NeedsFullPaint(m, lines, width, height) then Committed([ClearScreen] + Joined(lines), synchronized)
    else
      var changes := Changes(m.previous.value, lines, |lines|);
      if changes == [] then [] else Committed(changes, synchronized)
  }

  /** One more row of the frame over what was there. */
  lemma RowsGrow(grid: seq<seq<Square>>, lines: seq<Line>)
    requires 0 < |lines| <= |grid|
    ensures
      var n := |lines| - 1;
      && |RowsOf(lines[..n])| == n
      && (RowsOf(lines[..n]) + grid[n..])[n := RowOf(lines[n])] == RowsOf(lines) + grid[n + 1..]
      && (n == 0 ==> RowsOf(lines[..n]) + grid[n..] == grid)
  {
    hide RowOf;
  }

  /** The frame, printed line after line from the top. */
  lemma {:induction false} JoinedPaints(t: Terminal, lines: seq<Line>)
    requires t.Valid() && 0 < |lines| <= t.height && AllExact(lines, t.width)
    requires t.row == t.col == 0 && t.style == []
    ensures PerformAll(t, Joined(lines))
         == t.(grid := RowsOf(lines) + t.grid[|lines|..], row := |lines| - 1, col := t.width)
  {
    hide RowOf, RowsOf, PrintTokens, Exact, PerformAll, Perform;
    var n := |lines| - 1;
    var line := lines[n];
    assert line in lines && Exact(line, t.width);
    if n == 0 {
      assert lines[..0] == [] && Joined([]) == [] && [] + [Print(line)] == [Print(line)];
      PerformOne(t, Print(line));
      PerformPrint(t, line);
      RowsGrow(t.grid, lines);
    } else {
      assert forall l :: l in lines[..n] ==> l in lines;
      JoinedPaints(t, lines[..n]);
      var u := PerformAll(t, Joined(lines[..n]));
      PerformConcat(t, Joined(lines[..n]), [LineFeed, Print(line)]);
      FeedAndPrint(u, line);
      RowsGrow(t.grid, lines);
    }
  }

  lemma PerformPrint(t: Terminal, line: Line)
    requires t.Valid() && t.col == 0 && t.style == [] && Exact(line, t.width)
    ensures Perform(t, Print(line)) == t.(grid := t.grid[t.row := RowOf(line)], col := t.width)
  {
    PrintExact(t, line);
  }

  /** The changed ones of the first `n` rows are written; every other row is as it was, whatever it was. */
  predicate Repainted(t: Terminal, u: Terminal, previous: seq<Line>, lines: seq<Line>, n: nat) {
    && |t.grid| == |u.grid| == |lines| == |previous|
    && forall i :: 0 <= i < |lines| ==> u.grid[i] == if i < n && lines[i] != previous[i] then RowOf(lines[i]) else t.grid[i]
  }

  lemma RepaintedStart(t: Terminal, previous: seq<Line>, lines: seq<Line>)
    requires |t.grid| == |lines| == |previous|
    ensures Repainted(t, t, previous, lines, 0)
  {
  }

  lemma RepaintedStep(t: Terminal, u: Terminal, v: Terminal, previous: seq<Line>, lines: seq<Line>, n: nat)
    requires 0 < n <= |lines| && Repainted(t, u, previous, lines, n - 1)
    requires v.grid == if lines[n - 1] == previous[n - 1] then u.grid else u.grid[n - 1 := RowOf(lines[n - 1])]
    ensures Repainted(t, v, previous, lines, n)
  {
    hide RowOf;
  }

  lemma {:induction false} ChangesRepaint(t: Terminal, previous: seq<Line>, lines: seq<Line>, n: nat)
    requires Clean(t) && n <= |lines| == |previous| == t.height && AllExact(lines, t.width)
    ensures
      var u := PerformAll(t, Changes(previous, lines, n));
      Clean(u) && Repainted(t, u, previous, lines, n)
  {
    hide RowOf, PrintTokens, Exact, PerformAll, Perform, Repainted;
    if n == 0 {
      PerformNone(t);
      RepaintedStart(t, previous, lines);
    } else {
      var line := lines[n - 1];
      ChangesRepaint(t, previous, lines, n - 1);
      var before := Changes(previous, lines, n - 1);
      var u := PerformAll(t, before);
      if line == previous[n - 1] {
        EmptyAppend(before);
      } else {
        assert line in lines;
        PerformConcat(t, before, [CursorTo(n, 1), Print(line)]);
        MoveAndPrint(u, n, line);
      }
      RepaintedStep(t, u, PerformAll(t, Changes(previous, lines, n)), previous, lines, n);
    }
  }

  lemma PerformNone(t: Terminal)
    requires t.Valid()
    ensures PerformAll(t, []) == t
  {
  }

  lemma CommittedIsSilent(t: Terminal, ops: seq<Op>, synchronized: bool)
    requires t.Valid()
    ensures PerformAll(t, Committed(ops, synchronized)) == PerformAll(t, ops)
  {
    hide PerformAll;
    if synchronized {
      PerformConcat(t, [SyncOn], ops);
      PerformOne(t, SyncOn);
      PerformConcat(t, [SyncOn] + ops, [SyncOff]);
      PerformOne(PerformAll(t, ops), SyncOff);
    }
  }

  /** A terminal that can is told where a paint begins and ends; a paint that writes nothing tells it nothing. */
  lemma PaintIsMarked(m: Memory, lines: seq<Line>, width: int, height: int, synchronized: bool)
    ensures
      var output := PaintOutput(m, lines, width, height, synchronized);
      var n := |output| - 1;
      && (forall i :: 0 <= i <= n ==> (output[i] == SyncOn <==> synchronized && i == 0))
      && (forall i :: 0 <= i <= n ==> (output[i] == SyncOff <==> synchronized && i == n))
      && (synchronized && output != [] ==> n >= 2)
  {
    hide Joined, Changes;
    if NeedsFullPaint(m, lines, width, height) {
      JoinedWrites(lines);
      var ops := [ClearScreen] + Joined(lines);
      forall op | op in ops ensures Writes(op) { if op !in Joined(lines) { assert op == ClearScreen; } }
      MarkedOnce(ops, synchronized);
    } else {
      ChangesWrite(m.previous.value, lines, |lines|);
      MarkedOnce(Changes(m.previous.value, lines, |lines|), synchronized);
    }
  }

  lemma MarkedOnce(ops: seq<Op>, synchronized: bool)
    requires forall op :: op in ops ==> Writes(op)
    ensures
      var output := Committed(ops, synchronized);
      var n := |output| - 1;
      && (forall i :: 0 <= i <= n ==> (output[i] == SyncOn <==> synchronized && i == 0))
      && (forall i :: 0 <= i <= n ==> (output[i] == SyncOff <==> synchronized && i == n))
      && (synchronized && ops != [] ==> n >= 2)
  {
    var output := Committed(ops, synchronized);
    forall i | 0 <= i < |output| && (!synchronized || 0 < i < |output| - 1) ensures Writes(output[i]) {
      assert output[i] in ops by { assert output[i] == ops[if synchronized then i - 1 else i]; }
    }
  }

  /** An operation that writes. */
  predicate Writes(op: Op) {
    op != SyncOn && op != SyncOff
  }

  lemma {:induction false} JoinedWrites(lines: seq<Line>)
    ensures forall op :: op in Joined(lines) ==> Writes(op)
    decreases |lines|
  {
    if lines != [] { JoinedWrites(lines[..|lines| - 1]); }
  }

  lemma {:induction false} ChangesWrite(previous: seq<Line>, lines: seq<Line>, n: nat)
    requires n <= |lines| == |previous|
    ensures forall op :: op in Changes(previous, lines, n) ==> Writes(op)
    decreases n
  {
    if n > 0 { ChangesWrite(previous, lines, n - 1); }
  }

  // ---------------------------------------------------------------- frames on the terminal

  /** The rows that a partial paint does not write are on the grid already. */
  predicate UnchangedRowsShow(t: Terminal, previous: seq<Line>, lines: seq<Line>)
    requires |lines| == |previous| == |t.grid|
  {
    forall i :: 0 <= i < |lines| && lines[i] == previous[i] ==> t.grid[i] == RowOf(lines[i])
  }

  predicate FrameWillShow(m: Memory, t: Terminal, lines: seq<Line>)
    requires |lines| == |t.grid|
  {
    NeedsFullPaint(m, lines, t.width, t.height) || UnchangedRowsShow(t, m.previous.value, lines)
  }

  /**
   Whatever is remembered and whatever the terminal shows: a paint leaves exactly the frame on the
   grid if and only if it is a full one or the rows it takes for unchanged are there.
   */
  lemma PaintShowsFrame(m: Memory, t: Terminal, lines: seq<Line>, synchronized: bool)
    requires Clean(t) && |lines| == t.height && AllExact(lines, t.width)
    ensures
      var u := PerformAll(t, PaintOutput(m, lines, t.width, t.height, synchronized));
      Clean(u) && (u.grid == RowsOf(lines) <==> FrameWillShow(m, t, lines))
  {
    hide RowOf, PerformAll, Exact, Perform, Joined;
    if NeedsFullPaint(m, lines, t.width, t.height) {
      PerformOne(t, ClearScreen);
      var u := Cleared(t);
      ClearedIsBlank(t);
      JoinedPaints(u, lines);
      PerformConcat(t, [ClearScreen], Joined(lines));
      CommittedIsSilent(t, [ClearScreen] + Joined(lines), synchronized);
      assert RowsOf(lines) + u.grid[|lines|..] == RowsOf(lines);
    } else {
      var previous := m.previous.value;
      ChangesRepaint(t, previous, lines, |lines|);
      CommittedIsSilent(t, Changes(previous, lines, |lines|), synchronized);
      PerformNone(t);
      GridIsFrame(t, PerformAll(t, Changes(previous, lines, |lines|)), previous, lines);
    }
  }

  function Cleared(t: Terminal): (u: Terminal)
    requires t.Valid()
  {
    Perform(t, ClearScreen)
  }

  lemma ClearedIsBlank(t: Terminal)
    requires Clean(t)
    ensures Cleared(t).Valid() && Cleared(t).row == Cleared(t).col == 0 && Cleared(t).style == []
    ensures Cleared(t).width == t.width && Cleared(t).height == t.height
  {
  }

  lemma GridIsFrame(t: Terminal, u: Terminal, previous: seq<Line>, lines: seq<Line>)
    requires t.Valid() && u.Valid() && u.height == t.height == |lines| == |previous|
    requires Repainted(t, u, previous, lines, |lines|)
    ensures u.grid == RowsOf(lines) <==> UnchangedRowsShow(t, previous, lines)
  {
    hide RowOf;
    if UnchangedRowsShow(t, previous, lines) {
      assert forall i :: 0 <= i < |lines| ==> u.grid[i] == RowsOf(lines)[i];
    } else {
      var i :| 0 <= i < |lines| && lines[i] == previous[i] && t.grid[i] != RowOf(lines[i]);
      assert u.grid[i] != RowsOf(lines)[i];
    }
  }

  // ---------------------------------------------------------------- runs

  /** What happens between painter and terminal. */
  datatype Event = Paint(lines: seq<Line>) | Reset | Resize(terminal: Terminal)

  /** Frames fill the terminal; a resize leaves a clean terminal of any size that shows anything. */
  predicate Legal(t: Terminal, event: Event) {
    match event
    case Paint(lines) => |lines| == t.height && AllExact(lines, t.width)
    case Reset => true
    case Resize(u) => Clean(u)
  }

  function Next(m: Memory, t: Terminal, event: Event, synchronized: bool): (Memory, Terminal)
    requires Clean(t) && Legal(t, event)
  {
    match event
    case Paint(lines) =>
      (Memory(Some(lines), t.width, t.height), PerformAll(t, PaintOutput(m, lines, t.width, t.height, synchronized)))
    case Reset => (Memory(None, 0, 0), t)
    case Resize(u) => (m, u)
  }

  lemma StepStaysClean(m: Memory, t: Terminal, event: Event, synchronized: bool)
    requires Clean(t) && Legal(t, event)
    ensures Clean(Next(m, t, event, synchronized).1)
  {
    hide RowOf, PerformAll, AllExact, PaintOutput;
    if event.Paint? { PaintShowsFrame(m, t, event.lines, synchronized); }
  }

  ghost predicate LegalRun(m: Memory, t: Terminal, events: seq<Event>, synchronized: bool)
    requires Clean(t)
    decreases |events|
  {
    events == [] ||
    (Legal(t, events[0]) &&
     (StepStaysClean(m, t, events[0], synchronized);
      var (m', t') := Next(m, t, events[0], synchronized);
      LegalRun(m', t', events[1..], synchronized)))
  }

  ghost function RunAll(m: Memory, t: Terminal, events: seq<Event>, synchronized: bool): (Memory, Terminal)
    requires Clean(t) && LegalRun(m, t, events, synchronized)
    decreases |events|
  {
    if events == [] then (m, t)
    else
      StepStaysClean(m, t, events[0], synchronized);
      var (m', t') := Next(m, t, events[0], synchronized);
      RunAll(m', t', events[1..], synchronized)
  }

  lemma {:induction false} RunStaysClean(m: Memory, t: Terminal, events: seq<Event>, synchronized: bool)
    requires Clean(t) && LegalRun(m, t, events, synchronized)
    ensures Clean(RunAll(m, t, events, synchronized).1)
    decreases |events|
  {
    hide Clean, Legal, Next;
    if events != [] {
      StepStaysClean(m, t, events[0], synchronized);
      var (m', t') := Next(m, t, events[0], synchronized);
      RunStaysClean(m', t', events[1..], synchronized);
    }
  }

  /**
   After any run of paints, resets and resizes, the next frame is shown, cell for cell, if and only
   if it is painted in full or the rows taken for unchanged are on the grid.
   */
  lemma RunShowsLastFrame(m: Memory, t: Terminal, events: seq<Event>, lines: seq<Line>, synchronized: bool)
    requires Clean(t) && LegalRun(m, t, events, synchronized) && Legal(RunAll(m, t, events, synchronized).1, Paint(lines))
    ensures
      var (m', t') := RunAll(m, t, events, synchronized);
      && Clean(t')
      && (Next(m', t', Paint(lines), synchronized).1.grid == RowsOf(lines) <==> FrameWillShow(m', t', lines))
  {
    hide RowOf, PerformAll, AllExact, PaintOutput, LegalRun, RunAll;
    RunStaysClean(m, t, events, synchronized);
    var (m', t') := RunAll(m, t, events, synchronized);
    PaintShowsFrame(m', t', lines, synchronized);
  }

  /** If the terminal has the remembered size, it shows the remembered frame. */
  predicate Agrees(m: Memory, t: Terminal) {
    m.previous.Some? && m.width == t.width && m.height == t.height && t.Valid() ==> t.grid == RowsOf(m.previous.value)
  }

  /** A resize is noticed when the size differs from the remembered one, or nothing was lost. */
  predicate Noticed(m: Memory, event: Event) {
    event.Resize? ==> Agrees(m, event.terminal)
  }

  /** One step keeps the memory true of the terminal if and only if a resize, if it is one, is noticed. */
  lemma StepAgrees(m: Memory, t: Terminal, event: Event, synchronized: bool)
    requires Clean(t) && Agrees(m, t) && Legal(t, event)
    ensures
      var (m', t') := Next(m, t, event, synchronized);
      && (Agrees(m', t') <==> Noticed(m, event))
      && (event.Paint? ==> t'.grid == RowsOf(event.lines))
  {
    hide RowOf, PerformAll, AllExact, PaintOutput;
    if event.Paint? {
      PaintShowsFrame(m, t, event.lines, synchronized);
      AgreeingShows(m, t, event.lines);
    }
  }

  lemma AgreeingShows(m: Memory, t: Terminal, lines: seq<Line>)
    requires Agrees(m, t) && t.Valid() && |lines| == t.height
    ensures FrameWillShow(m, t, lines)
  {
    hide RowOf;
  }

  /** Every frame painted in the run is the one shown, cell for cell, right after its paint. */
  ghost predicate AllShown(m: Memory, t: Terminal, events: seq<Event>, synchronized: bool)
    requires Clean(t) && LegalRun(m, t, events, synchronized)
    decreases |events|
  {
    events == [] ||
    (StepStaysClean(m, t, events[0], synchronized);
     var (m', t') := Next(m, t, events[0], synchronized);
     (events[0].Paint? ==> t'.grid == RowsOf(events[0].lines)) && AllShown(m', t', events[1..], synchronized))
  }

  /** At every paint of the run the frame is painted in full, or what it takes for unchanged is there. */
  ghost predicate AllWillShow(m: Memory, t: Terminal, events: seq<Event>, synchronized: bool)
    requires Clean(t) && LegalRun(m, t, events, synchronized)
    decreases |events|
  {
    events == [] ||
    (StepStaysClean(m, t, events[0], synchronized);
     var (m', t') := Next(m, t, events[0], synchronized);
     (events[0].Paint? ==> FrameWillShow(m, t, events[0].lines)) && AllWillShow(m', t', events[1..], synchronized))
  }

  /**
   Whatever paints, resets and resizes a run is made of, every frame painted is shown if and only if
   each paint is a full one or finds on the grid the rows it takes for unchanged.
   */
  lemma {:induction false} FramesShownIffNoneIsMissed(m: Memory, t: Terminal, events: seq<Event>, synchronized: bool)
    requires Clean(t) && LegalRun(m, t, events, synchronized)
    ensures AllShown(m, t, events, synchronized) <==> AllWillShow(m, t, events, synchronized)
    decreases |events|
  {
    hide RowOf, RowsOf, PerformAll, Exact, PaintOutput, AllExact, FrameWillShow, Clean;
    if events != [] {
      StepStaysClean(m, t, events[0], synchronized);
      if events[0].Paint? { PaintShowsFrame(m, t, events[0].lines, synchronized); }
      var (m', t') := Next(m, t, events[0], synchronized);
      FramesShownIffNoneIsMissed(m', t', events[1..], synchronized);
    }
  }

  ghost predicate AgreesThroughout(m: Memory, t: Terminal, events: seq<Event>, synchronized: bool)
    requires Clean(t) && LegalRun(m, t, events, synchronized)
    decreases |events|
  {
    Agrees(m, t) &&
    (events == [] ||
     (StepStaysClean(m, t, events[0], synchronized);
      var (m', t') := Next(m, t, events[0], synchronized);
      AgreesThroughout(m', t', events[1..], synchronized)))
  }

  ghost predicate AllNoticed(m: Memory, t: Terminal, events: seq<Event>, synchronized: bool)
    requires Clean(t) && LegalRun(m, t, events, synchronized)
    decreases |events|
  {
    events == [] ||
    (Noticed(m, events[0]) &&
     (StepStaysClean(m, t, events[0], synchronized);
      var (m', t') := Next(m, t, events[0], synchronized);
      AllNoticed(m', t', events[1..], synchronized)))
  }

  /**
   What is remembered stays true of the terminal throughout a run if and only if every resize is
   noticed; and then every frame painted is shown.
   */
  lemma {:induction false} MemoryIsTrueIffAllNoticed(m: Memory, t: Terminal, events: seq<Event>, synchronized: bool)
    requires Clean(t) && Agrees(m, t) && LegalRun(m, t, events, synchronized)
    ensures AgreesThroughout(m, t, events, synchronized) <==> AllNoticed(m, t, events, synchronized)
    ensures AllNoticed(m, t, events, synchronized) ==> AllShown(m, t, events, synchronized)
    decreases |events|
  {
    hide RowOf, RowsOf, PerformAll, Exact, PaintOutput, AllExact, Agrees, Clean, Noticed;
    if events != [] {
      StepStaysClean(m, t, events[0], synchronized);
      StepAgrees(m, t, events[0], synchronized);
      var (m', t') := Next(m, t, events[0], synchronized);
      if Agrees(m', t') { MemoryIsTrueIffAllNoticed(m', t', events[1..], synchronized); }
    }
  }

  /**
   A terminal resized away and back between two paints of a frame: the second one writes nothing,
   and what the terminal put on the grid stays.
   */
  lemma ResizeBackIsMissed(m: Memory, t: Terminal, frame: seq<Line>, away: Terminal, back: Terminal, synchronized: bool)
    requires Clean(t) && Legal(t, Paint(frame)) && Clean(away) && Clean(back)
    requires back.width == t.width && back.height == t.height && back.grid != RowsOf(frame)
    ensures
      var events := [Paint(frame), Resize(away), Resize(back), Paint(frame)];
      LegalRun(m, t, events, synchronized) && RunAll(m, t, events, synchronized).1 == back
  {
    hide AllExact, PerformAll, RowsOf, RowOf;
    var events := [Paint(frame), Resize(away), Resize(back), Paint(frame)];
    var r1, r2, r3 := events[1..], events[1..][1..], events[1..][1..][1..];
    assert r1[0] == Resize(away) && r2[0] == Resize(back) && r3 == [Paint(frame)] && r3[1..] == [];
    var seen := Memory(Some(frame), t.width, t.height);
    StepStaysClean(m, t, Paint(frame), synchronized);
    var u := Next(m, t, Paint(frame), synchronized).1;
    ChangesAreAll(frame, frame, |frame|);
    PerformNone(back);
    assert Next(seen, back, Paint(frame), synchronized) == (seen, back);
    assert LegalRun(seen, back, r3, synchronized) && RunAll(seen, back, r3, synchronized) == (seen, back);
    assert LegalRun(seen, away, r2, synchronized) && RunAll(seen, away, r2, synchronized) == (seen, back);
    assert LegalRun(seen, u, r1, synchronized) && RunAll(seen, u, r1, synchronized) == (seen, back);
  }

  // ---------------------------------------------------------------- the painter

  datatype Mode = Full | Diff | Unchanged

  datatype Outcome = Rejected | Painted(mode: Mode, changedRows: nat, written: bool)

  class ScreenPainter {
    const synchronizedOutput: bool
    var previous: Option<seq<Line>>
    var previousWidth: int
    var previousHeight: int

    function Memorized(): Memory
      reads this
    {
      Memory(previous, previousWidth, previousHeight)
    }

    constructor (synchronizedOutput: bool)
      ensures this.synchronizedOutput == synchronizedOutput && previous == None
    {
      this.synchronizedOutput := synchronizedOutput;
      previous, previousWidth, previousHeight := None, 0, 0;
    }

    method ResetFrame()
      modifies this
      ensures Memorized() == Memory(None, 0, 0)
    {
      previous, previousWidth, previousHeight := None, 0, 0;
    }

    /** Rejects a frame of the wrong size; else writes what `PaintOutput` says and remembers the frame. */
    method PaintFrame(lines: seq<Line>, width: int, height: int) returns (outcome: Outcome, output: seq<Op>)
      modifies this
      ensures outcome == Rejected <==> width < 1 || height < 1 || |lines| != height
      ensures outcome == Rejected ==> Memorized() == old(Memorized()) && output == []
      ensures outcome != Rejected ==>
        && output == PaintOutput(old(Memorized()), lines, width, height, synchronizedOutput)
        && Memorized() == Memory(Some(lines), width, height)
        && (outcome.written <==> output != [])
        && (outcome.mode == Full <==> old(previous).None? || old(previousWidth) != width || old(previousHeight) != height
                                      || |old(previous).value| != |lines|)
        && (outcome.mode == Unchanged <==> old(Memorized()) == Memory(Some(lines), width, height))
    {
      output := [];
      if width < 1 || height < 1 || |lines| != height { return Rejected, []; }
      if previous.None? || previousWidth != width || previousHeight != height || |previous.value| != |lines| {
        output := Committed([ClearScreen] + Joined(lines), synchronizedOutput);
        previous, previousWidth, previousHeight := Some(lines), width, height;
        return Painted(Full, |lines|, true), output;
      }
      var changes: seq<Op> := [];
      var changedRows := 0;
      var index := 0;
      while index < |lines|
        invariant 0 <= index <= |lines| && changes == Changes(previous.value, lines, index)
        invariant Memorized() == old(Memorized())
      {
        index := index + 1;
        if lines[index - 1] == previous.value[index - 1] { continue; }
        changes := changes + [CursorTo(index, 1), Print(lines[index - 1])];
        changedRows := changedRows + 1;
      }
      ChangesAreAll(previous.value, lines, |lines|);
      assert lines[..|lines|] == lines && previous.value[..|lines|] == previous.value;
      if changes == [] { return Painted(Unchanged, 0, false), []; }
      output := Committed(changes, synchronizedOutput);
      previous, previousWidth, previousHeight := Some(lines), width, height;
      outcome := Painted(Diff, changedRows, true);
    }
  }
}
