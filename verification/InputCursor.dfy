/**
 The composer's text, cursor and history (frontend/terminal-ui/src/input-buffer.js).
 Text is a list of grapheme clusters; a line break is a cluster of its own.
 */
module InputCursors {
  import opened Wrappers

  datatype Grapheme = NewLine | Cluster(text: string)

  type Text = seq<Grapheme>

  // ---------------------------------------------------------------- lines and locations

  /** The text split at its line breaks. */
  function Lines(text: Text): (r: seq<Text>)
    ensures r != []
    decreases |text|
  {
    if text == [] then [[]]
    else
      var before, last := Lines(text[..|text| - 1]), text[|text| - 1];
      if last == NewLine then before + [[]] else before[|before| - 1 := before[|before| - 1] + [last]]
  }

  datatype Location = Location(line: int, column: int)

  /** The location just after some text. */
  function LocationAfter(before: Text): (r: Location)
    ensures r.line >= 0 && r.column >= 0
    decreases |before|
  {
    if before == [] then Location(0, 0)
    else
      var l := LocationAfter(before[..|before| - 1]);
      if before[|before| - 1] == NewLine then Location(l.line + 1, 0) else Location(l.line, l.column + 1)
  }

  function LineOffset(lines: seq<Text>, line: int): int
    requires 0 <= line <= |lines|
    decreases line
  {
    if line == 0 then 0 else LineOffset(lines, line - 1) + |lines[line - 1]| + 1
  }

  function Min(a: int, b: int): int {
    if a < b then a else b
  }

  function ClampCursor(text: Text, cursor: int): (r: int)
    ensures 0 <= r <= |text| && (0 <= cursor <= |text| ==> r == cursor)
  {
    if cursor < 0 then 0 else Min(|text|, cursor)
  }

  /** Two lists of lines that agree up to a line have it at the same offset. */
  lemma {:induction false} OffsetOfCommonLines(a: seq<Text>, b: seq<Text>, line: int)
    requires 0 <= line <= |a| && line <= |b| && forall i :: 0 <= i < line ==> |a[i]| == |b[i]|
    ensures LineOffset(a, line) == LineOffset(b, line)
    decreases line
  {
    if line > 0 { OffsetOfCommonLines(a, b, line - 1); }
  }

  /** The location after all of the text is the end of its last line. */
  lemma {:induction false} LocationAtEnd(text: Text)
    ensures
      var lines := Lines(text);
      && LocationAfter(text) == Location(|lines| - 1, |lines[|lines| - 1]|)
      && LineOffset(lines, |lines| - 1) + |lines[|lines| - 1]| == |text|
    decreases |text|
  {
    if text != [] {
      var before, lines := Lines(text[..|text| - 1]), Lines(text);
      LocationAtEnd(text[..|text| - 1]);
      OffsetOfCommonLines(before, lines, |before| - 1);
    }
  }

  /** The lines of a prefix: those of the text, the last one cut short. */
  predicate LinesCut(part: seq<Text>, lines: seq<Text>) {
    && 1 <= |part| <= |lines|
    && (forall i :: 0 <= i < |part| - 1 ==> part[i] == lines[i])
    && |part[|part| - 1]| <= |lines[|part| - 1]|
  }

  lemma {:induction false} PrefixLines(text: Text, cursor: int)
    requires 0 <= cursor <= |text|
    ensures LinesCut(Lines(text[..cursor]), Lines(text))
    decreases |text|
  {
    if cursor == |text| {
      assert text[..cursor] == text;
    } else {
      var before := text[..|text| - 1];
      PrefixLines(before, cursor);
      assert before[..cursor] == text[..cursor];
    }
  }

  /** A location's line offset and column give the cursor back. */
  lemma LocationGivesCursor(text: Text, cursor: int)
    requires 0 <= cursor <= |text|
    ensures
      var lines, l := Lines(text), LocationAfter(text[..cursor]);
      0 <= l.line < |lines| && l.column <= |lines[l.line]| && LineOffset(lines, l.line) + l.column == cursor
  {
    PrefixLines(text, cursor);
    LocationAtEnd(text[..cursor]);
    var part := Lines(text[..cursor]);
    OffsetOfCommonLines(part, Lines(text), |part| - 1);
  }

  lemma {:induction false} OffsetsGrow(lines: seq<Text>, a: int, b: int)
    requires 0 <= a < b <= |lines|
    ensures LineOffset(lines, a) + |lines[a]| < LineOffset(lines, b)
    decreases b
  {
    if a < b - 1 { OffsetsGrow(lines, a, b - 1); }
  }

  lemma AllLinesMakeText(text: Text)
    ensures LineOffset(Lines(text), |Lines(text)|) == |text| + 1
  {
    LocationAtEnd(text);
  }

  /** Every line and column within it is the location of exactly the cursor it gives. */
  lemma CursorGivesLocation(text: Text, line: int, column: int)
    requires 0 <= line < |Lines(text)| && 0 <= column <= |Lines(text)[line]|
    ensures
      var cursor := LineOffset(Lines(text), line) + column;
      0 <= cursor <= |text| && LocationAfter(text[..cursor]) == Location(line, column)
  {
    var lines := Lines(text);
    var cursor := LineOffset(lines, line) + column;
    AllLinesMakeText(text);
    OffsetsGrow(lines, line, |lines|);
    OffsetsAreNotNegative(lines, line);
    LocationGivesCursor(text, cursor);
    var l := LocationAfter(text[..cursor]);
    if l.line < line { OffsetsGrow(lines, l.line, line); }
    if line < l.line { OffsetsGrow(lines, line, l.line); }
  }

  lemma {:induction false} OffsetsAreNotNegative(lines: seq<Text>, line: int)
    requires 0 <= line <= |lines|
    ensures LineOffset(lines, line) >= 0
    decreases line
  {
    if line > 0 { OffsetsAreNotNegative(lines, line - 1); }
  }

  /** How many line breaks a text has. */
  function LineBreaks(text: Text): (n: nat)
    ensures n > 0 <==> NewLine in text
    decreases |text|
  {
    if text == [] then 0 else LineBreaks(text[..|text| - 1]) + if text[|text| - 1] == NewLine then 1 else 0
  }

  lemma {:induction false} LineBreaksOfBoth(a: Text, b: Text)
    ensures LineBreaks(a + b) == LineBreaks(a) + LineBreaks(b)
    decreases |b|
  {
    if b == [] {
      assert a + b == a;
    } else {
      LineBreaksOfBoth(a, b[..|b| - 1]);
      assert (a + b)[..|a + b| - 1] == a + b[..|b| - 1];
    }
  }

  /** The lines of a text, with a line break between each two, are the text. */
  function Joined(lines: seq<Text>): Text
    decreases |lines|
  {
    if lines == [] then []
    else if |lines| == 1 then lines[0]
    else Joined(lines[..|lines| - 1]) + [NewLine] + lines[|lines| - 1]
  }

  lemma {:induction false} LinesMakeText(text: Text)
    ensures Joined(Lines(text)) == text && forall i :: 0 <= i < |Lines(text)| ==> NewLine !in Lines(text)[i]
    decreases |text|
  {
    if text != [] {
      var n := |text| - 1;
      var before, lines := Lines(text[..n]), Lines(text);
      var k := |before| - 1;
      LinesMakeText(text[..n]);
      assert text == text[..n] + [text[n]];
      if text[n] == NewLine {
        assert lines[..k + 1] == before;
      } else {
        assert lines[..k] == before[..k] && lines[k] == before[k] + [text[n]];
        if k > 0 { assert Joined(before[..k]) + [NewLine] + lines[k] == (Joined(before[..k]) + [NewLine] + before[k]) + [text[n]]; }
      }
    }
  }

  /** A location counts the line breaks before it, and what comes after the last of them. */
  lemma {:induction false} LocationCounts(before: Text)
    ensures
      var l, n := LocationAfter(before), |before|;
      && l.line == LineBreaks(before) && l.column <= n && NewLine !in before[n - l.column..]
      && (l.column < n ==> before[n - l.column - 1] == NewLine)
    decreases |before|
  {
    if before != [] {
      var n := |before| - 1;
      LocationCounts(before[..n]);
      var column := LocationAfter(before[..n]).column;
      if before[n] != NewLine { assert before[n - column..] == before[..n][n - column..] + [before[n]]; }
    }
  }

  lemma {:induction false} LinesCount(text: Text)
    ensures |Lines(text)| == LineBreaks(text) + 1
    decreases |text|
  {
    if text != [] { LinesCount(text[..|text| - 1]); }
  }

  // ---------------------------------------------------------------- the buffer's operations

  datatype Buffer = Buffer(
    input: Text, cursor: int, preferred: Option<int>, history: seq<Text>, historyCursor: Option<int>, draft: Text)

  datatype Move = MoveLeft | MoveRight | MoveHome | MoveEnd

  datatype Vertical = MoveUp | MoveDown

  function CursorOf(b: Buffer): (r: int)
    ensures 0 <= r <= |b.input|
  {
    ClampCursor(b.input, b.cursor)
  }

  function LocationOf(b: Buffer): Location {
    LocationAfter(b.input[..CursorOf(b)])
  }

  function SetText(b: Buffer, text: Text, cursor: Option<int>): Buffer {
    b.(input := text, cursor := ClampCursor(text, if cursor.Some? then cursor.value else |text|), preferred := None)
  }

  /** An edit ends the walk through the history and forgets the preferred column. */
  function Edited(b: Buffer, text: Text, cursor: int): Buffer {
    Buffer(text, cursor, None, b.history, None, [])
  }

  function Insert(b: Buffer, text: Text): Buffer {
    var c := CursorOf(b);
    Edited(b, b.input[..c] + text + b.input[c..], c + |text|)
  }

  function Backspace(b: Buffer): Buffer {
    var c := CursorOf(b);
    if c == 0 then Edited(b, b.input, b.cursor) else Edited(b, b.input[..c - 1] + b.input[c..], c - 1)
  }

  function DeleteForward(b: Buffer): Buffer {
    var c := CursorOf(b);
    if c == |b.input| then Edited(b, b.input, b.cursor) else Edited(b, b.input[..c] + b.input[c + 1..], c)
  }

  function MoveCursor(b: Buffer, move: Move): Buffer {
    var c := CursorOf(b);
    b.(preferred := None,
       cursor := match move
         case MoveLeft => ClampCursor(b.input, c - 1)
         case MoveRight => ClampCursor(b.input, c + 1)
         case MoveHome => 0
         case MoveEnd => |b.input|)
  }

  function TargetLine(b: Buffer, direction: Vertical): int {
    LocationOf(b).line + if direction == MoveUp then -1 else 1
  }

  predicate CanMove(b: Buffer, direction: Vertical) {
    0 <= TargetLine(b, direction) < |Lines(b.input)|
  }

  function PreferredColumn(b: Buffer): int {
    if b.preferred.Some? then b.preferred.value else LocationOf(b).column
  }

  function MoveVertical(b: Buffer, direction: Vertical): Buffer {
    if !CanMove(b, direction) then b
    else
      var lines, target := Lines(b.input), TargetLine(b, direction);
      b.(preferred := Some(PreferredColumn(b)),
         cursor := LineOffset(lines, target) + Min(PreferredColumn(b), |lines[target]|))
  }

  function MoveToLineBoundary(b: Buffer, end: bool): Buffer {
    var lines, line := Lines(b.input), LocationOf(b).line;
    if line < |lines| then b.(preferred := None, cursor := LineOffset(lines, line) + if end then |lines[line]| else 0)
    else b
  }

  function HistoryUp(b: Buffer): Buffer {
    if b.history == [] then b
    else if b.historyCursor == None then
      SetText(b.(draft := b.input, historyCursor := Some(|b.history| - 1)), b.history[|b.history| - 1], None)
    else
      var at := if b.historyCursor.value - 1 < 0 then 0 else b.historyCursor.value - 1;
      SetText(b.(historyCursor := Some(at)), if at < |b.history| then b.history[at] else [], None)
  }

  function HistoryDown(b: Buffer): Buffer {
    if b.history == [] || b.historyCursor == None then b
    else
      var at := b.historyCursor.value;
      if at < |b.history| - 1 then
        SetText(b.(historyCursor := Some(at + 1)), if 0 <= at + 1 then b.history[at + 1] else [], None)
      else SetText(b.(historyCursor := None, draft := []), b.draft, None)
  }

  datatype Event =
    | Set(text: Text, cursor: Option<int>)
    | Inserting(text: Text)
    | Backspacing
    | Deleting
    | Moving(move: Move)
    | MovingVertically(direction: Vertical)
    | MovingToBoundary(end: bool)
    | Older
    | Newer

  function Step(b: Buffer, e: Event): Buffer {
    match e
    case Set(text, cursor) => SetText(b, text, cursor)
    case Inserting(text) => Insert(b, text)
    case Backspacing => Backspace(b)
    case Deleting => DeleteForward(b)
    case Moving(move) => MoveCursor(b, move)
    case MovingVertically(direction) => MoveVertical(b, direction)
    case MovingToBoundary(end) => MoveToLineBoundary(b, end)
    case Older => HistoryUp(b)
    case Newer => HistoryDown(b)
  }

  function RunAll(b: Buffer, events: seq<Event>): Buffer
    decreases |events|
  {
    if events == [] then b else RunAll(Step(b, events[0]), events[1..])
  }

  // ---------------------------------------------------------------- what every run keeps

  /** The cursor is inside the text; a preferred column, when set, decides the current one. */
  predicate Inv(b: Buffer) {
    && 0 <= b.cursor <= |b.input|
    && (b.historyCursor.Some? ==> 0 <= b.historyCursor.value < |b.history|)
    && (b.preferred.Some? ==> PreferredDecides(b))
  }

  predicate PreferredDecides(b: Buffer) {
    var lines, l := Lines(b.input), LocationOf(b);
    l.line < |lines| && b.preferred.Some? && b.preferred.value >= 0 && l.column == Min(b.preferred.value, |lines[l.line]|)
  }

  /** A vertical move arrives on the target line, at the preferred column or the line's end. */
  lemma VerticalMoveArrives(b: Buffer, direction: Vertical)
    requires Inv(b) && CanMove(b, direction)
    ensures
      var t := MoveVertical(b, direction);
      && Inv(t) && t.input == b.input && t.preferred == Some(PreferredColumn(b)) && PreferredColumn(b) >= 0
      && LocationOf(t) == Location(TargetLine(b, direction), Min(PreferredColumn(b), |Lines(b.input)[TargetLine(b, direction)]|))
      && LocationOf(t).line == (if direction == MoveUp then LocationOf(b).line - 1 else LocationOf(b).line + 1)
  {
    hide Lines, LineOffset, LocationAfter;
    var lines, target := Lines(b.input), TargetLine(b, direction);
    CursorGivesLocation(b.input, target, Min(PreferredColumn(b), |lines[target]|));
  }

  /**
   There is a way up exactly where a line break comes before the cursor, and it leads before it, and a
   way down exactly where one comes after, and that leads behind it.
   */
  lemma UpIsBefore(b: Buffer)
    requires Inv(b)
    ensures CanMove(b, MoveUp) <==> NewLine in b.input[..b.cursor]
    ensures CanMove(b, MoveDown) <==> NewLine in b.input[b.cursor..]
    ensures CanMove(b, MoveUp) ==> MoveVertical(b, MoveUp).cursor < b.cursor
    ensures CanMove(b, MoveDown) ==> MoveVertical(b, MoveDown).cursor > b.cursor
  {
    hide Lines, LineOffset, LocationAfter, LineBreaks, PreferredDecides;
    var before, after := b.input[..b.cursor], b.input[b.cursor..];
    LocationCounts(before);
    LinesCount(b.input);
    LineBreaksOfBoth(before, after);
    assert b.input == before + after;
    LocationGivesCursor(b.input, b.cursor);
    var lines, line := Lines(b.input), LocationOf(b).line;
    if CanMove(b, MoveUp) {
      OffsetsGrow(lines, line - 1, line);
    }
    if CanMove(b, MoveDown) {
      OffsetsGrow(lines, line, line + 1);
      VerticalMoveArrives(b, MoveDown);
    }
  }

  lemma BoundaryMoveArrives(b: Buffer, end: bool)
    requires Inv(b)
    ensures Inv(MoveToLineBoundary(b, end))
    ensures
      var line := LocationOf(b).line;
      && 0 <= line < |Lines(b.input)|
      && LocationOf(MoveToLineBoundary(b, end)) == Location(line, if end then |Lines(b.input)[line]| else 0)
  {
    hide Lines, LineOffset, LocationAfter;
    LocationGivesCursor(b.input, b.cursor);
    var line := LocationOf(b).line;
    CursorGivesLocation(b.input, line, if end then |Lines(b.input)[line]| else 0);
  }

  lemma StepKeepsInv(b: Buffer, e: Event)
    requires Inv(b)
    ensures Inv(Step(b, e))
  {
    hide PreferredDecides, Lines, LineOffset, LocationAfter, MoveVertical, MoveToLineBoundary;
    match e
    case MovingVertically(direction) =>
      if CanMove(b, direction) { VerticalMoveArrives(b, direction); } else { assert MoveVertical(b, direction) == b by { Stays(b, direction); } }
    case MovingToBoundary(end) => BoundaryMoveArrives(b, end);
    case _ =>
  }

  lemma Stays(b: Buffer, direction: Vertical)
    requires !CanMove(b, direction)
    ensures MoveVertical(b, direction) == b
  {
  }

  /**
   In every run of edits, moves and history steps, the cursor's line offset and column reproduce it,
   and a set preferred column means the column is the smaller of it and the line's length.
   */
  lemma {:induction false} RunKeepsInv(b: Buffer, events: seq<Event>)
    requires Inv(b)
    ensures
      var t := RunAll(b, events);
      && Inv(t)
      && LocationOf(t).line < |Lines(t.input)|
      && LineOffset(Lines(t.input), LocationOf(t).line) + LocationOf(t).column == t.cursor
      && (t.preferred.Some? ==> LocationOf(t).column == Min(t.preferred.value, |Lines(t.input)[LocationOf(t).line]|))
    decreases |events|
  {
    hide Step, Lines, LineOffset, LocationAfter;
    if events == [] {
      LocationGivesCursor(b.input, b.cursor);
    } else {
      StepKeepsInv(b, events[0]);
      RunKeepsInv(Step(b, events[0]), events[1..]);
    }
  }

  /** Vertical moves, all of them possible. */
  predicate Path(b: Buffer, moves: seq<Vertical>)
    decreases |moves|
  {
    moves == [] || (CanMove(b, moves[0]) && Path(MoveVertical(b, moves[0]), moves[1..]))
  }

  function Follow(b: Buffer, moves: seq<Vertical>): Buffer
    decreases |moves|
  {
    if moves == [] then b else Follow(MoveVertical(b, moves[0]), moves[1..])
  }

  /** Wherever a path of vertical moves leads, the column is the preferred one of its start, or the line's end. */
  lemma {:induction false} PathKeepsColumn(b: Buffer, moves: seq<Vertical>)
    requires Inv(b) && Path(b, moves)
    ensures
      var t := Follow(b, moves);
      && Inv(t) && t.input == b.input && PreferredColumn(t) == PreferredColumn(b)
      && 0 <= LocationOf(t).line < |Lines(b.input)|
      && LocationOf(t).column == Min(PreferredColumn(b), |Lines(b.input)[LocationOf(t).line]|)
    decreases |moves|
  {
    hide MoveVertical, Lines, LineOffset, LocationAfter;
    if moves == [] {
      LocationGivesCursor(b.input, b.cursor);
    } else {
      VerticalMoveArrives(b, moves[0]);
      PathKeepsColumn(MoveVertical(b, moves[0]), moves[1..]);
    }
  }

  /**
   A path of vertical moves that comes back to its line comes back to its cursor, through lines
   however short; one move and its opposite are the shortest such path.
   */
  lemma ClosedPathRestoresCursor(b: Buffer, moves: seq<Vertical>)
    requires Inv(b) && Path(b, moves) && LocationOf(Follow(b, moves)).line == LocationOf(b).line
    ensures Follow(b, moves).cursor == b.cursor
  {
    hide Lines, LineOffset, LocationAfter, Path, Follow;
    PathKeepsColumn(b, moves);
    LocationGivesCursor(b.input, b.cursor);
    LocationGivesCursor(b.input, Follow(b, moves).cursor);
  }

  lemma OppositeMoveRestoresCursor(b: Buffer, direction: Vertical)
    requires Inv(b) && CanMove(b, direction)
    ensures
      var back := if direction == MoveUp then MoveDown else MoveUp;
      CanMove(MoveVertical(b, direction), back)
      && MoveVertical(MoveVertical(b, direction), back).cursor == b.cursor
  {
    hide Lines, LineOffset, LocationAfter, MoveVertical;
    var back := if direction == MoveUp then MoveDown else MoveUp;
    LocationGivesCursor(b.input, b.cursor);
    VerticalMoveArrives(b, direction);
    var t := MoveVertical(b, direction);
    VerticalMoveArrives(t, back);
    var moves := [direction, back];
    assert moves[1..] == [back] && moves[1..][1..] == [];
    assert Path(t, [back]) && Follow(t, [back]) == MoveVertical(t, back) by { assert [back][1..] == []; }
    ClosedPathRestoresCursor(b, moves);
  }

  // ---------------------------------------------------------------- edits undo each other

  function Backspaces(b: Buffer, n: nat): Buffer
    decreases n
  {
    if n == 0 then b else Backspaces(Backspace(b), n - 1)
  }

  /** A text that is set has the cursor where it is asked for, within the text, and at its end if nothing is asked. */
  lemma SetPlaces(b: Buffer, text: Text, at: int)
    ensures 0 <= at <= |text| ==> SetText(b, text, Some(at)) == Buffer(text, at, None, b.history, b.historyCursor, b.draft)
    ensures at < 0 ==> SetText(b, text, Some(at)).cursor == 0
    ensures at > |text| ==> SetText(b, text, Some(at)).cursor == |text|
    ensures SetText(b, text, None) == Buffer(text, |text|, None, b.history, b.historyCursor, b.draft)
  {
  }

  /** The text goes in at the cursor, which moves behind it; what is around it stays. */
  lemma InsertPlaces(b: Buffer, text: Text)
    requires Inv(b)
    ensures
      var t, c, n := Insert(b, text), b.cursor, |text|;
      && |t.input| == |b.input| + n && t.cursor == c + n
      && t.input[..c] == b.input[..c] && t.input[c..c + n] == text && t.input[c + n..] == b.input[c..]
      && t.preferred == None && t.history == b.history && t.historyCursor == None && t.draft == []
  {
  }

  /** Taking back as many graphemes as were inserted restores text and cursor. */
  lemma {:induction false} InsertIsUndone(b: Buffer, text: Text)
    requires Inv(b)
    ensures
      var t := Backspaces(Insert(b, text), |text|);
      t.input == b.input && t.cursor == b.cursor
    decreases |text|
  {
    if text == [] {
      assert b.input[..b.cursor] + text + b.input[b.cursor..] == b.input;
    } else {
      var n := |text| - 1;
      BackspaceUndoesLast(b, text);
      InsertIsUndone(b, text[..n]);
    }
  }

  lemma BackspaceUndoesLast(b: Buffer, text: Text)
    requires Inv(b) && text != []
    ensures Backspace(Insert(b, text)) == Insert(b, text[..|text| - 1])
  {
    var t, c := Insert(b, text), b.cursor;
    assert t.input[..c + |text| - 1] == b.input[..c] + text[..|text| - 1];
    assert t.input[c + |text|..] == b.input[c..];
  }

  function Moves(b: Buffer, move: Move, n: nat): Buffer
    decreases n
  {
    if n == 0 then b else MoveCursor(Moves(b, move, n - 1), move)
  }

  /** From the cursor, as many steps to one side as there are graphemes lead exactly to that end. */
  lemma {:induction false} StepsReachTheEnds(b: Buffer, n: nat)
    requires Inv(b) && n > 0
    ensures Moves(b, MoveLeft, n) == MoveCursor(b, MoveHome) <==> n >= b.cursor
    ensures Moves(b, MoveRight, n) == MoveCursor(b, MoveEnd) <==> n >= |b.input| - b.cursor
    ensures Moves(b, MoveLeft, n) == b.(preferred := None, cursor := if n < b.cursor then b.cursor - n else 0)
    ensures Moves(b, MoveRight, n) == b.(preferred := None, cursor := Min(|b.input|, b.cursor + n))
    decreases n
  {
    if n > 1 {
      StepsReachTheEnds(b, n - 1);
    } else {
      assert Moves(b, MoveLeft, 0) == b && Moves(b, MoveRight, 0) == b;
    }
  }

  function DeleteForwards(b: Buffer, n: nat): Buffer
    decreases n
  {
    if n == 0 then b else DeleteForwards(DeleteForward(b), n - 1)
  }

  /** What backspaces, or deletions forwards, leave. */
  lemma {:induction false} BackspacesTake(b: Buffer, n: nat)
    requires 0 <= b.cursor <= |b.input| && n > 0
    ensures
      var left := if n < b.cursor then b.cursor - n else 0;
      Backspaces(b, n) == Edited(b, b.input[..left] + b.input[b.cursor..], left)
    decreases n
  {
    assert b.input[..b.cursor] + b.input[b.cursor..] == b.input;
    var t := Backspace(b);
    if n == 1 {
      assert Backspaces(t, 0) == t;
    } else {
      BackspacesTake(t, n - 1);
      var left := if n < b.cursor then b.cursor - n else 0;
      assert t.input[..left] == b.input[..left] && t.input[t.cursor..] == b.input[b.cursor..];
    }
  }

  lemma {:induction false} DeletionsTake(b: Buffer, n: nat)
    requires 0 <= b.cursor <= |b.input| && n > 0
    ensures DeleteForwards(b, n) == Edited(b, b.input[..b.cursor] + b.input[Min(|b.input|, b.cursor + n)..], b.cursor)
    decreases n
  {
    var c, t := b.cursor, DeleteForward(b);
    if c == |b.input| {
      assert b.input[..c] + b.input[c..] == b.input;
      if n > 1 { DeletionsTake(t, n - 1); }
    } else {
      WithoutOne(b.input, c, Min(|b.input|, c + n) - 1);
      if n > 1 { DeletionsTake(t, n - 1); }
    }
    assert n == 1 ==> DeleteForwards(t, n - 1) == t;
  }

  lemma WithoutOne(text: Text, c: int, k: int)
    requires 0 <= c < |text| && c <= k < |text|
    ensures
      var shorter := text[..c] + text[c + 1..];
      shorter[..c] == text[..c] && shorter[k..] == text[k + 1..]
  {
  }

  /**
   Deleting backwards is moving left and deleting forwards, any number of times, if and only if there
   is that much before the cursor or nothing behind it.
   */
  lemma BackspacesAreLeftsAndDeletions(b: Buffer, n: nat)
    requires Inv(b) && n > 0
    ensures Backspaces(b, n) == DeleteForwards(Moves(b, MoveLeft, n), n) <==> n <= b.cursor || b.cursor == |b.input|
  {
    hide Backspaces, DeleteForwards, Moves;
    StepsReachTheEnds(b, n);
    BackspacesTake(b, n);
    var left := if n < b.cursor then b.cursor - n else 0;
    var t := Moves(b, MoveLeft, n);
    DeletionsTake(t, n);
    assert |b.input[..left] + b.input[b.cursor..]| == left + |b.input| - b.cursor;
    assert |b.input[..left] + b.input[Min(|b.input|, left + n)..]| == left + |b.input| - Min(|b.input|, left + n);
  }

  // ---------------------------------------------------------------- history

  function Ups(b: Buffer, n: nat): Buffer
    decreases n
  {
    if n == 0 then b else HistoryUp(Ups(b, n - 1))
  }

  function Downs(b: Buffer, n: nat): Buffer
    decreases n
  {
    if n == 0 then b else Downs(HistoryDown(b), n - 1)
  }

  lemma {:induction false} UpsGoBack(b: Buffer, n: nat)
    requires b.historyCursor == None && 1 <= n <= |b.history|
    ensures
      var at := |b.history| - n;
      Ups(b, n) == Buffer(b.history[at], |b.history[at]|, None, b.history, Some(at), b.input)
    decreases n
  {
    if n > 1 { UpsGoBack(b, n - 1); }
  }

  /** Walking back into the history and forth again restores the draft. */
  lemma {:induction false} UpsThenDownsRestoreDraft(b: Buffer, n: nat)
    requires b.historyCursor == None && 1 <= n <= |b.history|
    ensures Downs(Ups(b, n), n) == Buffer(b.input, |b.input|, None, b.history, None, [])
    decreases n
  {
    UpsGoBack(b, n);
    if n > 1 {
      UpsGoBack(b, n - 1);
      assert HistoryDown(Ups(b, n)) == Ups(b, n - 1);
      UpsThenDownsRestoreDraft(b, n - 1);
    } else {
      assert Downs(HistoryDown(Ups(b, 1)), 0) == HistoryDown(Ups(b, 1));
    }
  }

  // ---------------------------------------------------------------- the buffer

  class InputBuffer {
    var input: Text
    var inputCursor: int
    var inputPreferredColumn: Option<int>
    var inputHistory: seq<Text>
    var inputHistoryCursor: Option<int>
    var inputHistoryDraft: Text

    ghost function View(): Buffer
      reads this
    {
      Buffer(input, inputCursor, inputPreferredColumn, inputHistory, inputHistoryCursor, inputHistoryDraft)
    }

    method SetInputText(text: Text, cursor: Option<int>)
      modifies this
      ensures View() == SetText(old(View()), text, cursor)
    {
      input := text;
      inputCursor := ClampCursor(input, if cursor.Some? then cursor.value else |text|);
      inputPreferredColumn := None;
    }

    method ResetInputHistoryNavigation()
      modifies this
      ensures View() == old(View()).(historyCursor := None, draft := [])
    {
      inputHistoryCursor, inputHistoryDraft := None, [];
    }

    method InsertInputText(text: Text)
      modifies this
      ensures View() == Insert(old(View()), text)
    {
      ResetInputHistoryNavigation();
      inputPreferredColumn := None;
      var cursor := ClampCursor(input, inputCursor);
      input := input[..cursor] + text + input[cursor..];
      inputCursor := cursor + |text|;
    }

    method BackspaceInput() returns (changed: bool)
      modifies this
      ensures View() == Backspace(old(View())) && (changed <==> CursorOf(old(View())) > 0)
    {
      ResetInputHistoryNavigation();
      inputPreferredColumn := None;
      var cursor := ClampCursor(input, inputCursor);
      if cursor <= 0 { return false; }
      input := input[..cursor - 1] + input[cursor..];
      inputCursor := cursor - 1;
      return true;
    }

    method DeleteInputForward() returns (changed: bool)
      modifies this
      ensures View() == DeleteForward(old(View())) && (changed <==> CursorOf(old(View())) < |old(input)|)
    {
      ResetInputHistoryNavigation();
      inputPreferredColumn := None;
      var cursor := ClampCursor(input, inputCursor);
      if cursor >= |input| { return false; }
      input := input[..cursor] + input[cursor + 1..];
      inputCursor := cursor;
      return true;
    }

    method MoveInputCursor(direction: Move)
      modifies this
      ensures View() == MoveCursor(old(View()), direction)
    {
      inputPreferredColumn := None;
      var cursor := ClampCursor(input, inputCursor);
      match direction
      case MoveLeft => inputCursor := ClampCursor(input, cursor - 1);
      case MoveRight => inputCursor := ClampCursor(input, cursor + 1);
      case MoveHome => inputCursor := 0;
      case MoveEnd => inputCursor := |input|;
    }

    method GetInputCursorLocation() returns (location: Location)
      ensures location == LocationOf(View())
    {
      var before := input[..ClampCursor(input, inputCursor)];
      var line, column := 0, 0;
      for i := 0 to |before|
        invariant LocationAfter(before[..i]) == Location(line, column)
      {
        assert before[..i + 1][..i] == before[..i];
        if before[i] == NewLine {
          line, column := line + 1, 0;
        } else {
          column := column + 1;
        }
      }
      assert before[..|before|] == before;
      location := Location(line, column);
    }

    method MoveInputCursorVertical(direction: Vertical) returns (moved: bool)
      modifies this
      ensures View() == MoveVertical(old(View()), direction) && (moved <==> CanMove(old(View()), direction))
    {
      var lines := Lines(input);
      var location := GetInputCursorLocation();
      var targetLine := location.line + if direction == MoveUp then -1 else 1;
      if targetLine < 0 || targetLine >= |lines| { return false; }
      var preferredColumn := if inputPreferredColumn.Some? then inputPreferredColumn.value else location.column;
      inputPreferredColumn := Some(preferredColumn);
      inputCursor := LineOffset(lines, targetLine) + Min(preferredColumn, |lines[targetLine]|);
      return true;
    }

    method MoveInputCursorToLineBoundary(end: bool)
      requires Inv(View())
      modifies this
      ensures View() == MoveToLineBoundary(old(View()), end)
    {
      var lines := Lines(input);
      var location := GetInputCursorLocation();
      LocationGivesCursor(input, inputCursor);
      var column := if end then |lines[location.line]| else 0;
      inputCursor := LineOffset(lines, location.line) + column;
      inputPreferredColumn := None;
    }

    method NavigateInputHistory(direction: Vertical) returns (moved: bool)
      requires Inv(View())
      modifies this
      ensures View() == if direction == MoveUp then HistoryUp(old(View())) else HistoryDown(old(View()))
      ensures moved <==> old(inputHistory) != [] && (direction == MoveUp || old(inputHistoryCursor).Some?)
    {
      if inputHistory == [] { return false; }
      if direction == MoveUp {
        if inputHistoryCursor == None {
          inputHistoryDraft := input;
          inputHistoryCursor := Some(|inputHistory| - 1);
        } else {
          inputHistoryCursor := Some(if inputHistoryCursor.value - 1 < 0 then 0 else inputHistoryCursor.value - 1);
        }
        SetInputText(inputHistory[inputHistoryCursor.value], None);
        return true;
      }
      if inputHistoryCursor.Some? {
        if inputHistoryCursor.value < |inputHistory| - 1 {
          inputHistoryCursor := Some(inputHistoryCursor.value + 1);
          SetInputText(inputHistory[inputHistoryCursor.value], None);
        } else {
          var draft := inputHistoryDraft;
          ResetInputHistoryNavigation();
          SetInputText(draft, None);
        }
        return true;
      }
      return false;
    }
  }
}
