/**
 Colouring the fenced code of streamed Markdown
 (src/naumi_agent/main.py, class _StreamingMarkdownHighlighter).
 */
module MarkdownHighlighters {
  import opened Sequences
  import opened Strings

  const FENCE := "```"
  const DIM := "\U{1B}[2m"
  const RESET := "\U{1B}[0m"

  /** What the highlighter calls but does not define. */
  datatype Config = Config(ansiSyntax: (string, string) -> string, isSpace: char -> bool, maxLines: nat)

  datatype Mode = Text | FenceHeader | Code

  datatype State = State(mode: Mode, textBuffer: string, fenceHeader: string, codeBuffer: string,
                         language: string, codeLineCount: int, omitted: int)

  const INITIAL := State(Text, "", "", "", "text", 0, 0)

  function LanguageOf(cfg: Config, header: string): string {
    var stripped := Strip(header, cfg.isSpace);
    if stripped == "" then "text" else stripped
  }

  function HeaderLine(header: string): string {
    DIM + FENCE + header + RESET + "\n"
  }

  function ExcerptMarker(cfg: Config, omitted: int): string {
    DIM + "... 已隐藏 " + Decimal(if omitted < 0 then 0 else omitted) + " 行代码，仅展示前 "
    + Decimal(cfg.maxLines) + " 行摘录。" + RESET + "\n"
  }

  function MarkerIfAny(cfg: Config, omitted: int): string {
    if omitted != 0 then ExcerptMarker(cfg, omitted) else ""
  }

  // ------------------------------------------------- one character at a time

  /** The state after the newline that ends a fence header. */
  function EnterCode(cfg: Config, s: State, header: string): State {
    s.(mode := Code, textBuffer := "", fenceHeader := "", codeBuffer := "",
       language := LanguageOf(cfg, header), codeLineCount := 0, omitted := 0)
  }

  /** A complete line of code: the closing fence, a line to show, or a line to leave out. */
  function EndLine(cfg: Config, s: State, line: string): (State, string) {
    if Strip(line, cfg.isSpace) == FENCE then
      (s.(mode := Text, codeBuffer := "", codeLineCount := 0, omitted := 0),
       MarkerIfAny(cfg, s.omitted) + DIM + FENCE + RESET + "\n")
    else if s.codeLineCount < cfg.maxLines then
      (s.(codeBuffer := "", codeLineCount := s.codeLineCount + 1), cfg.ansiSyntax(line + "\n", s.language))
    else
      (s.(codeBuffer := "", codeLineCount := s.codeLineCount + 1, omitted := s.omitted + 1), "")
  }

  /** The reference: an automaton that reads one character and never looks ahead. */
  function Step(cfg: Config, s: State, c: char): (State, string) {
    match s.mode
    case Text =>
      if c != '`' then (s.(textBuffer := ""), s.textBuffer + [c])
      else if |s.textBuffer| < 2 then (s.(textBuffer := s.textBuffer + [c]), "")
      else (s.(mode := FenceHeader, textBuffer := ""), "")
    case FenceHeader =>
      if c != '\n' then (s.(fenceHeader := s.fenceHeader + [c]), "")
      else (EnterCode(cfg, s, s.fenceHeader), HeaderLine(s.fenceHeader))
    case Code =>
      if c != '\n' then (s.(codeBuffer := s.codeBuffer + [c]), "")
      else EndLine(cfg, s, s.codeBuffer)
  }

  /** A run after some output. */
  function Joined(out: string, run: (State, string)): (State, string) {
    (run.0, out + run.1)
  }

  lemma JoinedEmpty(run: (State, string))
    ensures Joined("", run) == run
  {
    assert "" + run.1 == run.1;
  }

  lemma JoinedTwice(a: string, b: string, run: (State, string))
    ensures Joined(a, Joined(b, run)) == Joined(a + b, run)
  {
    assert a + (b + run.1) == (a + b) + run.1;
  }

  function Run(cfg: Config, s: State, text: string): (State, string)
    decreases |text|
  {
    if text == "" then (s, "")
    else
      var (next, out) := Step(cfg, s, text[0]);
      Joined(out, Run(cfg, next, text[1..]))
  }

  predicate Ticks(s: string) {
    |s| <= 2 && forall i :: 0 <= i < |s| ==> s[i] == '`'
  }

  /** What holds of the state between two calls. */
  predicate Valid(s: State) {
    match s.mode
    case Text => Ticks(s.textBuffer) && s.fenceHeader == "" && s.codeBuffer == ""
    case FenceHeader => s.textBuffer == "" && s.codeBuffer == "" && '\n' !in s.fenceHeader
    case Code => s.textBuffer == "" && s.fenceHeader == "" && '\n' !in s.codeBuffer
  }

  /** A flush ends the stream: what is held back comes out. */
  function Flush(cfg: Config, s: State): (State, string) {
    match s.mode
    case Text => (s.(textBuffer := ""), s.textBuffer)
    case FenceHeader => (s.(mode := Text, fenceHeader := ""), FENCE + s.fenceHeader)
    case Code =>
      if s.codeBuffer == "" then (s.(omitted := 0), MarkerIfAny(cfg, s.omitted))
      else if Strip(s.codeBuffer, cfg.isSpace) == FENCE then
        (s.(mode := Text, codeBuffer := "", codeLineCount := 0, omitted := 0),
         MarkerIfAny(cfg, s.omitted) + DIM + FENCE + RESET)
      else if s.codeLineCount < cfg.maxLines then
        (s.(codeBuffer := "", omitted := 0), cfg.ansiSyntax(s.codeBuffer, s.language) + MarkerIfAny(cfg, s.omitted))
      else
        (s.(codeBuffer := "", omitted := 0), MarkerIfAny(cfg, s.omitted + 1))
  }

  // ------------------------------------------------- runs

  lemma {:induction false} RunConcat(cfg: Config, s: State, a: string, b: string)
    ensures Run(cfg, s, a + b) == Joined(Run(cfg, s, a).1, Run(cfg, Run(cfg, s, a).0, b))
    decreases |a|
  {
    if a == "" {
      assert a + b == b;
      JoinedEmpty(Run(cfg, s, b));
    } else {
      var (next, out) := Step(cfg, s, a[0]);
      RunConcat(cfg, next, a[1..], b);
      assert (a + b)[0] == a[0] && (a + b)[1..] == a[1..] + b;
      JoinedTwice(out, Run(cfg, next, a[1..]).1, Run(cfg, Run(cfg, next, a[1..]).0, b));
    }
  }

  lemma RunSilent(cfg: Config, s: State, text: string)
    requires text != "" && Step(cfg, s, text[0]).1 == ""
    ensures Run(cfg, s, text) == Run(cfg, Step(cfg, s, text[0]).0, text[1..])
  {
    JoinedEmpty(Run(cfg, Step(cfg, s, text[0]).0, text[1..]));
  }

  lemma RunOne(cfg: Config, s: State, c: char)
    ensures Run(cfg, s, [c]) == Step(cfg, s, c)
  {
    assert [c][1..] == "";
    var (next, out) := Step(cfg, s, c);
    assert Run(cfg, next, "") == (next, "") && out + "" == out;
  }

  lemma {:induction false} StepKeepsValid(cfg: Config, s: State, c: char)
    requires Valid(s)
    ensures Valid(Step(cfg, s, c).0)
  {
  }

  lemma {:induction false} RunKeepsValid(cfg: Config, s: State, text: string)
    requires Valid(s)
    ensures Valid(Run(cfg, s, text).0)
    decreases |text|
  {
    if text != "" {
      StepKeepsValid(cfg, s, text[0]);
      RunKeepsValid(cfg, Step(cfg, s, text[0]).0, text[1..]);
    }
  }

  /** Feeding the chunks one after the other. */
  function RunChunks(cfg: Config, s: State, chunks: seq<string>): (State, string)
    decreases |chunks|
  {
    if chunks == [] then (s, "")
    else
      var (next, out) := Run(cfg, s, chunks[0]);
      Joined(out, RunChunks(cfg, next, chunks[1..]))
  }

  /** However the text is cut, the output and the final state are the same. */
  lemma {:induction false} ChunksDoNotMatter(cfg: Config, s: State, chunks: seq<string>)
    ensures RunChunks(cfg, s, chunks) == Run(cfg, s, Concat(chunks))
    decreases |chunks|
  {
    if chunks != [] {
      ChunksDoNotMatter(cfg, Run(cfg, s, chunks[0]).0, chunks[1..]);
      RunConcat(cfg, s, chunks[0], Concat(chunks[1..]));
    }
  }

  // ------------------------------------------------- whole pieces of text

  function TrailingTicks(s: string): nat
    ensures TrailingTicks(s) <= |s|
  {
    if s != "" && s[|s| - 1] == '`' then 1 + TrailingTicks(s[..|s| - 1]) else 0
  }

  /** How much of a text without a fence is safe to show: all but at most two final ticks. */
  function SafeLength(s: string): nat
    ensures SafeLength(s) <= |s|
  {
    |s| - if TrailingTicks(s) < 2 then TrailingTicks(s) else 2
  }

  lemma {:induction false} TicksRun(cfg: Config, s: State, ticks: string)
    requires s.mode == Text && s.textBuffer == "" && Ticks(ticks)
    ensures Run(cfg, s, ticks) == (s.(textBuffer := ticks), "")
  {
    if |ticks| == 0 {
      assert ticks == "";
    } else if |ticks| == 1 {
      assert ticks == ['`'] && s.textBuffer + ['`'] == "`";
      RunOne(cfg, s, '`');
    } else if |ticks| == 2 {
      assert ticks[1..] == ['`'] && ticks == "`" + "`";
      assert s.textBuffer + ['`'] == "`";
      RunSilent(cfg, s, ticks);
      RunOne(cfg, s.(textBuffer := "`"), '`');
    }
  }

  lemma {:induction false} TrailingTicksAfter(ticks: string, c: char, rest: string)
    requires c != '`'
    ensures TrailingTicks(ticks + [c] + rest) == TrailingTicks(rest)
  {
    var s := ticks + [c] + rest;
    if rest == "" {
      assert s[|s| - 1] == c;
    } else {
      TrailingTicksAfter(ticks, c, rest[..|rest| - 1]);
      assert s[..|s| - 1] == ticks + [c] + rest[..|rest| - 1];
    }
  }

  lemma SafeAfter(ticks: string, c: char, rest: string)
    requires c != '`'
    ensures SafeLength(ticks + [c] + rest) == |ticks| + 1 + SafeLength(rest)
  {
    TrailingTicksAfter(ticks, c, rest);
  }

  lemma NoThirdTick(ticks: string, rest: string)
    requires Ticks(ticks) && !Occurs((ticks + ['`']) + rest, FENCE)
    ensures |ticks| < 2
  {
    var all := (ticks + ['`']) + rest;
    assert |ticks| == 2 ==> all[0..0 + |FENCE|] == FENCE;
    assert |ticks| == 2 ==> OccursAt(all, FENCE, 0);
  }

  /** Text without a fence comes out up to its final ticks. */
  lemma {:induction false} PlainRun(cfg: Config, s: State, text: string)
    requires s.mode == Text && Ticks(s.textBuffer) && !Occurs(s.textBuffer + text, FENCE)
    ensures
      var all := s.textBuffer + text;
      Run(cfg, s, text) == (s.(textBuffer := all[SafeLength(all)..]), all[..SafeLength(all)])
    decreases |text|
  {
    hide SafeLength;
    var held := s.textBuffer;
    var all := held + text;
    if text == "" {
      assert all == held;
      TicksTrail(held);
    } else {
      var c, rest := text[0], text[1..];
      assert all == (held + [c]) + rest;
      var (next, out) := Step(cfg, s, c);
      if c == '`' {
        NoThirdTick(held, rest);
        assert next.textBuffer + rest == all;
        RunSilent(cfg, s, text);
        PlainRun(cfg, next, rest);
      } else {
        NotInParts(held + [c], rest, FENCE);
        assert next.textBuffer + rest == rest;
        PlainRun(cfg, next, rest);
        SafeAfter(held, c, rest);
        assert all[..SafeLength(all)] == out + rest[..SafeLength(rest)];
        assert all[SafeLength(all)..] == rest[SafeLength(rest)..];
      }
    }
  }

  lemma TicksTrail(ticks: string)
    requires Ticks(ticks)
    ensures TrailingTicks(ticks) == |ticks| && SafeLength(ticks) == 0
  {
    if |ticks| == 2 { assert ticks[..1][..0] == ""; }
  }

  /** A tick before a fence starts a fence one place earlier. */
  lemma TickMakesEarlierFence(text: string, f: int)
    requires OccursAt(text, FENCE, f) && f > 0 && text[f - 1] == '`'
    ensures OccursAt(text, FENCE, f - 1)
  {
    assert text[f] == text[f..f + 3][0] && text[f + 1] == text[f..f + 3][1];
    assert text[f - 1..f + 2] == FENCE;
  }

  /** Before the first fence there is no tick. */
  lemma NoTickBefore(text: string, f: int)
    requires OccursAt(text, FENCE, f) && forall j :: 0 <= j < f ==> !OccursAt(text, FENCE, j)
    ensures TrailingTicks(text[..f]) == 0
  {
    if f > 0 && text[f - 1] == '`' { TickMakesEarlierFence(text, f); }
  }

  /** Text up to and including the first fence comes out without the fence. */
  lemma {:induction false} FenceRun(cfg: Config, s: State, text: string)
    requires s.mode == Text && s.textBuffer == "" && Find(text, FENCE) >= 0
    ensures
      var f := Find(text, FENCE);
      Run(cfg, s, text[..f + 3]) == (s.(mode := FenceHeader, textBuffer := ""), text[..f])
  {
    hide Find, Run;
    var f := Find(text, FENCE);
    var before := text[..f];
    BeforeFirst(text, FENCE, f);
    NoTickBefore(text, f);
    assert s.textBuffer + before == before;
    PlainRun(cfg, s, before);
    assert before[..|before|] == before && before[|before|..] == "";
    RunConcat(cfg, s, before, FENCE);
    ThreeTicks(cfg, s);
    assert before + "" == before;
  }

  lemma ThreeTicks(cfg: Config, s: State)
    requires s.mode == Text && s.textBuffer == ""
    ensures Run(cfg, s, FENCE) == (s.(mode := FenceHeader, textBuffer := ""), "")
  {
    assert FENCE == "``" + "`";
    TicksRun(cfg, s, "``");
    RunConcat(cfg, s, "``", "`");
    RunOne(cfg, s.(textBuffer := "``"), '`');
  }

  lemma {:induction false} HeaderRun(cfg: Config, s: State, text: string)
    requires s.mode == FenceHeader && '\n' !in text
    ensures Run(cfg, s, text) == (s.(fenceHeader := s.fenceHeader + text), "")
    decreases |text|
  {
    if text == "" {
      assert s.fenceHeader + text == s.fenceHeader;
    } else {
      RunSilent(cfg, s, text);
      HeaderRun(cfg, Step(cfg, s, text[0]).0, text[1..]);
      assert s.fenceHeader + [text[0]] + text[1..] == s.fenceHeader + text;
    }
  }

  lemma {:induction false} CodeRun(cfg: Config, s: State, text: string)
    requires s.mode == Code && '\n' !in text
    ensures Run(cfg, s, text) == (s.(codeBuffer := s.codeBuffer + text), "")
    decreases |text|
  {
    if text == "" {
      assert s.codeBuffer + text == s.codeBuffer;
    } else {
      RunSilent(cfg, s, text);
      CodeRun(cfg, Step(cfg, s, text[0]).0, text[1..]);
      assert s.codeBuffer + [text[0]] + text[1..] == s.codeBuffer + text;
    }
  }

  /** A header with its newline. */
  lemma HeaderLineRun(cfg: Config, s: State, header: string)
    requires s.mode == FenceHeader && '\n' !in header
    ensures Run(cfg, s, header + "\n")
         == (EnterCode(cfg, s, s.fenceHeader + header), HeaderLine(s.fenceHeader + header))
  {
    RunConcat(cfg, s, header, "\n");
    HeaderRun(cfg, s, header);
    assert forall out: string :: "" + out == out;
    RunOne(cfg, s.(fenceHeader := s.fenceHeader + header), '\n');
  }

  /** A line of code with its newline. */
  lemma CodeLineRun(cfg: Config, s: State, line: string)
    requires s.mode == Code && '\n' !in line
    ensures Run(cfg, s, line + "\n") == EndLine(cfg, s.(codeBuffer := ""), s.codeBuffer + line)
  {
    RunConcat(cfg, s, line, "\n");
    CodeRun(cfg, s, line);
    assert forall out: string :: "" + out == out;
    RunOne(cfg, s.(codeBuffer := s.codeBuffer + line), '\n');
  }

  // ------------------------------------------------- what a reader sees

  /** A stream without a fence comes out as it went in. */
  lemma PlainStreamUnchanged(cfg: Config, text: string)
    requires !Occurs(text, FENCE)
    ensures
      var (s, out) := Run(cfg, INITIAL, text);
      out + Flush(cfg, s).1 == text && Flush(cfg, s).0 == INITIAL
  {
    hide Run;
    PlainText(cfg, INITIAL, text);
  }

  lemma PlainText(cfg: Config, s: State, text: string)
    requires !Occurs(text, FENCE) && s.mode == Text && s.textBuffer == s.fenceHeader == s.codeBuffer == ""
    ensures
      var (end, out) := Run(cfg, s, text);
      out + Flush(cfg, end).1 == text && Flush(cfg, end).0 == s
  {
    hide Run, SafeLength, Occurs;
    assert "" + text == text;
    PlainRun(cfg, s, text);
    assert text[..SafeLength(text)] + text[SafeLength(text)..] == text;
  }

  function Excess(cfg: Config, count: int): int {
    if count > cfg.maxLines then count - cfg.maxLines else 0
  }

  /** Every line coloured, one after the other. */
  function Highlighted(cfg: Config, language: string, lines: seq<string>): string {
    if lines == [] then "" else cfg.ansiSyntax(lines[0] + "\n", language) + Highlighted(cfg, language, lines[1..])
  }

  function JoinLines(lines: seq<string>): string {
    if lines == [] then "" else lines[0] + "\n" + JoinLines(lines[1..])
  }

  predicate IsCodeLine(cfg: Config, line: string) {
    '\n' !in line && Strip(line, cfg.isSpace) != FENCE
  }

  /** How many of `n` more lines still fit. */
  function Room(cfg: Config, count: int, n: nat): (r: nat)
    ensures r <= n
  {
    if count >= cfg.maxLines then 0 else if cfg.maxLines - count < n then cfg.maxLines - count else n
  }

  lemma {:induction false} LinesRun(cfg: Config, s: State, lines: seq<string>)
    requires s.mode == Code && s.codeBuffer == "" && s.codeLineCount >= 0 && s.omitted == Excess(cfg, s.codeLineCount)
    requires forall line :: line in lines ==> IsCodeLine(cfg, line)
    ensures
      var count := s.codeLineCount + |lines|;
      Run(cfg, s, JoinLines(lines))
      == (s.(codeLineCount := count, omitted := Excess(cfg, count)),
          Highlighted(cfg, s.language, lines[..Room(cfg, s.codeLineCount, |lines|)]))
    decreases |lines|
  {
    hide Run, Strip;
    if lines == [] {
      RunEmpty(cfg, s, "");
      JoinedEmpty(Run(cfg, s, ""));
    } else {
      var line, rest := lines[0], lines[1..];
      var room := Room(cfg, s.codeLineCount, |lines|);
      assert line in lines && IsCodeLine(cfg, line) && "" + line == line;
      CodeLineRun(cfg, s, line);
      var (next, out) := EndLine(cfg, s, line);
      RunConcat(cfg, s, line + "\n", JoinLines(rest));
      LinesRun(cfg, next, rest);
      if room > 0 {
        assert lines[..room][1..] == rest[..room - 1];
      } else {
        JoinedEmpty(Run(cfg, next, JoinLines(rest)));
      }
    }
  }

  /** A block with its header and complete lines, not yet closed. */
  function OpenBlock(header: string, lines: seq<string>): string {
    FENCE + (header + "\n" + JoinLines(lines))
  }

  /** What is shown of it: the header and the first `maxLines` lines, coloured in its language. */
  function ShownBlock(cfg: Config, header: string, lines: seq<string>): string {
    HeaderLine(header) + Highlighted(cfg, LanguageOf(cfg, header), lines[..Room(cfg, 0, |lines|)])
  }

  function InBlock(cfg: Config, s: State, header: string, lines: seq<string>): State {
    s.(mode := Code, language := LanguageOf(cfg, header), codeLineCount := |lines|, omitted := Excess(cfg, |lines|))
  }

  lemma OpenBlockRun(cfg: Config, s: State, header: string, lines: seq<string>)
    requires s.mode == Text && s.textBuffer == s.fenceHeader == s.codeBuffer == ""
    requires '\n' !in header && forall line :: line in lines ==> IsCodeLine(cfg, line)
    ensures Run(cfg, s, OpenBlock(header, lines)) == (InBlock(cfg, s, header, lines), ShownBlock(cfg, header, lines))
  {
    hide Run, Strip, LanguageOf, HeaderLine, ExcerptMarker, JoinLines, Highlighted, IsCodeLine;
    var inHeader := s.(mode := FenceHeader);
    var inCode := EnterCode(cfg, inHeader, header);
    ThreeTicks(cfg, s);
    RunConcat(cfg, s, FENCE, header + "\n" + JoinLines(lines));
    JoinedEmpty(Run(cfg, inHeader, header + "\n" + JoinLines(lines)));
    EmptyAppend(header);
    HeaderLineRun(cfg, inHeader, header);
    RunConcat(cfg, inHeader, header + "\n", JoinLines(lines));
    LinesRun(cfg, inCode, lines);
  }

  /**
   A fenced block: its header, its first `maxLines` lines coloured in its language, one note on
   the lines left out if there are any, and the closing fence.
   */
  lemma CodeBlockRun(cfg: Config, s: State, header: string, lines: seq<string>, closing: string)
    requires s.mode == Text && s.textBuffer == s.fenceHeader == s.codeBuffer == ""
    requires '\n' !in header && forall line :: line in lines ==> IsCodeLine(cfg, line)
    requires '\n' !in closing && Strip(closing, cfg.isSpace) == FENCE
    ensures
      Run(cfg, s, OpenBlock(header, lines) + (closing + "\n"))
      == (s.(language := LanguageOf(cfg, header), codeLineCount := 0, omitted := 0),
          ShownBlock(cfg, header, lines) + (MarkerIfAny(cfg, Excess(cfg, |lines|)) + DIM + FENCE + RESET + "\n"))
  {
    hide Run, Strip, LanguageOf, ExcerptMarker, OpenBlock, ShownBlock, IsCodeLine;
    OpenBlockRun(cfg, s, header, lines);
    RunConcat(cfg, s, OpenBlock(header, lines), closing + "\n");
    EmptyAppend(closing);
    CodeLineRun(cfg, InBlock(cfg, s, header, lines), closing);
  }

  /**
   A block that the stream leaves open: a last line without a newline counts like a complete one, the
   note on what was left out is not lost, and the block stays open.
   */
  lemma UnclosedBlockFlush(cfg: Config, s: State, header: string, lines: seq<string>, rest: string)
    requires s.mode == Text && s.textBuffer == s.fenceHeader == s.codeBuffer == ""
    requires '\n' !in header && forall line :: line in lines ==> IsCodeLine(cfg, line)
    requires '\n' !in rest && Strip(rest, cfg.isSpace) != FENCE
    ensures
      var (open, out) := Run(cfg, s, OpenBlock(header, lines) + rest);
      && out == ShownBlock(cfg, header, lines)
      && Flush(cfg, open).0 == InBlock(cfg, s, header, lines).(omitted := 0)
      && Flush(cfg, open).1
         == if rest == "" then MarkerIfAny(cfg, Excess(cfg, |lines|))
            else (if |lines| < cfg.maxLines then cfg.ansiSyntax(rest, LanguageOf(cfg, header)) else "")
                 + MarkerIfAny(cfg, Excess(cfg, |lines| + 1))
  {
    hide Run, Strip, LanguageOf, ExcerptMarker, OpenBlock, ShownBlock, IsCodeLine;
    OpenRestRun(cfg, s, header, lines, rest);
    assert "" + MarkerIfAny(cfg, Excess(cfg, |lines| + 1)) == MarkerIfAny(cfg, Excess(cfg, |lines| + 1));
    if rest != "" && |lines| < cfg.maxLines { EmptyAppend(cfg.ansiSyntax(rest, LanguageOf(cfg, header))); }
  }

  lemma OpenRestRun(cfg: Config, s: State, header: string, lines: seq<string>, rest: string)
    requires s.mode == Text && s.textBuffer == s.fenceHeader == s.codeBuffer == ""
    requires '\n' !in header && forall line :: line in lines ==> IsCodeLine(cfg, line)
    requires '\n' !in rest
    ensures Run(cfg, s, OpenBlock(header, lines) + rest)
         == (InBlock(cfg, s, header, lines).(codeBuffer := rest), ShownBlock(cfg, header, lines))
  {
    hide Run, Strip, LanguageOf, ExcerptMarker, OpenBlock, ShownBlock, IsCodeLine;
    OpenBlockRun(cfg, s, header, lines);
    RunConcat(cfg, s, OpenBlock(header, lines), rest);
    EmptyAppend(rest);
    CodeRun(cfg, InBlock(cfg, s, header, lines), rest);
    EmptyAppend(ShownBlock(cfg, header, lines));
  }

  /** The highlighter between two blocks: it shows text, and holds nothing back. */
  predicate AtRest(s: State) {
    s.mode == Text && s.textBuffer == s.fenceHeader == s.codeBuffer == "" && s.codeLineCount == s.omitted == 0
  }

  /**
   A closing fence that the stream ends with, without a newline, closes the block like one with a
   newline, and a text that follows comes out as it goes in.
   */
  lemma ClosingFenceFlush(cfg: Config, s: State, header: string, lines: seq<string>, closing: string, text: string)
    requires s.mode == Text && s.textBuffer == s.fenceHeader == s.codeBuffer == ""
    requires '\n' !in header && forall line :: line in lines ==> IsCodeLine(cfg, line)
    requires '\n' !in closing && Strip(closing, cfg.isSpace) == FENCE && !Occurs(text, FENCE)
    ensures
      var (open, out) := Run(cfg, s, OpenBlock(header, lines) + closing);
      var (rest, flushed) := Flush(cfg, open);
      var (end, more) := Run(cfg, rest, text);
      && out == ShownBlock(cfg, header, lines) && flushed == MarkerIfAny(cfg, Excess(cfg, |lines|)) + DIM + FENCE + RESET
      && AtRest(rest) && more + Flush(cfg, end).1 == text && Flush(cfg, end).0 == rest
  {
    hide Run, LanguageOf, ExcerptMarker, OpenBlock, ShownBlock, IsCodeLine, Occurs, SafeLength;
    OpenRestRun(cfg, s, header, lines, closing);
    NotBlank(closing, cfg.isSpace);
    var rest := Flush(cfg, InBlock(cfg, s, header, lines).(codeBuffer := closing)).0;
    PlainText(cfg, rest, text);
  }

  lemma NotBlank(line: string, isSpace: char -> bool)
    requires Strip(line, isSpace) != ""
    ensures line != ""
  {
  }

  /** The header of a fence that the stream ends in comes out as it was, and the state is at rest. */
  lemma OpenHeaderFlush(cfg: Config, s: State, header: string)
    requires AtRest(s) && '\n' !in header
    ensures
      var (open, out) := Run(cfg, s, FENCE + header);
      out == "" && Flush(cfg, open) == (s, FENCE + header)
  {
    hide Run;
    ThreeTicks(cfg, s);
    RunConcat(cfg, s, FENCE, header);
    HeaderRun(cfg, s.(mode := FenceHeader), header);
    EmptyAppend(header);
  }

  /** What a reader sees around the code, to the letter. */
  lemma FrameOfBlock(cfg: Config, header: string, omitted: nat)
    ensures HeaderLine(header) == "\U{1B}[2m```" + header + "\U{1B}[0m\n" && DIM + FENCE + RESET == "\U{1B}[2m```\U{1B}[0m"
    ensures MarkerIfAny(cfg, omitted)
         == if omitted == 0 then ""
            else "\U{1B}[2m" + "... 已隐藏 " + Decimal(omitted) + " 行代码，仅展示前 " + Decimal(cfg.maxLines) + " 行摘录。" + "\U{1B}[0m\n"
    ensures Decimal(80) == "80"
  {
    assert Decimal(80) == "8" + "0" == "80";
    assert DIM + FENCE == "\U{1B}[2m```";
    hide Decimal;
    assert RESET == "\U{1B}[0m";
    AppendAssoc(DIM + FENCE + header, RESET, "\n");
    AppendAssoc(DIM + "... 已隐藏 " + Decimal(omitted) + " 行代码，仅展示前 " + Decimal(cfg.maxLines) + " 行摘录。", RESET, "\n");
  }

  // ------------------------------------------------- the language

  /** A block's language is its header without the white space around it, or "text" if there is nothing else. */
  lemma LanguageIsHeader(cfg: Config, before: string, word: string, after: string)
    requires Blank(before, cfg.isSpace) && Blank(after, cfg.isSpace)
    ensures LanguageOf(cfg, before) == "text"
    ensures Tight(word, cfg.isSpace) ==> LanguageOf(cfg, before + word + after) == word
  {
    hide Strip;
    BlankStrips(before, cfg.isSpace);
    if Tight(word, cfg.isSpace) { StripTight(before, word, after, cfg.isSpace); }
  }

  // ------------------------------------------------- the class

  class StreamingMarkdownHighlighter {
    const cfg: Config
    var mode: Mode
    var textBuffer: string
    var fenceHeader: string
    var codeBuffer: string
    var language: string
    var codeLineCount: int
    var omittedCodeLines: int

    ghost function View(): State
      reads this
    {
      State(mode, textBuffer, fenceHeader, codeBuffer, language, codeLineCount, omittedCodeLines)
    }

    constructor (cfg: Config)
      ensures this.cfg == cfg && View() == INITIAL
    {
      this.cfg := cfg;
      mode, textBuffer, fenceHeader, codeBuffer := Text, "", "", "";
      language, codeLineCount, omittedCodeLines := "text", 0, 0;
    }

    method Reset()
      modifies this
      ensures View() == INITIAL
    {
      mode, textBuffer, fenceHeader, codeBuffer := Text, "", "", "";
      language, codeLineCount, omittedCodeLines := "text", 0, 0;
    }

    /** One call does what the automaton does with the same characters. */
    method Feed(text: string) returns (out: string)
      requires Valid(View())
      modifies this
      ensures Valid(View()) && (View(), out) == Run(cfg, old(View()), text)
    {
      hide Run, LanguageOf, HeaderLine;
      out := "";
      var remaining := text;
      ghost var goal := Run(cfg, View(), text);
      JoinedEmpty(goal);
      while remaining != ""
        invariant Valid(View()) && Joined(out, Run(cfg, View(), remaining)) == goal
        decreases |remaining|
      {
        ghost var here, rest := View(), remaining;
        var more := "";
        if mode == Text {
          TicksRun(cfg, here.(textBuffer := ""), textBuffer);
          RunConcat(cfg, here.(textBuffer := ""), textBuffer, remaining);
          JoinedEmpty(Run(cfg, here, remaining));
          textBuffer := textBuffer + remaining;
          remaining := "";
          more := DrainTextBuffer(false);
          RunEmpty(cfg, View(), more);
        } else if mode == FenceHeader {
          var newline := IndexOf(remaining, '\n');
          if newline < 0 {
            HeaderRun(cfg, here, remaining);
            fenceHeader := fenceHeader + remaining;
            remaining := "";
            RunEmpty(cfg, View(), more);
          } else {
            SplitAt(remaining, newline, '\n');
            HeaderLineRun(cfg, here, remaining[..newline]);
            RunConcat(cfg, here, remaining[..newline] + "\n", remaining[newline + 1..]);
            fenceHeader := fenceHeader + remaining[..newline];
            remaining := remaining[newline + 1..];
            language := LanguageOf(cfg, fenceHeader);
            codeLineCount, omittedCodeLines := 0, 0;
            more := HeaderLine(fenceHeader);
            fenceHeader := "";
            mode := Code;
          }
        } else {
          assert "" + codeBuffer == codeBuffer;
          CodeRun(cfg, here.(codeBuffer := ""), codeBuffer);
          RunConcat(cfg, here.(codeBuffer := ""), codeBuffer, remaining);
          JoinedEmpty(Run(cfg, here, remaining));
          codeBuffer := codeBuffer + remaining;
          remaining := "";
          more := DrainCodeBuffer(false);
          RunEmpty(cfg, View(), more);
        }
        assert Run(cfg, here, rest) == Joined(more, Run(cfg, View(), remaining));
        JoinedTwice(out, more, Run(cfg, View(), remaining));
        out := out + more;
      }
      RunEmpty(cfg, View(), out);
    }

    /** Fed in pieces or in one, the text gives the same output and the same state. */
    method FeedChunks(chunks: seq<string>) returns (out: string)
      requires Valid(View())
      modifies this
      ensures Valid(View()) && (View(), out) == Run(cfg, old(View()), Concat(chunks))
    {
      hide Run;
      out := "";
      RunEmpty(cfg, View(), "");
      for i := 0 to |chunks|
        invariant Valid(View()) && (View(), out) == Run(cfg, old(View()), Concat(chunks[..i]))
      {
        var more := Feed(chunks[i]);
        out := out + more;
        assert chunks[..i + 1] == chunks[..i] + [chunks[i]] && Concat([chunks[i]]) == chunks[i];
        ConcatAppend(chunks[..i], [chunks[i]]);
        RunConcat(cfg, old(View()), Concat(chunks[..i]), chunks[i]);
      }
      assert chunks[..|chunks|] == chunks;
    }

    method FlushAll() returns (out: string)
      requires Valid(View())
      modifies this
      ensures Valid(View()) && (View(), out) == Flush(cfg, old(View()))
    {
      if mode == Text {
        out := DrainTextBuffer(true);
      } else if mode == FenceHeader {
        out := FENCE + fenceHeader;
        fenceHeader, mode := "", Text;
      } else {
        out := DrainCodeBuffer(true);
      }
    }

    /** Shows the buffered text up to its fences, handing the code between them on. */
    method DrainTextBuffer(complete: bool) returns (out: string)
      requires mode == Text && fenceHeader == "" && codeBuffer == ""
      requires complete ==> Ticks(textBuffer)
      modifies this
      ensures Valid(View())
      ensures !complete ==> (View(), out) == Run(cfg, old(View()).(textBuffer := ""), old(textBuffer))
      ensures complete ==> (View(), out) == Flush(cfg, old(View()))
      ensures |textBuffer| + |codeBuffer| <= old(|textBuffer| + |codeBuffer|)
      decreases |textBuffer| + |codeBuffer|
    {
      hide Run, Find, OccursAt;
      out := "";
      ghost var goal := Run(cfg, View().(textBuffer := ""), textBuffer);
      JoinedEmpty(goal);
      while true
        invariant mode == Text ==> fenceHeader == "" && codeBuffer == ""
        invariant mode != Text ==> textBuffer == "" && Valid(View())
        invariant Joined(out, Run(cfg, View().(textBuffer := ""), textBuffer)) == goal
        invariant complete ==> View() == old(View()) && out == ""
        invariant |textBuffer| + |codeBuffer| <= old(|textBuffer| + |codeBuffer|)
        decreases |textBuffer| + |codeBuffer|
      {
        var fence := Find(textBuffer, FENCE);
        if fence < 0 {
          var more := DrainSafeText(complete);
          assert "" + more == more;
          out := out + more;
          return;
        }
        var shown := TakeFence(fence);
        if mode == FenceHeader {
          out := out + shown;
          return;
        }
        JoinedTwice(out, shown, Run(cfg, View().(codeBuffer := ""), codeBuffer));
        out := out + shown;
        var more := DrainCodeBuffer(false);
        out := out + more;
        SettledRun(cfg, View(), out);
      }
    }

    /** Takes the buffered text up to its first fence, and the header after it if that is complete. */
    method TakeFence(fence: nat) returns (out: string)
      requires mode == Text && fenceHeader == codeBuffer == "" && fence == Find(textBuffer, FENCE)
      modifies this
      ensures textBuffer == "" && |codeBuffer| < |old(textBuffer)| && (mode == FenceHeader || mode == Code)
      ensures mode == FenceHeader ==>
        Valid(View()) && (View(), out) == Run(cfg, old(View()).(textBuffer := ""), old(textBuffer))
      ensures mode == Code ==>
        && fenceHeader == ""
        && Joined(out, Run(cfg, View().(codeBuffer := ""), codeBuffer))
           == Run(cfg, old(View()).(textBuffer := ""), old(textBuffer))
    {
      hide Run, LanguageOf, HeaderLine, Find, OccursAt;
      FenceStep(cfg, View().(textBuffer := ""), textBuffer);
      out := textBuffer[..fence];
      textBuffer := textBuffer[fence + 3..];
      var newline := IndexOf(textBuffer, '\n');
      if newline < 0 {
        fenceHeader := textBuffer;
        textBuffer := "";
        mode := FenceHeader;
        return;
      }
      var header := textBuffer[..newline];
      codeBuffer := codeBuffer + textBuffer[newline + 1..];
      assert codeBuffer == textBuffer[newline + 1..];
      textBuffer := "";
      language := LanguageOf(cfg, header);
      codeLineCount, omittedCodeLines := 0, 0;
      mode := Code;
      out := out + HeaderLine(header);
      assert View().(codeBuffer := "") == EnterCode(cfg, old(View()).(textBuffer := ""), header);
    }

    /** Text without a fence: all of it at the end of the stream, else all but two final ticks. */
    method DrainSafeText(complete: bool) returns (out: string)
      requires Find(textBuffer, FENCE) < 0
      requires if mode == Text then fenceHeader == "" && codeBuffer == "" else textBuffer == "" && Valid(View())
      requires complete ==> mode == Text && Ticks(textBuffer)
      modifies `textBuffer
      ensures Valid(View()) && |textBuffer| <= |old(textBuffer)|
      ensures !complete ==> (View(), out) == Run(cfg, old(View()).(textBuffer := ""), old(textBuffer))
      ensures complete ==> (View(), out) == Flush(cfg, old(View()))
    {
      hide Run, Find;
      DrainedText(cfg, View().(textBuffer := ""), textBuffer);
      var safeLength := if complete then |textBuffer| else SafeLength(textBuffer);
      assert textBuffer == textBuffer[..|textBuffer|] && textBuffer[|textBuffer|..] == "";
      out := textBuffer[..safeLength];
      textBuffer := textBuffer[safeLength..];
    }

    /** Shows the buffered complete lines of code, handing what follows the closing fence on. */
    method DrainCodeBuffer(complete: bool) returns (out: string)
      requires mode == Code && textBuffer == "" && fenceHeader == ""
      requires complete ==> '\n' !in codeBuffer
      modifies this
      ensures Valid(View())
      ensures !complete ==> (View(), out) == Run(cfg, old(View()).(codeBuffer := ""), old(codeBuffer))
      ensures complete ==> (View(), out) == Flush(cfg, old(View()))
      ensures |textBuffer| + |codeBuffer| <= old(|textBuffer| + |codeBuffer|)
      decreases |textBuffer| + |codeBuffer|
    {
      hide Run, Strip, ExcerptMarker, IndexOf;
      out := "";
      ghost var goal := Run(cfg, View().(codeBuffer := ""), codeBuffer);
      JoinedEmpty(goal);
      while '\n' in codeBuffer
        invariant mode == Code && textBuffer == "" && fenceHeader == ""
        invariant Joined(out, Run(cfg, View().(codeBuffer := ""), codeBuffer)) == goal
        invariant complete ==> View() == old(View()) && out == ""
        invariant |codeBuffer| <= |old(codeBuffer)|
        decreases |codeBuffer|
      {
        ghost var here, rest, shown := View().(codeBuffer := ""), codeBuffer, out;
        var newline := IndexOf(codeBuffer, '\n');
        var line := codeBuffer[..newline];
        ghost var after := EndLine(cfg, here, line);
        CodeStep(cfg, here, rest);
        JoinedTwice(out, after.1, Run(cfg, after.0, rest[newline + 1..]));
        codeBuffer := codeBuffer[newline + 1..];
        if Strip(line, cfg.isSpace) == FENCE {
          if omittedCodeLines != 0 {
            out := out + ExcerptMarker(cfg, omittedCodeLines);
          }
          out := out + DIM + FENCE + RESET + "\n";
          assert out == shown + after.1;
          textBuffer := textBuffer + codeBuffer;
          codeBuffer := "";
          mode := Text;
          codeLineCount, omittedCodeLines := 0, 0;
          assert textBuffer == rest[newline + 1..] && View().(textBuffer := "") == after.0;
          var more := DrainTextBuffer(false);
          out := out + more;
          return;
        }
        if codeLineCount < cfg.maxLines {
          out := out + cfg.ansiSyntax(line + "\n", language);
        } else {
          omittedCodeLines := omittedCodeLines + 1;
        }
        codeLineCount := codeLineCount + 1;
        assert out == shown + after.1;
      }
      CodeRun(cfg, View().(codeBuffer := ""), codeBuffer);
      assert "" + codeBuffer == codeBuffer && out + "" == out;
      if complete {
        out := FinishCode();
      }
    }

    /** What is left of the code when the stream ends. */
    method FinishCode() returns (out: string)
      requires mode == Code && textBuffer == "" && fenceHeader == "" && '\n' !in codeBuffer
      modifies this
      ensures Valid(View()) && (View(), out) == Flush(cfg, old(View()))
      ensures textBuffer == codeBuffer == ""
    {
      hide Strip, ExcerptMarker;
      out := "";
      if codeBuffer != "" {
        if Strip(codeBuffer, cfg.isSpace) == FENCE {
          if omittedCodeLines != 0 {
            out := ExcerptMarker(cfg, omittedCodeLines);
          }
          assert "" + DIM == DIM;
          out := out + DIM + FENCE + RESET;
          mode := Text;
          codeLineCount, omittedCodeLines := 0, 0;
        } else if codeLineCount < cfg.maxLines {
          out := cfg.ansiSyntax(codeBuffer, language);
        } else {
          omittedCodeLines := omittedCodeLines + 1;
        }
        codeBuffer := "";
      }
      assert out + "" == out && "" + ExcerptMarker(cfg, omittedCodeLines) == ExcerptMarker(cfg, omittedCodeLines);
      if omittedCodeLines != 0 {
        out := out + ExcerptMarker(cfg, omittedCodeLines);
        omittedCodeLines := 0;
      }
    }
  }

  /** A run through the first fence of the text. */
  lemma FenceStep(cfg: Config, s: State, text: string)
    requires s.mode == Text && s.textBuffer == s.fenceHeader == s.codeBuffer == "" && Find(text, FENCE) >= 0
    ensures
      var f := Find(text, FENCE);
      var rest := text[f + 3..];
      var n := IndexOf(rest, '\n');
      if n < 0 then Run(cfg, s, text) == (s.(mode := FenceHeader, fenceHeader := rest), text[..f])
      else
        Run(cfg, s, text)
        == Joined(text[..f] + HeaderLine(rest[..n]), Run(cfg, EnterCode(cfg, s, rest[..n]), rest[n + 1..]))
  {
    hide Run, Find, IndexOf, HeaderLine, LanguageOf;
    var f := Find(text, FENCE);
    var rest := text[f + 3..];
    var n := IndexOf(rest, '\n');
    var inHeader := s.(mode := FenceHeader);
    FenceRun(cfg, s, text);
    assert text == text[..f + 3] + rest;
    RunConcat(cfg, s, text[..f + 3], rest);
    if n < 0 {
      HeaderRun(cfg, inHeader, rest);
      assert "" + rest == rest && text[..f] + "" == text[..f];
    } else {
      SplitAt(rest, n, '\n');
      HeaderLineRun(cfg, inHeader, rest[..n]);
      assert "" + rest[..n] == rest[..n];
      RunConcat(cfg, inHeader, rest[..n] + "\n", rest[n + 1..]);
      JoinedTwice(text[..f], HeaderLine(rest[..n]), Run(cfg, EnterCode(cfg, s, rest[..n]), rest[n + 1..]));
    }
  }

  /** A run through the first complete line of code. */
  lemma CodeStep(cfg: Config, s: State, text: string)
    requires s.mode == Code && s.codeBuffer == "" && IndexOf(text, '\n') >= 0
    ensures
      var n := IndexOf(text, '\n');
      Run(cfg, s, text) == Joined(EndLine(cfg, s, text[..n]).1, Run(cfg, EndLine(cfg, s, text[..n]).0, text[n + 1..]))
  {
    hide Run, IndexOf, EndLine;
    var n := IndexOf(text, '\n');
    SplitAt(text, n, '\n');
    CodeLineRun(cfg, s, text[..n]);
    assert "" + text[..n] == text[..n];
    RunConcat(cfg, s, text[..n] + "\n", text[n + 1..]);
  }

  /** Text without a fence, drained. */
  lemma DrainedText(cfg: Config, s: State, text: string)
    requires Find(text, FENCE) < 0 && s.textBuffer == ""
    requires s.mode == Text ==> Valid(s)
    requires s.mode != Text ==> text == ""
    ensures Run(cfg, s, text) == (s.(textBuffer := text[SafeLength(text)..]), text[..SafeLength(text)])
    ensures s.mode == Text ==> Ticks(text[SafeLength(text)..])
  {
    if s.mode == Text {
      assert "" + text == text;
      PlainRun(cfg, s, text);
      RunKeepsValid(cfg, s, text);
    }
  }

  /** A state between two calls is where a drained run left it. */
  lemma SettledRun(cfg: Config, s: State, out: string)
    requires Valid(s)
    ensures Joined(out, Run(cfg, s.(textBuffer := ""), s.textBuffer)) == (s, out)
  {
    assert out + "" == out;
    if s.mode == Text {
      TicksRun(cfg, s.(textBuffer := ""), s.textBuffer);
    }
  }

  lemma RunEmpty(cfg: Config, s: State, out: string)
    ensures Joined(out, Run(cfg, s, "")) == (s, out)
  {
    assert out + "" == out;
  }

  lemma SplitAt(s: string, i: nat, c: char)
    requires i < |s| && s[i] == c
    ensures s == s[..i] + [c] + s[i + 1..]
  {
  }
}
