/** String search and pieces of strings, shared by the stream parsers. */
module Strings {
  import opened Sequences

  /** `pattern` occurs in `s` at `i`. */
  predicate OccursAt(s: string, pattern: string, i: int) {
    0 <= i && i + |pattern| <= |s| && s[i..i + |pattern|] == pattern
  }

  predicate Occurs(s: string, pattern: string) {
    exists i :: 0 <= i <= |s| && OccursAt(s, pattern, i)
  }

  lemma OccursAtChar(s: string, pattern: string, i: int, k: nat)
    requires OccursAt(s, pattern, i) && k < |pattern|
    ensures s[i + k] == pattern[k]
  {
    assert s[i..i + |pattern|][k] == s[i + k];
  }

  lemma OccursAtTail(s: string, pattern: string)
    requires s != ""
    ensures forall j :: 0 < j <= |s| ==> (OccursAt(s, pattern, j) <==> OccursAt(s[1..], pattern, j - 1))
  {
    forall j | 0 < j <= |s| && j + |pattern| <= |s|
      ensures OccursAt(s, pattern, j) <==> OccursAt(s[1..], pattern, j - 1)
    {
      SliceOfDrop(s, 1, j - 1, j - 1 + |pattern|);
    }
  }

  /** The first position of `pattern` in `s`, or -1. */
  function Find(s: string, pattern: string): (r: int)
    ensures r == -1 || 0 <= r <= |s| - |pattern|
    ensures r >= 0 ==> OccursAt(s, pattern, r) && forall j :: 0 <= j < r ==> !OccursAt(s, pattern, j)
    ensures r < 0 ==> forall j :: 0 <= j <= |s| ==> !OccursAt(s, pattern, j)
  {
    if |s| < |pattern| then -1
    else if s[..|pattern|] == pattern then 0
    else if s == "" then -1
    else
      var rest := Find(s[1..], pattern);
      assert forall j :: 0 < j <= |s| ==> (OccursAt(s, pattern, j) <==> OccursAt(s[1..], pattern, j - 1)) by {
        OccursAtTail(s, pattern);
      }
      if rest < 0 then -1 else rest + 1
  }

  /** Where `pattern` does not occur in the whole, it does not occur in a part. */
  lemma NotInParts(a: string, b: string, pattern: string)
    requires !Occurs(a + b, pattern)
    ensures !Occurs(a, pattern) && !Occurs(b, pattern)
  {
    forall i | 0 <= i <= |a| && OccursAt(a, pattern, i) ensures false {
      assert (a + b)[i..i + |pattern|] == a[i..i + |pattern|];
      assert OccursAt(a + b, pattern, i);
    }
    forall i | 0 <= i <= |b| && OccursAt(b, pattern, i) ensures false {
      assert (a + b)[|a| + i..|a| + i + |pattern|] == b[i..i + |pattern|];
      assert OccursAt(a + b, pattern, |a| + i);
    }
  }

  /** Up to its first occurrence the pattern does not occur. */
  lemma BeforeFirst(s: string, pattern: string, f: int)
    requires OccursAt(s, pattern, f) && forall j :: 0 <= j < f ==> !OccursAt(s, pattern, j)
    requires pattern != ""
    ensures s[..f + |pattern|] == s[..f] + pattern && !Occurs(s[..f], pattern)
  {
    forall i | 0 <= i <= f && OccursAt(s[..f], pattern, i) ensures false {
      assert s[i..i + |pattern|] == s[..f][i..i + |pattern|];
      assert OccursAt(s, pattern, i);
    }
  }

  /** The first position of a character, or -1. */
  function IndexOf(s: string, c: char): (r: int)
    ensures -1 <= r < |s|
    ensures r < 0 ==> c !in s
    ensures r >= 0 ==> s[r] == c && c !in s[..r]
  {
    if s == "" then -1
    else if s[0] == c then 0
    else
      var rest := IndexOf(s[1..], c);
      assert s == [s[0]] + s[1..];
      assert rest >= 0 ==> s[..rest + 1] == [s[0]] + s[1..][..rest];
      if rest < 0 then -1 else rest + 1
  }

  function Concat(parts: seq<string>): string {
    if parts == [] then "" else parts[0] + Concat(parts[1..])
  }

  lemma ConcatNone()
    ensures Concat([]) == ""
  {
  }

  lemma ConcatOne(s: string)
    ensures Concat([s]) == s
  {
    assert Concat([s]) == s + Concat([s][1..]) && [s][1..] == [] && s + "" == s;
  }

  lemma {:induction false} ConcatAppend(a: seq<string>, b: seq<string>)
    ensures Concat(a + b) == Concat(a) + Concat(b)
  {
    if a == [] {
      EmptyAppend(b);
      EmptyAppend(Concat(b));
    } else {
      HeadOfAppend(a, b);
      ConcatAppend(a[1..], b);
      AppendAssoc(a[0], Concat(a[1..]), Concat(b));
    }
  }

  /** A natural number in decimal. */
  function Decimal(n: nat): (r: string)
    ensures |r| > 0 && forall c :: c in r ==> '0' <= c <= '9'
  {
    var digit := ['0' + (n % 10) as char];
    if n < 10 then digit else Decimal(n / 10) + digit
  }

  /** The number that a row of digits stands for. */
  function ValueOf(digits: string): int {
    if digits == "" then 0
    else 10 * ValueOf(digits[..|digits| - 1]) + (digits[|digits| - 1] as int - '0' as int)
  }

  /** A number's digits stand for the number, without a zero in front. */
  lemma {:induction false} DecimalHasValue(n: nat)
    ensures ValueOf(Decimal(n)) == n && (n >= 10 ==> Decimal(n)[0] != '0')
  {
    var digit := '0' + (n % 10) as char;
    if n < 10 {
      assert Decimal(n) == [digit] && [digit][..0] == "";
      assert ValueOf("") == 0;
    } else {
      var front := Decimal(n / 10);
      DecimalHasValue(n / 10);
      assert (front + [digit])[..|front|] == front;
      assert n / 10 < 10 ==> front == ['0' + (n / 10 % 10) as char];
    }
  }

  lemma DecimalInjective(m: nat, n: nat)
    requires Decimal(m) == Decimal(n)
    ensures m == n
  {
    DecimalHasValue(m);
    DecimalHasValue(n);
  }

  /** The characters that JavaScript's `\s` matches and `trim` removes. */
  predicate IsSpace(c: char) {
    c in "\t\n\U{0B}\U{0C}\r \U{A0}\U{1680}\U{2028}\U{2029}\U{202F}\U{205F}\U{3000}\U{FEFF}" || '\U{2000}' <= c <= '\U{200A}'
  }

  /** The code points of those characters: line ends, blanks of any width, the byte order mark. */
  lemma SpaceCodes(c: char)
    ensures IsSpace(c) <==>
      var n := c as int;
      || 9 <= n <= 13 || n == 32 || n == 160 || n == 5760 || 8192 <= n <= 8202 || n == 8232 || n == 8233
      || n == 8239 || n == 8287 || n == 12288 || n == 65279
  {
  }

  // ---------------------------------------------------------------- white space at the ends

  function StripLeft(s: string, isSpace: char -> bool): string {
    if s != "" && isSpace(s[0]) then StripLeft(s[1..], isSpace) else s
  }

  function Strip(s: string, isSpace: char -> bool): string {
    StripRight(StripLeft(s, isSpace), isSpace)
  }

  function StripRight(s: string, isSpace: char -> bool): string {
    if s != "" && isSpace(s[|s| - 1]) then StripRight(s[..|s| - 1], isSpace) else s
  }

  predicate Blank(s: string, isSpace: char -> bool) {
    forall c :: c in s ==> isSpace(c)
  }

  /** A word without white space at its ends. */
  predicate Tight(s: string, isSpace: char -> bool) {
    s != "" && !isSpace(s[0]) && !isSpace(s[|s| - 1])
  }

  lemma {:induction false} BlankStrips(s: string, isSpace: char -> bool)
    requires Blank(s, isSpace)
    ensures Strip(s, isSpace) == ""
    decreases |s|
  {
    if s != "" {
      assert s[0] in s && forall c :: c in s[1..] ==> c in s;
      BlankStrips(s[1..], isSpace);
    }
  }

  lemma {:induction false} StripTight(before: string, word: string, after: string, isSpace: char -> bool)
    requires Blank(before, isSpace) && Blank(after, isSpace) && Tight(word, isSpace)
    ensures Strip(before + word + after, isSpace) == word
    decreases |before| + |after|
  {
    var s := before + word + after;
    if before != "" {
      assert before[0] in before && forall c :: c in before[1..] ==> c in before;
      StripTight(before[1..], word, after, isSpace);
      assert s[0] == before[0] && s[1..] == before[1..] + word + after;
    } else if after != "" {
      var n := |after| - 1;
      assert after[n] in after && forall c :: c in after[..n] ==> c in after;
      StripTight(before, word, after[..n], isSpace);
      assert s[0] == word[0] && s[|s| - 1] == after[n] && s[..|s| - 1] == before + word + after[..n];
      assert (before + word + after[..n])[0] == word[0];
    } else {
      assert s == word;
    }
  }

  function Trim(s: string): string {
    Strip(s, IsSpace)
  }

  /** Nothing to trim. */
  lemma TrimUnchanged(s: string)
    requires s != "" && !IsSpace(s[0]) && !IsSpace(s[|s| - 1])
    ensures Trim(s) == s
  {
  }
}
