/** Rearranging concatenations, one step at a time. */
module Sequences {
  lemma AppendAssoc<T>(a: seq<T>, b: seq<T>, c: seq<T>)
    ensures (a + b) + c == a + (b + c)
  {
  }

  lemma HeadOfAppend<T>(a: seq<T>, b: seq<T>)
    requires a != []
    ensures (a + b)[0] == a[0] && (a + b)[1..] == a[1..] + b && a + b != []
  {
  }

  lemma SliceOfDrop<T>(s: seq<T>, n: nat, i: nat, j: nat)
    requires n <= |s| && i <= j <= |s| - n
    ensures s[n..][i..j] == s[n + i..n + j]
  {
    forall k | 0 <= k < j - i ensures s[n..][i..j][k] == s[n + i..n + j][k] {
      assert s[n..][i..j][k] == s[n..][i + k] == s[n + i + k];
    }
  }

  lemma EmptyAppend<T>(a: seq<T>)
    ensures [] + a == a == a + []
  {
  }
}
