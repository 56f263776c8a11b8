/**
 * Identities of string concatenation and slicing.  They state nothing
 * about the converter; the proofs elsewhere call them so that the solver
 * sees a long concatenation grouped the way the next step needs it.
 */
module Seqs {

  lemma Assoc(a: string, b: string, c: string)
    ensures a + b + c == a + (b + c)
  {
  }

  lemma Assoc3(a: string, b: string, c: string, d: string)
    ensures a + b + c + d == a + (b + c + d)
  {
  }

  lemma Regroup(a: string, j: string, c: string, x: string)
    ensures a + j + c + x == a + ((j + c) + x)
  {
  }

  lemma MovedField(h: string, t: string, m: string, e: string)
    ensures h + (t + m) + m + "" + e == h + t + m + m + e
  {
  }

  /** Dropping a leading newline. */
  lemma DropNewline(a: string, x: string)
    ensures ("\n" + a + x)[1..] == a + x
  {
  }

  lemma SplitAt(s: string, n: nat)
    requires n <= |s|
    ensures s == s[..n] + s[n..]
  {
  }

  /** A text joined around a one-character separator splits back into its parts. */
  lemma SplitAround(a: string, sep: char, b: string)
    ensures (a + [sep] + b)[..|a|] == a && (a + [sep] + b)[|a|] == sep
    ensures (a + [sep] + b)[|a| + 1..] == b
  {
  }

  lemma SliceOfPrefix(a: string, n: string, s: string, i: nat, j: nat)
    requires i <= j <= |a|
    ensures (a + n + s)[i..j] == a[i..j]
  {
  }

  lemma SliceOfSlice(s: string, i: nat, j: nat, k: nat, l: nat)
    requires i <= j <= |s| && k <= l <= j - i
    ensures s[i..j][k..l] == s[i + k..i + l]
  {
    assert forall x :: 0 <= x < l - k ==> s[i..j][k..l][x] == s[i + k..i + l][x];
  }

  /** Equal texts with the same frame have the same middle. */
  lemma CancelAround(p: string, b1: string, b2: string, e: string)
    ensures p + b1 + e == p + b2 + e <==> b1 == b2
  {
    if p + b1 + e == p + b2 + e {
      assert |b1| == |b2|;
      assert b1 == (p + b1 + e)[|p|..|p| + |b1|];
      assert b2 == (p + b2 + e)[|p|..|p| + |b2|];
    }
  }
}
