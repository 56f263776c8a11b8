/**
 * The pieces of Python's string semantics that the converter relies on:
 * the whitespace class shared by `str.isspace`, `str.strip`, `str.split()`
 * and the regular-expression escape `\s`, and the character comparison
 * that `re.IGNORECASE` performs for a pattern literal.
 */
module PyText {

  /** `c.isspace()` in Python; also what `\s` matches in a `str` pattern. */
  predicate IsSpace(c: char) {
    var n := c as int;
    (0x09 <= n <= 0x0D) || (0x1C <= n <= 0x20) || n == 0x85 || n == 0xA0 ||
    n == 0x1680 || (0x2000 <= n <= 0x200A) || n == 0x2028 || n == 0x2029 ||
    n == 0x202F || n == 0x205F || n == 0x3000
  }

  predicate AllSpace(s: string) {
    forall i :: 0 <= i < |s| ==> IsSpace(s[i])
  }

  predicate NoSpace(s: string) {
    forall i :: 0 <= i < |s| ==> !IsSpace(s[i])
  }

  /** Length of the longest all-whitespace prefix of `s` (what a greedy `\s*` consumes). */
  function SpaceRun(s: string): (n: nat)
    ensures n <= |s|
    ensures AllSpace(s[..n])
    ensures n < |s| ==> !IsSpace(s[n])
  {
    if s == [] || !IsSpace(s[0]) then 0 else 1 + SpaceRun(s[1..])
  }

  /** Length of the longest all-whitespace suffix of `s`. */
  function TrailingSpaceRun(s: string): (n: nat)
    ensures n <= |s|
    ensures AllSpace(s[|s| - n..])
    ensures n < |s| ==> !IsSpace(s[|s| - n - 1])
  {
    if s == [] || !IsSpace(s[|s| - 1]) then 0
    else
      var n := 1 + TrailingSpaceRun(s[..|s| - 1]);
      assert s[|s| - n..] == s[..|s| - 1][|s| - n..] + [s[|s| - 1]];
      n
  }

  /** A greedy `\s*` stops at the same place in two strings that agree up to and including the first non-space character. */
  lemma {:induction false} SpaceRunLocal(a: string, b: string)
    requires SpaceRun(a) < |a| && SpaceRun(a) < |b|
    requires a[..SpaceRun(a) + 1] == b[..SpaceRun(a) + 1]
    ensures SpaceRun(b) == SpaceRun(a)
  {
    if !IsSpace(a[0]) {
      assert a[0] == b[0];
    } else {
      assert a[0] == b[0];
      assert a[1..][..SpaceRun(a[1..]) + 1] == b[1..][..SpaceRun(a[1..]) + 1];
      SpaceRunLocal(a[1..], b[1..]);
    }
  }

  /** A whitespace run followed by a non-space character is consumed exactly. */
  lemma {:induction false} SpaceRunOf(ws: string, rest: string)
    requires AllSpace(ws)
    requires rest != [] && !IsSpace(rest[0])
    ensures SpaceRun(ws + rest) == |ws|
  {
    if ws != [] {
      assert (ws + rest)[1..] == ws[1..] + rest;
      SpaceRunOf(ws[1..], rest);
    } else {
      assert ws + rest == rest;
    }
  }

  /** The whitespace run covers the whole string exactly when the string is blank. */
  lemma SpaceRunAll(s: string)
    ensures SpaceRun(s) == |s| <==> AllSpace(s)
  {
    assert s[..|s|] == s;
  }

  /** `s.strip()`: `s` without its leading and trailing whitespace. */
  function Strip(s: string): (r: string)
    ensures SpaceRun(s) + |r| <= |s|
    ensures r == s[SpaceRun(s)..SpaceRun(s) + |r|]
    ensures AllSpace(s[SpaceRun(s) + |r|..])
    ensures r == [] <==> AllSpace(s)
    ensures r != [] ==> !IsSpace(r[0]) && !IsSpace(r[|r| - 1])
  {
    var rest := s[SpaceRun(s)..];
    SpaceRunAll(s);
    rest[..|rest| - TrailingSpaceRun(rest)]
  }

  /** Longest prefix of `s` without whitespace. */
  function FirstToken(s: string): (t: string)
    ensures t <= s
    ensures NoSpace(t)
    ensures |t| < |s| ==> IsSpace(s[|t|])
  {
    if s == [] || IsSpace(s[0]) then [] else [s[0]] + FirstToken(s[1..])
  }

  /**
   * `s.split(None, 1)[0]`: the first whitespace-separated field.  Python
   * raises IndexError when `s` is blank, so callers only split text that
   * holds a non-space character.
   */
  function SplitFirstField(s: string): (t: string)
    requires !AllSpace(s)
    ensures t != [] && NoSpace(t)
    ensures t <= s[SpaceRun(s)..]
    ensures |t| < |s| - SpaceRun(s) ==> IsSpace(s[SpaceRun(s) + |t|])
  {
    SpaceRunAll(s);
    FirstToken(s[SpaceRun(s)..])
  }

  /** Lower-case form of an ASCII letter; other characters are returned unchanged. */
  function AsciiLower(c: char): (l: char) {
    if 'A' <= c <= 'Z' then (c as int + 32) as char else c
  }

  /**
   * `c` matches the ASCII pattern literal `p` under `re.IGNORECASE` on a
   * `str` pattern: either case of the letter, and the four non-ASCII
   * characters Python folds onto ASCII letters (U+0130 and U+0131 onto i,
   * U+017F onto s, the Kelvin sign U+212A onto k).  Characters that are not
   * letters match only themselves.
   */
  predicate FoldsTo(c: char, p: char) {
    var lp := AsciiLower(p);
    if 'a' <= lp <= 'z' then
      AsciiLower(c) == lp ||
      (lp == 'i' && (c as int == 0x130 || c as int == 0x131)) ||
      (lp == 's' && c as int == 0x17F) ||
      (lp == 'k' && c as int == 0x212A)
    else c == p
  }

  /** `s` starts with the pattern literal `lit`, compared under `re.IGNORECASE`. */
  predicate FoldPrefix(lit: string, s: string)
    ensures FoldPrefix(lit, s) ==> |lit| <= |s|
    decreases |lit|
  {
    lit == [] || (s != [] && FoldsTo(s[0], lit[0]) && FoldPrefix(lit[1..], s[1..]))
  }

  /** `FoldPrefix` compares the two strings position by position. */
  lemma {:induction false} FoldPrefixAt(lit: string, s: string)
    ensures FoldPrefix(lit, s) <==> |lit| <= |s| && forall i :: 0 <= i < |lit| ==> FoldsTo(s[i], lit[i])
    decreases |lit|
  {
    if lit != [] && s != [] {
      FoldPrefixAt(lit[1..], s[1..]);
      if |lit| <= |s| && forall i :: 0 <= i < |lit| ==> FoldsTo(s[i], lit[i]) {
        forall i | 0 <= i < |lit| - 1 ensures FoldsTo(s[1..][i], lit[1..][i]) {
          assert FoldsTo(s[i + 1], lit[i + 1]);
        }
      }
    }
  }

  /** A character that case-folds onto a pattern character other than `<` is not `<`. */
  lemma FoldsToLt(c: char, p: char)
    requires FoldsTo(c, p)
    ensures c == '<' <==> p == '<'
  {
  }

  lemma FoldPrefixSelf(lit: string, rest: string)
    ensures FoldPrefix(lit, lit + rest)
  {
    FoldPrefixAt(lit, lit + rest);
    forall i | 0 <= i < |lit| ensures FoldsTo((lit + rest)[i], lit[i]) {
      assert (lit + rest)[i] == lit[i];
    }
  }

  /** A case-insensitive match of `a + b` matches `b` right after `a`. */
  lemma {:induction false} FoldPrefixSplit(a: string, b: string, s: string)
    requires FoldPrefix(a + b, s)
    ensures |a| <= |s| && FoldPrefix(b, s[|a|..])
    decreases |a|
  {
    if a == [] {
      assert a + b == b;
    } else {
      assert (a + b)[1..] == a[1..] + b;
      FoldPrefixSplit(a[1..], b, s[1..]);
      assert s[1..][|a| - 1..] == s[|a|..];
    }
  }

  /** A case-insensitive match of `a + b` begins with a match of `a`. */
  lemma FoldPrefixHead(a: string, b: string, s: string)
    ensures FoldPrefix(a + b, s) ==> FoldPrefix(a, s)
  {
    FoldPrefixAt(a + b, s);
    FoldPrefixAt(a, s);
    if FoldPrefix(a + b, s) {
      forall i | 0 <= i < |a| ensures FoldsTo(s[i], a[i]) {
        assert (a + b)[i] == a[i];
      }
    }
  }
}
