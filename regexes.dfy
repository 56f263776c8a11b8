/**
 * The three compiled regular expressions of the converter (converter.py
 * lines 13-22) and `re.sub`.
 *
 * Each pattern is deterministic: every character class in it excludes the
 * character that ends the class's run (`\s` excludes `/`, `>` and `{`;
 * `[^{}]` excludes `}`), so backtracking never finds a second way to match.
 * A compiled pattern is therefore modelled as a `Matcher`: the length of the
 * one match at the start of a string, if there is one.  `Sub` is the
 * left-to-right scan of `re.sub`: try to match at the current position; on
 * a match emit the replacement and resume after the match, otherwise copy
 * one character and move on.
 */
module Regexes {
  import opened Wrappers
  import opened PyText

  type Matcher = string -> Option<nat>

  /** The tag both checkbox patterns open with. */
  const INPUT_TAG: string := "<input"

  /** The literal part of `_RE_UNCHECKED` (converter.py line 20). */
  const UNCHECKED_PREFIX: string :=
    "<input" + " class=\"task-list-item-checkbox\"" + " type=\"checkbox\"" + " disabled"

  /** The literal part of `_RE_CHECKED` (converter.py line 16): the unchecked literal followed by ` checked`. */
  const CHECKED_PREFIX: string := UNCHECKED_PREFIX + " checked"

  /** The at-keyword of `_RE_PAGE_AT_RULE` (converter.py line 13); the pattern has no IGNORECASE flag. */
  const PAGE_KEYWORD: string := "@page"

  predicate IsBrace(c: char) {
    c == '{' || c == '}'
  }

  predicate BraceFree(s: string) {
    forall i :: 0 <= i < |s| ==> !IsBrace(s[i])
  }

  /** Length of the longest brace-free prefix of `s` (what `[^{}]*` consumes). */
  function BraceFreeRun(s: string): (n: nat)
    ensures n <= |s|
    ensures BraceFree(s[..n])
    ensures n < |s| ==> IsBrace(s[n])
  {
    if s == [] || IsBrace(s[0]) then 0 else 1 + BraceFreeRun(s[1..])
  }

  /** A brace-free run followed by a brace is consumed exactly. */
  lemma {:induction false} BraceFreeRunOf(body: string, rest: string)
    requires BraceFree(body)
    requires rest != [] && IsBrace(rest[0])
    ensures BraceFreeRun(body + rest) == |body|
  {
    if body != [] {
      assert (body + rest)[1..] == body[1..] + rest;
      BraceFreeRunOf(body[1..], rest);
    } else {
      assert body + rest == rest;
    }
  }

  /** Match of `\s*` followed by an optional `/` and `>`, from position `k` of `s`: the end of the match. */
  function CloseMatch(s: string, k: nat): (m: Option<nat>)
    requires k <= |s|
    ensures m.Some? ==> k < m.value <= |s|
  {
    var j := k + SpaceRun(s[k..]);
    if j < |s| && s[j] == '>' then Some(j + 1)
    else if j + 1 < |s| && s[j] == '/' && s[j + 1] == '>' then Some(j + 2)
    else None
  }

  /**
   * Match of `prefix\s*` followed by an optional `/` and `>`, the literal
   * compared case-insensitively, at the start of `s`.
   */
  function ControlMatch(prefix: string, s: string): (m: Option<nat>)
    ensures m.Some? ==> FoldPrefix(prefix, s) && |prefix| < m.value <= |s|
  {
    if !FoldPrefix(prefix, s) then None else CloseMatch(s, |prefix|)
  }

  /** Match of `@page\s*\{[^{}]*\}` at the start of `s`. */
  function PageRuleMatch(s: string): (m: Option<nat>)
    ensures m.Some? ==> |PAGE_KEYWORD| < m.value <= |s| && s[..5] == PAGE_KEYWORD
  {
    if |s| < 5 || s[..5] != PAGE_KEYWORD then None
    else
      var k := 5 + SpaceRun(s[5..]);
      if k == |s| || s[k] != '{' then None
      else
        var e := k + 1 + BraceFreeRun(s[k + 1..]);
        if e < |s| && s[e] == '}' then Some(e + 1) else None
  }

  /** `_RE_PAGE_AT_RULE`. */
  const RE_PAGE_AT_RULE: Matcher := s => PageRuleMatch(s)

  /** `_RE_CHECKED`. */
  const RE_CHECKED: Matcher := s => ControlMatch(CHECKED_PREFIX, s)

  /** `_RE_UNCHECKED`. */
  const RE_UNCHECKED: Matcher := s => ControlMatch(UNCHECKED_PREFIX, s)

  /** Every match is a non-empty prefix of the text. */
  ghost predicate Advances(m: Matcher) {
    forall s {:trigger m(s)} :: m(s).Some? ==> 0 < m(s).value <= |s|
  }

  /** Every match starts with the character `c`. */
  ghost predicate Leads(m: Matcher, c: char) {
    forall s {:trigger m(s)} :: m(s).Some? ==> s != [] && s[0] == c
  }

  lemma CompiledPatterns()
    ensures Advances(RE_PAGE_AT_RULE) && Leads(RE_PAGE_AT_RULE, '@')
    ensures Advances(RE_CHECKED) && Advances(RE_UNCHECKED)
  {
    forall s | RE_PAGE_AT_RULE(s).Some? ensures s != [] && s[0] == '@' {
      assert s[..5][0] == s[0];
    }
  }

  /** No position of `s` starts a match. */
  ghost predicate NoMatch(m: Matcher, s: string) {
    forall i {:trigger m(s[i..])} :: 0 <= i < |s| ==> m(s[i..]).None?
  }

  /** `pattern.sub(repl, s)`. */
  function Sub(m: Matcher, repl: string, s: string): (r: string)
    requires Advances(m)
    decreases |s|
  {
    if s == [] then []
    else match m(s)
      case Some(n) => repl + Sub(m, repl, s[n..])
      case None => [s[0]] + Sub(m, repl, s[1..])
  }

  /** Positions that start no match are copied through unchanged. */
  lemma {:induction false} SubSkip(m: Matcher, repl: string, s: string, k: nat)
    requires Advances(m) && k <= |s|
    requires forall i {:trigger m(s[i..])} :: 0 <= i < k ==> m(s[i..]).None?
    ensures Sub(m, repl, s) == s[..k] + Sub(m, repl, s[k..])
  {
    if k == 0 {
      assert s[..0] + Sub(m, repl, s[0..]) == Sub(m, repl, s);
    } else {
      assert m(s[0..]).None?;
      assert s[0..] == s;
      forall i | 0 <= i < k - 1 ensures m(s[1..][i..]).None? {
        assert s[1..][i..] == s[i + 1..];
      }
      SubSkip(m, repl, s[1..], k - 1);
      assert s[1..][k - 1..] == s[k..];
      assert [s[0]] + s[1..][..k - 1] == s[..k];
    }
  }

  /** With no match anywhere, `re.sub` returns its input. */
  lemma SubNoMatch(m: Matcher, repl: string, s: string)
    requires Advances(m) && NoMatch(m, s)
    ensures Sub(m, repl, s) == s
  {
    SubSkip(m, repl, s, |s|);
    assert s[..|s|] == s;
  }

  /**
   * `re.sub` replaces the leftmost match with `repl`, keeps the text before
   * it verbatim, and carries on with the text after the match.
   */
  lemma SubLeftmost(m: Matcher, repl: string, s: string, j: nat, n: nat)
    requires Advances(m) && j < |s| && m(s[j..]) == Some(n)
    requires forall i {:trigger m(s[i..])} :: 0 <= i < j ==> m(s[i..]).None?
    ensures Sub(m, repl, s) == s[..j] + repl + Sub(m, repl, s[j + n..])
  {
    SubSkip(m, repl, s, j);
    assert s[j..][n..] == s[j + n..];
  }

  /** Text without the character every match starts with passes through `re.sub` unchanged. */
  lemma SubLeadFree(m: Matcher, c: char, repl: string, a: string, x: string)
    requires Advances(m) && Leads(m, c) && c !in a
    ensures Sub(m, repl, a + x) == a + Sub(m, repl, x)
  {
    forall i | 0 <= i < |a| ensures m((a + x)[i..]).None? {
      assert (a + x)[i..][0] == a[i];
    }
    SubSkip(m, repl, a + x, |a|);
    assert (a + x)[..|a|] == a;
    assert (a + x)[|a|..] == x;
  }

  /** A character that starts no match is copied. */
  lemma SubCopy(m: Matcher, repl: string, c: char, x: string)
    requires Advances(m) && m([c] + x).None?
    ensures Sub(m, repl, [c] + x) == [c] + Sub(m, repl, x)
  {
    assert ([c] + x)[1..] == x;
  }

  /** A match is replaced and the scan resumes after it. */
  lemma SubReplace(m: Matcher, repl: string, s: string, n: nat)
    requires Advances(m) && s != [] && m(s) == Some(n)
    ensures Sub(m, repl, s) == repl + Sub(m, repl, s[n..])
  {
  }
}
