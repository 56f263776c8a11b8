/**
 * `_replace_checkboxes` (converter.py lines 25-32): the two disabled
 * task-list `<input>` controls that the Markdown renderer emits are replaced
 * by inert ballot-box glyphs, first the checked ones, then the unchecked ones.
 */
module Checkboxes {
  import opened Wrappers
  import opened PyText
  import opened Regexes
  import opened Controls

  /** Replacement for a checked control (converter.py line 27). */
  const CHECKED_GLYPH: string :=
    "<span" + " class=\"task-checkbox task-checked\">" + "&#x2611;" + "</span>"

  /** Replacement for an unchecked control (converter.py line 30). */
  const UNCHECKED_GLYPH: string :=
    "<span" + " class=\"task-checkbox\">" + "&#x2610;" + "</span>"

  /** `x` and `y` have the same first `n` characters. */
  predicate Agree(x: string, y: string, n: nat) {
    n <= |x| && n <= |y| && x[..n] == y[..n]
  }

  /**
   * What the checkbox patterns have in common: every match starts with `<`
   * and a character that folds to `i` and holds no other `<`, and whether a
   * match is found depends only on the characters it covers.
   */
  ghost predicate TagMatcher(m: Matcher) {
    Advances(m)
    && (forall s {:trigger m(s)} :: m(s).Some? ==>
          |s| >= 2 && s[0] == '<' && FoldsTo(s[1], 'i') && LtOnlyFirst(s, m(s).value))
    && (forall x, y, n {:trigger Agree(x, y, n)} :: m(x) == Some(n) && Agree(x, y, n) ==> m(y) == Some(n))
  }

  lemma ControlMatcher(prefix: string, m: Matcher)
    requires TagLiteral(prefix)
    requires forall s {:trigger m(s)} :: m(s) == ControlMatch(prefix, s)
    ensures TagMatcher(m)
  {
    forall s | m(s).Some?
      ensures |s| >= 2 && s[0] == '<' && FoldsTo(s[1], 'i') && LtOnlyFirst(s, m(s).value)
    {
      ControlMatchShape(prefix, s, m(s).value);
    }
    forall x, y, n | m(x) == Some(n) && Agree(x, y, n) ensures m(y) == Some(n) {
      ControlMatchLocal(prefix, x, y, n);
    }
  }

  /** Both checkbox patterns have the shape and locality of a tag. */
  lemma CheckboxMatchers()
    ensures TagMatcher(RE_CHECKED) && TagMatcher(RE_UNCHECKED)
  {
    PrefixesAreTags();
    ControlMatcher(CHECKED_PREFIX, RE_CHECKED);
    ControlMatcher(UNCHECKED_PREFIX, RE_UNCHECKED);
  }

  /**
   * Text in which every `<` is followed by a character that does not fold
   * to `i`: no checkbox match can start inside it, whatever follows it.
   */
  predicate Inert(a: string) {
    forall i :: 0 <= i < |a| && a[i] == '<' ==> i + 1 < |a| && !FoldsTo(a[i + 1], 'i')
  }

  lemma InertNoMatch(m: Matcher, a: string, t: string, i: nat)
    requires TagMatcher(m) && Inert(a) && i < |a|
    ensures m((a + t)[i..]).None?
  {
    var s := (a + t)[i..];
    assert s[0] == a[i];
  }

  lemma InertAppend(a: string, b: string)
    requires Inert(a) && Inert(b)
    ensures Inert(a + b)
  {
    forall i | 0 <= i < |a + b| && (a + b)[i] == '<'
      ensures i + 1 < |a + b| && !FoldsTo((a + b)[i + 1], 'i')
    {
      if i >= |a| {
        assert b[i - |a|] == '<';
      }
    }
  }

  lemma GlyphsInert()
    ensures Inert(CHECKED_GLYPH) && Inert(UNCHECKED_GLYPH)
    ensures CHECKED_GLYPH[0] == '<' && UNCHECKED_GLYPH[0] == '<'
  {
    var open, close := "<span", "</span>";
    assert Inert(open);
    assert Inert(close);
    var checkedAttributes := " class=\"task-checkbox task-checked\">" + "&#x2611;";
    var uncheckedAttributes := " class=\"task-checkbox\">" + "&#x2610;";
    assert '<' !in checkedAttributes && '<' !in uncheckedAttributes;
    InertAppend(open, checkedAttributes);
    InertAppend(open + checkedAttributes, close);
    InertAppend(open, uncheckedAttributes);
    InertAppend(open + uncheckedAttributes, close);
    assert CHECKED_GLYPH == open + checkedAttributes + close;
    assert UNCHECKED_GLYPH == open + uncheckedAttributes + close;
  }

  /** Every suffix of text without matches is without matches. */
  lemma NoMatchSuffix(m: Matcher, s: string, k: nat)
    requires NoMatch(m, s) && k <= |s|
    ensures NoMatch(m, s[k..])
  {
    forall i | 0 <= i < |s[k..]| ensures m(s[k..][i..]).None? {
      assert s[k..][i..] == s[k + i..];
    }
  }

  /**
   * Up to the first `<` of its output, `re.sub` with a replacement that
   * starts with `<` has copied its input unchanged.
   */
  lemma {:induction false} SubAgreesBeforeTag(p: Matcher, r: string, t: string, k: nat)
    requires Advances(p) && r != [] && r[0] == '<'
    requires k <= |Sub(p, r, t)| && '<' !in Sub(p, r, t)[..k]
    ensures k <= |t| && Sub(p, r, t)[..k] == t[..k]
    decreases |t|
  {
    if k > 0 {
      var out := Sub(p, r, t);
      assert out[..k][0] == out[0];
      match p(t)
      case Some(n) =>
        assert false;
      case None =>
        var u := Sub(p, r, t[1..]);
        assert out == [t[0]] + u;
        assert u[..k - 1] == out[..k][1..];
        SubAgreesBeforeTag(p, r, t[1..], k - 1);
        assert out[..k] == [t[0]] + u[..k - 1];
        assert t[..k] == [t[0]] + t[1..][..k - 1];
    }
  }

  /** An inert replacement in front of match-free text leaves it match-free. */
  lemma NoMatchAfterInert(q: Matcher, r: string, u: string)
    requires TagMatcher(q) && Inert(r) && NoMatch(q, u)
    ensures NoMatch(q, r + u)
  {
    forall i | 0 <= i < |r + u| ensures q((r + u)[i..]).None? {
      if i < |r| {
        InertNoMatch(q, r, u, i);
      } else {
        assert (r + u)[i..] == u[i - |r|..];
      }
    }
  }

  /**
   * A character that starts no match in the input starts none in the
   * output either: the output agrees with the input up to its next `<`.
   */
  lemma NoMatchAfterCopy(q: Matcher, p: Matcher, r: string, s: string)
    requires TagMatcher(q) && Advances(p) && r != [] && r[0] == '<'
    requires s != [] && q(s).None?
    requires NoMatch(q, Sub(p, r, s[1..]))
    ensures NoMatch(q, [s[0]] + Sub(p, r, s[1..]))
  {
    var u := Sub(p, r, s[1..]);
    var out := [s[0]] + u;
    forall i | 0 <= i < |out| ensures q(out[i..]).None? {
      if i == 0 {
        assert out[0..] == out;
        if q(out).Some? {
          MatchBeforeCopy(q, p, r, s);
        }
      } else {
        assert out[i..] == u[i - 1..];
      }
    }
  }

  /** A match at a copied character is already a match in the input. */
  lemma MatchBeforeCopy(q: Matcher, p: Matcher, r: string, s: string)
    requires TagMatcher(q) && Advances(p) && r != [] && r[0] == '<'
    requires s != [] && q([s[0]] + Sub(p, r, s[1..])).Some?
    ensures q(s) == q([s[0]] + Sub(p, r, s[1..]))
  {
    CopyAgrees(p, r, s, q([s[0]] + Sub(p, r, s[1..])).value);
  }

  /** A copied character followed by the output up to its next `<` is a prefix of the input. */
  lemma CopyAgrees(p: Matcher, r: string, s: string, n: nat)
    requires Advances(p) && r != [] && r[0] == '<' && s != []
    requires 1 <= n <= 1 + |Sub(p, r, s[1..])| && LtOnlyFirst([s[0]] + Sub(p, r, s[1..]), n)
    ensures Agree([s[0]] + Sub(p, r, s[1..]), s, n)
  {
    var u := Sub(p, r, s[1..]);
    var out := [s[0]] + u;
    var before := u[..n - 1];
    forall j | 0 <= j < |before| ensures before[j] != '<' {
      assert out[j + 1] == before[j];
    }
    SubAgreesBeforeTag(p, r, s[1..], n - 1);
    assert out[..n] == [s[0]] + u[..n - 1];
    assert s[..n] == [s[0]] + s[1..][..n - 1];
  }

  /**
   * Substituting a checkbox pattern with an inert replacement that starts
   * with `<` leaves no match of that pattern behind, and creates no match of
   * a checkbox pattern the input did not already lack.
   */
  lemma {:induction false} SubCreatesNoControl(q: Matcher, p: Matcher, r: string, s: string)
    requires TagMatcher(q) && TagMatcher(p)
    requires Inert(r) && r != [] && r[0] == '<'
    requires q == p || NoMatch(q, s)
    ensures NoMatch(q, Sub(p, r, s))
    decreases |s|
  {
    if s != [] {
      assert s[0..] == s;
      match p(s)
      case Some(n) =>
        if q != p { NoMatchSuffix(q, s, n); }
        SubCreatesNoControl(q, p, r, s[n..]);
        NoMatchAfterInert(q, r, Sub(p, r, s[n..]));
      case None =>
        if q != p { NoMatchSuffix(q, s, 1); }
        SubCreatesNoControl(q, p, r, s[1..]);
        NoMatchAfterCopy(q, p, r, s);
    }
  }

  /** A match that starts in front of a `<` ends before it. */
  lemma SplitMatchInside(p: Matcher, a: string, x: string, n: nat)
    requires TagMatcher(p) && a != [] && x != [] && x[0] == '<'
    requires p(a + x) == Some(n)
    ensures n <= |a| && p(a) == Some(n)
  {
    var s := a + x;
    assert s[|a|] == '<';
    assert Agree(s, a, n);
  }

  lemma SplitNoMatch(p: Matcher, a: string, x: string)
    requires TagMatcher(p) && a != [] && p(a + x).None?
    ensures p(a).None?
  {
    if p(a).Some? {
      var n := p(a).value;
      assert Agree(a, a + x, n);
    }
  }

  /** `re.sub` with a checkbox pattern treats the text before a `<` and the text from it independently. */
  lemma {:induction false} SubSplitAtTag(p: Matcher, r: string, a: string, x: string)
    requires TagMatcher(p) && x != [] && x[0] == '<'
    ensures Sub(p, r, a + x) == Sub(p, r, a) + Sub(p, r, x)
    decreases |a|
  {
    if a == [] {
      assert a + x == x;
    } else {
      match p(a + x)
      case Some(n) =>
        SplitMatchInside(p, a, x, n);
        assert (a + x)[n..] == a[n..] + x;
        SubSplitAtTag(p, r, a[n..], x);
      case None =>
        SplitNoMatch(p, a, x);
        assert (a + x)[1..] == a[1..] + x;
        SubSplitAtTag(p, r, a[1..], x);
    }
  }

  /** A replacement with no place for a match is copied through by `re.sub`. */
  lemma SubInert(p: Matcher, r: string, g: string, x: string)
    requires TagMatcher(p) && Inert(g)
    ensures Sub(p, r, g + x) == g + Sub(p, r, x)
  {
    forall i | 0 <= i < |g| ensures p((g + x)[i..]).None? {
      InertNoMatch(p, g, x, i);
    }
    SubSkip(p, r, g + x, |g|);
    assert (g + x)[..|g|] == g;
    assert (g + x)[|g|..] == x;
  }

  /** No text is matched by both patterns. */
  ghost predicate Exclusive(p: Matcher, q: Matcher) {
    forall s {:trigger p(s)} {:trigger q(s)} :: !(p(s).Some? && q(s).Some?)
  }

  lemma CheckboxesExclusive()
    ensures Exclusive(RE_CHECKED, RE_UNCHECKED)
  {
    forall s ensures !(RE_CHECKED(s).Some? && RE_UNCHECKED(s).Some?) {
      ControlsExclusive(s);
    }
  }

  /** A match survives whatever follows it. */
  lemma MatchKept(p: Matcher, s: string, n: nat, t: string)
    requires TagMatcher(p) && p(s) == Some(n)
    ensures p(s[..n] + t) == Some(n)
  {
    assert Agree(s, s[..n] + t, n);
  }

  /** Inside a match of one checkbox pattern the other finds nothing to replace. */
  lemma SkipWithinMatch(p: Matcher, q: Matcher, r: string, s: string, n: nat)
    requires TagMatcher(p) && TagMatcher(q) && p(s) == Some(n) && q(s).None?
    ensures Sub(q, r, s) == s[..n] + Sub(q, r, s[n..])
  {
    forall i | 0 <= i < n ensures q(s[i..]).None? {
      if i == 0 {
        assert s[0..] == s;
      } else {
        assert s[i..][0] == s[i];
      }
    }
    SubSkip(q, r, s, n);
  }

  /** Both orders of substitution agree at a match of the first pattern, given that they agree after it. */
  lemma CommuteAtMatch(p: Matcher, rp: string, q: Matcher, rq: string, s: string, n: nat)
    requires TagMatcher(p) && TagMatcher(q) && Exclusive(p, q)
    requires Inert(rp) && Inert(rq)
    requires s != [] && p(s) == Some(n)
    requires Sub(q, rq, Sub(p, rp, s[n..])) == Sub(p, rp, Sub(q, rq, s[n..]))
    ensures Sub(q, rq, Sub(p, rp, s)) == Sub(p, rp, Sub(q, rq, s))
  {
    SubInert(q, rq, rp, Sub(p, rp, s[n..]));
    SkipWithinMatch(p, q, rq, s, n);
    var y := Sub(q, rq, s[n..]);
    MatchKept(p, s, n, y);
    assert (s[..n] + y)[n..] == y;
  }

  /** Substituting after a copied character copies it again. */
  lemma CommuteAtCopy(p: Matcher, rp: string, q: Matcher, rq: string, s: string)
    requires TagMatcher(p) && TagMatcher(q)
    requires rp != [] && rp[0] == '<'
    requires s != [] && p(s).None? && q(s).None?
    ensures Sub(q, rq, Sub(p, rp, s)) == [s[0]] + Sub(q, rq, Sub(p, rp, s[1..]))
  {
    var y := Sub(p, rp, s[1..]);
    if q([s[0]] + y).Some? {
      MatchBeforeCopy(q, p, rp, s);
    }
    SubCopy(q, rq, s[0], y);
  }

  /** Two exclusive checkbox substitutions with inert replacements commute. */
  lemma {:induction false} SubsCommute(p: Matcher, rp: string, q: Matcher, rq: string, s: string)
    requires TagMatcher(p) && TagMatcher(q) && Exclusive(p, q)
    requires Inert(rp) && rp != [] && rp[0] == '<'
    requires Inert(rq) && rq != [] && rq[0] == '<'
    ensures Sub(q, rq, Sub(p, rp, s)) == Sub(p, rp, Sub(q, rq, s))
    decreases |s|
  {
    if s != [] {
      if p(s).Some? {
        var n := p(s).value;
        SubsCommute(p, rp, q, rq, s[n..]);
        CommuteAtMatch(p, rp, q, rq, s, n);
      } else if q(s).Some? {
        var n := q(s).value;
        SubsCommute(p, rp, q, rq, s[n..]);
        CommuteAtMatch(q, rq, p, rp, s, n);
      } else {
        SubsCommute(p, rp, q, rq, s[1..]);
        CommuteAtCopy(p, rp, q, rq, s);
        CommuteAtCopy(q, rq, p, rp, s);
      }
    }
  }

  lemma Facts()
    ensures Advances(RE_CHECKED) && Advances(RE_UNCHECKED)
    ensures TagMatcher(RE_CHECKED) && TagMatcher(RE_UNCHECKED)
    ensures Exclusive(RE_CHECKED, RE_UNCHECKED)
    ensures Inert(CHECKED_GLYPH) && Inert(UNCHECKED_GLYPH)
    ensures CHECKED_GLYPH[0] == '<' && UNCHECKED_GLYPH[0] == '<'
  {
    CompiledPatterns();
    CheckboxMatchers();
    CheckboxesExclusive();
    GlyphsInert();
  }

  /** `_replace_checkboxes`: checked controls first, then unchecked ones; none is left behind. */
  function ReplaceCheckboxes(html: string): (r: string)
    ensures NoMatch(RE_CHECKED, r) && NoMatch(RE_UNCHECKED, r)
  {
    Facts();
    var checkedDone := Sub(RE_CHECKED, CHECKED_GLYPH, html);
    SubCreatesNoControl(RE_CHECKED, RE_CHECKED, CHECKED_GLYPH, html);
    SubCreatesNoControl(RE_CHECKED, RE_UNCHECKED, UNCHECKED_GLYPH, checkedDone);
    SubCreatesNoControl(RE_UNCHECKED, RE_UNCHECKED, UNCHECKED_GLYPH, checkedDone);
    Sub(RE_UNCHECKED, UNCHECKED_GLYPH, checkedDone)
  }

  /** Replacing in the opposite order gives the same page. */
  lemma ReplaceOrderIrrelevant(html: string)
    ensures ReplaceCheckboxes(html)
         == (Facts(); Sub(RE_CHECKED, CHECKED_GLYPH, Sub(RE_UNCHECKED, UNCHECKED_GLYPH, html)))
  {
    Facts();
    SubsCommute(RE_CHECKED, CHECKED_GLYPH, RE_UNCHECKED, UNCHECKED_GLYPH, html);
  }

  /** Text holding no control is returned unchanged. */
  lemma ReplaceWithoutControls(html: string)
    requires NoMatch(RE_CHECKED, html) && NoMatch(RE_UNCHECKED, html)
    ensures ReplaceCheckboxes(html) == html
  {
    Facts();
    SubNoMatch(RE_CHECKED, CHECKED_GLYPH, html);
    SubNoMatch(RE_UNCHECKED, UNCHECKED_GLYPH, html);
  }

  /** Text in which no `<input` begins, in any case, holds no control and is returned unchanged. */
  lemma ReplaceWithoutInputTags(html: string)
    requires forall i :: 0 <= i < |html| ==> !FoldPrefix(INPUT_TAG, html[i..])
    ensures ReplaceCheckboxes(html) == html
  {
    Facts();
    var attributes := " class=\"task-list-item-checkbox\"" + " type=\"checkbox\"" + " disabled";
    assert UNCHECKED_PREFIX == INPUT_TAG + attributes;
    assert CHECKED_PREFIX == INPUT_TAG + (attributes + " checked");
    forall i | 0 <= i < |html| ensures RE_CHECKED(html[i..]).None? && RE_UNCHECKED(html[i..]).None? {
      FoldPrefixHead(INPUT_TAG, attributes + " checked", html[i..]);
      FoldPrefixHead(INPUT_TAG, attributes, html[i..]);
    }
    ReplaceWithoutControls(html);
  }

  /** Replacing a second time changes nothing. */
  lemma ReplaceIdempotent(html: string)
    ensures ReplaceCheckboxes(ReplaceCheckboxes(html)) == ReplaceCheckboxes(html)
  {
    ReplaceWithoutControls(ReplaceCheckboxes(html));
  }

  /** `re.sub` of both patterns handles the text before a `<` and the text from it independently. */
  lemma ReplaceSplitAtTag(a: string, x: string)
    requires x != [] && x[0] == '<'
    ensures ReplaceCheckboxes(a + x) == ReplaceCheckboxes(a) + ReplaceCheckboxes(x)
  {
    Facts();
    SubSplitAtTag(RE_CHECKED, CHECKED_GLYPH, a, x);
    var cx := Sub(RE_CHECKED, CHECKED_GLYPH, x);
    assert cx != [] && cx[0] == '<';
    SubSplitAtTag(RE_UNCHECKED, UNCHECKED_GLYPH, Sub(RE_CHECKED, CHECKED_GLYPH, a), cx);
  }

  /** A checked control becomes the checked glyph. */
  lemma CheckedControlReplaced(control: string, t: string)
    requires RE_CHECKED(control) == Some(|control|)
    ensures ReplaceCheckboxes(control + t) == CHECKED_GLYPH + ReplaceCheckboxes(t)
  {
    Facts();
    MatchKept(RE_CHECKED, control, |control|, t);
    assert control[..|control|] == control;
    assert (control + t)[|control|..] == t;
    SubInert(RE_UNCHECKED, UNCHECKED_GLYPH, CHECKED_GLYPH, Sub(RE_CHECKED, CHECKED_GLYPH, t));
  }

  /** An unchecked control becomes the unchecked glyph. */
  lemma UncheckedControlReplaced(control: string, t: string)
    requires RE_UNCHECKED(control) == Some(|control|)
    ensures ReplaceCheckboxes(control + t) == UNCHECKED_GLYPH + ReplaceCheckboxes(t)
  {
    Facts();
    var n := |control|;
    assert control[..n] == control;
    MatchKept(RE_UNCHECKED, control, n, t);
    SkipWithinMatch(RE_UNCHECKED, RE_CHECKED, CHECKED_GLYPH, control + t, n);
    assert (control + t)[..n] == control && (control + t)[n..] == t;
    var ct := Sub(RE_CHECKED, CHECKED_GLYPH, t);
    MatchKept(RE_UNCHECKED, control, n, ct);
    assert (control + ct)[n..] == ct;
  }
}
