/**
 * The preview's removal of `@page` rules (converter.py lines 72-73):
 * `_RE_PAGE_AT_RULE.sub("", css)`.
 *
 * The pattern `@page\s*\{[^{}]*\}` matches a rule only when its body holds
 * no brace, and it has no IGNORECASE flag.  The base stylesheet's one
 * `@page` rule nests the `@bottom-center` margin box, so the pattern never
 * matches it, and the preview keeps it.
 */
module PageRules {
  import opened Wrappers
  import opened PyText
  import opened Regexes
  import opened Styles
  import opened Seqs

  /** `_RE_PAGE_AT_RULE.sub("", css)`: every matched rule removed, all else kept. */
  function StripPageRules(css: string): (r: string)
    ensures |r| <= |css|
  {
    CompiledPatterns();
    DeletionShrinks(RE_PAGE_AT_RULE, css);
    Sub(RE_PAGE_AT_RULE, "", css)
  }

  /** Deleting matches never lengthens the text. */
  lemma {:induction false} DeletionShrinks(m: Matcher, s: string)
    requires Advances(m)
    ensures |Sub(m, "", s)| <= |s|
    decreases |s|
  {
    if s != [] {
      match m(s)
      case Some(n) =>
        DeletionShrinks(m, s[n..]);
      case None =>
        DeletionShrinks(m, s[1..]);
    }
  }

  /** `@page`, whitespace, a brace-free body in braces: the pattern takes exactly that. */
  lemma PageRuleMatched(ws: string, body: string, t: string)
    requires AllSpace(ws) && BraceFree(body)
    ensures PageRuleMatch(PAGE_KEYWORD + ws + "{" + body + "}" + t)
         == Some(|PAGE_KEYWORD + ws + "{" + body + "}"|)
  {
    var s := PAGE_KEYWORD + ws + "{" + body + "}" + t;
    assert s[..5] == PAGE_KEYWORD;
    assert s[5..] == ws + ("{" + body + "}" + t);
    SpaceRunOf(ws, "{" + body + "}" + t);
    var k := 5 + |ws|;
    assert s[k] == '{';
    assert s[k + 1..] == body + ("}" + t);
    BraceFreeRunOf(body, "}" + t);
    assert s[k + 1 + |body|] == '}';
  }

  /** Such a rule is removed, and the text after it is stripped in turn. */
  lemma PageRuleRemoved(ws: string, body: string, t: string)
    requires AllSpace(ws) && BraceFree(body)
    ensures StripPageRules(PAGE_KEYWORD + ws + "{" + body + "}" + t) == StripPageRules(t)
  {
    CompiledPatterns();
    var rule := PAGE_KEYWORD + ws + "{" + body + "}";
    PageRuleMatched(ws, body, t);
    assert (rule + t)[|rule|..] == t;
  }

  /** Conversely, every match is `@page`, whitespace, and a brace-free body in braces. */
  lemma PageRuleShape(s: string, n: nat)
    requires PageRuleMatch(s) == Some(n)
    ensures var k := 5 + SpaceRun(s[5..]);
      k < n - 1 && s[..5] == PAGE_KEYWORD && AllSpace(s[5..k]) && s[k] == '{'
      && BraceFree(s[k + 1..n - 1]) && s[n - 1] == '}'
  {
    var k := 5 + SpaceRun(s[5..]);
    assert s[5..][..k - 5] == s[5..k];
    var run := BraceFreeRun(s[k + 1..]);
    assert s[k + 1..][..run] == s[k + 1..n - 1];
  }

  /**
   * An `@page` whose body reaches a `{` before any `}` is not matched: the
   * pattern cannot skip a nested block.
   */
  lemma NestedBlockUnmatched(ws: string, body: string, rest: string)
    requires AllSpace(ws) && BraceFree(body)
    ensures PageRuleMatch(PAGE_KEYWORD + ws + "{" + body + "{" + rest).None?
  {
    var s := PAGE_KEYWORD + ws + "{" + body + "{" + rest;
    assert s[..5] == PAGE_KEYWORD;
    assert s[5..] == ws + ("{" + body + "{" + rest);
    SpaceRunOf(ws, "{" + body + "{" + rest);
    var k := 5 + |ws|;
    assert s[k] == '{';
    assert s[k + 1..] == body + ("{" + rest);
    BraceFreeRunOf(body, "{" + rest);
    assert s[k + 1 + |body|] == '{';
  }

  /** No `@page` begins anywhere in `css`. */
  predicate KeywordFree(css: string) {
    forall i {:trigger css[i..]} :: 0 <= i <= |css| - 5 ==> css[i..][..5] != PAGE_KEYWORD
  }

  /**
   * Such a rule is kept verbatim up to its nested block, provided no
   * `@page` begins inside its declarations (other at-rules, such as the
   * margin box `@top-left`, may).
   */
  lemma NestedPageRuleKept(ws: string, body: string, rest: string)
    requires AllSpace(ws) && BraceFree(body) && KeywordFree(body)
    ensures StripPageRules(PAGE_KEYWORD + ws + "{" + body + "{" + rest)
         == PAGE_KEYWORD + ws + "{" + body + StripPageRules("{" + rest)
  {
    CompiledPatterns();
    var a := PAGE_KEYWORD + ws + "{" + body;
    var s := a + ("{" + rest);
    NestedBlockUnmatched(ws, body, rest);
    Assoc(a, "{", rest);
    forall j | 0 <= j < |a| ensures RE_PAGE_AT_RULE(s[j..]).None? {
      if 0 < j <= 5 + |ws| {
        OpeningStartsNoRule(ws, s, j);
      } else if j > 5 + |ws| {
        BodyStartsNoRule(body, rest, s, j - 6 - |ws|, j);
      }
    }
    SubSkip(RE_PAGE_AT_RULE, "", s, |a|);
    assert s[..|a|] == a && s[|a|..] == "{" + rest;
  }

  /** The declarations of a page rule with a margin box, up to the box's block. */
  const MARGIN_BOX_DECLARATIONS: string := " margin: 1cm; @top-left "

  /** A page rule with a margin box is kept: `@page { margin: 1cm; @top-left {` is copied through. */
  lemma MarginBoxRuleKept(rest: string)
    ensures StripPageRules(PAGE_KEYWORD + " " + "{" + MARGIN_BOX_DECLARATIONS + "{" + rest)
         == PAGE_KEYWORD + " " + "{" + MARGIN_BOX_DECLARATIONS + StripPageRules("{" + rest)
  {
    var decls, box := " margin: 1cm; ", "@top-left ";
    var body := MARGIN_BOX_DECLARATIONS;
    assert body == decls + box;
    assert BraceFree(body);
    assert '@' !in decls && '@' !in box[1..] && box[1] != PAGE_KEYWORD[1];
    forall i | 0 <= i <= |body| - 5 ensures body[i..][..5] != PAGE_KEYWORD {
      if i == |decls| {
        assert body[i..][..5][1] == box[1];
      } else {
        assert body[i..][..5][0] == body[i];
        assert i < |decls| ==> body[i] == decls[i];
        assert i > |decls| ==> body[i] == box[1..][i - |decls| - 1];
      }
    }
    NestedPageRuleKept(" ", body, rest);
  }

  /** A position after the `@` of `@page`, up to its `{`, starts no match: it holds no `@`. */
  lemma OpeningStartsNoRule(ws: string, s: string, j: nat)
    requires AllSpace(ws) && 0 < j <= 5 + |ws| && 6 + |ws| <= |s|
    requires s[..6 + |ws|] == PAGE_KEYWORD + ws + "{"
    ensures PageRuleMatch(s[j..]).None?
  {
    var a := PAGE_KEYWORD + ws + "{";
    assert s[j] == s[..6 + |ws|][j] == a[j];
    if j < 5 {
      assert a[j] == PAGE_KEYWORD[j];
    } else if j < 5 + |ws| {
      assert a[j] == ws[j - 5] && IsSpace(ws[j - 5]);
    }
    assert s[j..][0] == s[j];
  }

  /** A position in the declarations starts no match: `@page` is not there, and cannot run on into the `{`. */
  lemma BodyStartsNoRule(body: string, rest: string, s: string, b: nat, j: nat)
    requires KeywordFree(body) && b < |body| && b <= j <= |s|
    requires s[j - b..] == body + ("{" + rest)
    ensures PageRuleMatch(s[j..]).None?
  {
    var t := s[j..];
    assert t == body[b..] + ("{" + rest) by {
      assert s[j..] == s[j - b..][b..];
    }
    if |t| >= 5 {
      if b + 5 <= |body| {
        assert t[..5] == body[b..][..5];
      } else {
        var k := |body| - b;
        assert t[..5][k] == '{' != PAGE_KEYWORD[k];
      }
    }
  }

  /**
   * Text that starts no match at its front, with `@` only there, is copied
   * through; the pass resumes after it.
   */
  lemma CopiedOpening(a: string, x: string)
    requires a != [] && (forall j {:trigger a[j]} :: 1 <= j < |a| ==> a[j] != '@')
    requires PageRuleMatch(a + x).None?
    ensures StripPageRules(a + x) == a + StripPageRules(x)
  {
    CompiledPatterns();
    var m, t := RE_PAGE_AT_RULE, a[1..] + x;
    assert a + x == [a[0]] + t;
    assert m([a[0]] + t).None?;
    SubCopy(m, "", a[0], t);
    assert '@' !in a[1..] by {
      forall j | 0 <= j < |a[1..]| ensures a[1..][j] != '@' {
        assert a[1..][j] == a[j + 1];
      }
    }
    SubLeadFree(m, '@', "", a[1..], x);
    assert [a[0]] + (a[1..] + Sub(m, "", x)) == a + Sub(m, "", x);
  }

  /**
   * The keyword is compared case-sensitively: a spelling of `@page` in any
   * other mix of cases, such as `@PAGE` or `@Page`, starts no match.
   */
  lemma KeywordCaseSensitive(s: string)
    requires |s| >= 5 && s[..5] != PAGE_KEYWORD
    requires forall i :: 0 <= i < 5 ==> AsciiLower(s[i]) == PAGE_KEYWORD[i]
    ensures RE_PAGE_AT_RULE(s).None?
  {
  }

  /** CSS without `@page` is returned unchanged. */
  lemma StripWithoutKeyword(css: string)
    requires KeywordFree(css)
    ensures StripPageRules(css) == css
  {
    CompiledPatterns();
    forall i | 0 <= i < |css| ensures RE_PAGE_AT_RULE(css[i..]).None? {
    }
    SubNoMatch(RE_PAGE_AT_RULE, "", css);
  }

  /**
   * A single pass can leave a rule behind: removing an inner rule joins the
   * text around it into a new one (`@page{@page{}}` becomes `@page{}`,
   * which a second pass removes).
   */
  lemma StripNotIdempotent()
    ensures StripPageRules(PAGE_KEYWORD + "{" + PAGE_KEYWORD + "{}" + "}") == PAGE_KEYWORD + "{" + "}"
    ensures StripPageRules(PAGE_KEYWORD + "{" + "}") == ""
  {
    var outer := PAGE_KEYWORD + "{";
    var inner := PAGE_KEYWORD + "{}";
    Assoc3(outer, PAGE_KEYWORD, "{}", "}");
    OuterUnmatched();
    forall j | 1 <= j < |outer| ensures outer[j] != '@' {
      assert j < 5 ==> outer[j] == PAGE_KEYWORD[j];
    }
    CopiedOpening(outer, inner + "}");
    EmptyRuleRemoved("}");
    EmptyRuleRemoved("");
    CompiledPatterns();
    SubLeadFree(RE_PAGE_AT_RULE, '@', "", "}", "");
    assert "}" + "" == "}";
  }

  lemma OuterUnmatched()
    ensures PageRuleMatch(PAGE_KEYWORD + "{" + (PAGE_KEYWORD + "{}" + "}")).None?
  {
    var s := PAGE_KEYWORD + "{" + (PAGE_KEYWORD + "{}" + "}");
    assert s[5..5] == [];
    assert s[6..11] == PAGE_KEYWORD;
    UnmatchedAtNestedBrace(s, 5, 11);
  }

  /** `@page{}` is removed. */
  lemma EmptyRuleRemoved(t: string)
    ensures StripPageRules(PAGE_KEYWORD + "{}" + t) == StripPageRules(t)
  {
    PageRuleRemoved("", "", t);
    assert PAGE_KEYWORD + "" + "{" + "" + "}" == PAGE_KEYWORD + "{}";
  }

  /** `@page`, whitespace, `{`, then a brace-free run that ends at another `{`: no match. */
  lemma UnmatchedAtNestedBrace(s: string, k: nat, e: nat)
    requires 5 <= k < e < |s| && s[..5] == PAGE_KEYWORD
    requires AllSpace(s[5..k]) && s[k] == '{'
    requires BraceFree(s[k + 1..e]) && s[e] == '{'
    ensures PageRuleMatch(s).None?
  {
    assert s[5..] == s[5..k] + s[k..];
    SpaceRunOf(s[5..k], s[k..]);
    assert 5 + SpaceRun(s[5..]) == k;
    assert s[k + 1..] == s[k + 1..e] + s[e..];
    BraceFreeRunOf(s[k + 1..e], s[e..]);
    assert k + 1 + BraceFreeRun(s[k + 1..]) == e && s[e] != '}';
  }

  /**
   * A rule laid out like the stylesheet's page rule (its opening, brace-free
   * declarations, then a nested opening that ends in `{`) is not matched.
   */
  lemma LayoutUnmatched(decls: string, footer: string, rest: string)
    requires BraceFree(decls)
    requires footer != [] && BraceFree(footer[..|footer| - 1]) && footer[|footer| - 1] == '{'
    ensures PageRuleMatch(PAGE_OPEN + decls + footer + rest).None?
  {
    var s := PAGE_OPEN + decls + footer + rest;
    var e := |PAGE_OPEN + decls| + |footer| - 1;
    assert s[..5] == PAGE_OPEN[..5] == PAGE_KEYWORD;
    assert s[5..6] == [' '] && IsSpace(' ');
    forall j | 0 <= j < |s[7..e]| ensures !IsBrace(s[7..e][j]) {
      if 7 + j < |PAGE_OPEN + decls| {
        assert s[7 + j] == decls[j];
      } else {
        assert s[7 + j] == footer[..|footer| - 1][7 + j - |PAGE_OPEN + decls|];
      }
    }
    assert s[e] == footer[|footer| - 1];
    UnmatchedAtNestedBrace(s, 6, e);
  }

  lemma OpeningsOfStylesheet()
    ensures BraceFree(PAGE_DECLARATIONS)
    ensures BraceFree(FOOTER_OPEN[..|FOOTER_OPEN| - 1]) && FOOTER_OPEN[|FOOTER_OPEN| - 1] == '{'
  {
  }

  /** The stylesheet's page rule is never matched, whatever follows it. */
  lemma PageRuleKept(x: string)
    ensures PageRuleMatch(PAGE_RULE + x).None?
  {
    var footerBody := Join(FOOTER_COUNTER + FOOTER_FONT);
    Regroup(PAGE_OPEN + PAGE_DECLARATIONS + FOOTER_OPEN, footerBody, "\n}", x);
    OpeningsOfStylesheet();
    LayoutUnmatched(PAGE_DECLARATIONS, FOOTER_OPEN, footerBody + "\n}" + x);
  }

  /**
   * Behind a newline and the page rule, followed by text without `@`, no
   * position starts a match: the only two `@` open the page rule itself,
   * which nests a block, and `@bottom-center`.
   */
  lemma NoRuleStartsAt(doc: AtFree, t: string, i: nat)
    requires i < |"\n" + PAGE_RULE + doc|
    ensures PageRuleMatch(("\n" + PAGE_RULE + doc + t)[i..]).None?
  {
    var b := "\n" + PAGE_RULE + doc;
    if b[i] == '@' {
      AtSigns(doc, i);
      Assoc("\n" + PAGE_RULE, doc, t);
      if i == 1 {
        DropNewline(PAGE_RULE, doc + t);
        PageRuleKept(doc + t);
      } else {
        FooterUnmatched(doc + t);
      }
    } else {
      NotLed(b, t, i);
    }
  }

  /** A position that holds no `@` starts no match. */
  lemma NotLed(b: string, t: string, i: nat)
    requires i < |b| && b[i] != '@'
    ensures PageRuleMatch((b + t)[i..]).None?
  {
    assert (b + t)[i..][0] == b[i];
  }

  /** `@bottom-center` is not `@page`. */
  lemma FooterUnmatched(x: string)
    ensures PageRuleMatch(("\n" + PAGE_RULE + x)[FOOTER_AT..]).None?
  {
    var footerBody := Join(FOOTER_COUNTER + FOOTER_FONT);
    OpeningsOfLayout(PAGE_OPEN, PAGE_DECLARATIONS, FOOTER_OPEN, footerBody, "\n}", x, 1);
    assert ("\n" + PAGE_RULE + x)[FOOTER_AT..][1] == 'b';
  }

  /** The preview pass copies the page rule and any text without `@` after it. */
  lemma StripPastStylesheet(doc: AtFree, t: string)
    ensures StripPageRules("\n" + PAGE_RULE + doc + t) == "\n" + PAGE_RULE + doc + StripPageRules(t)
  {
    CompiledPatterns();
    var b := "\n" + PAGE_RULE + doc;
    var s := b + t;
    forall i | 0 <= i < |b| ensures RE_PAGE_AT_RULE(s[i..]).None? {
      NoRuleStartsAt(doc, t, i);
    }
    SubSkip(RE_PAGE_AT_RULE, "", s, |b|);
    assert s[..|b|] == b;
    assert s[|b|..] == t;
  }

  /** The preview strips nothing from the base stylesheet: its `@page` rule stays. */
  lemma StylesheetKept()
    ensures StripPageRules(GITHUB_CSS) == GITHUB_CSS
  {
    StripPastStylesheet(Join(DOCUMENT_RULES), "");
    assert GITHUB_CSS + "" == GITHUB_CSS;
  }

  /**
   * Stripping the full stylesheet keeps the base stylesheet whole and strips
   * only the highlighting rules after it.
   */
  lemma StripFullCss(pygmentsCss: string)
    ensures StripPageRules(BuildFullCss(pygmentsCss)) == GITHUB_CSS + "\n" + StripPageRules(pygmentsCss)
  {
    CompiledPatterns();
    Assoc(GITHUB_CSS, "\n", pygmentsCss);
    StripPastStylesheet(Join(DOCUMENT_RULES), "\n" + pygmentsCss);
    SubLeadFree(RE_PAGE_AT_RULE, '@', "", "\n", pygmentsCss);
    Assoc(GITHUB_CSS, "\n", StripPageRules(pygmentsCss));
  }
}
