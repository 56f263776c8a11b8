/**
 * The two entry points of converter.py: `markdown_to_html` (lines 69-82),
 * the live-preview page, and `markdown_to_pdf` (lines 85-92), up to the
 * HTML document and stylesheet it hands to WeasyPrint.
 *
 * The Markdown parser `_md` (mistune with the highlighting renderer) and
 * the `PYGMENTS_CSS` text are not part of this model; they are the
 * parameters `markdown` and `pygmentsCss`.
 */
module Converter {
  import opened Wrappers
  import opened Regexes
  import opened Checkboxes
  import opened Styles
  import opened PageRules
  import opened Seqs

  /** `_replace_checkboxes(_md(source))`: the body both entry points share. */
  function RenderBody(markdown: string -> string, source: string): (body: string)
    ensures NoMatch(RE_CHECKED, body) && NoMatch(RE_UNCHECKED, body)
    ensures ReplaceCheckboxes(body) == body
  {
    ReplaceIdempotent(markdown(source));
    ReplaceCheckboxes(markdown(source))
  }

  /** The preview page up to and including `<style>` (converter.py lines 75-77). */
  const PREVIEW_HEAD: string :=
    "<!DOCTYPE html>" + "<html lang=\"en\"><head>" + "<meta charset=\"utf-8\"/>" + "<style>"

  /** From `</style>` to the opening body tag (converter.py lines 77-79). */
  const PREVIEW_BODY_OPEN: string :=
    "</style>" + "</head>"
    + "<body style=\"padding:2rem 2.5rem;" + "max-width:860px;margin:0 auto\">"

  /** The end of the preview page (converter.py line 81). */
  const PREVIEW_END: string := "</body></html>"

  /** `page` is `head`, `x`, `mid`, `y` and `end` joined: each part sits verbatim at its place. */
  predicate Framed(page: string, head: string, x: string, mid: string, y: string, end: string) {
    var c := |head| + |x|;
    var b := c + |mid|;
    |page| == b + |y| + |end|
    && page[..|head|] == head && page[|head|..c] == x && page[c..b] == mid
    && page[b..b + |y|] == y && page[b + |y|..] == end
  }

  lemma FramedJoin(head: string, x: string, mid: string, y: string, end: string)
    ensures Framed(head + x + mid + y + end, head, x, mid, y, end)
  {
  }

  /** The f-string of `markdown_to_html` (converter.py lines 74-82): the CSS and the body, verbatim. */
  function PreviewPage(css: string, body: string): (page: string)
    ensures Framed(page, PREVIEW_HEAD, css, PREVIEW_BODY_OPEN, body, PREVIEW_END)
  {
    FramedJoin(PREVIEW_HEAD, css, PREVIEW_BODY_OPEN, body, PREVIEW_END);
    PREVIEW_HEAD + css + PREVIEW_BODY_OPEN + body + PREVIEW_END
  }

  /** `markdown_to_html(source)`: the preview page, with `@page` rules stripped from its CSS. */
  function MarkdownToHtml(markdown: string -> string, pygmentsCss: string, source: string): (page: string)
  {
    PreviewPage(StripPageRules(BuildFullCss(pygmentsCss)), RenderBody(markdown, source))
  }

  /** With the same CSS, two preview pages are equal exactly when their bodies are. */
  lemma PreviewBodyRecoverable(css: string, body1: string, body2: string)
    ensures PreviewPage(css, body1) == PreviewPage(css, body2) <==> body1 == body2
  {
    CancelAround(PREVIEW_HEAD + css + PREVIEW_BODY_OPEN, body1, body2, PREVIEW_END);
  }

  /**
   * With the same highlighting CSS, two previews are equal exactly when
   * their bodies are: nothing else in the page depends on the source.
   */
  lemma PreviewDeterminedByBody(markdown1: string -> string, source1: string,
                                markdown2: string -> string, source2: string, pygmentsCss: string)
    ensures MarkdownToHtml(markdown1, pygmentsCss, source1) == MarkdownToHtml(markdown2, pygmentsCss, source2)
        <==> RenderBody(markdown1, source1) == RenderBody(markdown2, source2)
  {
    PreviewBodyRecoverable(StripPageRules(BuildFullCss(pygmentsCss)),
                           RenderBody(markdown1, source1), RenderBody(markdown2, source2));
  }

  /**
   * The stripping meant to keep `@page` out of the preview leaves the base
   * stylesheet whole: the style element holds all of `GITHUB_CSS`, its
   * `@page` rule included, and only the highlighting rules after it are
   * stripped.
   */
  lemma PreviewKeepsStylesheet(markdown: string -> string, pygmentsCss: string, source: string)
    ensures MarkdownToHtml(markdown, pygmentsCss, source)
         == PreviewPage(GITHUB_CSS + "\n" + StripPageRules(pygmentsCss), RenderBody(markdown, source))
  {
    StripFullCss(pygmentsCss);
  }

  /** In particular the preview page holds `@page`, one character into its style element. */
  lemma PreviewHoldsPageKeyword(markdown: string -> string, pygmentsCss: string, source: string)
    ensures var page := MarkdownToHtml(markdown, pygmentsCss, source);
      |PREVIEW_HEAD| + 1 + |PAGE_KEYWORD| <= |page|
      && page[|PREVIEW_HEAD| + 1..|PREVIEW_HEAD| + 1 + |PAGE_KEYWORD|] == PAGE_KEYWORD
  {
    PreviewKeepsStylesheet(markdown, pygmentsCss, source);
    StyleHoldsPageKeyword(pygmentsCss);
    PreviewPageKeyword(GITHUB_CSS + "\n" + StripPageRules(pygmentsCss), RenderBody(markdown, source));
  }

  lemma PreviewPageKeyword(css: string, body: string)
    requires 1 + |PAGE_KEYWORD| <= |css| && css[1..1 + |PAGE_KEYWORD|] == PAGE_KEYWORD
    ensures var page := PreviewPage(css, body);
      |PREVIEW_HEAD| + 1 + |PAGE_KEYWORD| <= |page|
      && page[|PREVIEW_HEAD| + 1..|PREVIEW_HEAD| + 1 + |PAGE_KEYWORD|] == PAGE_KEYWORD
  {
    KeywordInside(PreviewPage(css, body), |PREVIEW_HEAD|, css);
  }

  lemma StyleHoldsPageKeyword(pygmentsCss: string)
    ensures var css := GITHUB_CSS + "\n" + StripPageRules(pygmentsCss);
      1 + |PAGE_KEYWORD| <= |css| && css[1..1 + |PAGE_KEYWORD|] == PAGE_KEYWORD
  {
    OnePageRule(1);
    SliceOfPrefix(GITHUB_CSS, "\n", StripPageRules(pygmentsCss), 1, 1 + |PAGE_KEYWORD|);
  }

  lemma KeywordInside(page: string, at: nat, css: string)
    requires at + |css| <= |page| && page[at..at + |css|] == css
    requires 1 + |PAGE_KEYWORD| <= |css| && css[1..1 + |PAGE_KEYWORD|] == PAGE_KEYWORD
    ensures page[at + 1..at + 1 + |PAGE_KEYWORD|] == PAGE_KEYWORD
  {
    SliceOfSlice(page, at, at + |css|, 1, 1 + |PAGE_KEYWORD|);
  }

  /** `_HTML_TEMPLATE` up to the title (converter.py lines 56-60). */
  const TEMPLATE_HEAD: string :=
    "<!DOCTYPE html>\n" + "<html lang=\"en\">\n" + "<head>\n"
    + "  <meta charset=\"utf-8\" />\n" + "  <title>"

  /** `_HTML_TEMPLATE` between the title and the body (converter.py lines 60-62). */
  const TEMPLATE_MIDDLE: string := "</title>\n" + "</head>\n" + "<body class=\"markdown-body\">\n"

  /** `_HTML_TEMPLATE` after the body (converter.py lines 63-65). */
  const TEMPLATE_END: string := "\n" + "</body>\n" + "</html>\n"

  /** The title `markdown_to_pdf` uses when the caller gives none (converter.py line 85). */
  const DEFAULT_TITLE: string := "document"

  /** `_HTML_TEMPLATE.format(title=title, body=body)`: both inserted verbatim. */
  function PdfHtml(title: string, body: string): (html: string)
    ensures Framed(html, TEMPLATE_HEAD, title, TEMPLATE_MIDDLE, body, TEMPLATE_END)
  {
    FramedJoin(TEMPLATE_HEAD, title, TEMPLATE_MIDDLE, body, TEMPLATE_END);
    TEMPLATE_HEAD + title + TEMPLATE_MIDDLE + body + TEMPLATE_END
  }

  /** The `title` parameter, `"document"` when the caller omits it. */
  function TitleOrDefault(title: Option<string>): (t: string) {
    if title.Some? then title.value else DEFAULT_TITLE
  }

  /** What `markdown_to_pdf` hands to WeasyPrint: the HTML document and one stylesheet. */
  datatype PdfInput = PdfInput(html: string, stylesheet: string)

  /** `markdown_to_pdf(source, title)` up to the WeasyPrint call; `None` is an omitted title. */
  function MarkdownToPdf(markdown: string -> string, pygmentsCss: string, source: string,
                         title: Option<string>): (input: PdfInput)
    ensures |input.stylesheet| == |GITHUB_CSS| + 1 + |pygmentsCss|
  {
    FullCssLayout(pygmentsCss);
    PdfInput(PdfHtml(TitleOrDefault(title), RenderBody(markdown, source)), BuildFullCss(pygmentsCss))
  }

  /**
   * A title without `<` and the body can be read back from the document:
   * the title ends where the first `<` after the head begins.
   */
  lemma TemplateInjective(t1: string, b1: string, t2: string, b2: string)
    requires '<' !in t1 && '<' !in t2
    ensures PdfHtml(t1, b1) == PdfHtml(t2, b2) <==> t1 == t2 && b1 == b2
  {
    MiddleOpensTag();
    FieldsInjective(TEMPLATE_HEAD, t1, b1, t2, b2, TEMPLATE_MIDDLE, TEMPLATE_END);
  }

  lemma MiddleOpensTag()
    ensures TEMPLATE_MIDDLE != [] && TEMPLATE_MIDDLE[0] == '<'
  {
  }

  /**
   * Two fields separated by a fixed text that starts with `<` can be read
   * back when the first field holds no `<`.
   */
  lemma FieldsInjective(h: string, t1: string, b1: string, t2: string, b2: string, m: string, e: string)
    requires '<' !in t1 && '<' !in t2 && m != [] && m[0] == '<'
    ensures h + t1 + m + b1 + e == h + t2 + m + b2 + e <==> t1 == t2 && b1 == b2
  {
    if h + t1 + m + b1 + e == h + t2 + m + b2 + e {
      var x := (h + t1 + m + b1 + e)[|h|..];
      assert x == t1 + (m + b1 + e);
      assert x == t2 + (m + b2 + e);
      FirstFieldLength(t1, m + b1 + e, t2, m + b2 + e);
      assert t1 == x[..|t1|] == t2;
      assert b1 == x[|t1| + |m|..|x| - |e|] == b2;
    }
  }

  /** A field free of `<`, followed by text that starts with `<`, has one possible length. */
  lemma FirstFieldLength(t1: string, y1: string, t2: string, y2: string)
    requires '<' !in t1 && '<' !in t2
    requires y1 != [] && y1[0] == '<' && y2 != [] && y2[0] == '<'
    requires t1 + y1 == t2 + y2
    ensures |t1| == |t2|
  {
    var x := t1 + y1;
    assert x[|t1|] == '<' && (t2 + y2)[|t2|] == '<';
    assert forall j :: 0 <= j < |t1| ==> x[j] != '<';
    assert forall j :: 0 <= j < |t2| ==> x[j] != '<';
  }

  /**
   * The title is not HTML-escaped: a title that carries the template's own
   * markup gives the same document as a different title and body.
   */
  lemma TitleNotEscaped(title: string)
    ensures PdfHtml(title + TEMPLATE_MIDDLE, "") == PdfHtml(title, TEMPLATE_MIDDLE)
  {
    MovedField(TEMPLATE_HEAD, title, TEMPLATE_MIDDLE, TEMPLATE_END);
  }

  /** An omitted title is the title `document`. */
  lemma DefaultTitle(markdown: string -> string, pygmentsCss: string, source: string)
    ensures MarkdownToPdf(markdown, pygmentsCss, source, None)
         == MarkdownToPdf(markdown, pygmentsCss, source, Some(DEFAULT_TITLE))
  {
  }

  /**
   * The PDF gets the full stylesheet unstripped: the base stylesheet with
   * its `@page` rule, a newline, then the highlighting rules.
   */
  lemma PdfStylesheet(markdown: string -> string, pygmentsCss: string, source: string, title: Option<string>)
    ensures var css := MarkdownToPdf(markdown, pygmentsCss, source, title).stylesheet;
      css[..|GITHUB_CSS|] == GITHUB_CSS && css[|GITHUB_CSS|] == '\n' && css[|GITHUB_CSS| + 1..] == pygmentsCss
  {
    FullCssLayout(pygmentsCss);
  }

  /**
   * The preview and the PDF show the same body: `_replace_checkboxes(_md(source))`,
   * placed verbatim in both documents.  This is where the preview puts it.
   */
  lemma PreviewShowsBody(markdown: string -> string, pygmentsCss: string, source: string)
    ensures var body := RenderBody(markdown, source);
      var css := StripPageRules(BuildFullCss(pygmentsCss));
      var page := MarkdownToHtml(markdown, pygmentsCss, source);
      var at := |PREVIEW_HEAD| + |css| + |PREVIEW_BODY_OPEN|;
      at + |body| <= |page| && page[at..at + |body|] == body
  {
    PreviewBodyAt(StripPageRules(BuildFullCss(pygmentsCss)), RenderBody(markdown, source));
  }

  lemma PreviewBodyAt(css: string, body: string)
    ensures var page := PreviewPage(css, body);
      var at := |PREVIEW_HEAD| + |css| + |PREVIEW_BODY_OPEN|;
      at + |body| <= |page| && page[at..at + |body|] == body
  {
  }

  /** And this is where the PDF document puts the same body. */
  lemma PdfShowsBody(markdown: string -> string, pygmentsCss: string, source: string, title: Option<string>)
    ensures var body := RenderBody(markdown, source);
      var html := MarkdownToPdf(markdown, pygmentsCss, source, title).html;
      var at := |TEMPLATE_HEAD| + |TitleOrDefault(title)| + |TEMPLATE_MIDDLE|;
      at + |body| <= |html| && html[at..at + |body|] == body
  {
    var body := RenderBody(markdown, source);
    assert MarkdownToPdf(markdown, pygmentsCss, source, title).html == PdfHtml(TitleOrDefault(title), body);
  }
}
