/**
 * The fixed stylesheet of styles.py: `GITHUB_CSS` (lines 8-246) and
 * `build_full_css` (lines 249-250).
 *
 * The stylesheet opens with its one `@page` rule, written here from named
 * parts; the document rules after it are reproduced exactly, a few source
 * lines per constant, each as a sequence of short pieces that hold no `@`.
 */
module Styles {
  import opened Regexes
  import opened Seqs

  /** A piece of stylesheet text that holds no `@`. */
  type AtFree = s: string | '@' !in s

  /** The pieces, concatenated in order. */
  function Join(pieces: seq<AtFree>): (r: AtFree)
  {
    if pieces == [] then [] else pieces[0] + Join(pieces[1..])
  }

  /** The page size (styles.py line 10); nothing in the code changes it. */
  const PAGE_SIZE: AtFree := "A4"

  /** The page margins (styles.py line 11); nothing in the code changes them. */
  const PAGE_MARGIN: AtFree := "2cm 2.5cm"

  /** The opening of the page rule (styles.py line 9). */
  const PAGE_OPEN: string := PAGE_KEYWORD + " {"

  /** Declarations of the page box (styles.py lines 10-11), up to the nested margin box. */
  const PAGE_DECLARATIONS: AtFree :=
    "\n  size: " + PAGE_SIZE + ";" + "\n  margin: " + PAGE_MARGIN + ";" + "\n  "

  /** The opening of the `@bottom-center` margin box nested in the page rule (styles.py line 12). */
  const FOOTER_OPEN: string := "@bottom-center {"

  /** The page-number declarations of the footer (styles.py lines 13-15). */
  const FOOTER_COUNTER: seq<AtFree> := [
    "\n    content: counter(page) ",
    "\" / \" counter(pages);",
    "\n    font-size: 10px;",
    "\n    color: #57606a;"
  ]

  /** The font of the footer and the end of its block (styles.py lines 16-17). */
  const FOOTER_FONT: seq<AtFree> := [
    "\n    font-family: -apple-system, ",
    "\"Liberation Sans\", Helvetica, ",
    "Arial, sans-serif;",
    "\n  }"
  ]

  /** The `@page` rule (styles.py lines 9-18). */
  const PAGE_RULE: string :=
    PAGE_OPEN + PAGE_DECLARATIONS + FOOTER_OPEN + Join(FOOTER_COUNTER + FOOTER_FONT) + "\n}"

  // styles.py lines 20-22
  const UNIVERSAL: seq<AtFree> := [
    "\n\n* {\n",
    "  box-sizing: ", "border-box;\n",
    "}"
  ]

  // styles.py lines 24-25
  const BODY: seq<AtFree> := [
    "\n\nbody {\n",
    "  font-family: ", "-apple-system, ", "BlinkMacSystemFont, ", "\"Segoe UI\", ", "\"Liberation ", "Sans\",\n"
  ]

  // styles.py lines 26-29
  const BODY_2: seq<AtFree> := [
    "    Helvetica, ", "Arial, ", "sans-serif;\n",
    "  font-size: ", "16px;\n",
    "  line-height: 1.5;\n",
    "  color: ", "#24292f;\n"
  ]

  // styles.py lines 30-32
  const BODY_3: seq<AtFree> := [
    "  background: ", "#ffffff;\n",
    "  word-wrap: ", "break-word;\n",
    "}"
  ]

  // styles.py lines 34-37
  const LINKS: seq<AtFree> := [
    "\n\na {\n",
    "  color: ", "#0969da;\n",
    "  text-decoration: ", "none;\n",
    "}"
  ]

  // styles.py lines 39-41
  const LINK_HOVER: seq<AtFree> := [
    "\n\na:hover {\n",
    "  text-decoration: ", "underline;\n",
    "}"
  ]

  // styles.py lines 43-46
  const HEADINGS: seq<AtFree> := [
    "\n\nh1, h2, h3, h4, ", "h5, h6 {\n",
    "  margin-top: ", "32px;\n",
    "  margin-bottom: ", "20px;\n",
    "  font-weight: 600;\n"
  ]

  // styles.py lines 47-49
  const HEADINGS_2: seq<AtFree> := [
    "  line-height: ", "1.25;\n",
    "  page-break-after: ", "avoid;\n",
    "}"
  ]

  // styles.py lines 51-55
  const H1: seq<AtFree> := [
    "\n\nh1 {\n",
    "  font-size: 2em;\n",
    "  padding-bottom: ", "0.3em;\n",
    "  border-bottom: ", "1px solid ", "#d0d7de;\n",
    "}"
  ]

  // styles.py lines 57-61
  const H2: seq<AtFree> := [
    "\n\nh2 {\n",
    "  font-size: ", "1.5em;\n",
    "  padding-bottom: ", "0.3em;\n",
    "  border-bottom: ", "1px solid ", "#d0d7de;\n",
    "}"
  ]

  // styles.py lines 63-65
  const H3_TO_H6: seq<AtFree> := [
    "\n\nh3 { ", "font-size: ", "1.25em; }\n",
    "h4 { font-size: ", "1em; }\n",
    "h5 { font-size: ", "0.875em; }\n"
  ]

  // styles.py line 66
  const H3_TO_H6_2: seq<AtFree> := [
    "h6 { font-size: ", "0.85em; ", "color: ", "#57606a; }"
  ]

  // styles.py lines 68-71
  const PARAGRAPHS: seq<AtFree> := [
    "\n\np {\n",
    "  margin-top: 0;\n",
    "  margin-bottom: ", "20px;\n",
    "}"
  ]

  // styles.py lines 73-76
  const BLOCKQUOTE: seq<AtFree> := [
    "\n\nblockquote {\n",
    "  margin: 0 0 ", "20px;\n",
    "  padding: 0 1em;\n",
    "  color: ", "#57606a;\n"
  ]

  // styles.py lines 77-78
  const BLOCKQUOTE_2: seq<AtFree> := [
    "  border-left: ", "0.25em ", "solid ", "#d0d7de;\n",
    "}"
  ]

  // styles.py lines 80-81
  const BLOCKQUOTE_EDGES: seq<AtFree> := [
    "\n\nblockquote > ", ":first-child { ", "margin-top: 0; }\n",
    "blockquote > ", ":last-child  { ", "margin-bottom: 0; }"
  ]

  // styles.py lines 83-85
  const INLINE_CODE: seq<AtFree> := [
    "\n\n/* Inline code */\n",
    "code {\n",
    "  font-family: ", "ui-monospace, ", "SFMono-Regular, \"SF ", "Mono\", ", "Menlo, ", "Consolas,\n"
  ]

  // styles.py lines 86-88
  const INLINE_CODE_2: seq<AtFree> := [
    "    \"Liberation ", "Mono\", ", "monospace;\n",
    "  font-size: 85%;\n",
    "  padding: ", "0.2em ", "0.4em;\n"
  ]

  // styles.py lines 89-91
  const INLINE_CODE_3: seq<AtFree> := [
    "  background: ", "rgba(175, 184, 193, ", "0.2);\n",
    "  border-radius: ", "6px;\n",
    "}"
  ]

  // styles.py lines 93-96
  const CODE_BLOCKS: seq<AtFree> := [
    "\n\n/* Code ", "blocks — ", "wraps ", "pygments ", ".highlight div */\n",
    "pre {\n",
    "  margin-top: 0;\n",
    "  margin-bottom: ", "20px;\n"
  ]

  // styles.py lines 97-101
  const CODE_BLOCKS_2: seq<AtFree> := [
    "  padding: ", "16px;\n",
    "  overflow: ", "auto;\n",
    "  font-size: 85%;\n",
    "  line-height: ", "1.45;\n",
    "  background: ", "#f6f8fa;\n"
  ]

  // styles.py lines 102-104
  const CODE_BLOCKS_3: seq<AtFree> := [
    "  border-radius: ", "6px;\n",
    "  ", "page-break-inside: ", "avoid;\n",
    "}"
  ]

  // styles.py lines 106-110
  const PRE_CODE: seq<AtFree> := [
    "\n\npre ", "code,\n",
    ".highlight code {\n",
    "  display: ", "inline;\n",
    "  padding: 0;\n",
    "  margin: 0;\n"
  ]

  // styles.py lines 111-115
  const PRE_CODE_2: seq<AtFree> := [
    "  background: ", "transparent;\n",
    "  border: 0;\n",
    "  font-size: ", "100%;\n",
    "  word-wrap: ", "normal;\n",
    "}"
  ]

  // styles.py lines 117-121
  const HIGHLIGHT: seq<AtFree> := [
    "\n\n.highlight {\n",
    "  background: ", "#f6f8fa;\n",
    "  border-radius: ", "6px;\n",
    "  margin-bottom: ", "20px;\n",
    "  padding: ", "16px;\n"
  ]

  // styles.py lines 122-124
  const HIGHLIGHT_2: seq<AtFree> := [
    "  overflow: ", "auto;\n",
    "  font-size: 85%;\n",
    "  line-height: ", "1.45;\n"
  ]

  // styles.py line 125
  const HIGHLIGHT_3: seq<AtFree> := [
    "  font-family: ", "ui-monospace, ", "SFMono-Regular, \"SF ", "Mono\", ", "Menlo, ", "Consolas,\n"
  ]

  // styles.py lines 126-127
  const HIGHLIGHT_4: seq<AtFree> := [
    "    \"Liberation ", "Mono\", ", "monospace;\n",
    "}"
  ]

  // styles.py lines 129-134
  const HIGHLIGHT_PRE: seq<AtFree> := [
    "\n\n.highlight pre {\n",
    "  margin: 0;\n",
    "  padding: 0;\n",
    "  background: ", "transparent;\n",
    "  border-radius: 0;\n",
    "}"
  ]

  // styles.py lines 136-140
  const TABLES: seq<AtFree> := [
    "\n\ntable {\n",
    "  border-spacing: ", "0;\n",
    "  border-collapse: ", "collapse;\n",
    "  width: ", "100%;\n",
    "  margin-bottom: ", "20px;\n"
  ]

  // styles.py lines 141-144
  const TABLES_2: seq<AtFree> := [
    "  overflow: ", "auto;\n",
    "  display: ", "table;\n",
    "  ", "page-break-inside: ", "avoid;\n",
    "}"
  ]

  // styles.py lines 146-148
  const TABLE_HEADERS: seq<AtFree> := [
    "\n\ntable th {\n",
    "  font-weight: 600;\n",
    "}"
  ]

  // styles.py lines 150-154
  const TABLE_CELLS: seq<AtFree> := [
    "\n\ntable th,\n",
    "table td {\n",
    "  padding: 6px ", "13px;\n",
    "  border: 1px ", "solid ", "#d0d7de;\n",
    "}"
  ]

  // styles.py lines 156-159
  const TABLE_ROWS: seq<AtFree> := [
    "\n\ntable tr {\n",
    "  background-color: ", "#ffffff;\n",
    "  border-top: 1px ", "solid ", "hsla(210, 18%, 87%, ", "1);\n",
    "}"
  ]

  // styles.py lines 161-163
  const TABLE_STRIPES: seq<AtFree> := [
    "\n\ntable ", "tr:nth-child(2n) {\n",
    "  background-color: ", "#f6f8fa;\n",
    "}"
  ]

  // styles.py lines 165-171
  const HORIZONTAL_RULES: seq<AtFree> := [
    "\n\nhr {\n",
    "  height: 1px;\n",
    "  padding: 0;\n",
    "  margin: 32px 0;\n",
    "  background-color: ", "#d0d7de;\n",
    "  border: 0;\n",
    "}"
  ]

  // styles.py lines 173-178
  const LISTS: seq<AtFree> := [
    "\n\nul,\n",
    "ol {\n",
    "  margin-top: 0;\n",
    "  margin-bottom: ", "20px;\n",
    "  padding-left: ", "2em;\n",
    "}"
  ]

  // styles.py lines 180-186
  const NESTED_LISTS: seq<AtFree> := [
    "\n\nul ul,\n",
    "ul ol,\n",
    "ol ol,\n",
    "ol ul {\n",
    "  margin-top: 0;\n",
    "  margin-bottom: 0;\n",
    "}"
  ]

  // styles.py lines 188-190
  const LIST_ITEMS: seq<AtFree> := [
    "\n\nli {\n",
    "  word-wrap: ", "break-word;\n",
    "}"
  ]

  // styles.py lines 192-194
  const LIST_PARAGRAPHS: seq<AtFree> := [
    "\n\nli > p {\n",
    "  margin-top: ", "16px;\n",
    "}"
  ]

  // styles.py lines 196-198
  const LIST_SIBLINGS: seq<AtFree> := [
    "\n\nli + li {\n",
    "  margin-top: ", "0.25em;\n",
    "}"
  ]

  // styles.py lines 200-203
  const IMAGES: seq<AtFree> := [
    "\n\nimg {\n",
    "  max-width: ", "100%;\n",
    "  box-sizing: ", "content-box;\n",
    "}"
  ]

  // styles.py lines 205-209
  const TASK_LISTS: seq<AtFree> := [
    "\n\n/* GFM task ", "lists */\n",
    "ul:has(.task-list-it", "em) ", "{\n",
    "  padding-left: ", "0.5em;\n",
    "  list-style: ", "none;\n",
    "}"
  ]

  // styles.py lines 211-214
  const TASK_LIST_ITEMS: seq<AtFree> := [
    "\n\n.task-list-item {\n",
    "  list-style-type: ", "none;\n",
    "  display: ", "flex;\n",
    "  align-items: ", "baseline;\n"
  ]

  // styles.py lines 215-216
  const TASK_LIST_ITEMS_2: seq<AtFree> := [
    "  gap: ", "0.45em;\n",
    "}"
  ]

  // styles.py lines 218-223
  const TASK_CHECKBOX: seq<AtFree> := [
    "\n\n.task-checkbox {\n",
    "  flex-shrink: 0;\n",
    "  font-size: ", "1.05em;\n",
    "  line-height: 1.5;\n",
    "  color: ", "#57606a;\n",
    "}"
  ]

  // styles.py lines 225-227
  const TASK_CHECKED: seq<AtFree> := [
    "\n\n.task-checked {\n",
    "  color: ", "#1a7f37;\n",
    "}"
  ]

  // styles.py lines 229-232
  const DEFINITION_LISTS: seq<AtFree> := [
    "\n\n/* Definition ", "lists */\n",
    "dl {\n",
    "  padding: 0;\n",
    "}"
  ]

  // styles.py lines 234-238
  const DEFINITION_TERMS: seq<AtFree> := [
    "\n\ndl dt {\n",
    "  padding: 0;\n",
    "  margin-top: ", "16px;\n",
    "  font-size: 1em;\n",
    "  font-style: ", "italic;\n"
  ]

  // styles.py lines 239-240
  const DEFINITION_TERMS_2: seq<AtFree> := [
    "  font-weight: 600;\n",
    "}"
  ]

  // styles.py lines 242-245
  const DEFINITION_DETAILS: seq<AtFree> := [
    "\n\ndl dd {\n",
    "  padding: 0 ", "16px;\n",
    "  margin-bottom: ", "16px;\n",
    "}\n"
  ]

  /** The document rules (styles.py lines 20-245), in order. */
  const DOCUMENT_RULES: seq<AtFree> :=
    UNIVERSAL + BODY + BODY_2 + BODY_3
    + LINKS + LINK_HOVER + HEADINGS + HEADINGS_2
    + H1 + H2 + H3_TO_H6 + H3_TO_H6_2
    + PARAGRAPHS + BLOCKQUOTE + BLOCKQUOTE_2 + BLOCKQUOTE_EDGES
    + INLINE_CODE + INLINE_CODE_2 + INLINE_CODE_3 + CODE_BLOCKS
    + CODE_BLOCKS_2 + CODE_BLOCKS_3 + PRE_CODE + PRE_CODE_2
    + HIGHLIGHT + HIGHLIGHT_2 + HIGHLIGHT_3 + HIGHLIGHT_4
    + HIGHLIGHT_PRE + TABLES + TABLES_2 + TABLE_HEADERS
    + TABLE_CELLS + TABLE_ROWS + TABLE_STRIPES + HORIZONTAL_RULES
    + LISTS + NESTED_LISTS + LIST_ITEMS + LIST_PARAGRAPHS
    + LIST_SIBLINGS + IMAGES + TASK_LISTS + TASK_LIST_ITEMS
    + TASK_LIST_ITEMS_2 + TASK_CHECKBOX + TASK_CHECKED + DEFINITION_LISTS
    + DEFINITION_TERMS + DEFINITION_TERMS_2 + DEFINITION_DETAILS

  /** `GITHUB_CSS`: a newline, the page rule, then the document rules. */
  const GITHUB_CSS: string := "\n" + PAGE_RULE + Join(DOCUMENT_RULES)

  /**
   * `build_full_css`: the base stylesheet, a newline, then the syntax
   * highlighting rules Pygments generates (given here as a parameter).
   */
  function BuildFullCss(pygmentsCss: string): (css: string)
  {
    GITHUB_CSS + "\n" + pygmentsCss
  }

  /** Where the `@` of the nested margin box stands in the stylesheet. */
  const FOOTER_AT: nat := 1 + |PAGE_OPEN + PAGE_DECLARATIONS|

  /**
   * In a text laid out like the stylesheet, with the declarations, the
   * margin box's body, the closing brace and the document rules free of
   * `@`, an `@` belongs to one of the two openings.
   */
  lemma AtSignsOfLayout(open: string, decls: AtFree, footer: string, body: AtFree, close: AtFree, doc: AtFree, i: nat)
    requires i < |"\n" + (open + decls + footer + body + close) + doc|
    requires ("\n" + (open + decls + footer + body + close) + doc)[i] == '@'
    ensures (1 <= i <= |open| && open[i - 1] == '@')
         || (1 + |open + decls| <= i < 1 + |open + decls + footer| && footer[i - 1 - |open + decls|] == '@')
  {
  }

  /**
   * A newline and the page rule followed by text without `@` hold exactly
   * two `@`: the page rule's, at index 1, and its margin box's.
   */
  lemma AtSigns(doc: AtFree, i: nat)
    requires i < |"\n" + PAGE_RULE + doc| && ("\n" + PAGE_RULE + doc)[i] == '@'
    ensures i == 1 || i == FOOTER_AT
  {
    AtSignsOfLayout(PAGE_OPEN, PAGE_DECLARATIONS, FOOTER_OPEN, Join(FOOTER_COUNTER + FOOTER_FONT), "\n}", doc, i);
    if i <= |PAGE_OPEN| {
      OpeningAt(PAGE_OPEN, i - 1);
    } else {
      OpeningAt(FOOTER_OPEN, i - 1 - |PAGE_OPEN + PAGE_DECLARATIONS|);
    }
  }

  /** Each of the two openings holds its `@` in front only. */
  lemma OpeningAt(open: string, k: nat)
    requires open == PAGE_OPEN || open == FOOTER_OPEN
    requires k < |open| && open[k] == '@'
    ensures k == 0
  {
  }

  /** Where the two openings stand in a text laid out like the stylesheet. */
  lemma OpeningsOfLayout(open: string, decls: string, footer: string, body: string, close: string, doc: string, k: nat)
    ensures k < |open| ==> ("\n" + (open + decls + footer + body + close) + doc)[1 + k] == open[k]
    ensures k < |footer| ==> ("\n" + (open + decls + footer + body + close) + doc)[1 + |open + decls| + k] == footer[k]
  {
  }

  /**
   * Behind a newline and the page rule, text without `@` holds `@page`
   * exactly once, right after the newline.
   */
  lemma PageKeywordOnce(doc: AtFree, i: nat)
    requires i + |PAGE_KEYWORD| <= |"\n" + PAGE_RULE + doc|
    ensures ("\n" + PAGE_RULE + doc)[i..i + |PAGE_KEYWORD|] == PAGE_KEYWORD <==> i == 1
  {
    var s := "\n" + PAGE_RULE + doc;
    var n := |PAGE_KEYWORD|;
    var footer := Join(FOOTER_COUNTER + FOOTER_FONT);
    if i == 1 {
      forall k | 0 <= k < n ensures s[1..1 + n][k] == PAGE_KEYWORD[k] {
        OpeningsOfLayout(PAGE_OPEN, PAGE_DECLARATIONS, FOOTER_OPEN, footer, "\n}", doc, k);
      }
    } else if s[i..i + n] == PAGE_KEYWORD {
      assert s[i] == PAGE_KEYWORD[0];
      AtSigns(doc, i);
      OpeningsOfLayout(PAGE_OPEN, PAGE_DECLARATIONS, FOOTER_OPEN, footer, "\n}", doc, 1);
      assert false;
    }
  }

  /** The base stylesheet holds `@page` exactly once, right after its opening newline. */
  lemma OnePageRule(i: nat)
    requires i + |PAGE_KEYWORD| <= |GITHUB_CSS|
    ensures GITHUB_CSS[i..i + |PAGE_KEYWORD|] == PAGE_KEYWORD <==> i == 1
  {
    PageKeywordOnce(Join(DOCUMENT_RULES), i);
  }

  /**
   * The full stylesheet begins with the whole base stylesheet, and the
   * highlighting rules follow one newline after it, unchanged.
   */
  lemma FullCssLayout(pygmentsCss: string)
    ensures |BuildFullCss(pygmentsCss)| == |GITHUB_CSS| + 1 + |pygmentsCss|
    ensures BuildFullCss(pygmentsCss)[..|GITHUB_CSS|] == GITHUB_CSS
    ensures BuildFullCss(pygmentsCss)[|GITHUB_CSS|] == '\n'
    ensures BuildFullCss(pygmentsCss)[|GITHUB_CSS| + 1..] == pygmentsCss
  {
    SplitAround(GITHUB_CSS, '\n', pygmentsCss);
  }
}
