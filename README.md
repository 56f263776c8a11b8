# markdownpdf rendering core, in Dafny

This project models the string pipeline of markdownpdf's `app/converter.py` and the stylesheet from `app/styles.py` that the pipeline uses. It proves properties of that model. The pipeline turns Markdown into two documents:

- a browser preview page (`markdown_to_html`);
- the HTML document and stylesheet that `markdown_to_pdf` hands to WeasyPrint.

Modules, one concept each:

- `Wrappers`: `Option`.
- `PyText`: the Python string semantics the code relies on.
  - Whitespace as `str.isspace` and `\s` see it.
  - `str.strip` and `str.split(None, 1)[0]`.
  - The character folding of `re.IGNORECASE`.
- `Regexes`: the three compiled patterns as deterministic left-to-right scanners. Each character class excludes its own delimiter, so no match ever depends on backtracking.
  - `Sub` is `pattern.sub(repl, s)` over any such scanner (`Matcher`).
  - General lemmas about `Sub`.
- `Controls`: what the two task-list control patterns match.
- `Checkboxes`: `_replace_checkboxes`.
- `Styles`: `GITHUB_CSS`, reproduced character for character, and `build_full_css`.
- `PageRules`: the preview's `_RE_PAGE_AT_RULE.sub("", css)`.
- `Highlight`: `block_code`, which extracts the language tag and falls back to the plain-text lexer.
- `Converter`: `markdown_to_html`, and `markdown_to_pdf` up to the WeasyPrint call.
- `Seqs`: identities of string concatenation and slicing that the proofs use; they state nothing about the converter.

Behaviour of the code that the proofs bring out:

- **The preview keeps the `@page` rule.** The comment on converter.py line 72 says `@page` rules are stripped from the preview.
  - The pattern `@page\s*\{[^{}]*\}` only matches a rule whose body holds no brace.
  - The one `@page` rule of `GITHUB_CSS` nests an `@bottom-center { … }` block, so the pattern never matches it (`PageRules.PageRuleKept`).
  - Stripping therefore leaves the whole base stylesheet in place (`PageRules.StylesheetKept`, `Converter.PreviewKeepsStylesheet`, `Converter.PreviewHoldsPageKeyword`). It only affects the Pygments rules after it.
- **Substitution order does not matter.** `_replace_checkboxes` replaces checked controls first, but the unchecked pattern needs `\s*/?>` right after `disabled`, so it never matches a checked control. Replacing in the other order gives the same page (`Checkboxes.ReplaceOrderIrrelevant`).
- **The PDF title is not escaped.** `markdown_to_pdf` inserts `title` into `_HTML_TEMPLATE` verbatim.
  - A title that contains markup changes the document's structure (`Converter.TitleNotEscaped`).
  - When both titles hold no `<`, the document determines title and body (`Converter.TemplateInjective`); a title that holds the template's own markup makes the document ambiguous (`Converter.TitleNotEscaped`).
- **One stripping pass can create a new match.** `@page{@page{}}` becomes `@page{}` (`PageRules.StripNotIdempotent`).

## Model

| member | source | states |
|---|---|---|
| PyText.IsSpace | app/converter.py:13-22 | the characters `\s` and `str.isspace` treat as whitespace; `SpaceRun`, `Strip` and `FirstToken` carry what that class means for the matches and the splitting below |
| PyText.SpaceRun | app/converter.py:13 | a greedy `\s*` takes a whitespace-only prefix and stops only at the end or at a non-space character |
| PyText.SpaceRunOf | app/converter.py:16 | `\s*` in front of a non-space character takes exactly the whitespace before it |
| PyText.SpaceRunAll | app/converter.py:41 | `\s*` consumes the whole text exactly when the text is all whitespace |
| PyText.Strip | app/converter.py:41 | `str.strip`: the text between its leading and trailing whitespace; empty exactly when the text is blank; otherwise starts and ends with a non-space |
| PyText.SplitFirstField | app/converter.py:42 | `split(None, 1)[0]` of a non-blank text: a non-empty whitespace-free prefix of the text after its leading whitespace, ended by whitespace or the end |
| PyText.FirstToken | app/converter.py:42 | the longest whitespace-free prefix: followed by whitespace unless it is the whole text |
| PyText.FoldsTo | app/converter.py:15-22 | the character comparison of `re.IGNORECASE` against an ASCII pattern literal; `FoldPrefixAt`, `FoldsToLt` and `FoldPrefixHead` state what it means for a literal match |
| PyText.FoldPrefix | app/converter.py:15-22 | the literal part of an IGNORECASE match: the text starts with the literal, compared character by character under `FoldsTo`; `FoldPrefixAt` states this position by position |
| PyText.FoldPrefixAt | app/converter.py:15-22 | an IGNORECASE literal matches exactly when each character folds to the literal's character |
| PyText.FoldsToLt | app/converter.py:15-22 | case folding never turns a character into `<` or `<` into another character |
| PyText.FoldPrefixSelf | app/converter.py:15-22 | the literal itself matches its IGNORECASE pattern, whatever follows |
| PyText.FoldPrefixSplit | app/converter.py:15-22 | a match of a joined literal matches the second part right after the first |
| PyText.FoldPrefixHead | app/converter.py:15-22 | a match of a joined literal begins with a match of its first part |
| Regexes.BraceFreeRun | app/converter.py:13 | `[^{}]*` takes a brace-free prefix and stops only at the end or at a brace |
| Regexes.BraceFreeRunOf | app/converter.py:13 | `[^{}]*` in front of a brace takes exactly the brace-free text before it |
| Regexes.CloseMatch | app/converter.py:16 | a match of `\s*/?>` ends after its start and within the text |
| Regexes.ControlMatch | app/converter.py:15-22 | a match of a control pattern starts with its literal, compared case-insensitively, and ends after it |
| Regexes.PageRuleMatch | app/converter.py:13 | a match of the `@page` pattern starts with `@page` and is longer than it |
| Regexes.RE_PAGE_AT_RULE | app/converter.py:13 | the compiled `@page\s*\{[^{}]*\}`, as `PageRuleMatch`; `PageRuleMatched` and `PageRuleShape` state what it matches, both ways |
| Regexes.RE_CHECKED | app/converter.py:15-18 | the compiled checked-control pattern: its literal, reproduced character for character, then `\s*/?>`; `ControlForm` and `ControlShape` state what it matches |
| Regexes.RE_UNCHECKED | app/converter.py:19-22 | the compiled unchecked-control pattern, likewise; `ControlsExclusive` states that it never matches where `RE_CHECKED` does |
| Regexes.CompiledPatterns | app/converter.py:13-22 | every match of the three patterns is non-empty, and every `@page` match starts with `@` |
| Regexes.Sub | app/converter.py:26-31 | `pattern.sub(repl, s)`: its meaning is stated by `SubSkip`, `SubLeftmost`, `SubNoMatch` and `SubReplace` (copy where no match starts, replace the leftmost match and resume after it) |
| Regexes.SubSkip | app/converter.py:73 | `re.sub` copies unchanged every position at which no match starts |
| Regexes.SubNoMatch | app/converter.py:73 | text in which no match starts is returned unchanged |
| Regexes.SubLeftmost | app/converter.py:26-31 | the leftmost match is replaced and scanning resumes after it |
| Regexes.SubLeadFree | app/converter.py:73 | text without the character every match starts with is copied through |
| Regexes.SubCopy | app/converter.py:73 | a position that starts no match is copied and scanning goes on at the next character |
| Regexes.SubReplace | app/converter.py:26-31 | a match at the front is replaced by the replacement text |
| Controls.PrefixesAreTags | app/converter.py:15-22 | both control literals start with `<i` and hold no other `<` |
| Controls.ControlMatchShape | app/converter.py:15-22 | every control match starts with `<` and a character folding to `i`, and holds no other `<` |
| Controls.ControlMatchLocal | app/converter.py:15-22 | whether a control pattern matches, and how far, depends only on the characters the match covers |
| Controls.ControlsExclusive | app/converter.py:15-22 | where the checked pattern matches, the unchecked one does not |
| Controls.ControlFollowedByWord | app/converter.py:19-22 | a control literal followed by ` checked` is not matched by the pattern that expects `\s*/?>` next |
| Controls.ControlForm | app/converter.py:15-22 | the literal, compared case-insensitively, then whitespace, then `>` or `/>`, is matched entirely |
| Controls.CloseForm | app/converter.py:16 | whitespace followed by `>` or `/>` is matched by `\s*/?>` to its end |
| Controls.ControlShape | app/converter.py:15-22 | conversely, every control match is the literal, whitespace, an optional `/`, then `>` |
| Controls.RenderedControlsMatch | app/converter.py:15-22 | the controls the renderer emits, in both closing forms, are matched whole by their own pattern, and the checked one is not matched by the unchecked pattern |
| Controls.LiteralControl | app/converter.py:15-22 | a literal followed by whitespace and a closing is matched to its end |
| Checkboxes.CHECKED_GLYPH | app/converter.py:27 | the checked replacement span, character for character; `GlyphsInert` states that it creates no control |
| Checkboxes.UNCHECKED_GLYPH | app/converter.py:30 | the unchecked replacement span, character for character; `GlyphsInert` states that it creates no control |
| Checkboxes.ControlMatcher | app/converter.py:15-22 | a pattern built from an `<i…` literal has the shape and locality of a tag matcher |
| Checkboxes.CheckboxMatchers | app/converter.py:15-22 | both checkbox patterns are tag matchers |
| Checkboxes.InertNoMatch | app/converter.py:26-31 | no checkbox match starts inside text in which every `<` is followed by a character that does not fold to `i`, whatever follows that text |
| Checkboxes.InertAppend | app/converter.py:26-31 | such inert texts stay inert when joined |
| Checkboxes.GlyphsInert | app/converter.py:26-31 | both ballot-box replacements start with `<` and are inert |
| Checkboxes.NoMatchSuffix | app/converter.py:25-32 | every suffix of match-free text is match-free |
| Checkboxes.SubAgreesBeforeTag | app/converter.py:26-31 | up to the first `<` of its output, a substitution whose replacement starts with `<` has copied its input |
| Checkboxes.NoMatchAfterInert | app/converter.py:26-31 | an inert replacement in front of match-free text leaves it match-free |
| Checkboxes.NoMatchAfterCopy | app/converter.py:26-31 | a copied character that starts no match in the input starts none in the output |
| Checkboxes.MatchBeforeCopy | app/converter.py:26-31 | a match at a copied character is the same match in the input |
| Checkboxes.CopyAgrees | app/converter.py:26-31 | the copied character and the output up to its next `<` are a prefix of the input |
| Checkboxes.SubCreatesNoControl | app/converter.py:26-31 | substituting an inert glyph removes every match of its own pattern and creates none of the other |
| Checkboxes.SplitMatchInside | app/converter.py:26-31 | a match that starts before a `<` ends before it |
| Checkboxes.SplitNoMatch | app/converter.py:26-31 | a position that starts no match still starts none when the text is cut at a later `<` |
| Checkboxes.SubSplitAtTag | app/converter.py:26-31 | `re.sub` handles the text before a `<` and the text from it independently |
| Checkboxes.SubInert | app/converter.py:26-31 | inert text in front is copied through |
| Checkboxes.CheckboxesExclusive | app/converter.py:15-22 | no text is matched by both checkbox patterns |
| Checkboxes.MatchKept | app/converter.py:26-31 | a match survives whatever follows it |
| Checkboxes.SkipWithinMatch | app/converter.py:26-31 | inside a match of one pattern the other pattern replaces nothing |
| Checkboxes.CommuteAtMatch | app/converter.py:25-32 | both substitution orders agree at a match if they agree after it |
| Checkboxes.CommuteAtCopy | app/converter.py:25-32 | both substitution orders copy a character that starts no match |
| Checkboxes.SubsCommute | app/converter.py:25-32 | two exclusive checkbox substitutions with inert replacements commute |
| Checkboxes.Facts | app/converter.py:15-31 | the two patterns are exclusive tag matchers, and both replacements are inert and start with `<` |
| Checkboxes.ReplaceCheckboxes | app/converter.py:25-32 | no checked or unchecked control is left in the result |
| Checkboxes.ReplaceOrderIrrelevant | app/converter.py:25-32 | replacing the unchecked controls first gives the same result |
| Checkboxes.ReplaceWithoutControls | app/converter.py:25-32 | HTML without controls is returned unchanged |
| Checkboxes.ReplaceWithoutInputTags | app/converter.py:25-32 | HTML in which no `<input` begins, compared case-insensitively, is returned unchanged |
| Checkboxes.ReplaceIdempotent | app/converter.py:25-32 | replacing twice gives the same result as replacing once |
| Checkboxes.ReplaceSplitAtTag | app/converter.py:25-32 | the text before a `<` and the text from it are processed independently, so all text outside controls is kept |
| Checkboxes.CheckedControlReplaced | app/converter.py:26-28 | a checked control becomes the checked ballot-box span, and the text after it is processed on its own |
| Checkboxes.UncheckedControlReplaced | app/converter.py:29-31 | an unchecked control becomes the unchecked ballot-box span, and the text after it is processed on its own |
| Styles.GITHUB_CSS | app/styles.py:8-246 | the literal, character for character; `OnePageRule` and `PageRuleKept` state its `@page` facts |
| Styles.AtSignsOfLayout | app/styles.py:8-246 | in a text laid out like the stylesheet, every `@` lies in one of the two at-rule openings |
| Styles.AtSigns | app/styles.py:9-18 | behind the page rule and `@`-free text, `@` occurs only at index 1 (the page rule's) and at `FOOTER_AT` (the `@bottom-center` box's) |
| Styles.OpeningAt | app/styles.py:9-12 | each at-rule opening holds its `@` in front only |
| Styles.OpeningsOfLayout | app/styles.py:9-12 | where the two openings stand in a text laid out like the stylesheet |
| Styles.PageKeywordOnce | app/styles.py:8-246 | behind the page rule, `@`-free text holds `@page` exactly once, right after the first newline |
| Styles.OnePageRule | app/styles.py:8-246 | `GITHUB_CSS` contains `@page` exactly once, at index 1 |
| Styles.BuildFullCss | app/styles.py:249-250 | `build_full_css()`: its layout (base stylesheet, newline, Pygments rules) is stated by `FullCssLayout` |
| Styles.FullCssLayout | app/styles.py:249-250 | `build_full_css` is the whole base stylesheet, one newline, then the Pygments rules unchanged |
| PageRules.StripPageRules | app/converter.py:73 | stripping never lengthens the CSS |
| PageRules.DeletionShrinks | app/converter.py:73 | deleting matches never lengthens a text |
| PageRules.PageRuleMatched | app/converter.py:13 | `@page`, whitespace and a brace-free body in braces are matched exactly |
| PageRules.PageRuleRemoved | app/converter.py:73 | such a rule is removed and the text after it is stripped in turn |
| PageRules.PageRuleShape | app/converter.py:13 | conversely, every match is `@page`, whitespace and a brace-free body in braces |
| PageRules.NestedBlockUnmatched | app/converter.py:13 | an `@page` whose body reaches a `{` before any `}` is not matched |
| PageRules.NestedPageRuleKept | app/converter.py:73 | such a rule is kept verbatim up to its nested block, provided no `@page` begins in its declarations; other at-rules there, such as a margin box, are allowed |
| PageRules.MarginBoxRuleKept | app/converter.py:13 | `@page { margin: 1cm; @top-left {` is copied through, and stripping resumes at the margin box's block |
| PageRules.OpeningStartsNoRule | app/converter.py:13 | no match starts after the `@` of `@page` and before its `{`, since only `@` can begin one |
| PageRules.BodyStartsNoRule | app/converter.py:13 | no match starts inside declarations without `@page`, not even one running on into the following `{` |
| PageRules.CopiedOpening | app/converter.py:73 | text that starts no match and has `@` only in front is copied through |
| PageRules.KeywordCaseSensitive | app/converter.py:13 | the pattern has no IGNORECASE: any other mix of cases of `@page`, such as `@PAGE`, starts no match |
| PageRules.StripWithoutKeyword | app/converter.py:73 | CSS without `@page` is returned unchanged |
| PageRules.StripNotIdempotent | app/converter.py:73 | one pass turns `@page{@page{}}` into `@page{}`, which a second pass removes |
| PageRules.EmptyRuleRemoved | app/converter.py:73 | `@page{}` is removed |
| PageRules.UnmatchedAtNestedBrace | app/converter.py:13 | `@page`, whitespace, `{`, then a brace-free run ending at another `{`, is not matched |
| PageRules.LayoutUnmatched | app/styles.py:9-12 | a rule shaped like the stylesheet's page rule, with a nested opening, is not matched |
| PageRules.PageRuleKept | app/styles.py:9-18 | the stylesheet's page rule is never matched, whatever follows it |
| PageRules.NoRuleStartsAt | app/styles.py:9-18 | no position of the page rule, or of `@`-free text after it, starts a match |
| PageRules.FooterUnmatched | app/styles.py:12 | `@bottom-center` starts no match |
| PageRules.StripPastStylesheet | app/converter.py:73 | stripping copies the page rule and the `@`-free text after it, and strips only what follows |
| PageRules.StylesheetKept | app/converter.py:72-73 | stripping leaves `GITHUB_CSS` unchanged, `@page` rule included |
| PageRules.StripFullCss | app/converter.py:73 | stripping `build_full_css()` keeps the base stylesheet whole and strips only the Pygments rules |
| Highlight.Lexer | app/converter.py:43-46 | the two lexers `block_code` can pass on: `TextLexer()`, or `get_lexer_by_name(lang, stripall=True)`; `ChooseLexer` states which is chosen |
| Highlight.LanguageTag | app/converter.py:41-42 | the tag is empty exactly when the info string is missing or blank; otherwise it is a whitespace-free prefix of the stripped info, ended by whitespace or the end |
| Highlight.ChooseLexer | app/converter.py:43-46 | the plain-text lexer exactly when the tag is empty or unknown; otherwise the lexer for that tag, with `stripall` set |
| Highlight.BlockCode | app/converter.py:40-47 | `block_code`: the code is highlighted unchanged with the lexer `ChooseLexer` picks for the tag; stated by `BlankInfoIsPlainText`, `UnknownLanguageIsPlainText` and `KnownLanguageLexer` |
| Highlight.FirstTokenBeforeSpace | app/converter.py:42 | trailing whitespace does not change the first word |
| Highlight.TagIsFirstWord | app/converter.py:41-42 | the tag is the first whitespace-separated word of the raw info string |
| Highlight.StrippedFirstWord | app/converter.py:41-42 | stripping does not change the first word of the text |
| Highlight.TagOfStripped | app/converter.py:41-42 | for a non-blank info string the tag is the first word of the stripped string |
| Highlight.BlankInfoIsPlainText | app/converter.py:40-47 | a missing or blank info string highlights the unchanged code as plain text |
| Highlight.UnknownLanguageIsPlainText | app/converter.py:43-47 | a tag Pygments does not know also highlights the code as plain text |
| Highlight.KnownLanguageLexer | app/converter.py:40-47 | a known first word of the info string selects its own lexer for the unchanged code |
| Converter.RenderBody | app/converter.py:71 | the shared body holds no checkbox control, so normalising it again changes nothing |
| Converter.PREVIEW_HEAD | app/converter.py:75-77 | the preview's fixed text before the CSS, character for character |
| Converter.PREVIEW_BODY_OPEN | app/converter.py:77-79 | the preview's fixed text between the CSS and the body |
| Converter.PREVIEW_END | app/converter.py:81 | the preview's fixed text after the body |
| Converter.PreviewPage | app/converter.py:74-82 | the page is the fixed head, the CSS, the fixed body opening, the body and the fixed end, each verbatim at its stated place |
| Converter.MarkdownToHtml | app/converter.py:69-82 | `markdown_to_html`: the preview of the stripped full stylesheet and the normalised body; stated by `PreviewKeepsStylesheet`, `PreviewHoldsPageKeyword`, `PreviewShowsBody` and `PreviewDeterminedByBody` |
| Converter.PreviewBodyRecoverable | app/converter.py:74-82 | with the same CSS, two previews are equal exactly when their bodies are |
| Converter.PreviewDeterminedByBody | app/converter.py:69-82 | two previews are equal exactly when their rendered bodies are |
| Converter.PreviewKeepsStylesheet | app/converter.py:72-77 | the preview's style element holds all of `GITHUB_CSS`, then a newline and the stripped Pygments rules |
| Converter.PreviewHoldsPageKeyword | app/converter.py:72-77 | the preview page holds `@page` one character into its style element |
| Converter.PreviewPageKeyword | app/converter.py:74-77 | CSS with `@page` after its first character puts `@page` at that place in the preview |
| Converter.StyleHoldsPageKeyword | app/converter.py:73 | the stripped full stylesheet still holds `@page` at index 1 |
| Converter.TEMPLATE_HEAD | app/converter.py:55-60 | `_HTML_TEMPLATE` up to `{title}`, character for character |
| Converter.TEMPLATE_MIDDLE | app/converter.py:60-62 | `_HTML_TEMPLATE` between `{title}` and `{body}`; `MiddleOpensTag` states that it starts with `<` |
| Converter.TEMPLATE_END | app/converter.py:63-65 | `_HTML_TEMPLATE` after `{body}` |
| Converter.PdfHtml | app/converter.py:55-66 | the document is the template's head, the title, its middle, the body and its end, each verbatim at its stated place |
| Converter.MarkdownToPdf | app/converter.py:85-91 | the stylesheet handed on is as long as the base stylesheet, a newline and the Pygments rules; its content is stated by `PdfStylesheet`, the document by `PdfShowsBody` and `PdfHtml` |
| Converter.TemplateInjective | app/converter.py:55-66 | titles without `<` and bodies can be read back: such documents are equal exactly when titles and bodies are |
| Converter.TitleNotEscaped | app/converter.py:88 | a title holding the template's own markup gives the same document as a different title and body |
| Converter.DEFAULT_TITLE | app/converter.py:85 | the default title `"document"` |
| Converter.TitleOrDefault | app/converter.py:85 | the default argument `title="document"`; stated by `DefaultTitle` |
| Converter.DefaultTitle | app/converter.py:85 | an omitted title is the title `document` |
| Converter.PdfStylesheet | app/converter.py:90 | the PDF stylesheet is unstripped: `GITHUB_CSS`, a newline, then the Pygments rules |
| Converter.PreviewShowsBody | app/converter.py:71-80 | the preview shows `_replace_checkboxes(_md(source))` verbatim after its body tag |
| Converter.PreviewBodyAt | app/converter.py:74-82 | for any CSS, the body sits verbatim right after the preview's body opening |
| Converter.PdfShowsBody | app/converter.py:87-88 | the PDF document shows the same body verbatim after the template's body tag |

## Left out

- The Markdown parser `_md` (converter.py lines 50-53) is mistune, a foreign library. It is the parameter `markdown: string -> string`, so nothing is claimed about how it uses `block_code`.
- Pygments is foreign code. Three parts of it are parameters:
  - `get_lexer_by_name` is `knows: string -> bool`, where `false` stands for the exception it raises;
  - `highlight(code, lexer, _FORMATTER)` is `highlight: (string, Lexer) -> string`;
  - `PYGMENTS_CSS` (styles.py lines 4-6) is `pygmentsCss: string`.
- WeasyPrint's `write_pdf` (converter.py lines 90-92) is an external layout engine. `MarkdownToPdf` stops at the HTML and the stylesheet it would receive.
- app/main.py (HTTP routes, uploads, the browser UI) is not part of this model.
- Converter.MarkdownToPdf: its own contract states only the length of the stylesheet. The stylesheet itself is stated by `Converter.PdfStylesheet`, and the HTML by `Converter.PdfShowsBody` and `Converter.PdfHtml`.
- `re.DOTALL` on the `@page` pattern has no effect, because the pattern has no `.`.
- The regular-expression engine is modelled only for these three patterns.
- `build_full_css` takes no argument, and being a function it returns the same text on every call. No separate lemma states this.
- The code has no style configuration, margin presets or font options, so none are modelled. The page size `A4` and margins `2cm 2.5cm` are fixed constants of `Styles`.
