/**
 * Fenced code blocks (`_HighlightRenderer.block_code`, converter.py lines
 * 40-47): the language tag is taken from the fence's info string, a lexer
 * is chosen for it, and Pygments highlights the code with that lexer.
 *
 * Pygments is not part of this model.  Which names `get_lexer_by_name`
 * knows is the parameter `knows` (a name it does not know raises, and the
 * `except` clause falls back to the plain-text lexer); `highlight` with the
 * fixed `_FORMATTER` is the parameter `highlight`.
 */
module Highlight {
  import opened Wrappers
  import opened PyText
  import opened Seqs

  /** The lexers `block_code` can hand to Pygments. */
  datatype Lexer =
    | TextLexer
      /** `get_lexer_by_name(alias, stripall=stripAll)`. */
    | NamedLexer(alias: string, stripAll: bool)

  /**
   * `(attrs.get("info") or "").strip()` followed by
   * `info.split(None, 1)[0] if info else ""`.
   */
  function LanguageTag(info: Option<string>): (lang: string)
    ensures lang == [] <==> info.None? || AllSpace(info.value)
    ensures lang != [] ==> NoSpace(lang) && lang <= Strip(info.value)
    ensures lang != [] && |lang| < |Strip(info.value)| ==> IsSpace(Strip(info.value)[|lang|])
  {
    var stripped := Strip(if info.Some? then info.value else "");
    if stripped == [] then []
    else
      assert SpaceRun(stripped) == 0;
      SplitFirstField(stripped)
  }

  /**
   * The `try` / `except` of `block_code`: no tag, or a tag Pygments does
   * not know, gives the plain-text lexer; any other tag its own lexer,
   * with leading and trailing blank lines stripped.
   */
  function ChooseLexer(lang: string, knows: string -> bool): (lexer: Lexer)
    ensures lexer == TextLexer <==> lang == [] || !knows(lang)
    ensures lexer.NamedLexer? ==> lexer.alias == lang && lexer.stripAll
  {
    if lang != [] && knows(lang) then NamedLexer(lang, true) else TextLexer
  }

  /** `block_code(code, info=info)`: the code, unchanged, highlighted by the chosen lexer. */
  function BlockCode(code: string, info: Option<string>, knows: string -> bool,
                     highlight: (string, Lexer) -> string): (r: string)
  {
    highlight(code, ChooseLexer(LanguageTag(info), knows))
  }

  /** The first word of `r + w` is the first word of `r` when `w` is all whitespace. */
  lemma {:induction false} FirstTokenBeforeSpace(r: string, w: string)
    requires AllSpace(w)
    ensures FirstToken(r + w) == FirstToken(r)
    decreases |r|
  {
    if r == [] {
      assert r + w == w;
    } else {
      assert (r + w)[0] == r[0];
      if !IsSpace(r[0]) {
        assert (r + w)[1..] == r[1..] + w;
        FirstTokenBeforeSpace(r[1..], w);
      }
    }
  }

  /**
   * The tag is the first whitespace-separated word of the raw info string:
   * stripping the trailing whitespace first makes no difference.
   */
  lemma TagIsFirstWord(s: string)
    requires !AllSpace(s)
    ensures LanguageTag(Some(s)) == FirstToken(s[SpaceRun(s)..])
  {
    TagOfStripped(s);
    StrippedFirstWord(s);
  }

  /** Trailing whitespace does not change the first word. */
  lemma StrippedFirstWord(s: string)
    ensures FirstToken(Strip(s)) == FirstToken(s[SpaceRun(s)..])
  {
    var k := SpaceRun(s);
    var r := Strip(s);
    var w := s[k + |r|..];
    SplitAt(s[k..], |r|);
    assert s[k..][..|r|] == r && s[k..][|r|..] == w;
    FirstTokenBeforeSpace(r, w);
  }

  lemma TagOfStripped(s: string)
    requires !AllSpace(s)
    ensures LanguageTag(Some(s)) == FirstToken(Strip(s))
  {
    var r := Strip(s);
    assert r != [] && !IsSpace(r[0]);
    assert SpaceRun(r) == 0;
    assert r[SpaceRun(r)..] == r;
  }

  /** A missing or blank info string highlights the code as plain text. */
  lemma BlankInfoIsPlainText(code: string, info: Option<string>, knows: string -> bool,
                             highlight: (string, Lexer) -> string)
    requires info.None? || AllSpace(info.value)
    ensures BlockCode(code, info, knows, highlight) == highlight(code, TextLexer)
  {
  }

  /** A language Pygments does not know also falls back to plain text. */
  lemma UnknownLanguageIsPlainText(code: string, info: Option<string>, knows: string -> bool,
                                   highlight: (string, Lexer) -> string)
    requires !knows(LanguageTag(info))
    ensures BlockCode(code, info, knows, highlight) == highlight(code, TextLexer)
  {
  }

  /** A known language gets its own lexer, named by the first word of the info string. */
  lemma KnownLanguageLexer(code: string, s: string, knows: string -> bool,
                           highlight: (string, Lexer) -> string)
    requires !AllSpace(s) && knows(FirstToken(s[SpaceRun(s)..]))
    ensures BlockCode(code, Some(s), knows, highlight)
         == highlight(code, NamedLexer(FirstToken(s[SpaceRun(s)..]), true))
  {
    TagIsFirstWord(s);
  }
}
