/**
 * The two compiled task-list control patterns of `_replace_checkboxes`
 * (converter.py lines 26 and 29): which texts they match, and how far.
 */
module Controls {
  import opened Wrappers
  import opened PyText
  import opened Regexes

  /** No `<` in `s` after its first character and before `n`. */
  predicate LtOnlyFirst(s: string, n: nat) {
    forall i :: 1 <= i < n && i < |s| ==> s[i] != '<'
  }

  /** A literal shaped like `<input …`: one `<`, in front, followed by `i`. */
  predicate TagLiteral(prefix: string) {
    |prefix| >= 2 && prefix[0] == '<' && prefix[1] == 'i' && LtOnlyFirst(prefix, |prefix|)
  }

  lemma PrefixesAreTags()
    ensures TagLiteral(CHECKED_PREFIX) && TagLiteral(UNCHECKED_PREFIX)
  {
    var attributes := " class=\"task-list-item-checkbox\"" + " type=\"checkbox\"" + " disabled";
    assert '<' !in attributes;
    assert UNCHECKED_PREFIX == "<input" + attributes;
    assert CHECKED_PREFIX == "<input" + (attributes + " checked");
  }

  lemma ControlMatchShape(prefix: string, s: string, n: nat)
    requires TagLiteral(prefix) && ControlMatch(prefix, s) == Some(n)
    ensures |s| >= 2 && s[0] == '<' && FoldsTo(s[1], 'i') && LtOnlyFirst(s, n)
  {
    FoldPrefixAt(prefix, s);
    var k := |prefix| + SpaceRun(s[|prefix|..]);
    forall i | 1 <= i < n && i < |s| ensures s[i] != '<' {
      if i < |prefix| {
        FoldsToLt(s[i], prefix[i]);
      } else if i < k {
        assert s[|prefix|..][..k - |prefix|][i - |prefix|] == s[i];
      }
    }
  }

  lemma ControlMatchLocal(prefix: string, x: string, y: string, n: nat)
    requires ControlMatch(prefix, x) == Some(n)
    requires n <= |y| && x[..n] == y[..n]
    ensures ControlMatch(prefix, y) == Some(n)
  {
    var m := SpaceRun(x[|prefix|..]);
    var k := |prefix| + m;
    assert k < n;
    assert FoldPrefix(prefix, y) by {
      FoldPrefixAt(prefix, x);
      FoldPrefixAt(prefix, y);
      forall i | 0 <= i < |prefix| ensures FoldsTo(y[i], prefix[i]) {
        assert x[..n][i] == y[..n][i];
      }
    }
    assert SpaceRun(y[|prefix|..]) == m by {
      assert x[|prefix|..][..m + 1] == x[..n][|prefix|..k + 1];
      assert y[|prefix|..][..m + 1] == y[..n][|prefix|..k + 1];
      SpaceRunLocal(x[|prefix|..], y[|prefix|..]);
    }
    assert x[..n][k] == y[..n][k];
    if k + 1 < n {
      assert x[..n][k + 1] == y[..n][k + 1];
    }
  }

  /**
   * The unchecked pattern never matches where the checked one does: after
   * `disabled` and its whitespace it needs `/` or `>`, and a checked control
   * has ` checked` there.
   */
  lemma ControlsExclusive(s: string)
    ensures RE_CHECKED(s).Some? ==> RE_UNCHECKED(s).None?
  {
    if ControlMatch(CHECKED_PREFIX, s).Some? {
      ControlFollowedByWord(UNCHECKED_PREFIX, s);
    }
  }

  /** A control literal followed by ` checked` leaves no room for `/` or `>` after its whitespace. */
  lemma ControlFollowedByWord(prefix: string, s: string)
    requires FoldPrefix(prefix + " checked", s)
    ensures ControlMatch(prefix, s).None?
  {
    var l := |prefix|;
    FoldPrefixSplit(prefix, " checked", s);
    var t := s[l..];
    assert t[0] == ' ' && FoldsTo(t[1], 'c') by {
      assert FoldPrefix("checked", t[1..]);
    }
    assert t == [' '] + t[1..];
    SpaceRunOf([' '], t[1..]);
    assert s[l + 1] == t[1];
  }

  /**
   * A control is the literal, compared case-insensitively, then any
   * whitespace, then `>` or `/>`; the match covers exactly that.
   */
  lemma ControlForm(prefix: string, s: string, ws: string, close: string)
    requires |prefix| <= |s| && FoldPrefix(prefix, s) && AllSpace(ws)
    requires s[|prefix|..] == ws + close
    requires close == ">" || close == "/>"
    ensures ControlMatch(prefix, s) == Some(|s|)
  {
    CloseForm(s, |prefix|, ws, close);
    ControlMatchAfterPrefix(prefix, s);
  }

  lemma ControlMatchAfterPrefix(prefix: string, s: string)
    requires FoldPrefix(prefix, s)
    ensures |prefix| <= |s| && ControlMatch(prefix, s) == CloseMatch(s, |prefix|)
  {
  }

  /** The closing part of a control matches whitespace followed by `>` or `/>`. */
  lemma CloseForm(s: string, k: nat, ws: string, close: string)
    requires k <= |s| && s[k..] == ws + close && AllSpace(ws)
    requires close == ">" || close == "/>"
    ensures CloseMatch(s, k) == Some(|s|)
  {
    var t := s[k..];
    SpaceRunOf(ws, close);
    assert s[k + |ws|] == t[|ws|];
    if close == "/>" {
      assert s[k + |ws| + 1] == t[|ws| + 1];
    }
  }

  /** Conversely, every control match has that form. */
  lemma ControlShape(prefix: string, s: string, n: nat)
    requires ControlMatch(prefix, s) == Some(n)
    ensures FoldPrefix(prefix, s) && |prefix| < n && s[n - 1] == '>'
    ensures AllSpace(s[|prefix|..n - 1])
         || (|prefix| < n - 1 && s[n - 2] == '/' && AllSpace(s[|prefix|..n - 2]))
  {
    var run := SpaceRun(s[|prefix|..]);
    assert s[|prefix|..][..run] == s[|prefix|..|prefix| + run];
  }

  /** The rendered controls are matched, in either closing form, and the checked one is not taken for an unchecked one. */
  lemma RenderedControlsMatch(ws: string, close: string)
    requires AllSpace(ws) && (close == ">" || close == "/>")
    ensures RE_CHECKED(CHECKED_PREFIX + ws + close) == Some(|CHECKED_PREFIX + ws + close|)
    ensures RE_UNCHECKED(UNCHECKED_PREFIX + ws + close) == Some(|UNCHECKED_PREFIX + ws + close|)
    ensures RE_UNCHECKED(CHECKED_PREFIX + ws + close).None?
  {
    LiteralControl(CHECKED_PREFIX, ws, close);
    LiteralControl(UNCHECKED_PREFIX, ws, close);
    ControlsExclusive(CHECKED_PREFIX + ws + close);
  }

  lemma LiteralControl(prefix: string, ws: string, close: string)
    requires AllSpace(ws) && (close == ">" || close == "/>")
    ensures ControlMatch(prefix, prefix + ws + close) == Some(|prefix + ws + close|)
  {
    var s := prefix + ws + close;
    assert s == prefix + (ws + close);
    FoldPrefixSelf(prefix, ws + close);
    ControlForm(prefix, s, ws, close);
  }
}
