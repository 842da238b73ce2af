/**
 * How detection and rewriting fit together: the parser reports a site with one set of
 * patterns and the integrator rewrites the line with another. The resource path the
 * integrator writes always holds a `:` (it starts with `:/`), while no text either
 * rewrite pattern matches holds one, so counting colons shows when a rewrite must
 * have changed the line.
 */
module DetectRewrite {
  import opened Wrappers
  import opened Strings
  import opened Paths
  import opened Models
  import opened Patterns
  import opened QtParser
  import opened QtIntegrator

  /** The number of `:` characters in `s`. */
  function Colons(s: string): nat
  {
    multiset(s)[':']
  }

  /** `s[a..b]` holds no `:`. */
  predicate ColonFree(s: string, a: nat, b: nat)
  {
    a <= b <= |s| && forall k :: a <= k < b ==> s[k] != ':'
  }

  lemma {:induction false} ColonFreeCount(s: string, a: nat, b: nat)
    requires ColonFree(s, a, b)
    ensures Colons(s[a..b]) == 0
  {
    assert ':' !in s[a..b];
  }

  lemma {:induction false} ColonsAppend(x: string, y: string)
    ensures Colons(x + y) == Colons(x) + Colons(y)
  {
    assert multiset(x + y) == multiset(x) + multiset(y);
  }

  /** Counting the colons of a suffix piece by piece. */
  lemma {:induction false} SuffixColons(s: string, a: nat, b: nat)
    requires a <= b <= |s|
    ensures Colons(s[a..]) == Colons(s[a..b]) + Colons(s[b..])
  {
    assert s[a..] == s[a..b] + s[b..];
    ColonsAppend(s[a..b], s[b..]);
  }

  /** A literal without `:` written at `i` leaves `s[i..i + |lit|]` free of colons. */
  lemma {:induction false} LitColonFree(s: string, i: nat, lit: string)
    requires LitAt(s, i, lit) && ':' !in lit
    ensures ColonFree(s, i, i + |lit|)
  {
    forall k | i <= k < i + |lit|
      ensures s[k] != ':'
    {
      assert s[k] == s[i..i + |lit|][k - i] == lit[k - i];
    }
  }

  lemma {:induction false} IconCallColonFree(s: string, i: nat)
    requires i <= |s| && IconCallEnd(s, i).Some?
    ensures ColonFree(s, i, IconCallEnd(s, i).value)
  {
    LitColonFree(s, i, "QIcon");
    var c := SpaceEnd(s, i + 5);
    var d := SpaceEnd(s, c + 1);
    assert IconCallEnd(s, i).value == d + 1;
    assert s[c] == '(' && s[d] == ')';
  }

  lemma {:induction false} IconQuotesColonFree(s: string, i: nat)
    requires i <= |s| && IconQuotesEnd(s, i).Some?
    ensures ColonFree(s, i, IconQuotesEnd(s, i).value)
  {
    LitColonFree(s, i, "QIcon");
    var a := SpaceEnd(s, i + 5);
    var b := SpaceEnd(s, a + 1);
    var d := SpaceEnd(s, b + 2);
    assert IconQuotesEnd(s, i).value == d + 1;
    assert s[a] == '(' && IsQuote(s[b]) && IsQuote(s[b + 1]) && s[d] == ')';
  }

  lemma {:induction false} PixmapDeclColonFree(s: string, i: nat)
    requires i <= |s| && MatchEmptyQPixmap(s, i).Some?
    ensures ColonFree(s, i, MatchEmptyQPixmap(s, i).value.end)
  {
    LitColonFree(s, i, "QPixmap");
    var a := SpaceEnd(s, i + 7);
    var g := WordEnd(s, a);
    var c := SpaceEnd(s, g);
    assert MatchEmptyQPixmap(s, i).value.end == c + 1;
    assert s[c] == ';';
  }

  lemma {:induction false} PlaceholderWordsColonFree(w: string)
    requires w in PlaceholderWords
    ensures ':' !in w
  {
  }

  lemma {:induction false} PixmapPlaceholderColonFree(s: string, i: nat)
    requires i <= |s| && PixmapPlaceholderEnd(s, i).Some?
    ensures ColonFree(s, i, PixmapPlaceholderEnd(s, i).value)
  {
    LitColonFree(s, i, "QPixmap");
    var a := SpaceEnd(s, i + 7);
    var w := QuotedWordEndSound(s, a + 1, PlaceholderWords);
    PlaceholderWordsColonFree(w);
    LitColonFree(s, a + 2, w);
    var q := a + 2 + |w|;
    assert PixmapPlaceholderEnd(s, i).value == q + 2;
    assert s[a] == '(' && IsQuote(s[a + 1]) && IsQuote(s[q]) && s[q + 1] == ')';
  }

  /** The text a rewrite pattern matches never holds a `:`. */
  lemma {:induction false} MatchedColonFree(rw: Rewrite, s: string, i: nat, rp: string)
    requires i <= |s| && RewriteAt(rw, s, i, rp).Some?
    ensures ColonFree(s, i, RewriteAt(rw, s, i, rp).value.end)
  {
    match rw
    case IconCall => IconCallColonFree(s, i);
    case IconQuotes => IconQuotesColonFree(s, i);
    case PixmapDecl => PixmapDeclColonFree(s, i);
    case PixmapPlaceholder => PixmapPlaceholderColonFree(s, i);
  }

  /** Every replacement text holds the resource path, so at least as many colons. */
  lemma {:induction false} ReplacementColons(rw: Rewrite, s: string, i: nat, rp: string)
    requires i <= |s| && RewriteAt(rw, s, i, rp).Some?
    ensures Colons(RewriteAt(rw, s, i, rp).value.text) >= Colons(rp)
  {
    var t := RewriteAt(rw, s, i, rp).value.text;
    match rw
    case IconCall =>
      assert t == "QIcon(\"" + rp + "\")";
      ColonsAppend("QIcon(\"", rp);
      ColonsAppend("QIcon(\"" + rp, "\")");
    case IconQuotes =>
      assert t == "QIcon(\"" + rp + "\")";
      ColonsAppend("QIcon(\"", rp);
      ColonsAppend("QIcon(\"" + rp, "\")");
    case PixmapDecl =>
      var h := MatchEmptyQPixmap(s, i).value;
      var pre := s[i..h.groupEnd] + "(\"";
      assert t == pre + rp + "\");";
      ColonsAppend(pre, rp);
      ColonsAppend(pre + rp, "\");");
    case PixmapPlaceholder =>
      assert t == "QPixmap(\"" + rp + "\")";
      ColonsAppend("QPixmap(\"", rp);
      ColonsAppend("QPixmap(\"" + rp, "\")");
  }

  /** Some match of `rw` starts at or after `i`. */
  ghost predicate MatchFrom(rw: Rewrite, s: string, rp: string, i: nat)
  {
    exists q :: i <= q < |s| && RewriteAt(rw, s, q, rp).Some?
  }

  /** One step of `Sub` where `rw` does not match. */
  lemma {:induction false} SubCopy(rw: Rewrite, s: string, rp: string, i: nat)
    requires i < |s| && RewriteAt(rw, s, i, rp).None?
    ensures Sub(rw, s, rp, i) == [s[i]] + Sub(rw, s, rp, i + 1)
  {
  }

  /** One step of `Sub` where `rw` matches. */
  lemma {:induction false} SubReplace(rw: Rewrite, s: string, rp: string, i: nat)
    requires i < |s| && RewriteAt(rw, s, i, rp).Some?
    ensures Sub(rw, s, rp, i)
            == RewriteAt(rw, s, i, rp).value.text + Sub(rw, s, rp, RewriteAt(rw, s, i, rp).value.end)
  {
  }

  /** Where `rw` matches at `i`, its replacement is followed by the rest of the substitution. */
  lemma {:induction false} SubMatchColons(rw: Rewrite, s: string, rp: string, i: nat)
    requires i < |s| && RewriteAt(rw, s, i, rp).Some?
    ensures var m := RewriteAt(rw, s, i, rp).value;
            Colons(Sub(rw, s, rp, i)) - Colons(s[i..])
            >= Colons(rp) + Colons(Sub(rw, s, rp, m.end)) - Colons(s[m.end..])
  {
    var m := RewriteAt(rw, s, i, rp).value;
    SubReplace(rw, s, rp, i);
    MatchedColonFree(rw, s, i, rp);
    ColonFreeCount(s, i, m.end);
    ReplacementColons(rw, s, i, rp);
    SuffixColons(s, i, m.end);
    ColonsAppend(m.text, Sub(rw, s, rp, m.end));
  }

  /** Copying the character at `i` in front of `y` adds its colons to both sides alike. */
  lemma {:induction false} CopyColons(s: string, i: nat, x: string, y: string)
    requires i < |s| && x == [s[i]] + y
    ensures Colons(x) - Colons(s[i..]) == Colons(y) - Colons(s[i + 1..])
  {
    SuffixColons(s, i, i + 1);
    assert s[i..i + 1] == [s[i]];
    ColonsAppend([s[i]], y);
  }

  /**
   * A substitution never loses a colon, and gains one whenever it replaces anything
   * with a resource path that holds a colon.
   */
  lemma {:induction false} SubColons(rw: Rewrite, s: string, rp: string, i: nat)
    requires i <= |s|
    ensures Colons(Sub(rw, s, rp, i)) >= Colons(s[i..])
    ensures ':' in rp && MatchFrom(rw, s, rp, i) ==> Colons(Sub(rw, s, rp, i)) > Colons(s[i..])
    decreases |s| - i
  {
    if i < |s| {
      var r := RewriteAt(rw, s, i, rp);
      if r.Some? {
        SubColons(rw, s, rp, r.value.end);
        SubMatchColons(rw, s, rp, i);
      } else {
        SubColons(rw, s, rp, i + 1);
        SubCopy(rw, s, rp, i);
        CopyColons(s, i, Sub(rw, s, rp, i), Sub(rw, s, rp, i + 1));
        if MatchFrom(rw, s, rp, i) {
          var q :| i <= q < |s| && RewriteAt(rw, s, q, rp).Some?;
          assert MatchFrom(rw, s, rp, i + 1);
        }
      }
    }
  }

  /** A line with a site either QIcon substitution matches is changed by a path holding `:`. */
  lemma {:induction false} IconSiteRewritten(line: string, rp: string, q: nat)
    requires ':' in rp && q < |line|
    requires IconCallEnd(line, q).Some? || IconQuotesEnd(line, q).Some?
    ensures IntegrateQIcon(line, rp) != line
  {
    var once := Sub(IconCall, line, rp, 0);
    assert line[0..] == line;
    SubColons(IconCall, line, rp, 0);
    assert once[0..] == once;
    SubColons(IconQuotes, once, rp, 0);
    if IconCallEnd(line, q).None? && forall p :: 0 <= p < |line| ==> IconCallEnd(line, p).None? {
      SubNoMatch(IconCall, line, rp, 0);
      assert RewriteAt(IconQuotes, once, q, rp).Some?;
    } else if IconCallEnd(line, q).Some? {
      assert RewriteAt(IconCall, line, q, rp).Some?;
    } else {
      var p :| 0 <= p < |line| && IconCallEnd(line, p).Some?;
      assert RewriteAt(IconCall, line, p, rp).Some?;
    }
  }

  /** A line with a site either QPixmap substitution matches is changed by a path holding `:`. */
  lemma {:induction false} PixmapSiteRewritten(line: string, rp: string, q: nat)
    requires ':' in rp && q < |line|
    requires MatchEmptyQPixmap(line, q).Some? || PixmapPlaceholderEnd(line, q).Some?
    ensures IntegrateQPixmap(line, rp) != line
  {
    var once := Sub(PixmapDecl, line, rp, 0);
    assert line[0..] == line;
    SubColons(PixmapDecl, line, rp, 0);
    assert once[0..] == once;
    SubColons(PixmapPlaceholder, once, rp, 0);
    if MatchEmptyQPixmap(line, q).None? && forall p :: 0 <= p < |line| ==> MatchEmptyQPixmap(line, p).None? {
      SubNoMatch(PixmapDecl, line, rp, 0);
      assert RewriteAt(PixmapPlaceholder, once, q, rp).Some?;
    } else if MatchEmptyQPixmap(line, q).Some? {
      assert RewriteAt(PixmapDecl, line, q, rp).Some?;
    } else {
      var p :| 0 <= p < |line| && MatchEmptyQPixmap(line, p).Some?;
      assert RewriteAt(PixmapDecl, line, p, rp).Some?;
    }
  }

  // ---------------------------------------------------------------------------
  // Sites the parser reports, seen by the rewrite.
  // ---------------------------------------------------------------------------

  /** Every Qt resource path starts with `:/`, so it holds a colon. */
  lemma {:induction false} ResourcePathHasColon(image: FsPath)
    ensures ':' in QtResourcePath(image)
  {
    QtResourcePathShape(image);
    assert QtResourcePath(image)[0] == ":/resources"[0];
  }

  lemma {:induction false} SliceInSlice(s: string, a: nat, b: nat, i: nat, j: nat)
    requires i <= j && a + j <= b <= |s|
    ensures s[a..b][i..j] == s[a + i..a + j]
  {
    forall k | 0 <= k < j - i
      ensures s[a..b][i..j][k] == s[a + i..a + j][k]
    {
      assert s[a..b][i..j][k] == s[a..b][i + k] == s[a + i + k];
    }
  }

  /** The `QIcon()` inside a reported `w.setIcon(QIcon())` is a site of the first QIcon substitution. */
  lemma {:induction false} EmptyQIconHoldsCall(line: string, q: nat)
    requires q <= |line| && MatchEmptyQIcon(line, q).Some?
    ensures var g := MatchEmptyQIcon(line, q).value.groupEnd;
            g + 9 < |line| && IconCallEnd(line, g + 9) == Some(g + 16)
  {
    var g := WordEnd(line, q);
    var lit := ".setIcon(QIcon())";
    assert line[g..g + 17] == lit;
    assert lit[9..14] == "QIcon";
    SliceInSlice(line, g, g + 17, 9, 14);
    assert line[g + 14] == line[g..g + 17][14] == lit[14] == '(';
    assert line[g + 15] == line[g..g + 17][15] == lit[15] == ')';
    assert SpaceEnd(line, g + 14) == g + 14;
    assert SpaceEnd(line, g + 15) == g + 15;
  }

  /** A reported `setWindowIcon(QIcon())` holds a site of the first QIcon substitution. */
  lemma {:induction false} WindowIconHoldsCall(line: string, q: nat)
    requires q <= |line| && MatchWindowIcon(line, q).Some?
    ensures exists b :: q < b < |line| && IconCallEnd(line, b).Some?
  {
    var a := SpaceEnd(line, q + 13);
    var b := SpaceEnd(line, a + 1);
    assert IconCallEnd(line, b).Some?;
  }

  /**
   * An `empty_qicon_string` match whose closing quote directly follows the opening one is
   * a site of the second QIcon substitution, ending where the match ends.
   */
  lemma {:induction false} AdjacentQuotesAreSite(line: string, q: nat, a: nat, b: nat, d: nat, j: nat)
    requires EmptyQIconStringAt(line, q, a, b, b + 1, d, j)
    ensures IconQuotesEnd(line, q) == Some(j)
  {
    SpaceEndIs(line, q + 5, a);
    SpaceEndIs(line, a + 1, b);
    SpaceEndIs(line, b + 2, d);
  }

  /**
   * A `placeholder_path` match whose opening quote directly follows `(` and whose closing
   * quote is directly followed by `)` is a site of the second QPixmap substitution.
   */
  lemma {:induction false} TightPlaceholderIsSite(line: string, q: nat, a: nat, w: string, j: nat)
    requires PlaceholderPathAt(line, q, a, a + 1, w, j) && CharIs(line, j, ')')
    ensures PixmapPlaceholderEnd(line, q) == Some(j + 1)
  {
    SpaceEndIs(line, q + 7, a);
    PlaceholderQuoted(line, a + 1, w);
    assert a + 1 < |line| && line[a] == '(' && IsQuote(line[a + 1]);
  }

  lemma {:induction false} EmptyQIconRewritten(line: string, q: nat, rp: string)
    requires q <= |line| && MatchEmptyQIcon(line, q).Some? && ':' in rp
    ensures IntegrateQIcon(line, rp) != line
  {
    EmptyQIconHoldsCall(line, q);
    var g := MatchEmptyQIcon(line, q).value.groupEnd;
    IconSiteRewritten(line, rp, g + 9);
  }

  lemma {:induction false} WindowIconRewritten(line: string, q: nat, rp: string)
    requires q <= |line| && MatchWindowIcon(line, q).Some? && ':' in rp
    ensures IntegrateQIcon(line, rp) != line
  {
    WindowIconHoldsCall(line, q);
    var b :| q < b < |line| && IconCallEnd(line, b).Some?;
    IconSiteRewritten(line, rp, b);
  }

  /**
   * A line that holds a whole `empty_qicon` or `window_icon` match is changed by the QIcon
   * rewrite, whatever image it is given. (A match that runs across a line break is not:
   * see `WindowIconAcrossLines`.)
   */
  lemma {:induction false} DetectedIconRewritten(line: string, q: nat, image: FsPath)
    requires q <= |line|
    requires Match(EmptyQIcon, line, q).Some? || Match(WindowIcon, line, q).Some?
    ensures IntegrateQIcon(line, QtResourcePath(image)) != line
  {
    ResourcePathHasColon(image);
    if MatchEmptyQIcon(line, q).Some? {
      EmptyQIconRewritten(line, q, QtResourcePath(image));
    } else {
      WindowIconRewritten(line, q, QtResourcePath(image));
    }
  }

  /**
   * A line that holds a whole `empty_qpixmap` match is changed by the QPixmap rewrite,
   * whatever image it is given (see `DeclarationAcrossLines` for a match that does not fit
   * on one line).
   */
  lemma {:induction false} DetectedPixmapRewritten(line: string, q: nat, image: FsPath)
    requires q <= |line| && Match(EmptyQPixmap, line, q).Some?
    ensures IntegrateQPixmap(line, QtResourcePath(image)) != line
  {
    ResourcePathHasColon(image);
    PixmapSiteRewritten(line, QtResourcePath(image), q);
  }

  /** A line that holds a whole `QIcon("")` match with touching quotes is changed too. */
  lemma {:induction false} DetectedLiteralRewritten(line: string, q: nat, a: nat, b: nat, d: nat, j: nat, image: FsPath)
    requires EmptyQIconStringAt(line, q, a, b, b + 1, d, j)
    ensures IntegrateQIcon(line, QtResourcePath(image)) != line
  {
    ResourcePathHasColon(image);
    AdjacentQuotesAreSite(line, q, a, b, d, j);
    IconSiteRewritten(line, QtResourcePath(image), q);
  }

  /** So is a line that holds a whole `QPixmap("temp")` match with `)` right after the quote. */
  lemma {:induction false} DetectedPlaceholderRewritten(line: string, q: nat, a: nat, w: string, j: nat, image: FsPath)
    requires PlaceholderPathAt(line, q, a, a + 1, w, j) && CharIs(line, j, ')')
    ensures IntegrateQPixmap(line, QtResourcePath(image)) != line
  {
    ResourcePathHasColon(image);
    TightPlaceholderIsSite(line, q, a, w, j);
    PixmapSiteRewritten(line, QtResourcePath(image), q);
  }

  /** `QIcon(" ")`: a line the parser reports that the QIcon rewrite leaves untouched. */
  const SpacedQuotes: string := "QIcon(\" \")"

  /**
   * Detection allows whitespace between the quotes of `QIcon("")` but the rewrite does not,
   * so an opportunity reported on `QIcon(" ")` is integrated without changing the line.
   */
  lemma {:induction false} SpacedQuotesNotRewritten(rp: string)
    ensures Match(EmptyQIconString, SpacedQuotes, 0).Some?
    ensures IntegrateQIcon(SpacedQuotes, rp) == SpacedQuotes
  {
    var s := SpacedQuotes;
    assert s[0..5] == "QIcon";
    assert SpaceEnd(s, 5) == 5;
    assert SpaceEnd(s, 6) == 6;
    assert SpaceEnd(s, 9) == 9;
    assert SpaceEnd(s, 7) == 8 by {
      assert SpaceEnd(s, 8) == 8;
    }
    forall q | 0 <= q < |s|
      ensures IconCallEnd(s, q).None? && IconQuotesEnd(s, q).None?
    {
      if q > 0 {
        assert s[q] != 'Q';
        assert q + 5 <= |s| ==> s[q..q + 5][0] != 'Q';
      }
    }
    QIconUnchanged(s, rp);
  }

  lemma {:induction false} CopySkip(s: string, i: nat, q: nat, x: string, y: string, z: string)
    requires i < q <= |s| && x == [s[i]] + y && y == s[i + 1..q] + z
    ensures x == s[i..q] + z
  {
    assert s[i..q] == [s[i]] + s[i + 1..q];
  }

  /** Positions where `rw` does not match are copied as they are. */
  lemma {:induction false} SubSkip(rw: Rewrite, s: string, rp: string, i: nat, q: nat)
    requires i <= q <= |s|
    requires forall p :: i <= p < q ==> RewriteAt(rw, s, p, rp).None?
    ensures Sub(rw, s, rp, i) == s[i..q] + Sub(rw, s, rp, q)
    decreases q - i
  {
    if i < q {
      SubSkip(rw, s, rp, i + 1, q);
      SubCopy(rw, s, rp, i);
      CopySkip(s, i, q, Sub(rw, s, rp, i), Sub(rw, s, rp, i + 1), Sub(rw, s, rp, q));
    }
  }

  /** `QPixmap`, spaces and a word followed by `(` is not an empty declaration. */
  lemma {:induction false} CallIsNotEmptyDecl(t: string, q: nat, a: nat, g: nat)
    requires q + 7 < a < g < |t| && LitAt(t, q, "QPixmap") && Spaces(t, q + 7, a) && Word(t, a, g)
    requires t[g] == '('
    ensures MatchEmptyQPixmap(t, q).None?
  {
    SpaceEndIs(t, q + 7, a);
    WordEndIs(t, a, g);
  }

  /** A text that agrees with `line` before `g` keeps the declaration's head. */
  lemma {:induction false} SameHead(t: string, line: string, q: nat, a: nat, g: nat)
    requires g <= |t| && g <= |line| && t[..g] == line[..g]
    requires q + 7 < a < g && LitAt(line, q, "QPixmap") && Spaces(line, q + 7, a) && Word(line, a, g)
    ensures LitAt(t, q, "QPixmap") && Spaces(t, q + 7, a) && Word(t, a, g)
  {
    forall k | 0 <= k < g
      ensures t[k] == line[k]
    {
      assert t[k] == t[..g][k];
    }
    assert t[q..q + 7] == line[q..q + 7];
  }

  // Proof steps only: associativity facts about slices and concatenations, stated once so
  // that the proofs using them stay cheap. They are not properties of the model.

  lemma {:induction false} SlicesJoin(s: string, a: nat, b: nat, c: nat)
    requires a <= b <= c <= |s|
    ensures s[a..b] + s[b..c] == s[a..c]
  {
  }

  lemma {:induction false} RegroupDecl(l: string, x: string, p: string, b: string, c: string, d: string, r: string)
    requires p == l + x
    ensures l + ((((x + b) + c) + d) + r) == (((p + b) + c) + d) + r
  {
  }

  lemma {:induction false} Reassoc(p: string, b: string, c: string, d: string, r: string)
    ensures (((p + b) + c) + d) + r == p + (((b + c) + d) + r)
  {
  }

  /** The first `QPixmap name;` of a line becomes `QPixmap name("<rp>");`. */
  lemma {:induction false} FirstDeclarationText(line: string, q: nat, rp: string)
    requires q <= |line| && MatchEmptyQPixmap(line, q).Some?
    requires forall p :: 0 <= p < q ==> MatchEmptyQPixmap(line, p).None?
    ensures var h := MatchEmptyQPixmap(line, q).value;
            Sub(PixmapDecl, line, rp, 0)
            == line[..h.groupEnd] + "(\"" + rp + "\");" + Sub(PixmapDecl, line, rp, h.end)
  {
    var h := MatchEmptyQPixmap(line, q).value;
    SubSkip(PixmapDecl, line, rp, 0, q);
    SubReplace(PixmapDecl, line, rp, q);
    SlicesJoin(line, 0, q, h.groupEnd);
    RegroupDecl(line[0..q], line[q..h.groupEnd], line[..h.groupEnd], "(\"", rp, "\");",
                Sub(PixmapDecl, line, rp, h.end));
  }

  /**
   * After the declaration rewrite, what stands where the first `QPixmap name;` of a line
   * stood is no longer an empty declaration.
   */
  lemma {:induction false} FirstDeclarationFilled(line: string, q: nat, rp: string)
    requires q <= |line| && MatchEmptyQPixmap(line, q).Some?
    requires forall p :: 0 <= p < q ==> MatchEmptyQPixmap(line, p).None?
    ensures q <= |Sub(PixmapDecl, line, rp, 0)| && MatchEmptyQPixmap(Sub(PixmapDecl, line, rp, 0), q).None?
  {
    var h := MatchEmptyQPixmap(line, q).value;
    var g := h.groupEnd;
    FirstDeclarationText(line, q, rp);
    var once := Sub(PixmapDecl, line, rp, 0);
    var after := "(\"" + rp + "\");" + Sub(PixmapDecl, line, rp, h.end);
    Reassoc(line[..g], "(\"", rp, "\");", Sub(PixmapDecl, line, rp, h.end));
    assert once[..g] == line[..g] && once[g] == after[0] == '(';
    SameHead(once, line, q, h.groupStart, g);
    CallIsNotEmptyDecl(once, q, h.groupStart, g);
  }

  /**
   * `re.sub` copies the text before the first match, writes the match's replacement and
   * carries on after the match.
   */
  lemma {:induction false} FirstSiteText(rw: Rewrite, line: string, rp: string, q: nat)
    requires q <= |line| && RewriteAt(rw, line, q, rp).Some?
    requires forall p :: 0 <= p < q ==> RewriteAt(rw, line, p, rp).None?
    ensures var m := RewriteAt(rw, line, q, rp).value;
            Sub(rw, line, rp, 0) == line[..q] + m.text + Sub(rw, line, rp, m.end)
  {
    SubSkip(rw, line, rp, 0, q);
    SubReplace(rw, line, rp, q);
    assert line[0..q] == line[..q];
  }

  /** Proof step only: moving brackets in a concatenation, stated once to keep the proofs below cheap. */
  lemma {:induction false} RegroupLiteral(l: string, a: string, b: string, c: string, r: string)
    ensures l + (a + b + c) + r == l + a + b + c + r
  {
  }

  /** The first `QIcon()` of a line becomes `QIcon("<rp>")`. */
  lemma {:induction false} FirstIconCallText(line: string, q: nat, rp: string)
    requires q <= |line| && IconCallEnd(line, q).Some?
    requires forall p :: 0 <= p < q ==> IconCallEnd(line, p).None?
    ensures Sub(IconCall, line, rp, 0)
            == line[..q] + "QIcon(\"" + rp + "\")" + Sub(IconCall, line, rp, IconCallEnd(line, q).value)
  {
    forall p | 0 <= p < q
      ensures RewriteAt(IconCall, line, p, rp).None?
    {
    }
    var j := IconCallEnd(line, q).value;
    assert RewriteAt(IconCall, line, q, rp) == Some(Replacement(j, IconLiteral(rp)));
    FirstSiteText(IconCall, line, rp, q);
    RegroupLiteral(line[..q], "QIcon(\"", rp, "\")", Sub(IconCall, line, rp, j));
  }

  /** The first `QIcon("")` or `QIcon('')` of a line becomes `QIcon("<rp>")`. */
  lemma {:induction false} FirstIconQuotesText(line: string, q: nat, rp: string)
    requires q <= |line| && IconQuotesEnd(line, q).Some?
    requires forall p :: 0 <= p < q ==> IconQuotesEnd(line, p).None?
    ensures Sub(IconQuotes, line, rp, 0)
            == line[..q] + "QIcon(\"" + rp + "\")" + Sub(IconQuotes, line, rp, IconQuotesEnd(line, q).value)
  {
    forall p | 0 <= p < q
      ensures RewriteAt(IconQuotes, line, p, rp).None?
    {
    }
    var j := IconQuotesEnd(line, q).value;
    assert RewriteAt(IconQuotes, line, q, rp) == Some(Replacement(j, IconLiteral(rp)));
    FirstSiteText(IconQuotes, line, rp, q);
    RegroupLiteral(line[..q], "QIcon(\"", rp, "\")", Sub(IconQuotes, line, rp, j));
  }

  /** The first `QPixmap("placeholder")` (or `temp`, `todo`, `empty`) of a line becomes `QPixmap("<rp>")`. */
  lemma {:induction false} FirstPlaceholderText(line: string, q: nat, rp: string)
    requires q <= |line| && PixmapPlaceholderEnd(line, q).Some?
    requires forall p :: 0 <= p < q ==> PixmapPlaceholderEnd(line, p).None?
    ensures Sub(PixmapPlaceholder, line, rp, 0)
            == line[..q] + "QPixmap(\"" + rp + "\")"
               + Sub(PixmapPlaceholder, line, rp, PixmapPlaceholderEnd(line, q).value)
  {
    forall p | 0 <= p < q
      ensures RewriteAt(PixmapPlaceholder, line, p, rp).None?
    {
    }
    var j := PixmapPlaceholderEnd(line, q).value;
    assert RewriteAt(PixmapPlaceholder, line, q, rp) == Some(Replacement(j, PixmapLiteral(rp)));
    FirstSiteText(PixmapPlaceholder, line, rp, q);
    RegroupLiteral(line[..q], "QPixmap(\"", rp, "\")", Sub(PixmapPlaceholder, line, rp, j));
  }

  // ---------------------------------------------------------------------------
  // Matches that span a line break. The parser matches over the whole file and `\s`
  // takes in `\n`, while `integrate` rewrites only the line the match starts on.
  // ---------------------------------------------------------------------------

  /** A match at the very start of the code is the first opportunity, reported at line 1. */
  lemma {:induction false} FirstHitFound(p: QtPattern, code: string, path: FsPath, h: Hit)
    requires 0 < |code| && Match(p, code, 0) == Some(h)
    ensures |Found(p, code, path)| >= 1
    ensures Found(p, code, path)[0].location.lineNumber == 1
    ensures Found(p, code, path)[0].integrationType == RuleIntegration(p)
  {
    FindIterHit(p, code, 0);
    FoundAt(p, code, path, 0);
  }

  /** The first line of `s` is everything before its first `\n`. */
  lemma {:induction false} FirstLineIs(s: string, j: nat)
    requires j < |s| && s[j] == '\n' && forall k :: 0 <= k < j ==> s[k] != '\n'
    ensures |Split(s, '\n')| >= 1 && Split(s, '\n')[0] == s[..j]
  {
    NextSepIs(s, '\n', 0, j);
    LineAtNext(s, 0);
    assert s[0..j] == s[..j];
  }

  /** The line `setWindowIcon(` holds no site of either QIcon rewrite. */
  lemma {:induction false} OpenCallNoSite(rp: string)
    ensures IntegrateQIcon("setWindowIcon(", rp) == "setWindowIcon("
  {
    var line := "setWindowIcon(";
    forall q | 0 <= q < |line|
      ensures IconCallEnd(line, q).None? && IconQuotesEnd(line, q).None?
    {
      assert line[q] != 'Q';
      assert !LitAt(line, q, "QIcon");
    }
    QIconUnchanged(line, rp);
  }

  /** The bare word `QPixmap` holds no site of either QPixmap rewrite. */
  lemma {:induction false} BareQPixmapNoSite(rp: string)
    ensures IntegrateQPixmap("QPixmap", rp) == "QPixmap"
  {
    var line := "QPixmap";
    assert line[0..7] == "QPixmap";
    assert SpaceEnd(line, 7) == 7;
    forall q | 0 <= q < |line|
      ensures MatchEmptyQPixmap(line, q).None? && PixmapPlaceholderEnd(line, q).None?
    {
      if q > 0 {
        assert !LitAt(line, q, "QPixmap");
      }
    }
    QPixmapUnchanged(line, rp);
  }

  /**
   * When the first line of `code` holds a match of rule `p` at its start but no site of
   * the rewrite that rule's integration type runs, integrating that first opportunity
   * returns the code unchanged.
   */
  lemma {:induction false} FirstLineNotRewritten(p: QtPattern, code: string, path: FsPath, image: FsPath, j: nat)
    requires 0 < |code| && Match(p, code, 0).Some?
    requires j < |code| && code[j] == '\n' && forall k :: 0 <= k < j ==> code[k] != '\n'
    requires RewriteLine(RuleIntegration(p), code[..j], QtResourcePath(image)) == Some(code[..j])
    ensures |Found(p, code, path)| >= 1 && Found(p, code, path)[0].location.lineNumber == 1
    ensures Integrated(code, Found(p, code, path)[0], image) == Ok(code)
  {
    FirstHitFound(p, code, path, Match(p, code, 0).value);
    FirstLineIs(code, j);
    IntegrateNoSite(code, Found(p, code, path)[0], image);
  }

  /** A `setWindowIcon` call whose `QIcon()` sits on the next line. */
  const SplitWindowIcon: string := "setWindowIcon(\nQIcon())"

  lemma {:induction false} SplitWindowIconMatched()
    ensures Match(WindowIcon, SplitWindowIcon, 0) == Some(Hit(0, 23, 0, 0))
  {
    var s := SplitWindowIcon;
    assert s[0..13] == "setWindowIcon";
    assert s[15..20] == "QIcon";
    assert SpaceEnd(s, 13) == 13;
    assert SpaceEnd(s, 14) == 15 by {
      assert SpaceEnd(s, 15) == 15;
    }
    assert SpaceEnd(s, 20) == 20;
    assert SpaceEnd(s, 21) == 21;
    assert SpaceEnd(s, 22) == 22;
    assert IconCallEnd(s, 15) == Some(22);
    WindowIconSteps(s, 0, 13, 15, 22, 22);
  }

  /** The first line of `SplitWindowIcon` is `setWindowIcon(`, which the QIcon rewrite leaves as it is. */
  lemma {:induction false} SplitWindowIconFirstLine(rp: string)
    ensures Match(WindowIcon, SplitWindowIcon, 0).Some?
    ensures SplitWindowIcon[14] == '\n' && forall k :: 0 <= k < 14 ==> SplitWindowIcon[k] != '\n'
    ensures RewriteLine(RuleIntegration(WindowIcon), SplitWindowIcon[..14], rp) == Some(SplitWindowIcon[..14])
  {
    SplitWindowIconMatched();
    SplitWindowIconBreak();
    OpenCallNoSite(rp);
  }

  lemma {:induction false} SplitWindowIconBreak()
    ensures SplitWindowIcon[..14] == "setWindowIcon("
    ensures SplitWindowIcon[14] == '\n' && forall k :: 0 <= k < 14 ==> SplitWindowIcon[k] != '\n'
  {
    var s := SplitWindowIcon;
    forall k | 0 <= k < 14
      ensures s[k] != '\n'
    {
      assert s[k] == s[..14][k];
    }
  }

  /**
   * The window-icon rule reports `SplitWindowIcon` at line 1, but line 1 alone holds no
   * `QIcon()`, so integrating any image returns the code unchanged.
   */
  lemma {:induction false} WindowIconAcrossLines(path: FsPath, image: FsPath)
    ensures |Found(WindowIcon, SplitWindowIcon, path)| >= 1
    ensures Found(WindowIcon, SplitWindowIcon, path)[0].location.lineNumber == 1
    ensures Integrated(SplitWindowIcon, Found(WindowIcon, SplitWindowIcon, path)[0], image) == Ok(SplitWindowIcon)
  {
    SplitWindowIconFirstLine(QtResourcePath(image));
    FirstLineNotRewritten(WindowIcon, SplitWindowIcon, path, image, 14);
  }

  /** An empty declaration whose variable name sits on the next line. */
  const SplitDeclaration: string := "QPixmap\nlogo;"

  lemma {:induction false} SplitDeclarationMatched()
    ensures Match(EmptyQPixmap, SplitDeclaration, 0) == Some(Hit(0, 13, 8, 12))
  {
    var s := SplitDeclaration;
    assert s[0..7] == "QPixmap";
    assert SpaceEnd(s, 7) == 8 by {
      assert SpaceEnd(s, 8) == 8;
    }
    WordEndIs(s, 8, 12);
    assert SpaceEnd(s, 12) == 12;
  }

  /** The first line of `SplitDeclaration` is the bare `QPixmap`, which the QPixmap rewrite leaves as it is. */
  lemma {:induction false} SplitDeclarationFirstLine(rp: string)
    ensures Match(EmptyQPixmap, SplitDeclaration, 0).Some?
    ensures SplitDeclaration[7] == '\n' && forall k :: 0 <= k < 7 ==> SplitDeclaration[k] != '\n'
    ensures RewriteLine(RuleIntegration(EmptyQPixmap), SplitDeclaration[..7], rp) == Some(SplitDeclaration[..7])
  {
    SplitDeclarationMatched();
    SplitDeclarationBreak();
    BareQPixmapNoSite(rp);
  }

  lemma {:induction false} SplitDeclarationBreak()
    ensures SplitDeclaration[..7] == "QPixmap"
    ensures SplitDeclaration[7] == '\n' && forall k :: 0 <= k < 7 ==> SplitDeclaration[k] != '\n'
  {
    var s := SplitDeclaration;
    forall k | 0 <= k < 7
      ensures s[k] != '\n'
    {
      assert s[k] == s[..7][k];
    }
  }

  /**
   * The empty-`QPixmap` rule reports `SplitDeclaration` at line 1, but line 1 is the bare
   * `QPixmap`, so integrating any image returns the code unchanged.
   */
  lemma {:induction false} DeclarationAcrossLines(path: FsPath, image: FsPath)
    ensures |Found(EmptyQPixmap, SplitDeclaration, path)| >= 1
    ensures Found(EmptyQPixmap, SplitDeclaration, path)[0].location.lineNumber == 1
    ensures Integrated(SplitDeclaration, Found(EmptyQPixmap, SplitDeclaration, path)[0], image)
            == Ok(SplitDeclaration)
  {
    SplitDeclarationFirstLine(QtResourcePath(image));
    FirstLineNotRewritten(EmptyQPixmap, SplitDeclaration, path, image, 7);
  }
}
