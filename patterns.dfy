/**
 * The table of Qt patterns the parser scans for, each written as a matcher that
 * decides whether its regular expression matches at a given position, and the
 * leftmost, non-overlapping scan `re.finditer` performs with it.
 *
 * Every `\s*`, `\s+` and `\w+` in these patterns is followed by a character
 * outside its class, so the greedy run is the only one that can succeed and each
 * matcher needs no backtracking.
 */
module Patterns {
  import opened Wrappers
  import opened Strings

  /** The five patterns of the table the parser consumes. */
  datatype QtPattern = EmptyQIcon | EmptyQPixmap | PlaceholderPath | EmptyQIconString | WindowIcon

  /** A match: the text `s[start..end]` and the span of its first group. */
  datatype Hit = Hit(start: nat, end: nat, groupStart: nat, groupEnd: nat)

  /** A match found at `i`: it starts there, is not empty, and its group lies inside it. */
  predicate HitAt(h: Hit, s: string, i: nat)
  {
    h.start == i && i < h.end <= |s| && i <= h.groupStart <= h.groupEnd <= h.end
  }

  /** `match.group(0)`. */
  function Text(s: string, h: Hit): string
    requires h.start <= h.end <= |s|
  {
    s[h.start..h.end]
  }

  /** `match.group(1)`. */
  function Group(s: string, h: Hit): string
    requires h.groupStart <= h.groupEnd <= |s|
  {
    s[h.groupStart..h.groupEnd]
  }

  /** The bare words `placeholder_path` accepts between the quotes. */
  const PlaceholderWords: seq<string> := ["placeholder", "temp", "todo", "empty"]

  // ---------------------------------------------------------------------------
  // The shape of the text each pattern accepts, stated position by position.
  // ---------------------------------------------------------------------------

  /** `(\w+)\.setIcon\(QIcon\(\)\)` spans `s[i..j]`, its group ending at `g`. */
  predicate EmptyQIconShape(s: string, i: nat, g: nat, j: nat)
  {
    Word(s, i, g) && LitAt(s, g, ".setIcon(QIcon())") && j == g + 17
  }

  /** `QPixmap\s+(\w+)\s*;` spans `s[i..j]`, its group being `s[a..g]`. */
  predicate EmptyQPixmapShape(s: string, i: nat, a: nat, g: nat, j: nat)
  {
    LitAt(s, i, "QPixmap") && i + 7 < a && Spaces(s, i + 7, a) && Word(s, a, g)
    && g < j && Spaces(s, g, j - 1) && CharIs(s, j - 1, ';')
  }

  /**
   * `QPixmap\s*\(\s*["'](?:placeholder|temp|todo|empty)["']` spans `s[i..j]`, with `(` at `a`,
   * the opening quote at `b` and the word `w` between the quotes.
   */
  predicate PlaceholderPathAt(s: string, i: nat, a: nat, b: nat, w: string, j: nat)
  {
    LitAt(s, i, "QPixmap") && Spaces(s, i + 7, a) && CharIs(s, a, '(')
    && Spaces(s, a + 1, b) && b < |s| && IsQuote(s[b])
    && w in PlaceholderWords && LitAt(s, b + 1, w)
    && b + 1 + |w| < |s| && IsQuote(s[b + 1 + |w|]) && j == b + |w| + 2
  }

  ghost predicate PlaceholderPathShape(s: string, i: nat, j: nat)
  {
    exists a: nat, b: nat, w: string :: PlaceholderPathAt(s, i, a, b, w, j)
  }

  /**
   * `QIcon\s*\(\s*["']\s*["']\s*\)` spans `s[i..j]`, with `(` at `a`, the quotes at `b`
   * and `c` and `)` at `d`.
   */
  predicate EmptyQIconStringAt(s: string, i: nat, a: nat, b: nat, c: nat, d: nat, j: nat)
  {
    LitAt(s, i, "QIcon") && Spaces(s, i + 5, a) && CharIs(s, a, '(')
    && Spaces(s, a + 1, b) && b < |s| && IsQuote(s[b])
    && Spaces(s, b + 1, c) && c < |s| && IsQuote(s[c])
    && Spaces(s, c + 1, d) && CharIs(s, d, ')') && j == d + 1
  }

  ghost predicate EmptyQIconStringShape(s: string, i: nat, j: nat)
  {
    exists a: nat, b: nat, c: nat, d: nat :: EmptyQIconStringAt(s, i, a, b, c, d, j)
  }

  /** `QIcon\s*\(\s*\)` spans `s[b..j]`, with `(` at `c` and `)` at `d`. */
  predicate IconCallAt(s: string, b: nat, c: nat, d: nat, j: nat)
  {
    LitAt(s, b, "QIcon") && Spaces(s, b + 5, c) && CharIs(s, c, '(')
    && Spaces(s, c + 1, d) && CharIs(s, d, ')') && j == d + 1
  }

  ghost predicate IconCallShape(s: string, b: nat, j: nat)
  {
    exists c: nat, d: nat :: IconCallAt(s, b, c, d, j)
  }

  /**
   * `setWindowIcon\s*\(\s*QIcon\s*\(\s*\)\s*\)` spans `s[i..j]`, with the first `(` at `a`,
   * the inner `QIcon()` at `s[b..k]` and the last `)` at `e`.
   */
  ghost predicate WindowIconAt(s: string, i: nat, a: nat, b: nat, k: nat, e: nat, j: nat)
  {
    LitAt(s, i, "setWindowIcon") && Spaces(s, i + 13, a) && CharIs(s, a, '(')
    && Spaces(s, a + 1, b) && IconCallShape(s, b, k) && Spaces(s, k, e) && CharIs(s, e, ')')
    && j == e + 1
  }

  ghost predicate WindowIconShape(s: string, i: nat, j: nat)
  {
    exists a: nat, b: nat, k: nat, e: nat :: WindowIconAt(s, i, a, b, k, e, j)
  }

  // ---------------------------------------------------------------------------
  // The matchers.
  // ---------------------------------------------------------------------------

  function MatchEmptyQIcon(s: string, i: nat): (r: Option<Hit>)
    requires i <= |s|
    ensures r.Some? ==> HitAt(r.value, s, i)
  {
    var g := WordEnd(s, i);
    if g > i && LitAt(s, g, ".setIcon(QIcon())") then Some(Hit(i, g + 17, i, g)) else None
  }

  function MatchEmptyQPixmap(s: string, i: nat): (r: Option<Hit>)
    requires i <= |s|
    ensures r.Some? ==> HitAt(r.value, s, i)
  {
    if !LitAt(s, i, "QPixmap") then None
    else
      var a := SpaceEnd(s, i + 7);
      var g := WordEnd(s, a);
      var c := SpaceEnd(s, g);
      if a > i + 7 && g > a && CharIs(s, c, ';') then Some(Hit(i, c + 1, a, g)) else None
  }

  /** Word `w` is written at `b + 1`, right after the quote at `b`, and a quote follows it. */
  predicate QuotedAt(s: string, b: nat, w: string)
  {
    LitAt(s, b + 1, w) && b + 1 + |w| < |s| && IsQuote(s[b + 1 + |w|])
  }

  /**
   * `(?:placeholder|temp|todo|empty)["']` after the opening quote at `b`: the words of `ws`
   * are tried in turn, as the alternation does, and the first one followed by a quote
   * gives the end of the match.
   */
  function QuotedWordEnd(s: string, b: nat, ws: seq<string>): (j: Option<nat>)
    ensures j.Some? ==> b + 2 <= j.value <= |s|
  {
    if ws == [] then None
    else if QuotedAt(s, b, ws[0]) then Some(b + |ws[0]| + 2)
    else QuotedWordEnd(s, b, ws[1..])
  }

  function MatchPlaceholderPath(s: string, i: nat): (r: Option<Hit>)
    requires i <= |s|
    ensures r.Some? ==> HitAt(r.value, s, i)
    ensures r.Some? ==> r.value.groupStart == r.value.groupEnd == i
  {
    if !LitAt(s, i, "QPixmap") then None
    else
      var a := SpaceEnd(s, i + 7);
      if !CharIs(s, a, '(') then None
      else
        var b := SpaceEnd(s, a + 1);
        if !(b < |s| && IsQuote(s[b])) then None
        else
          match QuotedWordEnd(s, b, PlaceholderWords)
          case None => None
          case Some(j) => Some(Hit(i, j, i, i))
  }

  function MatchEmptyQIconString(s: string, i: nat): (r: Option<Hit>)
    requires i <= |s|
    ensures r.Some? ==> HitAt(r.value, s, i)
    ensures r.Some? ==> r.value.groupStart == r.value.groupEnd == i
  {
    if !LitAt(s, i, "QIcon") then None
    else
      var a := SpaceEnd(s, i + 5);
      if !CharIs(s, a, '(') then None
      else
        var b := SpaceEnd(s, a + 1);
        if !(b < |s| && IsQuote(s[b])) then None
        else
          var c := SpaceEnd(s, b + 1);
          if !(c < |s| && IsQuote(s[c])) then None
          else
            var d := SpaceEnd(s, c + 1);
            if CharIs(s, d, ')') then
              Some(Hit(i, d + 1, i, i))
            else None
  }

  /** Where a `QIcon\s*\(\s*\)` starting at `b` ends, if one starts there. */
  function IconCallEnd(s: string, b: nat): (r: Option<nat>)
    requires b <= |s|
    ensures r.Some? ==> b < r.value <= |s|
  {
    if !LitAt(s, b, "QIcon") then None
    else
      var c := SpaceEnd(s, b + 5);
      if !CharIs(s, c, '(') then None
      else
        var d := SpaceEnd(s, c + 1);
        if CharIs(s, d, ')') then
          Some(d + 1)
        else None
  }

  function MatchWindowIcon(s: string, i: nat): (r: Option<Hit>)
    requires i <= |s|
    ensures r.Some? ==> HitAt(r.value, s, i)
    ensures r.Some? ==> r.value.groupStart == r.value.groupEnd == i
  {
    if !LitAt(s, i, "setWindowIcon") then None
    else
      var a := SpaceEnd(s, i + 13);
      if !CharIs(s, a, '(') then None
      else
        var b := SpaceEnd(s, a + 1);
        match IconCallEnd(s, b)
        case None => None
        case Some(k) =>
          var e := SpaceEnd(s, k);
          if CharIs(s, e, ')') then
            Some(Hit(i, e + 1, i, i))
          else None
  }

  /** Whether pattern `p` matches at `i` (`p.match(s, i)`), and how. */
  function Match(p: QtPattern, s: string, i: nat): (r: Option<Hit>)
    requires i <= |s|
    ensures r.Some? ==> HitAt(r.value, s, i)
  {
    match p
    case EmptyQIcon => MatchEmptyQIcon(s, i)
    case EmptyQPixmap => MatchEmptyQPixmap(s, i)
    case PlaceholderPath => MatchPlaceholderPath(s, i)
    case EmptyQIconString => MatchEmptyQIconString(s, i)
    case WindowIcon => MatchWindowIcon(s, i)
  }

  /** `p.finditer(s[i:])` with positions kept in `s`: try each start, resume after each match. */
  function FindIter(p: QtPattern, s: string, i: nat): (r: seq<Hit>)
    requires i <= |s|
    ensures forall k :: 0 <= k < |r| ==> i <= r[k].start < r[k].end <= |s|
    decreases |s| - i
  {
    if i == |s| then []
    else
      match Match(p, s, i)
      case Some(h) => [h] + FindIter(p, s, h.end)
      case None => FindIter(p, s, i + 1)
  }

  // ---------------------------------------------------------------------------
  // What the scan finds.
  // ---------------------------------------------------------------------------

  /** One step of the scan where the pattern matches: the match, then the scan after it. */
  lemma {:induction false} FindIterHit(p: QtPattern, s: string, i: nat)
    requires i < |s| && Match(p, s, i).Some?
    ensures FindIter(p, s, i) == [Match(p, s, i).value] + FindIter(p, s, Match(p, s, i).value.end)
  {
  }

  /** One step of the scan where the pattern does not match: the scan from the next place. */
  lemma {:induction false} FindIterMiss(p: QtPattern, s: string, i: nat)
    requires i < |s| && Match(p, s, i).None?
    ensures FindIter(p, s, i) == FindIter(p, s, i + 1)
  {
  }

  /** Ordered, non-overlapping hits stay so with a hit in front that ends before the first. */
  lemma {:induction false} OrderedCons(h: Hit, rest: seq<Hit>)
    requires forall k :: 0 <= k < |rest| ==> h.end <= rest[k].start
    requires forall k :: 0 <= k < |rest| - 1 ==> rest[k].end <= rest[k + 1].start
    ensures forall k :: 0 <= k < |[h] + rest| - 1 ==> ([h] + rest)[k].end <= ([h] + rest)[k + 1].start
  {
    var r := [h] + rest;
    forall k | 0 <= k < |r| - 1
      ensures r[k].end <= r[k + 1].start
    {
      if k > 0 {
        assert r[k] == rest[k - 1] && r[k + 1] == rest[k];
      }
    }
  }

  /** Each of `hits` is what pattern `p` matches at its start. */
  predicate AllMatch(p: QtPattern, s: string, hits: seq<Hit>)
  {
    forall k :: 0 <= k < |hits| ==> hits[k].start <= |s| && Match(p, s, hits[k].start) == Some(hits[k])
  }

  lemma {:induction false} AllMatchCons(p: QtPattern, s: string, h: Hit, rest: seq<Hit>)
    requires h.start <= |s| && Match(p, s, h.start) == Some(h) && AllMatch(p, s, rest)
    ensures AllMatch(p, s, [h] + rest)
  {
    var r := [h] + rest;
    forall k | 0 <= k < |r| ensures r[k].start <= |s| && Match(p, s, r[k].start) == Some(r[k]) {
      if k > 0 {
        assert r[k] == rest[k - 1];
      }
    }
  }

  /** Every match the scan reports is what the pattern matches at that match's start. */
  lemma {:induction false} FindIterMatches(p: QtPattern, s: string, i: nat)
    requires i <= |s|
    ensures AllMatch(p, s, FindIter(p, s, i))
    decreases |s| - i
  {
    if i < |s| {
      var m := Match(p, s, i);
      if m.Some? {
        FindIterHit(p, s, i);
        FindIterMatches(p, s, m.value.end);
        AllMatchCons(p, s, m.value, FindIter(p, s, m.value.end));
      } else {
        FindIterMiss(p, s, i);
        FindIterMatches(p, s, i + 1);
      }
    }
  }

  /** The matches come left to right and never overlap, all at or after `i`. */
  lemma {:induction false} FindIterOrdered(p: QtPattern, s: string, i: nat)
    requires i <= |s|
    ensures forall k :: 0 <= k < |FindIter(p, s, i)| - 1
                        ==> FindIter(p, s, i)[k].end <= FindIter(p, s, i)[k + 1].start
    decreases |s| - i
  {
    if i < |s| {
      var m := Match(p, s, i);
      if m.Some? {
        FindIterHit(p, s, i);
        FindIterOrdered(p, s, m.value.end);
        OrderedCons(m.value, FindIter(p, s, m.value.end));
      } else {
        FindIterMiss(p, s, i);
        FindIterOrdered(p, s, i + 1);
      }
    }
  }

  /** Position `q` lies inside one of `hits`. */
  ghost predicate Covers(hits: seq<Hit>, q: nat)
  {
    exists k :: 0 <= k < |hits| && hits[k].start <= q < hits[k].end
  }

  lemma {:induction false} CoversCons(h: Hit, rest: seq<Hit>, q: nat)
    requires Covers(rest, q) || h.start <= q < h.end
    ensures Covers([h] + rest, q)
  {
    var r := [h] + rest;
    if h.start <= q < h.end {
      assert r[0] == h;
    } else {
      var k :| 0 <= k < |rest| && rest[k].start <= q < rest[k].end;
      assert r[k + 1] == rest[k];
    }
  }

  /**
   * The scan's shape on `0..n`, whatever the matcher: `scan(k)` is the hit found at `k`
   * followed by the scan after it, or the scan from `k + 1` when nothing matches at `k`.
   */
  ghost predicate ScanShape(n: nat, at: nat -> Option<Hit>, scan: nat -> seq<Hit>)
  {
    forall k :: 0 <= k < n ==> ScanStep(n, at, scan, k)
  }

  ghost predicate ScanStep(n: nat, at: nat -> Option<Hit>, scan: nat -> seq<Hit>, k: nat)
  {
    match at(k)
    case Some(h) => h.start == k < h.end <= n && scan(k) == [h] + scan(h.end)
    case None => scan(k) == scan(k + 1)
  }

  /** In a scan of that shape, every place where the matcher succeeds is covered. */
  lemma {:induction false} ScanCovers(n: nat, at: nat -> Option<Hit>, scan: nat -> seq<Hit>, i: nat, q: nat)
    requires ScanShape(n, at, scan) && i <= q < n && at(q).Some?
    ensures Covers(scan(i), q)
    decreases n - i
  {
    assert ScanStep(n, at, scan, i);
    match at(i)
    case Some(h) =>
      if q >= h.end {
        ScanCovers(n, at, scan, h.end, q);
      }
      CoversCons(h, scan(h.end), q);
    case None =>
      ScanCovers(n, at, scan, i + 1, q);
  }

  /** One step of the scan, whether or not the pattern matches there. */
  lemma {:induction false} FindIterStep(p: QtPattern, s: string, k: nat)
    requires k < |s|
    ensures ScanStep(|s|, MatchesIn(p, s), ScansOf(p, s), k)
  {
    if Match(p, s, k).Some? {
      FindIterHit(p, s, k);
    } else {
      FindIterMiss(p, s, k);
    }
  }

  /** `Match` and `FindIter` on `s` as functions of the position. */
  function MatchesIn(p: QtPattern, s: string): nat -> Option<Hit>
  {
    (k: nat) => if k <= |s| then Match(p, s, k) else None
  }

  function ScansOf(p: QtPattern, s: string): nat -> seq<Hit>
  {
    (k: nat) => if k <= |s| then FindIter(p, s, k) else []
  }

  /** `FindIter` is a scan of that shape over `Match`. */
  lemma {:induction false} FindIterShape(p: QtPattern, s: string)
    ensures ScanShape(|s|, MatchesIn(p, s), ScansOf(p, s))
  {
    forall k: nat | k < |s|
      ensures ScanStep(|s|, MatchesIn(p, s), ScansOf(p, s), k)
    {
      FindIterStep(p, s, k);
    }
  }

  /** Every place where the pattern matches lies inside one of the matches found. */
  lemma {:induction false} FindIterComplete(p: QtPattern, s: string, i: nat, q: nat)
    requires i <= q < |s| && Match(p, s, q).Some?
    ensures Covers(FindIter(p, s, i), q)
  {
    FindIterShape(p, s);
    ScanCovers(|s|, MatchesIn(p, s), ScansOf(p, s), i, q);
  }

  /** With no match anywhere from `i` on, the scan finds nothing. */
  lemma {:induction false} FindIterNone(p: QtPattern, s: string, i: nat)
    requires i <= |s|
    requires forall q :: i <= q < |s| ==> Match(p, s, q).None?
    ensures FindIter(p, s, i) == []
    decreases |s| - i
  {
    if i < |s| {
      FindIterNone(p, s, i + 1);
    }
  }

  // ---------------------------------------------------------------------------
  // Each matcher accepts exactly the text its pattern describes.
  // ---------------------------------------------------------------------------

  /** `empty_qicon` matches exactly a word followed by `.setIcon(QIcon())`, with no space anywhere. */
  lemma {:induction false} EmptyQIconExact(s: string, i: nat, g: nat, j: nat)
    requires i <= |s|
    ensures EmptyQIconShape(s, i, g, j) <==> Match(EmptyQIcon, s, i) == Some(Hit(i, j, i, g))
  {
    if EmptyQIconShape(s, i, g, j) {
      WordEndIs(s, i, g);
    }
  }

  /** `empty_qpixmap` matches exactly `QPixmap`, spaces, a word, optional spaces and `;`. */
  lemma {:induction false} EmptyQPixmapExact(s: string, i: nat, a: nat, g: nat, j: nat)
    requires i <= |s|
    ensures EmptyQPixmapShape(s, i, a, g, j) <==> Match(EmptyQPixmap, s, i) == Some(Hit(i, j, a, g))
  {
    if EmptyQPixmapShape(s, i, a, g, j) {
      SpaceEndIs(s, i + 7, a);
      WordEndIs(s, a, g);
      SpaceEndIs(s, g, j - 1);
    }
  }

  /** Two literals found at the same place agree wherever both are defined. */
  lemma {:induction false} LitAtAgree(s: string, k: nat, x: string, y: string, m: nat)
    requires LitAt(s, k, x) && LitAt(s, k, y) && m < |x| && m < |y|
    ensures x[m] == y[m]
  {
    assert s[k..k + |x|][m] == s[k + m] == s[k..k + |y|][m];
  }

  /** The first of the placeholder words written at `k` is `w` itself: the words differ early. */
  lemma {:induction false} PlaceholderWordFirst(s: string, k: nat, w: string) returns (m: nat)
    requires w in PlaceholderWords && LitAt(s, k, w)
    ensures m < |PlaceholderWords| && PlaceholderWords[m] == w
    ensures forall j :: 0 <= j < m ==> !LitAt(s, k, PlaceholderWords[j])
  {
    if w == "placeholder" {
      m := 0;
    } else {
      if LitAt(s, k, "placeholder") {
        LitAtAgree(s, k, w, "placeholder", 0);
      }
      if w == "temp" {
        m := 1;
      } else {
        if LitAt(s, k, "temp") {
          LitAtAgree(s, k, w, "temp", if w == "todo" then 1 else 0);
        }
        if w == "todo" {
          m := 2;
        } else {
          if LitAt(s, k, "todo") {
            LitAtAgree(s, k, w, "todo", 0);
          }
          m := 3;
        }
      }
    }
  }

  /** The scan of the words stops at the first one that is quoted at `b`. */
  lemma {:induction false} QuotedWordEndFound(s: string, b: nat, ws: seq<string>, m: nat)
    requires m < |ws| && QuotedAt(s, b, ws[m])
    requires forall k :: 0 <= k < m ==> !QuotedAt(s, b, ws[k])
    ensures QuotedWordEnd(s, b, ws) == Some(b + |ws[m]| + 2)
    decreases m
  {
    if m > 0 {
      var rest := ws[1..];
      assert rest[m - 1] == ws[m];
      forall k | 0 <= k < m - 1 ensures !QuotedAt(s, b, rest[k]) {
        assert rest[k] == ws[k + 1];
      }
      QuotedWordEndFound(s, b, rest, m - 1);
    }
  }

  /** When the scan of the words succeeds, one of them is quoted at `b` and ends the match. */
  lemma {:induction false} QuotedWordEndSound(s: string, b: nat, ws: seq<string>) returns (w: string)
    requires QuotedWordEnd(s, b, ws).Some?
    ensures w in ws && QuotedAt(s, b, w) && QuotedWordEnd(s, b, ws) == Some(b + |w| + 2)
    decreases |ws|
  {
    if QuotedAt(s, b, ws[0]) {
      w := ws[0];
    } else {
      w := QuotedWordEndSound(s, b, ws[1..]);
      assert w in ws[1..];
    }
  }

  /** When none of the words is quoted at `b`, the scan of the words fails. */
  lemma {:induction false} QuotedWordEndNone(s: string, b: nat, ws: seq<string>)
    requires forall k :: 0 <= k < |ws| ==> !QuotedAt(s, b, ws[k])
    ensures QuotedWordEnd(s, b, ws).None?
    decreases |ws|
  {
    if ws != [] {
      assert !QuotedAt(s, b, ws[0]);
      var rest := ws[1..];
      forall k | 0 <= k < |rest| ensures !QuotedAt(s, b, rest[k]) {
        assert rest[k] == ws[k + 1];
      }
      QuotedWordEndNone(s, b, rest);
    }
  }

  /** A placeholder word quoted at `b` is the one the scan of the words finds. */
  lemma {:induction false} PlaceholderQuoted(s: string, b: nat, w: string)
    requires w in PlaceholderWords && QuotedAt(s, b, w)
    ensures QuotedWordEnd(s, b, PlaceholderWords) == Some(b + |w| + 2)
  {
    var m := PlaceholderWordFirst(s, b + 1, w);
    QuotedWordEndFound(s, b, PlaceholderWords, m);
  }

  lemma {:induction false} PlaceholderPathSound(s: string, i: nat)
    requires i <= |s| && MatchPlaceholderPath(s, i).Some?
    ensures PlaceholderPathShape(s, i, MatchPlaceholderPath(s, i).value.end)
  {
    var a := SpaceEnd(s, i + 7);
    var b := SpaceEnd(s, a + 1);
    var w := QuotedWordEndSound(s, b, PlaceholderWords);
    assert PlaceholderPathAt(s, i, a, b, w, MatchPlaceholderPath(s, i).value.end);
  }

  /** `placeholder_path` matches exactly a placeholder word quoted right after `QPixmap(`. */
  lemma {:induction false} PlaceholderPathExact(s: string, i: nat, j: nat)
    requires i <= |s|
    ensures PlaceholderPathShape(s, i, j) <==> Match(PlaceholderPath, s, i) == Some(Hit(i, j, i, i))
  {
    if PlaceholderPathShape(s, i, j) {
      var a: nat, b: nat, w: string :| PlaceholderPathAt(s, i, a, b, w, j);
      PlaceholderPathFound(s, i, a, b, w, j);
    }
    if Match(PlaceholderPath, s, i) == Some(Hit(i, j, i, i)) {
      PlaceholderPathSound(s, i);
    }
  }

  /** The matcher's steps, each already taken. */
  lemma {:induction false} PlaceholderPathSteps(s: string, i: nat, a: nat, b: nat, j: nat)
    requires i <= |s| && LitAt(s, i, "QPixmap") && i + 7 <= |s| && SpaceEnd(s, i + 7) == a
    requires CharIs(s, a, '(') && a + 1 <= |s| && SpaceEnd(s, a + 1) == b && b < |s| && IsQuote(s[b])
    requires QuotedWordEnd(s, b, PlaceholderWords) == Some(j)
    ensures MatchPlaceholderPath(s, i) == Some(Hit(i, j, i, i))
  {
  }

  lemma {:induction false} PlaceholderPathFound(s: string, i: nat, a: nat, b: nat, w: string, j: nat)
    requires PlaceholderPathAt(s, i, a, b, w, j)
    ensures MatchPlaceholderPath(s, i) == Some(Hit(i, j, i, i))
  {
    SpaceEndIs(s, i + 7, a);
    SpaceEndIs(s, a + 1, b);
    PlaceholderQuoted(s, b, w);
    PlaceholderPathSteps(s, i, a, b, j);
  }

  lemma {:induction false} EmptyQIconStringSound(s: string, i: nat)
    requires i <= |s| && MatchEmptyQIconString(s, i).Some?
    ensures EmptyQIconStringShape(s, i, MatchEmptyQIconString(s, i).value.end)
  {
    var a := SpaceEnd(s, i + 5);
    var b := SpaceEnd(s, a + 1);
    var c := SpaceEnd(s, b + 1);
    var d := SpaceEnd(s, c + 1);
    assert EmptyQIconStringAt(s, i, a, b, c, d, MatchEmptyQIconString(s, i).value.end);
  }

  /** `empty_qicon_string` matches exactly two quotes of either kind inside `QIcon( )`, spaces allowed. */
  lemma {:induction false} EmptyQIconStringExact(s: string, i: nat, j: nat)
    requires i <= |s|
    ensures EmptyQIconStringShape(s, i, j) <==> Match(EmptyQIconString, s, i) == Some(Hit(i, j, i, i))
  {
    if EmptyQIconStringShape(s, i, j) {
      var a: nat, b: nat, c: nat, d: nat :| EmptyQIconStringAt(s, i, a, b, c, d, j);
      EmptyQIconStringFound(s, i, a, b, c, d, j);
    }
    if Match(EmptyQIconString, s, i) == Some(Hit(i, j, i, i)) {
      EmptyQIconStringSound(s, i);
    }
  }

  lemma {:induction false} EmptyQIconStringFound(s: string, i: nat, a: nat, b: nat, c: nat, d: nat, j: nat)
    requires EmptyQIconStringAt(s, i, a, b, c, d, j)
    ensures MatchEmptyQIconString(s, i) == Some(Hit(i, j, i, i))
  {
    SpaceEndIs(s, i + 5, a);
    SpaceEndIs(s, a + 1, b);
    SpaceEndIs(s, b + 1, c);
    SpaceEndIs(s, c + 1, d);
  }

  /** The `QIcon()` fragment is found exactly where it is written. */
  lemma {:induction false} IconCallExact(s: string, b: nat, j: nat)
    requires b <= |s|
    ensures IconCallShape(s, b, j) <==> IconCallEnd(s, b) == Some(j)
  {
    if IconCallShape(s, b, j) {
      var c: nat, d: nat :| IconCallAt(s, b, c, d, j);
      SpaceEndIs(s, b + 5, c);
      SpaceEndIs(s, c + 1, d);
    }
    if IconCallEnd(s, b).Some? {
      var c := SpaceEnd(s, b + 5);
      var d := SpaceEnd(s, c + 1);
      assert IconCallAt(s, b, c, d, IconCallEnd(s, b).value);
    }
  }

  lemma {:induction false} WindowIconSound(s: string, i: nat)
    requires i <= |s| && MatchWindowIcon(s, i).Some?
    ensures WindowIconShape(s, i, MatchWindowIcon(s, i).value.end)
  {
    var a := SpaceEnd(s, i + 13);
    var b := SpaceEnd(s, a + 1);
    var k := IconCallEnd(s, b).value;
    var e := SpaceEnd(s, k);
    IconCallExact(s, b, k);
    assert WindowIconAt(s, i, a, b, k, e, MatchWindowIcon(s, i).value.end);
  }

  /** `window_icon` matches exactly `setWindowIcon(QIcon())` with spaces allowed between the tokens. */
  lemma {:induction false} WindowIconExact(s: string, i: nat, j: nat)
    requires i <= |s|
    ensures WindowIconShape(s, i, j) <==> Match(WindowIcon, s, i) == Some(Hit(i, j, i, i))
  {
    if WindowIconShape(s, i, j) {
      var a: nat, b: nat, k: nat, e: nat :| WindowIconAt(s, i, a, b, k, e, j);
      WindowIconFound(s, i, a, b, k, e, j);
    }
    if Match(WindowIcon, s, i) == Some(Hit(i, j, i, i)) {
      WindowIconSound(s, i);
    }
  }

  lemma {:induction false} WindowIconFound(s: string, i: nat, a: nat, b: nat, k: nat, e: nat, j: nat)
    requires WindowIconAt(s, i, a, b, k, e, j)
    ensures MatchWindowIcon(s, i) == Some(Hit(i, j, i, i))
  {
    SpaceEndIs(s, i + 13, a);
    SpaceEndIs(s, a + 1, b);
    IconCallExact(s, b, k);
    SpaceEndIs(s, k, e);
    WindowIconSteps(s, i, a, b, k, e);
  }

  /** The matcher's steps, each already taken. */
  lemma {:induction false} WindowIconSteps(s: string, i: nat, a: nat, b: nat, k: nat, e: nat)
    requires i <= |s| && LitAt(s, i, "setWindowIcon") && SpaceEnd(s, i + 13) == a && CharIs(s, a, '(')
    requires SpaceEnd(s, a + 1) == b && IconCallEnd(s, b) == Some(k) && SpaceEnd(s, k) == e && CharIs(s, e, ')')
    ensures MatchWindowIcon(s, i) == Some(Hit(i, e + 1, i, i))
  {
  }

  // ---------------------------------------------------------------------------
  // How the patterns relate to each other and to the text around a match.
  // ---------------------------------------------------------------------------

  /** The literal every pattern but `empty_qicon` starts with. */
  function Keyword(p: QtPattern): string
    requires p != EmptyQIcon
  {
    match p
    case EmptyQPixmap => "QPixmap"
    case PlaceholderPath => "QPixmap"
    case EmptyQIconString => "QIcon"
    case WindowIcon => "setWindowIcon"
  }

  /** A match of a keyword pattern has its keyword, then a space or `(`. */
  lemma {:induction false} KeywordThenDelimiter(p: QtPattern, s: string, i: nat)
    requires p != EmptyQIcon && i <= |s| && Match(p, s, i).Some?
    ensures LitAt(s, i, Keyword(p)) && i + |Keyword(p)| < |s|
    ensures IsSpace(s[i + |Keyword(p)|]) || s[i + |Keyword(p)|] == '('
  {
    var n := |Keyword(p)|;
    var a := SpaceEnd(s, i + n);
    if a == i + n {
      match p
      case EmptyQPixmap => assert false;
      case PlaceholderPath => assert s[a] == '(';
      case EmptyQIconString => assert s[a] == '(';
      case WindowIcon => assert s[a] == '(';
    }
  }

  /** A keyword followed by a delimiter is a whole word, so `empty_qicon` cannot match there. */
  lemma {:induction false} KeywordIsNotIdentifier(s: string, i: nat, kw: string)
    requires kw in ["QPixmap", "QIcon", "setWindowIcon"] && LitAt(s, i, kw) && i + |kw| < |s|
    requires IsSpace(s[i + |kw|]) || s[i + |kw|] == '('
    ensures Match(EmptyQIcon, s, i).None?
  {
    forall k | i <= k < i + |kw| ensures IsWord(s[k]) {
      assert s[k] == s[i..i + |kw|][k - i] == kw[k - i];
    }
    WordEndIs(s, i, i + |kw|);
    assert !LitAt(s, i + |kw|, ".setIcon(QIcon())");
  }

  /** `empty_qpixmap` wants a word after `QPixmap\s+`, `placeholder_path` a `(`. */
  lemma {:induction false} PixmapPatternsDisjoint(s: string, i: nat)
    requires i <= |s| && MatchEmptyQPixmap(s, i).Some?
    ensures MatchPlaceholderPath(s, i).None?
  {
    var a := SpaceEnd(s, i + 7);
    assert WordEnd(s, a) > a;
    assert IsWord(s[a]);
  }

  /** Two different keywords differ in their first or second letter. */
  lemma {:induction false} KeywordsClash(p: QtPattern, q: QtPattern) returns (m: nat)
    requires p != EmptyQIcon && q != EmptyQIcon && Keyword(p) != Keyword(q)
    ensures m < |Keyword(p)| && m < |Keyword(q)| && Keyword(p)[m] != Keyword(q)[m]
  {
    m := if Keyword(p)[0] == Keyword(q)[0] then 1 else 0;
  }

  /** Two keyword patterns never match at the same place. */
  lemma {:induction false} KeywordPatternsDisjoint(p: QtPattern, q: QtPattern, s: string, i: nat)
    requires p != q && p != EmptyQIcon && q != EmptyQIcon && i <= |s| && Match(p, s, i).Some?
    ensures Match(q, s, i).None?
  {
    if Match(q, s, i).Some? {
      KeywordThenDelimiter(p, s, i);
      KeywordThenDelimiter(q, s, i);
      var kp, kq := Keyword(p), Keyword(q);
      if kp != kq {
        var m := KeywordsClash(p, q);
        LitAtAgree(s, i, kp, kq, m);
      } else {
        // Both start with `QPixmap`: one is `empty_qpixmap`, the other `placeholder_path`.
        PixmapPatternsDisjoint(s, i);
      }
    }
  }

  /** No two of the five patterns match at the same place: their openings differ. */
  lemma {:induction false} OnePatternPerStart(p: QtPattern, q: QtPattern, s: string, i: nat)
    requires p != q && i <= |s| && Match(p, s, i).Some?
    ensures Match(q, s, i).None?
  {
    if p == EmptyQIcon || q == EmptyQIcon {
      var other := if p == EmptyQIcon then q else p;
      if Match(other, s, i).Some? {
        KeywordThenDelimiter(other, s, i);
        KeywordIsNotIdentifier(s, i, Keyword(other));
      }
    } else {
      KeywordPatternsDisjoint(p, q, s, i);
    }
  }

  /** An `empty_qicon` match one character later extends backwards over a word character. */
  lemma {:induction false} EmptyQIconExtends(s: string, i: nat)
    requires 0 < i <= |s| && IsWord(s[i - 1]) && MatchEmptyQIcon(s, i).Some?
    ensures MatchEmptyQIcon(s, i - 1).Some?
  {
    assert WordEnd(s, i - 1) == WordEnd(s, i);
  }

  /** An `empty_qicon` match ends with `)`. */
  lemma {:induction false} EmptyQIconEndsWithParen(s: string, i: nat)
    requires i <= |s| && MatchEmptyQIcon(s, i).Some?
    ensures s[MatchEmptyQIcon(s, i).value.end - 1] == ')'
  {
    var g := WordEnd(s, i);
    assert s[g + 16] == s[g..g + 17][16];
  }

  /** Position `st` of `s` is not preceded by a word character. */
  predicate NoWordBefore(s: string, st: nat)
  {
    st == 0 || (st <= |s| && !IsWord(s[st - 1]))
  }

  lemma {:induction false} NoWordBeforeCons(s: string, h: Hit, rest: seq<Hit>)
    requires NoWordBefore(s, h.start)
    requires forall k :: 0 <= k < |rest| ==> NoWordBefore(s, rest[k].start)
    ensures forall k :: 0 <= k < |[h] + rest| ==> NoWordBefore(s, ([h] + rest)[k].start)
  {
    var r := [h] + rest;
    forall k | 0 <= k < |r|
      ensures NoWordBefore(s, r[k].start)
    {
      if k > 0 {
        assert r[k] == rest[k - 1];
      }
    }
  }

  /** The scan never starts a match inside a word, given that it does not start inside one. */
  lemma {:induction false} EmptyQIconWholeWordFrom(s: string, i: nat)
    requires i <= |s|
    requires i == 0 || !IsWord(s[i - 1]) || Match(EmptyQIcon, s, i - 1).None?
    ensures forall k :: 0 <= k < |FindIter(EmptyQIcon, s, i)| ==> NoWordBefore(s, FindIter(EmptyQIcon, s, i)[k].start)
    decreases |s| - i
  {
    if i < |s| {
      var m := MatchEmptyQIcon(s, i);
      if m.Some? {
        var h := m.value;
        if i > 0 && IsWord(s[i - 1]) {
          EmptyQIconExtends(s, i);
        }
        EmptyQIconEndsWithParen(s, i);
        FindIterHit(EmptyQIcon, s, i);
        EmptyQIconWholeWordFrom(s, h.end);
        NoWordBeforeCons(s, h, FindIter(EmptyQIcon, s, h.end));
      } else {
        FindIterMiss(EmptyQIcon, s, i);
        EmptyQIconWholeWordFrom(s, i + 1);
      }
    }
  }

  /**
   * Under leftmost scanning, the identifier `empty_qicon` captures is the whole run of word
   * characters in front of `.setIcon`: nothing word-like precedes it.
   */
  lemma {:induction false} EmptyQIconWholeWord(s: string)
    ensures forall k :: 0 <= k < |FindIter(EmptyQIcon, s, 0)|
                        ==> var h := FindIter(EmptyQIcon, s, 0)[k];
                            h.groupStart == h.start
                            && (h.start == 0 || !IsWord(s[h.start - 1]))
                            && Word(s, h.groupStart, h.groupEnd)
                            && LitAt(s, h.groupEnd, ".setIcon(QIcon())")
  {
    EmptyQIconWholeWordFrom(s, 0);
    FindIterMatches(EmptyQIcon, s, 0);
    forall k | 0 <= k < |FindIter(EmptyQIcon, s, 0)|
      ensures var h := FindIter(EmptyQIcon, s, 0)[k];
              Word(s, h.groupStart, h.groupEnd) && LitAt(s, h.groupEnd, ".setIcon(QIcon())")
    {
      var h := FindIter(EmptyQIcon, s, 0)[k];
      EmptyQIconExact(s, h.start, h.groupEnd, h.end);
    }
  }

  // ---------------------------------------------------------------------------
  // Examples.
  // ---------------------------------------------------------------------------

  /** A file name with an extension is not a placeholder: `QPixmap("placeholder.png")` is not matched. */
  lemma {:induction false} PlaceholderWithExtensionMissed()
    ensures Match(PlaceholderPath, "QPixmap(\"placeholder.png\")", 0).None?
  {
    var s := "QPixmap(\"placeholder.png\")";
    assert SpaceEnd(s, 7) == 7;
    assert SpaceEnd(s, 8) == 8;
    forall k | 0 <= k < |PlaceholderWords| ensures !QuotedAt(s, 8, PlaceholderWords[k]) {
      if k == 0 {
        assert s[20] == '.';
      } else {
        assert s[9] == 'p' && PlaceholderWords[k][0] != 'p';
      }
    }
    QuotedWordEndNone(s, 8, PlaceholderWords);
  }

  /** A pixmap built with an argument is not an empty declaration: `QPixmap name("x");` is not matched. */
  lemma {:induction false} PixmapWithArgumentMissed()
    ensures Match(EmptyQPixmap, "QPixmap name(\"x\");", 0).None?
  {
    var s := "QPixmap name(\"x\");";
    assert SpaceEnd(s, 7) == 8;
    assert WordEnd(s, 8) == 12;
    assert SpaceEnd(s, 12) == 12;
  }

  /** A blank between the quotes still counts as empty: `QIcon(" ")` is matched. */
  lemma {:induction false} BlankIconStringFound()
    ensures Match(EmptyQIconString, "QIcon(\" \")", 0) == Some(Hit(0, 10, 0, 0))
  {
    EmptyQIconStringFound("QIcon(\" \")", 0, 5, 6, 8, 9, 10);
  }
}
