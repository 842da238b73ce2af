/**
 * `QtIntegrator`: rewrite the one line an opportunity points at so that its empty
 * `QIcon`/`QPixmap` refers to a Qt resource path, and list the resource in the `.qrc`
 * manifest.
 */
module QtIntegrator {
  import opened Wrappers
  import opened Strings
  import opened Paths
  import opened Models
  import opened Patterns
  import opened IntegratorBase

  // ---------------------------------------------------------------------------
  // `_to_qt_resource_path`.
  // ---------------------------------------------------------------------------

  /** `parts.index(x)`, or `None` where it raises `ValueError`. */
  function IndexOf(parts: seq<string>, x: string): (r: Option<nat>)
    ensures r.Some? ==> r.value < |parts| && parts[r.value] == x && x !in parts[..r.value]
    ensures r.None? ==> x !in parts
  {
    if |parts| == 0 then None
    else if parts[0] == x then Some(0)
    else
      match IndexOf(parts[1..], x)
      case None => None
      case Some(k) =>
        assert parts[..k + 1] == [parts[0]] + parts[1..][..k];
        Some(k + 1)
  }

  /** `_to_qt_resource_path(image_path)`. */
  function QtResourcePath(image: FsPath): string
  {
    var parts := image.Parts();
    match IndexOf(parts, "resources")
    case Some(k) => ":/" + Join(parts[k..], "/")
    case None => ":/resources/" + image.Name()
  }

  /** A join whose first part is `p` starts with `p`. */
  lemma {:induction false} JoinStartsWith(parts: seq<string>, sep: string)
    requires |parts| > 0
    ensures StartsWith(Join(parts, sep), parts[0])
  {
    if |parts| > 1 {
      assert Join(parts, sep) == parts[0] + (sep + Join(parts[1..], sep));
    }
  }

  /**
   * The resource path is `:/` followed by the path from the first `resources` segment on,
   * or by `resources/<name>` when there is none; either way it starts with `:/resources`.
   */
  lemma {:induction false} QtResourcePathShape(image: FsPath)
    ensures StartsWith(QtResourcePath(image), ":/resources")
    ensures "resources" !in image.Parts() ==> QtResourcePath(image) == ":/resources/" + image.Name()
    ensures "resources" in image.Parts() ==>
              exists k :: 0 <= k < |image.Parts()| && image.Parts()[k] == "resources"
                          && "resources" !in image.Parts()[..k]
                          && QtResourcePath(image) == ":/" + Join(image.Parts()[k..], "/")
  {
    var parts := image.Parts();
    match IndexOf(parts, "resources")
    case Some(k) =>
      JoinStartsWith(parts[k..], "/");
      var j := Join(parts[k..], "/");
      assert QtResourcePath(image) == ":/" + j;
      assert QtResourcePath(image)[..11] == ":/" + j[..9];
    case None =>
      assert QtResourcePath(image)[..11] == ":/resources";
  }

  /**
   * An image below a `resources` directory, such as `/app/resources/icons/settings.png`,
   * gets the path from that directory on: `:/resources/icons/settings.png`.
   */
  lemma {:induction false} QtResourcePathUnderResources(anchor: string, dirs: seq<string>, rest: seq<string>)
    requires anchor != "resources" && "resources" !in dirs
    ensures QtResourcePath(FsPath(anchor, dirs + ["resources"] + rest)) == ":/" + Join(["resources"] + rest, "/")
  {
    var pre := if anchor == [] then dirs else [anchor] + dirs;
    assert FsPath(anchor, dirs + ["resources"] + rest).Parts() == pre + ["resources"] + rest;
    IndexOfFirst(pre, "resources", rest);
  }

  /** The first occurrence of `x` is right after a prefix without it. */
  lemma {:induction false} IndexOfFirst(pre: seq<string>, x: string, rest: seq<string>)
    requires x !in pre
    ensures IndexOf(pre + [x] + rest, x) == Some(|pre|)
    ensures (pre + [x] + rest)[|pre|..] == [x] + rest
  {
    var parts := pre + [x] + rest;
    assert parts[|pre|] == x;
    assert parts[..|pre|] == pre;
  }

  // ---------------------------------------------------------------------------
  // The four substitutions of `_integrate_qicon` and `_integrate_qpixmap`.
  // ---------------------------------------------------------------------------

  /** The four `re.sub` patterns of the rewrite. */
  datatype Rewrite =
    | IconCall            // `QIcon\s*\(\s*\)`
    | IconQuotes          // `QIcon\s*\(\s*["']["']\s*\)`
    | PixmapDecl          // `(QPixmap\s+\w+)\s*;`
    | PixmapPlaceholder   // `QPixmap\s*\(["'](?:placeholder|temp|todo|empty)["']\)`

  /** `QIcon("<rp>")`. */
  function IconLiteral(rp: string): string
  {
    "QIcon(\"" + rp + "\")"
  }

  /** `QPixmap("<rp>")`. */
  function PixmapLiteral(rp: string): string
  {
    "QPixmap(\"" + rp + "\")"
  }

  /** Where `QIcon\s*\(\s*["']["']\s*\)` starting at `i` ends: two quotes with nothing between. */
  function IconQuotesEnd(s: string, i: nat): (r: Option<nat>)
    requires i <= |s|
    ensures r.Some? ==> i < r.value <= |s|
  {
    if !LitAt(s, i, "QIcon") then None
    else
      var a := SpaceEnd(s, i + 5);
      if !CharIs(s, a, '(') then None
      else
        var b := SpaceEnd(s, a + 1);
        if !(b + 1 < |s| && IsQuote(s[b]) && IsQuote(s[b + 1])) then None
        else
          var d := SpaceEnd(s, b + 2);
          if CharIs(s, d, ')') then Some(d + 1) else None
  }

  /** Where `QPixmap\s*\(["'](?:placeholder|temp|todo|empty)["']\)` starting at `i` ends. */
  function PixmapPlaceholderEnd(s: string, i: nat): (r: Option<nat>)
    requires i <= |s|
    ensures r.Some? ==> i < r.value <= |s|
  {
    if !LitAt(s, i, "QPixmap") then None
    else
      var a := SpaceEnd(s, i + 7);
      if !(a + 1 < |s| && s[a] == '(' && IsQuote(s[a + 1])) then None
      else
        match QuotedWordEnd(s, a + 1, PlaceholderWords)
        case None => None
        case Some(q) => if CharIs(s, q, ')') then Some(q + 1) else None
  }

  /**
   * `QIcon\s*\(\s*["']["']\s*\)` spans `s[i..j]`, with `(` at `a`, the two quotes at `b`
   * and `b + 1`, and `)` at `d`.
   */
  predicate IconQuotesAt(s: string, i: nat, a: nat, b: nat, d: nat, j: nat)
  {
    LitAt(s, i, "QIcon") && Spaces(s, i + 5, a) && CharIs(s, a, '(')
    && Spaces(s, a + 1, b) && b + 1 < |s| && IsQuote(s[b]) && IsQuote(s[b + 1])
    && Spaces(s, b + 2, d) && CharIs(s, d, ')') && j == d + 1
  }

  ghost predicate IconQuotesShape(s: string, i: nat, j: nat)
  {
    exists a: nat, b: nat, d: nat :: IconQuotesAt(s, i, a, b, d, j)
  }

  /** The matcher accepts exactly the texts `QIcon\s*\(\s*["']["']\s*\)` describes. */
  lemma {:induction false} IconQuotesExact(s: string, i: nat, j: nat)
    requires i <= |s|
    ensures IconQuotesShape(s, i, j) <==> IconQuotesEnd(s, i) == Some(j)
  {
    if IconQuotesShape(s, i, j) {
      var a: nat, b: nat, d: nat :| IconQuotesAt(s, i, a, b, d, j);
      IconQuotesFound(s, i, a, b, d, j);
    }
    if IconQuotesEnd(s, i) == Some(j) {
      IconQuotesSound(s, i);
    }
  }

  lemma {:induction false} IconQuotesFound(s: string, i: nat, a: nat, b: nat, d: nat, j: nat)
    requires IconQuotesAt(s, i, a, b, d, j)
    ensures IconQuotesEnd(s, i) == Some(j)
  {
    SpaceEndIs(s, i + 5, a);
    SpaceEndIs(s, a + 1, b);
    SpaceEndIs(s, b + 2, d);
  }

  lemma {:induction false} IconQuotesSound(s: string, i: nat)
    requires i <= |s| && IconQuotesEnd(s, i).Some?
    ensures IconQuotesShape(s, i, IconQuotesEnd(s, i).value)
  {
    var a := SpaceEnd(s, i + 5);
    var b := SpaceEnd(s, a + 1);
    var d := SpaceEnd(s, b + 2);
    assert IconQuotesAt(s, i, a, b, d, IconQuotesEnd(s, i).value);
  }

  /**
   * `QPixmap\s*\(["'](?:placeholder|temp|todo|empty)["']\)` spans `s[i..j]`, with `(` at `a`
   * directly followed by the quoted word `w` and then `)`.
   */
  predicate PixmapPlaceholderAt(s: string, i: nat, a: nat, w: string, j: nat)
  {
    LitAt(s, i, "QPixmap") && Spaces(s, i + 7, a) && CharIs(s, a, '(')
    && a + 1 < |s| && IsQuote(s[a + 1]) && w in PlaceholderWords && QuotedAt(s, a + 1, w)
    && CharIs(s, a + |w| + 3, ')') && j == a + |w| + 4
  }

  ghost predicate PixmapPlaceholderShape(s: string, i: nat, j: nat)
  {
    exists a: nat, w: string :: PixmapPlaceholderAt(s, i, a, w, j)
  }

  /** The matcher accepts exactly the texts the placeholder rewrite's expression describes. */
  lemma {:induction false} PixmapPlaceholderExact(s: string, i: nat, j: nat)
    requires i <= |s|
    ensures PixmapPlaceholderShape(s, i, j) <==> PixmapPlaceholderEnd(s, i) == Some(j)
  {
    if PixmapPlaceholderShape(s, i, j) {
      var a: nat, w: string :| PixmapPlaceholderAt(s, i, a, w, j);
      PixmapPlaceholderFound(s, i, a, w, j);
    }
    if PixmapPlaceholderEnd(s, i) == Some(j) {
      PixmapPlaceholderSound(s, i);
    }
  }

  lemma {:induction false} PixmapPlaceholderFound(s: string, i: nat, a: nat, w: string, j: nat)
    requires PixmapPlaceholderAt(s, i, a, w, j)
    ensures PixmapPlaceholderEnd(s, i) == Some(j)
  {
    SpaceEndIs(s, i + 7, a);
    PlaceholderQuoted(s, a + 1, w);
  }

  lemma {:induction false} PixmapPlaceholderSound(s: string, i: nat)
    requires i <= |s| && PixmapPlaceholderEnd(s, i).Some?
    ensures PixmapPlaceholderShape(s, i, PixmapPlaceholderEnd(s, i).value)
  {
    var a := SpaceEnd(s, i + 7);
    var w := QuotedWordEndSound(s, a + 1, PlaceholderWords);
    assert PixmapPlaceholderAt(s, i, a, w, PixmapPlaceholderEnd(s, i).value);
  }

  /** A match of a rewrite pattern: where it ends and the text that replaces it. */
  datatype Replacement = Replacement(end: nat, text: string)

  /** Whether rewrite `rw` matches at `i`, and with what replacement for resource path `rp`. */
  function RewriteAt(rw: Rewrite, s: string, i: nat, rp: string): (r: Option<Replacement>)
    requires i <= |s|
    ensures r.Some? ==> i < r.value.end <= |s|
  {
    match rw
    case IconCall =>
      (match IconCallEnd(s, i)
       case Some(j) => Some(Replacement(j, IconLiteral(rp)))
       case None => None)
    case IconQuotes =>
      (match IconQuotesEnd(s, i)
       case Some(j) => Some(Replacement(j, IconLiteral(rp)))
       case None => None)
    case PixmapDecl =>
      (match MatchEmptyQPixmap(s, i)
       case Some(h) => Some(Replacement(h.end, s[i..h.groupEnd] + "(\"" + rp + "\");"))
       case None => None)
    case PixmapPlaceholder =>
      (match PixmapPlaceholderEnd(s, i)
       case Some(j) => Some(Replacement(j, PixmapLiteral(rp)))
       case None => None)
  }

  /** `re.sub(pattern, replacement, s[i:])`: replace every leftmost, non-overlapping match. */
  function Sub(rw: Rewrite, s: string, rp: string, i: nat): string
    requires i <= |s|
    decreases |s| - i
  {
    if i == |s| then []
    else
      match RewriteAt(rw, s, i, rp)
      case Some(m) => m.text + Sub(rw, s, rp, m.end)
      case None => [s[i]] + Sub(rw, s, rp, i + 1)
  }

  /** `_integrate_qicon(line, resource_path)`. */
  function IntegrateQIcon(line: string, rp: string): string
  {
    var once := Sub(IconCall, line, rp, 0);
    Sub(IconQuotes, once, rp, 0)
  }

  /** `_integrate_qpixmap(line, resource_path)`. */
  function IntegrateQPixmap(line: string, rp: string): string
  {
    var once := Sub(PixmapDecl, line, rp, 0);
    Sub(PixmapPlaceholder, once, rp, 0)
  }

  /** A substitution whose pattern matches nowhere from `i` on leaves the text as it is. */
  lemma {:induction false} SubNoMatch(rw: Rewrite, s: string, rp: string, i: nat)
    requires i <= |s|
    requires forall q :: i <= q < |s| ==> RewriteAt(rw, s, q, rp).None?
    ensures Sub(rw, s, rp, i) == s[i..]
    decreases |s| - i
  {
    if i < |s| {
      SubNoMatch(rw, s, rp, i + 1);
      assert s[i..] == [s[i]] + s[i + 1..];
    }
  }

  /** A line with nothing the QIcon rewrite recognises comes back unchanged. */
  lemma {:induction false} QIconUnchanged(line: string, rp: string)
    requires forall q :: 0 <= q < |line| ==> IconCallEnd(line, q).None? && IconQuotesEnd(line, q).None?
    ensures IntegrateQIcon(line, rp) == line
  {
    SubNoMatch(IconCall, line, rp, 0);
    SubNoMatch(IconQuotes, line, rp, 0);
  }

  /** A line with nothing the QPixmap rewrite recognises comes back unchanged. */
  lemma {:induction false} QPixmapUnchanged(line: string, rp: string)
    requires forall q :: 0 <= q < |line| ==> MatchEmptyQPixmap(line, q).None? && PixmapPlaceholderEnd(line, q).None?
    ensures IntegrateQPixmap(line, rp) == line
  {
    SubNoMatch(PixmapDecl, line, rp, 0);
    SubNoMatch(PixmapPlaceholder, line, rp, 0);
  }

  // ---------------------------------------------------------------------------
  // `integrate`.
  // ---------------------------------------------------------------------------

  /** Why `integrate` raises `IntegrationError`. */
  datatype IntegrationError = LineOutOfRange(lineNumber: int) | UnsupportedType(kind: IntegrationType)

  /** The line `integrate` writes in place of `line`, or `None` for a type it cannot handle. */
  function RewriteLine(kind: IntegrationType, line: string, rp: string): Option<string>
  {
    if kind == QtIcon then Some(IntegrateQIcon(line, rp))
    else if kind == QtPixmap then Some(IntegrateQPixmap(line, rp))
    else None
  }

  /** The result of `integrate(code, opportunity, image_path)`. */
  function Integrated(code: string, opp: Opportunity, image: FsPath): Result<string, IntegrationError>
  {
    var lines := Split(code, '\n');
    var n := opp.location.lineNumber;
    if n > |lines| then Err(LineOutOfRange(n))
    else
      match RewriteLine(opp.integrationType, lines[n - 1], QtResourcePath(image))
      case None => Err(UnsupportedType(opp.integrationType))
      case Some(updated) => Ok(Join(lines[n - 1 := updated], "\n"))
  }

  /** `integrate`: split into lines, overwrite the target line, join back. */
  method Integrate(code: string, opp: Opportunity, image: FsPath) returns (r: Result<string, IntegrationError>)
    ensures r == Integrated(code, opp, image)
  {
    var lines := Split(code, '\n');
    if opp.location.lineNumber > |lines| {
      return Err(LineOutOfRange(opp.location.lineNumber));
    }
    var idx := opp.location.lineNumber - 1;
    var target := lines[idx];
    var rp := QtResourcePath(image);
    var updated: string;
    if opp.integrationType == QtIcon {
      updated := IntegrateQIcon(target, rp);
    } else if opp.integrationType == QtPixmap {
      updated := IntegrateQPixmap(target, rp);
    } else {
      return Err(UnsupportedType(opp.integrationType));
    }
    lines := lines[idx := updated];
    r := Ok(Join(lines, "\n"));
  }

  /**
   * `integrate` fails exactly when the line number is past the last line or the type is
   * neither QT_ICON nor QT_PIXMAP, and a line number past the end is the error it reports.
   */
  lemma {:induction false} IntegrateFails(code: string, opp: Opportunity, image: FsPath)
    ensures var n := opp.location.lineNumber;
            (Integrated(code, opp, image).Err? <==> n > |Split(code, '\n')| || opp.integrationType !in {QtIcon, QtPixmap})
            && (n > |Split(code, '\n')| ==> Integrated(code, opp, image) == Err(LineOutOfRange(n)))
  {
  }

  /**
   * When `integrate` succeeds, the text before and after the target line is kept character
   * for character and only that line is replaced by its rewrite.
   */
  lemma {:induction false} IntegrateChangesOneLine(code: string, opp: Opportunity, image: FsPath)
    requires Integrated(code, opp, image).Ok?
    ensures var lines := Split(code, '\n');
            var n := opp.location.lineNumber;
            n <= |lines|
            && code == LinesBefore(lines, n - 1) + lines[n - 1] + LinesAfter(lines, n - 1)
            && Integrated(code, opp, image).value
               == LinesBefore(lines, n - 1)
                  + RewriteLine(opp.integrationType, lines[n - 1], QtResourcePath(image)).value
                  + LinesAfter(lines, n - 1)
  {
    var lines := Split(code, '\n');
    var n: int := opp.location.lineNumber;
    var updated := RewriteLine(opp.integrationType, lines[n - 1], QtResourcePath(image)).value;
    var changed := lines[n - 1 := updated];
    JoinSplit(code, '\n', 0);
    JoinAround(lines, n - 1);
    JoinAround(changed, n - 1);
    UpdateKeepsOthers(lines, n - 1, updated);
  }

  /** Writing an element back in its place changes nothing. */
  lemma {:induction false} UpdateSame<T>(s: seq<T>, i: nat)
    requires i < |s|
    ensures s[i := s[i]] == s
  {
  }

  /** Overwriting one element keeps the elements before and after it. */
  lemma {:induction false} UpdateKeepsOthers<T>(s: seq<T>, i: nat, v: T)
    requires i < |s|
    ensures s[i := v][..i] == s[..i] && s[i := v][i + 1..] == s[i + 1..]
  {
  }

  /** When the target line holds nothing to rewrite, `integrate` returns the code unchanged. */
  lemma {:induction false} IntegrateNoSite(code: string, opp: Opportunity, image: FsPath)
    requires opp.location.lineNumber <= |Split(code, '\n')|
    requires opp.integrationType in {QtIcon, QtPixmap}
    requires RewriteLine(opp.integrationType, Split(code, '\n')[opp.location.lineNumber - 1],
                         QtResourcePath(image)).value
             == Split(code, '\n')[opp.location.lineNumber - 1]
    ensures Integrated(code, opp, image) == Ok(code)
  {
    var lines := Split(code, '\n');
    var n: int := opp.location.lineNumber;
    UpdateSame(lines, n - 1);
    JoinSplit(code, '\n', 0);
  }

  // ---------------------------------------------------------------------------
  // `update_qrc_file`: the manifest's list of files.
  // ---------------------------------------------------------------------------

  /** The entry written for a resource: its path with forward slashes. */
  function ResourceEntry(resource: FsPath): (r: string)
    ensures '\\' !in r
  {
    Slashed(resource)
  }

  /** The file list after adding `e`: unchanged when `e` is listed, `e` appended otherwise. */
  function AddEntry(entries: seq<string>, e: string): seq<string>
  {
    if e in entries then entries else entries + [e]
  }

  /**
   * Adding an entry lists it, keeps every earlier entry in place, adds at most one entry
   * and never a duplicate, and adding it a second time changes nothing.
   */
  lemma {:induction false} AddEntryProperties(entries: seq<string>, e: string)
    ensures e in AddEntry(entries, e)
    ensures AddEntry(entries, e)[..|entries|] == entries
    ensures |AddEntry(entries, e)| == |entries| + (if e in entries then 0 else 1)
    ensures AddEntry(AddEntry(entries, e), e) == AddEntry(entries, e)
    ensures (forall i, j :: 0 <= i < j < |entries| ==> entries[i] != entries[j]) ==>
              forall i, j :: 0 <= i < j < |AddEntry(entries, e)| ==> AddEntry(entries, e)[i] != AddEntry(entries, e)[j]
  {
    var r := AddEntry(entries, e);
    assert e in r by {
      if e !in entries {
        assert r[|entries|] == e;
      }
    }
  }

  /**
   * A `.qrc` manifest: whether the file exists, the prefix of its first `qresource` group
   * if it has one, and the texts of that group's `file` elements.
   */
  class QrcFile {
    var present: bool
    var group: Option<string>
    var files: seq<string>

    /** A file that does not exist has no group, and a missing group lists nothing. */
    predicate Valid()
      reads this
    {
      (!present ==> group.None?) && (group.None? ==> files == [])
    }

    constructor (present: bool, group: Option<string>, files: seq<string>)
      requires (!present ==> group.None?) && (group.None? ==> files == [])
      ensures Valid()
      ensures this.present == present && this.group == group && this.files == files
    {
      this.present := present;
      this.group := group;
      this.files := files;
    }

    /**
     * `update_qrc_file(qrc_path, resource_path)`: create the root and a `/` group when
     * missing, stop if the entry is already listed, append it otherwise and write back.
     */
    method AddResource(resource: FsPath)
      requires Valid()
      modifies this
      ensures Valid()
      ensures files == AddEntry(old(files), ResourceEntry(resource))
      ensures old(ResourceEntry(resource) in files) ==> present == old(present) && group == old(group)
      ensures old(ResourceEntry(resource) !in files) ==>
                present && group == (if old(group).None? then Some("/") else old(group))
    {
      var entry := ResourceEntry(resource);
      var g := if group.None? then Some("/") else group;
      var listed := files;
      var i := 0;
      while i < |listed|
        invariant 0 <= i <= |listed|
        invariant entry !in listed[..i]
      {
        if listed[i] == entry {
          return;
        }
        assert listed[..i + 1] == listed[..i] + [listed[i]];
        i := i + 1;
      }
      assert listed[..i] == listed;
      present := true;
      group := g;
      files := listed + [entry];
    }
  }
}
