/**
 * `AssetManager`: where a generated image is saved. The directory comes from a table of
 * per-framework conventions, the file name from the opportunity's label and purpose, and a
 * name already taken is resolved by trying `<stem>-1<suffix>` up to `<stem>-100<suffix>`.
 * The file system is a set of existing paths; creating directories is not modelled.
 */
module AssetManager {
  import opened Wrappers
  import opened Strings
  import opened Paths
  import opened Models

  // ---------------------------------------------------------------------------
  // `DIRECTORY_CONVENTIONS`, each directory written as its path segments.
  // ---------------------------------------------------------------------------

  /** The convention entry for a framework and purpose, if the table has one. */
  function Convention(fw: Framework, p: ImagePurpose): Option<seq<string>>
  {
    match fw
    case Qt =>
      Some(match p
           case Icon => ["resources", "icons"]
           case Logo => ["resources", "images"]
           case Button => ["resources", "ui", "buttons"]
           case Background => ["resources", "images", "backgrounds"]
           case Illustration => ["resources", "images"]
           case Hero => ["resources", "images"])
    case React =>
      (match p
       case Icon => Some(["src", "assets", "icons"])
       case Logo => Some(["src", "assets", "images"])
       case Illustration => Some(["src", "assets", "illustrations"])
       case Hero => Some(["src", "assets", "images"])
       case _ => None)
    case Unity =>
      (match p
       case Icon => Some(["Assets", "Resources", "UI", "Icons"])
       case Logo => Some(["Assets", "Resources", "UI"])
       case Background => Some(["Assets", "Resources", "Backgrounds"])
       case _ => None)
    case Html =>
      (match p
       case Icon => Some(["assets", "icons"])
       case Logo => Some(["assets", "images"])
       case Background => Some(["assets", "images"])
       case _ => None)
  }

  /** The directory used when the table has no entry: `resources/images`. */
  const DefaultDir: seq<string> := ["resources", "images"]

  /** `convention.get(opportunity.purpose, "resources/images")`. */
  function SaveDir(fw: Framework, p: ImagePurpose): seq<string>
  {
    match Convention(fw, p)
    case Some(d) => d
    case None => DefaultDir
  }

  /**
   * The lookup uses the table's entry when there is one and `resources/images` otherwise;
   * every directory it returns is relative and made of non-empty segments.
   */
  lemma {:induction false} SaveDirLookup(fw: Framework, p: ImagePurpose)
    ensures Convention(fw, p).Some? ==> SaveDir(fw, p) == Convention(fw, p).value
    ensures Convention(fw, p).None? ==> SaveDir(fw, p) == ["resources", "images"]
    ensures 2 <= |SaveDir(fw, p)| <= 4
    ensures forall k :: 0 <= k < |SaveDir(fw, p)| ==> SaveDir(fw, p)[k] != []
  {
  }

  /** Every Qt purpose has an entry, and every Qt directory lies under `resources`. */
  lemma {:induction false} QtDirsUnderResources(p: ImagePurpose)
    ensures Convention(Qt, p).Some?
    ensures |SaveDir(Qt, p)| >= 2 && SaveDir(Qt, p)[0] == "resources"
    ensures "resources" !in SaveDir(Qt, p)[1..]
  {
  }

  /** The purposes React, Unity and HTML have no entry for fall back to `resources/images`. */
  lemma {:induction false} MissingEntriesFallBack()
    ensures SaveDir(React, Button) == DefaultDir && SaveDir(React, Background) == DefaultDir
    ensures forall p :: p in {Button, Illustration, Hero} ==> SaveDir(Unity, p) == DefaultDir
    ensures forall p :: p in {Button, Illustration, Hero} ==> SaveDir(Html, p) == DefaultDir
  {
  }

  // ---------------------------------------------------------------------------
  // `_generate_filename`
  // ---------------------------------------------------------------------------

  /** What the comprehension keeps: `c.isalnum() or c == "-"`. */
  predicate IsNameChar(c: char)
  {
    IsAlnum(c) || c == '-'
  }

  /** `"".join(c for c in s if c.isalnum() or c == "-")`. */
  function KeepNameChars(s: string): (r: string)
    ensures forall c :: c in r ==> c in s && IsNameChar(c)
  {
    if s == [] then []
    else (if IsNameChar(s[0]) then [s[0]] else []) + KeepNameChars(s[1..])
  }

  /** A character a sanitized label may hold: a lower-case letter, a digit or `-`. */
  predicate IsLabelChar(c: char)
  {
    IsLowerLetter(c) || IsDigit(c) || c == '-'
  }

  /** The label lower-cased, spaces turned into `-`, and every other character but `[a-z0-9-]` dropped. */
  function SanitizeLabel(text: string): (r: string)
    ensures forall c :: c in r ==> IsLabelChar(c)
  {
    var lowered := Lower(text);
    LowerHasNoUpper(text);
    KeepNameChars(ReplaceChar(lowered, ' ', '-'))
  }

  /** The comprehension distributes over concatenation. */
  lemma {:induction false} KeepNameCharsAppend(a: string, b: string)
    ensures KeepNameChars(a + b) == KeepNameChars(a) + KeepNameChars(b)
  {
    if a == [] {
      assert a + b == b;
    } else {
      assert (a + b)[1..] == a[1..] + b;
      KeepNameCharsAppend(a[1..], b);
    }
  }

  /** A string of kept characters goes through the comprehension unchanged. */
  lemma {:induction false} KeepNameCharsFixed(s: string)
    requires forall k :: 0 <= k < |s| ==> IsNameChar(s[k])
    ensures KeepNameChars(s) == s
  {
    if s != [] {
      KeepNameCharsFixed(s[1..]);
      assert s == [s[0]] + s[1..];
    }
  }

  /** Sanitizing works piece by piece: the label of `a + b` is the label of `a`, then of `b`. */
  lemma {:induction false} SanitizeAppend(a: string, b: string)
    ensures SanitizeLabel(a + b) == SanitizeLabel(a) + SanitizeLabel(b)
  {
    var la, lb := ReplaceChar(Lower(a), ' ', '-'), ReplaceChar(Lower(b), ' ', '-');
    assert ReplaceChar(Lower(a + b), ' ', '-') == la + lb;
    KeepNameCharsAppend(la, lb);
  }

  /** A space becomes a hyphen, so two words joined by a space give their labels joined by `-`. */
  lemma {:induction false} SanitizeSpace(a: string, b: string)
    ensures SanitizeLabel(a + " " + b) == SanitizeLabel(a) + "-" + SanitizeLabel(b)
  {
    SanitizeAppend(a + " ", b);
    SanitizeAppend(a, " ");
    assert ReplaceChar(Lower(" "), ' ', '-') == "-";
    assert KeepNameChars("-") == "-" + KeepNameChars([]);
  }

  /** A label is left as it is exactly when it already consists of `[a-z0-9-]` only. */
  lemma {:induction false} SanitizeFixedPoints(s: string)
    ensures SanitizeLabel(s) == s <==> forall k :: 0 <= k < |s| ==> IsLabelChar(s[k])
  {
    if forall k :: 0 <= k < |s| ==> IsLabelChar(s[k]) {
      assert Lower(s) == s;
      assert ReplaceChar(s, ' ', '-') == s;
      KeepNameCharsFixed(s);
    } else {
      var k :| 0 <= k < |s| && !IsLabelChar(s[k]);
      assert s[k] in s;
    }
  }

  /** Sanitizing twice is sanitizing once. */
  lemma {:induction false} SanitizeIdempotent(s: string)
    ensures SanitizeLabel(SanitizeLabel(s)) == SanitizeLabel(s)
  {
    var r := SanitizeLabel(s);
    assert forall k :: 0 <= k < |r| ==> r[k] in r;
    SanitizeFixedPoints(r);
  }

  /** `suffix_map`: every purpose has a suffix. */
  function PurposeSuffix(p: ImagePurpose): string
  {
    match p
    case Icon => "-icon"
    case Logo => "-logo"
    case Button => "-button"
    case Background => "-bg"
    case Illustration => "-illust"
    case Hero => "-hero"
  }

  /** The six suffixes: each is `-` and lower-case letters, and no two purposes share one. */
  lemma {:induction false} PurposeSuffixesDistinct(p: ImagePurpose, q: ImagePurpose)
    ensures |PurposeSuffix(p)| >= 3 && PurposeSuffix(p)[0] == '-'
    ensures forall k :: 1 <= k < |PurposeSuffix(p)| ==> IsLowerLetter(PurposeSuffix(p)[k])
    ensures p != q ==> PurposeSuffix(p) != PurposeSuffix(q)
  {
  }

  /** `f"{base}{suffix}.png"`. */
  function AssetFilename(o: Opportunity): string
  {
    SanitizeLabel(o.semanticContext) + PurposeSuffix(o.purpose) + ".png"
  }

  /** A name ending in `.png` after a non-empty dot-free part has that part as stem and `.png` as suffix. */
  lemma {:induction false} PngStemSuffix(x: string)
    requires x != [] && '.' !in x
    ensures Suffix(x + ".png") == ".png" && Stem(x + ".png") == x
  {
    var name := x + ".png";
    var d := LastDot(name);
    assert name[|x|] == '.';
    assert forall k :: |x| < k < |name| ==> name[k] == "png"[k - |x| - 1];
    assert d.Some?;
    assert d.value >= |x|;
    assert d == Some(|x|);
    assert SuffixStart(name) == |x|;
  }

  /** No suffix holds a dot or a slash. */
  lemma {:induction false} PurposeSuffixPlain(p: ImagePurpose)
    ensures PurposeSuffix(p) != [] && '.' !in PurposeSuffix(p) && '/' !in PurposeSuffix(p)
  {
  }

  /**
   * The file name is one path segment: the sanitized label, the purpose's suffix, then the
   * `.png` suffix; its stem is everything before `.png`.
   */
  lemma {:induction false} AssetFilenameParts(o: Opportunity)
    ensures var base := SanitizeLabel(o.semanticContext) + PurposeSuffix(o.purpose);
            Suffix(AssetFilename(o)) == ".png" && Stem(AssetFilename(o)) == base
            && AssetFilename(o) == base + ".png" && '/' !in AssetFilename(o)
  {
    var lbl := SanitizeLabel(o.semanticContext);
    var base := lbl + PurposeSuffix(o.purpose);
    PurposeSuffixPlain(o.purpose);
    assert '.' !in base && '/' !in base by {
      assert forall c :: c in base ==> c in lbl || c in PurposeSuffix(o.purpose);
    }
    PngStemSuffix(base);
    assert '/' !in base + ".png";
  }

  // ---------------------------------------------------------------------------
  // `_handle_conflict`
  // ---------------------------------------------------------------------------

  /** The largest counter tried before giving up. */
  const MaxConflicts: nat := 100

  /** `parent / f"{stem}-{counter}{suffix}"`. */
  function Numbered(path: FsPath, n: nat): (r: FsPath)
    ensures r.Parent() == path.Parent()
    ensures r.Name() == Stem(path.Name()) + "-" + NatToString(n) + Suffix(path.Name())
  {
    path.Parent().Child(Stem(path.Name()) + "-" + NatToString(n) + Suffix(path.Name()))
  }

  /**
   * `_handle_conflict(path)` over the set of paths that exist: the path itself when it is
   * free, else the first free numbered name in the same directory, counting from 1, else
   * an error once 100 numbered names are all taken.
   */
  method HandleConflict(path: FsPath, existing: set<FsPath>) returns (r: Result<FsPath, string>)
    ensures r.Ok? ==> r.value !in existing && r.value.Parent() == path.Parent()
    ensures r == Ok(path) <==> path !in existing
    ensures r.Ok? && path in existing ==>
              exists n :: 1 <= n <= MaxConflicts && r.value == Numbered(path, n)
                          && forall m :: 1 <= m < n ==> Numbered(path, m) in existing
    ensures r.Err? <==> path in existing && forall n :: 1 <= n <= MaxConflicts ==> Numbered(path, n) in existing
  {
    if path !in existing {
      return Ok(path);
    }
    var counter := 1;
    while true
      invariant 1 <= counter <= MaxConflicts
      invariant forall m :: 1 <= m < counter ==> Numbered(path, m) in existing
      decreases MaxConflicts - counter
    {
      var candidate := Numbered(path, counter);
      if candidate !in existing {
        return Ok(candidate);
      }
      counter := counter + 1;
      if counter > MaxConflicts {
        return Err("Too many conflicts for: " + path.ToString());
      }
    }
  }

  // ---------------------------------------------------------------------------
  // `determine_save_path`
  // ---------------------------------------------------------------------------

  /** The path asked for before conflicts: `project_root / relative_dir / filename`. */
  function DesiredPath(o: Opportunity, root: FsPath): (r: FsPath)
    ensures r.Parent() == root.Append(SaveDir(o.framework, o.purpose))
    ensures r.Name() == AssetFilename(o)
  {
    root.Append(SaveDir(o.framework, o.purpose)).Child(AssetFilename(o))
  }

  /**
   * `determine_save_path(opportunity, project_root)`: the conventional directory under the
   * root, the semantic file name, and conflicts resolved against the existing paths.
   */
  method DetermineSavePath(o: Opportunity, root: FsPath, existing: set<FsPath>) returns (r: Result<FsPath, string>)
    ensures var dir := root.Append(SaveDir(o.framework, o.purpose));
            r.Ok? ==> r.value !in existing && r.value == dir.Child(r.value.Name())
    ensures r == Ok(DesiredPath(o, root)) <==> DesiredPath(o, root) !in existing
    ensures r.Ok? && DesiredPath(o, root) in existing ==>
              exists n :: 1 <= n <= MaxConflicts && r.value == Numbered(DesiredPath(o, root), n)
    ensures r.Err? <==> DesiredPath(o, root) in existing
                        && forall n :: 1 <= n <= MaxConflicts ==> Numbered(DesiredPath(o, root), n) in existing
  {
    var desired := DesiredPath(o, root);
    r := HandleConflict(desired, existing);
  }

  /** A numbered asset name keeps the label and purpose and puts the counter before `.png`. */
  lemma {:induction false} NumberedAssetName(o: Opportunity, root: FsPath, n: nat)
    ensures Numbered(DesiredPath(o, root), n).Name()
            == SanitizeLabel(o.semanticContext) + PurposeSuffix(o.purpose) + "-" + NatToString(n) + ".png"
  {
    AssetFilenameParts(o);
  }
}
