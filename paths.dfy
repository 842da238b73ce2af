/**
 * The part of `pathlib.PurePosixPath` the core relies on: `parts`, `name`, `stem`,
 * `suffix`, `parent`, the `/` operator, `relative_to` and `str()`.
 */
module Paths {
  import opened Wrappers
  import opened Strings

  /**
   * A path as pathlib normalises it: an anchor ("" for a relative path, "/" for an
   * absolute one) followed by its segments.
   */
  datatype FsPath = FsPath(anchor: string, segments: seq<string>)
  {
    /** `Path.parts`: the anchor, when there is one, then the segments. */
    function Parts(): (r: seq<string>)
      ensures |r| == |segments| + (if anchor == [] then 0 else 1)
      ensures r[|r| - |segments|..] == segments
    {
      if anchor == [] then segments else [anchor] + segments
    }

    /** `Path.name`: the last segment, or "" for a bare anchor or `.`. */
    function Name(): string
    {
      if |segments| == 0 then [] else segments[|segments| - 1]
    }

    /** `Path.parent`: the path without its last segment; a bare anchor is its own parent. */
    function Parent(): FsPath
    {
      if |segments| == 0 then this else FsPath(anchor, segments[..|segments| - 1])
    }

    /** `self / name` for a name that is a single segment. */
    function Child(name: string): (r: FsPath)
      ensures r.Name() == name && r.Parent() == this
    {
      FsPath(anchor, segments + [name])
    }

    /** `self / rel` for a relative path written as its segments. */
    function Append(rel: seq<string>): FsPath
    {
      FsPath(anchor, segments + rel)
    }

    /** `str(path)` on a POSIX system: `.` for the empty relative path. */
    function ToString(): string
    {
      if anchor == [] && segments == [] then "." else anchor + Join(segments, "/")
    }
  }

  /** `name.rfind(".")`, or `None` when there is no dot. */
  function LastDot(name: string): (r: Option<nat>)
    ensures r.Some? ==> r.value < |name| && name[r.value] == '.'
                        && forall k :: r.value < k < |name| ==> name[k] != '.'
    ensures r.None? ==> forall k :: 0 <= k < |name| ==> name[k] != '.'
  {
    if |name| == 0 then None
    else if name[|name| - 1] == '.' then Some(|name| - 1)
    else LastDot(name[..|name| - 1])
  }

  /** Where `stem` ends and `suffix` starts: the last dot, unless it is first or last. */
  function SuffixStart(name: string): (i: nat)
    ensures i <= |name|
  {
    match LastDot(name)
    case Some(d) => if 0 < d < |name| - 1 then d else |name|
    case None => |name|
  }

  /** `PurePath.suffix` applied to a name. */
  function Suffix(name: string): (r: string)
    ensures r == [] || (r[0] == '.' && |r| >= 2 && '.' !in r[1..])
  {
    var i := SuffixStart(name);
    assert i < |name| ==> forall k :: 0 <= k < |name| - i - 1 ==> name[i..][1..][k] == name[i + 1 + k];
    name[i..]
  }

  /** `PurePath.stem` applied to a name. */
  function Stem(name: string): string
  {
    name[..SuffixStart(name)]
  }

  /** The stem and the suffix split a name in two. */
  lemma {:induction false} StemSuffix(name: string)
    ensures Stem(name) + Suffix(name) == name
    ensures Suffix(name) != [] ==> Stem(name) != []
  {
    assert name[..SuffixStart(name)] + name[SuffixStart(name)..] == name;
  }

  /** `path.relative_to(root)`, or `None` where pathlib raises `ValueError`. */
  function RelativeTo(path: FsPath, root: FsPath): (r: Option<FsPath>)
    ensures r.Some? <==> path.anchor == root.anchor && |root.segments| <= |path.segments|
                         && path.segments[..|root.segments|] == root.segments
    ensures r.Some? ==> r.value.anchor == [] && root.Append(r.value.segments) == path
  {
    if path.anchor == root.anchor && |root.segments| <= |path.segments|
       && path.segments[..|root.segments|] == root.segments
    then
      assert root.segments + path.segments[|root.segments|..] == path.segments;
      Some(FsPath([], path.segments[|root.segments|..]))
    else None
  }
}
