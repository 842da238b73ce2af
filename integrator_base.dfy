/**
 * `BaseIntegrator._to_resource_path`: an image path written relative to the project root,
 * with forward slashes, or just the file name when there is no root or the image lies
 * outside it.
 */
module IntegratorBase {
  import opened Wrappers
  import opened Strings
  import opened Paths

  /** `str(path).replace("\\", "/")`. */
  function Slashed(path: FsPath): (r: string)
    ensures '\\' !in r
  {
    var s := ReplaceChar(path.ToString(), '\\', '/');
    assert forall k :: 0 <= k < |s| ==> s[k] != '\\';
    s
  }

  /** `_to_resource_path(image_path, project_root)`; `None` stands for no root. */
  function ToResourcePath(image: FsPath, root: Option<FsPath>): string
  {
    if root.Some? then
      match RelativeTo(image, root.value)
      case Some(rel) => Slashed(rel)
      case None => image.Name()
    else image.Name()
  }

  /**
   * Under a root that holds the image, the result is the image's path below the root,
   * with forward slashes only: the segments after the root's, or `.` for the root itself.
   */
  lemma {:induction false} ResourcePathUnderRoot(image: FsPath, root: FsPath)
    requires RelativeTo(image, root).Some?
    ensures var below := image.segments[|root.segments|..];
            root.Append(below) == image
            && ToResourcePath(image, Some(root))
               == ReplaceChar(if below == [] then "." else Join(below, "/"), '\\', '/')
            && '\\' !in ToResourcePath(image, Some(root))
  {
  }

  /** Without a root, or with one that does not hold the image, the result is the file name. */
  lemma {:induction false} ResourcePathFallback(image: FsPath, root: Option<FsPath>)
    requires root.None? || image.anchor != root.value.anchor
             || |image.segments| < |root.value.segments|
             || image.segments[..|root.value.segments|] != root.value.segments
    ensures ToResourcePath(image, root) == image.Name()
  {
  }
}
