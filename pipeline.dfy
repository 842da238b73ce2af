/**
 * The stages of the skill seen together: an opportunity the Qt parser reports is given a
 * prompt, saved under the Qt directory convention and referred to by a Qt resource path.
 */
module Pipeline {
  import opened Wrappers
  import opened Strings
  import opened Paths
  import opened Models
  import opened Patterns
  import opened QtParser
  import opened QtIntegrator
  import opened AssetManager
  import opened PromptBuilder

  /** A root without a `resources` part has no such anchor or segment. */
  lemma {:induction false} NoResourcesPart(root: FsPath)
    requires "resources" !in root.Parts()
    ensures root.anchor != "resources" && "resources" !in root.segments
  {
    var parts := root.Parts();
    assert root.anchor != [] ==> root.anchor == parts[0];
    forall k | 0 <= k < |root.segments|
      ensures root.segments[k] != "resources"
    {
      assert root.segments[k] == parts[|parts| - |root.segments|..][k];
    }
  }

  lemma {:induction false} SplitFirst(segs: seq<string>, dir: seq<string>, name: string)
    requires |dir| > 0
    ensures segs + dir + [name] == segs + [dir[0]] + (dir[1..] + [name])
    ensures [dir[0]] + (dir[1..] + [name]) == dir + [name]
  {
    assert dir == [dir[0]] + dir[1..];
  }

  /**
   * An image saved in its Qt directory under a project root that has no `resources`
   * directory of its own is referred to by that directory and its name:
   * `:/resources/icons/<name>` for an icon.
   */
  lemma {:induction false} QtAssetResourcePath(root: FsPath, p: ImagePurpose, name: string)
    requires "resources" !in root.Parts()
    ensures QtResourcePath(root.Append(SaveDir(Qt, p)).Child(name))
            == ":/" + Join(SaveDir(Qt, p) + [name], "/")
  {
    var dir := SaveDir(Qt, p);
    QtDirsUnderResources(p);
    NoResourcesPart(root);
    SplitFirst(root.segments, dir, name);
    QtResourcePathUnderResources(root.anchor, root.segments, dir[1..] + [name]);
  }

  /**
   * The path `determine_save_path` returns for a Qt opportunity is a file directly in the
   * purpose's directory, so its resource path names that directory and the file.
   */
  lemma {:induction false} SavedQtAssetResourcePath(o: Opportunity, root: FsPath, saved: FsPath)
    requires o.framework == Qt && "resources" !in root.Parts()
    requires saved == root.Append(SaveDir(o.framework, o.purpose)).Child(saved.Name())
    ensures QtResourcePath(saved) == ":/" + Join(SaveDir(Qt, o.purpose) + [saved.Name()], "/")
  {
    QtAssetResourcePath(root, o.purpose, saved.Name());
  }

  lemma {:induction false} SquareHints()
    ensures RuleSizeHint(EmptyQIcon) == Some(NatToString(32) + "x" + NatToString(32))
    ensures RuleSizeHint(WindowIcon) == Some(NatToString(64) + "x" + NatToString(64))
  {
    assert NatToString(3) == ['3'] && NatToString(6) == ['6'];
    assert NatToString(32) == NatToString(3) + ['2'] == ['3', '2'];
    assert NatToString(64) == NatToString(6) + ['4'] == ['6', '4'];
    assert ['3', '2'] + "x" + ['3', '2'] == "32x32";
    assert ['6', '4'] + "x" + ['6', '4'] == "64x64";
  }

  /**
   * Every size hint the Qt rules attach (`32x32` for icons, `64x64` for the window icon)
   * is square, so those opportunities are generated at `1:1`, even a window icon whose
   * purpose, a logo, would default to `4:3`.
   */
  lemma {:induction false} RuleHintsAreSquare(p: QtPattern, o: Opportunity)
    requires RuleSizeHint(p).Some? && o.sizeHint == RuleSizeHint(p)
    ensures AspectRatio(o) == "1:1"
  {
    SquareHints();
    if p == WindowIcon {
      SquareHintIsSquare(o, 64);
    } else {
      SquareHintIsSquare(o, 32);
    }
  }
}
