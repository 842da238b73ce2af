/**
 * The label a parser derives from an identifier (`BaseParser._extract_semantic`):
 * drop one trailing widget-type word, put a space before every capital, strip and
 * lower-case the result, and fall back to "unknown" when nothing is left.
 */
module ParserBase {
  import opened Wrappers
  import opened Strings

  /** The words `(Button|Icon|Pixmap|Label|Widget|Image|Sprite|Btn|Img)$` removes, in any case. */
  const Suffixes: seq<string> := ["Button", "Icon", "Pixmap", "Label", "Widget", "Image", "Sprite", "Btn", "Img"]

  /** Where `$` matches last: before a final newline, or at the very end. */
  function EndMark(name: string): (e: nat)
    ensures e <= |name|
  {
    if |name| > 0 && name[|name| - 1] == '\n' then |name| - 1 else |name|
  }

  /** `name[..e]` ends with `w`, ignoring the case of ASCII letters. */
  predicate EndsWithAt(name: string, e: nat, w: string)
    requires e <= |name|
  {
    |w| <= e && Lower(name[e - |w|..e]) == Lower(w)
  }

  /** The suffix word written in front of the `$` anchor, if any. */
  function SuffixWordAt(name: string, e: nat, k: nat): (r: Option<string>)
    requires e <= |name| && k <= |Suffixes|
    ensures r.Some? ==> r.value in Suffixes && EndsWithAt(name, e, r.value)
    ensures r.None? ==> forall m :: k <= m < |Suffixes| ==> !EndsWithAt(name, e, Suffixes[m])
    decreases |Suffixes| - k
  {
    if k == |Suffixes| then None
    else if EndsWithAt(name, e, Suffixes[k]) then Some(Suffixes[k])
    else SuffixWordAt(name, e, k + 1)
  }

  /** The first substitution: the trailing widget-type word, if there is one, is cut out. */
  function DropSuffix(name: string): (r: string)
    ensures |r| <= |name|
  {
    var e := EndMark(name);
    match SuffixWordAt(name, e, 0)
    case None => name
    case Some(w) => name[..e - |w|] + name[e..]
  }

  /**
   * The name changes exactly when it ends, before the `$` anchor, with one of the words in
   * any case; then just that one word is cut out and everything around it is kept.
   */
  lemma {:induction false} DropSuffixCutsOneWord(name: string)
    ensures (exists w :: w in Suffixes && EndsWithAt(name, EndMark(name), w)) <==> DropSuffix(name) != name
    ensures DropSuffix(name) != name ==>
              exists w :: w in Suffixes && EndsWithAt(name, EndMark(name), w)
                          && DropSuffix(name) == name[..EndMark(name) - |w|] + name[EndMark(name)..]
  {
    var e := EndMark(name);
    match SuffixWordAt(name, e, 0)
    case None =>
      forall w | w in Suffixes ensures !EndsWithAt(name, e, w) {
        var m :| 0 <= m < |Suffixes| && Suffixes[m] == w;
      }
    case Some(w) =>
      assert |DropSuffix(name)| < |name|;
  }

  /** The second substitution, `re.sub(r"([A-Z])", r" \1", s)`: a space before every capital. */
  function SpaceCamel(s: string): (r: string)
    ensures |r| >= |s|
  {
    if s == [] then []
    else (if IsUpper(s[0]) then [' ', s[0]] else [s[0]]) + SpaceCamel(s[1..])
  }

  /** Undoes `SpaceCamel`: drops the space written in front of each capital. */
  function UnCamel(t: string): string
  {
    if |t| >= 2 && t[0] == ' ' && IsUpper(t[1]) then [t[1]] + UnCamel(t[2..])
    else if t == [] then []
    else [t[0]] + UnCamel(t[1..])
  }

  /** Inserting the spaces loses nothing: removing them gives the name back. */
  lemma {:induction false} UnCamelSpaceCamel(s: string)
    ensures UnCamel(SpaceCamel(s)) == s
  {
    if s != [] {
      UnCamelSpaceCamel(s[1..]);
      var rest := SpaceCamel(s[1..]);
      if IsUpper(s[0]) {
        assert SpaceCamel(s) == [' ', s[0]] + rest;
        assert SpaceCamel(s)[2..] == rest;
      } else {
        assert SpaceCamel(s) == [s[0]] + rest;
        assert SpaceCamel(s)[1..] == rest;
      }
      assert s == [s[0]] + s[1..];
    }
  }

  /** Every capital of `SpaceCamel(s)` has a space right before it. */
  lemma {:induction false} SpaceBeforeCapitals(s: string)
    ensures forall k :: 0 <= k < |SpaceCamel(s)| && IsUpper(SpaceCamel(s)[k])
                        ==> k > 0 && SpaceCamel(s)[k - 1] == ' '
  {
    if s != [] {
      SpaceBeforeCapitals(s[1..]);
      var head := if IsUpper(s[0]) then [' ', s[0]] else [s[0]];
      var rest := SpaceCamel(s[1..]);
      assert SpaceCamel(s) == head + rest;
      forall k | 0 <= k < |SpaceCamel(s)| && IsUpper(SpaceCamel(s)[k])
        ensures k > 0 && SpaceCamel(s)[k - 1] == ' '
      {
        if k >= |head| {
          assert SpaceCamel(s)[k] == rest[k - |head|];
          if k - |head| > 0 {
            assert SpaceCamel(s)[k - 1] == rest[k - |head| - 1];
          }
        }
      }
    }
  }

  /** `_extract_semantic(var_name)`. */
  function ExtractSemantic(varName: string): (r: string)
    ensures r != []
    ensures NoUpper(r)
    ensures !IsSpace(r[0]) && !IsSpace(r[|r| - 1])
  {
    var u := Strip(SpaceCamel(DropSuffix(varName)));
    if u == [] then
      UnknownIsLabel();
      "unknown"
    else
      LowerKeepsEnds(u);
      Lower(u)
  }

  /** The fallback label is itself a stripped, lower-case label. */
  lemma {:induction false} UnknownIsLabel()
    ensures NoUpper("unknown") && !IsSpace("unknown"[0]) && !IsSpace("unknown"[6])
  {
    var s := "unknown";
    forall i | 0 <= i < |s| ensures !IsUpper(s[i]) {
      assert s[i] in "unknown";
    }
  }

  /** Lower-casing a stripped, non-empty text keeps it non-empty and stripped. */
  lemma {:induction false} LowerKeepsEnds(u: string)
    requires u != [] && !IsSpace(u[0]) && !IsSpace(u[|u| - 1])
    ensures Lower(u) != [] && NoUpper(Lower(u))
    ensures !IsSpace(Lower(u)[0]) && !IsSpace(Lower(u)[|u| - 1])
  {
    LowerHasNoUpper(u);
  }

  /** One character that differs, case aside, rules a suffix word out. */
  lemma {:induction false} NotEndsWithAt(name: string, e: nat, w: string, k: nat)
    requires e <= |name| && k < |w| <= e && ToLower(name[e - |w| + k]) != ToLower(w[k])
    ensures !EndsWithAt(name, e, w)
  {
    assert Lower(name[e - |w|..e])[k] == ToLower(name[e - |w| + k]);
  }

  /** A word made of lower-case ASCII letters only. */
  predicate LowerWord(s: string)
  {
    forall k :: 0 <= k < |s| ==> IsLowerLetter(s[k])
  }

  /** The stems of the documented examples are such words. */
  lemma {:induction false} ExampleStemsAreLowerWords()
    ensures LowerWord("settings") && LowerWord("profile")
  {
  }

  /** A word of lower-case letters goes through the spacing, stripping and lowering unchanged. */
  lemma {:induction false} LowerWordUnchanged(s: string)
    requires LowerWord(s)
    ensures SpaceCamel(s) == s && Strip(s) == s && Lower(s) == s
  {
    if s != [] {
      LowerWordUnchanged(s[1..]);
      assert s == [s[0]] + s[1..];
      assert SpaceStartBack(s, 0, |s|) == |s|;
    }
  }

  /** A scan that reaches the first suffix word the name ends with returns that word. */
  lemma {:induction false} SuffixWordFrom(name: string, e: nat, m: nat, k: nat)
    requires e <= |name| && m <= k < |Suffixes| && EndsWithAt(name, e, Suffixes[k])
    requires forall j :: m <= j < k ==> !EndsWithAt(name, e, Suffixes[j])
    ensures SuffixWordAt(name, e, m) == Some(Suffixes[k])
    decreases k - m
  {
    if m < k {
      SuffixWordFrom(name, e, m + 1, k);
    }
  }

  /** A name made of a stem and the first suffix word it ends with loses just that word. */
  lemma {:induction false} DropSuffixOfStem(stem: string, k: nat)
    requires k < |Suffixes|
    requires forall j :: 0 <= j < k ==> !EndsWithAt(stem + Suffixes[k], |stem + Suffixes[k]|, Suffixes[j])
    ensures DropSuffix(stem + Suffixes[k]) == stem
  {
    var w := Suffixes[k];
    var name := stem + w;
    assert w[|w| - 1] != '\n';
    assert name[|name| - 1] == w[|w| - 1];
    assert EndMark(name) == |name|;
    assert name[|stem|..|name|] == w;
    SuffixWordFrom(name, |name|, 0, k);
    assert name[..|stem|] == stem;
  }

  /** The first example the source documents: `settingsButton` gives `settings`. */
  lemma {:induction false} SettingsButtonExample()
    ensures ExtractSemantic("settingsButton") == "settings"
  {
    assert "settingsButton" == "settings" + Suffixes[0];
    DropSuffixOfStem("settings", 0);
    ExampleStemsAreLowerWords();
    LowerWordUnchanged("settings");
  }

  /** The second example the source documents: `profileIcon` gives `profile`. */
  lemma {:induction false} ProfileIconExample()
    ensures ExtractSemantic("profileIcon") == "profile"
  {
    assert "profileIcon" == "profile" + Suffixes[1];
    NotEndsWithAt("profileIcon", 11, "Button", 0);
    DropSuffixOfStem("profile", 1);
    ExampleStemsAreLowerWords();
    LowerWordUnchanged("profile");
  }
}
