/**
 * `ImageGenerator._generate_filename`: the generator names its files with its own copy of
 * the asset manager's rule, but looks the suffix up by the purpose's string value. The
 * sanitizing comprehension is the same code and is shared with `AssetManager`.
 */
module ImageGenerator {
  import opened Wrappers
  import opened Strings
  import opened Models
  import opened AssetManager

  /** `suffix_map.get(opportunity.purpose.value, "")`: keyed by value, empty for any other value. */
  function SuffixByValue(v: string): (r: string)
    ensures ParsePurpose(v).None? ==> r == []
    ensures ParsePurpose(v).Some? ==> r == PurposeSuffix(ParsePurpose(v).value)
  {
    if v == "icon" then "-icon"
    else if v == "logo" then "-logo"
    else if v == "button" then "-button"
    else if v == "background" then "-bg"
    else if v == "illustration" then "-illust"
    else if v == "hero" then "-hero"
    else ""
  }

  /** `f"{base}{suffix}.png"` with the value-keyed suffix. */
  function GeneratorFilename(o: Opportunity): string
  {
    SanitizeLabel(o.semanticContext) + SuffixByValue(PurposeValue(o.purpose)) + ".png"
  }

  /** For every purpose the two suffix tables agree, so both components name a file alike. */
  lemma {:induction false} FilenamesAgree(o: Opportunity)
    ensures GeneratorFilename(o) == AssetFilename(o)
    ensures EndsWith(GeneratorFilename(o), PurposeSuffix(o.purpose) + ".png")
  {
    PurposeRoundTrip(o.purpose);
    var base := SanitizeLabel(o.semanticContext);
    var tail := PurposeSuffix(o.purpose) + ".png";
    assert GeneratorFilename(o) == base + tail;
    assert GeneratorFilename(o)[|base|..] == tail;
  }
}
