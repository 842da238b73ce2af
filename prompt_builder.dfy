/**
 * `PromptBuilder`: the text prompt for one opportunity under a theme, and the aspect ratio
 * to ask for. The prompt is a list of parts, some of them optional, joined by ", "; the
 * ratio comes from a `WxH` size hint when it is clearly square, wide or tall, and from the
 * purpose otherwise.
 */
module PromptBuilder {
  import opened Wrappers
  import opened Strings
  import opened Models

  // ---------------------------------------------------------------------------
  // `build_prompt`
  // ---------------------------------------------------------------------------

  /** The words `PURPOSE_TEMPLATES` puts after `{description}`. */
  function TemplateWords(p: ImagePurpose): string
  {
    match p
    case Icon => "icon"
    case Logo => "logo design"
    case Button => "button graphic"
    case Background => "background pattern"
    case Illustration => "illustration"
    case Hero => "hero image"
  }

  /** `PURPOSE_TEMPLATES[purpose].format(description=description)`. */
  function Template(p: ImagePurpose, description: string): string
  {
    description + " " + TemplateWords(p)
  }

  const QualityDirective: string := "high quality, professional design"
  const WhiteBackground: string := "on solid white background for easy removal"

  /** `theme.style.keywords[:3]`. */
  function TopKeywords(keywords: seq<string>): (r: seq<string>)
    ensures |r| == if |keywords| < 3 then |keywords| else 3
    ensures r == keywords[..|r|]
  {
    if |keywords| <= 3 then keywords else keywords[..3]
  }

  /** `", ".join(theme.style.keywords[:3])`; an empty result drops the part. */
  function KeywordPart(theme: ThemeProfile): string
  {
    Join(TopKeywords(theme.style.keywords), ", ")
  }

  /** Icons and logos are drawn on white so that the background can be removed. */
  predicate WantsWhiteBackground(p: ImagePurpose)
  {
    p == Icon || p == Logo
  }

  /** `if opportunity.size_hint:` holds for a hint that is given and not empty. */
  predicate HasSizeHint(o: Opportunity)
  {
    o.sizeHint.Some? && o.sizeHint.value != []
  }

  /** `f"{opportunity.size_hint} resolution"`. */
  function SizePart(o: Opportunity): string
    requires HasSizeHint(o)
  {
    o.sizeHint.value + " resolution"
  }

  /** An optional part as it appears after the parts before it. */
  function Opt(present: bool, part: string): string
  {
    if present then ", " + part else ""
  }

  /** `f"{style} style"`. */
  function StylePart(theme: ThemeProfile): string
  {
    theme.style.aesthetic + " style"
  }

  /** `f"using {primary_color} as primary color"`. */
  function ColorPart(theme: ThemeProfile): string
  {
    "using " + theme.colors.primary + " as primary color"
  }

  /** The text the three fixed parts make: template, style and primary colour. */
  function PromptHead(o: Opportunity, theme: ThemeProfile): string
  {
    Template(o.purpose, o.semanticContext) + ", " + StylePart(theme) + ", " + ColorPart(theme)
  }

  /** The size part, when the opportunity has a size hint. */
  function SizeTail(o: Opportunity): string
  {
    if HasSizeHint(o) then ", " + SizePart(o) else ""
  }

  /**
   * The prompt written out as one string: the fixed head, the keywords when there are any,
   * the quality directive, the white-background directive for icons and logos, and the
   * size hint when there is one.
   */
  function Prompt(o: Opportunity, theme: ThemeProfile): string
  {
    PromptHead(o, theme) + Opt(KeywordPart(theme) != [], KeywordPart(theme)) + Opt(true, QualityDirective)
    + Opt(WantsWhiteBackground(o.purpose), WhiteBackground) + SizeTail(o)
  }

  /** Adding one part to a non-empty list adds the separator and the part to the joined text. */
  lemma {:induction false} JoinSnoc(parts: seq<string>, x: string, sep: string)
    requires |parts| > 0
    ensures Join(parts + [x], sep) == Join(parts, sep) + sep + x
  {
    JoinConcat(parts, [x], sep);
  }

  /** Three parts joined. */
  lemma {:induction false} JoinThree(a: string, b: string, c: string, sep: string)
    ensures Join([a, b, c], sep) == a + sep + b + sep + c
  {
    assert [a, b, c][1..] == [b, c];
    assert [b, c][1..] == [c];
    assert Join([c], sep) == c;
    assert Join([b, c], sep) == b + sep + c;
    assert Join([a, b, c], sep) == a + sep + (b + sep + c);
  }

  /** Appending a part when `present` holds extends the joined text by `Opt(present, x)`. */
  lemma {:induction false} JoinOpt(parts: seq<string>, present: bool, x: string, sep: string)
    requires |parts| > 0
    ensures Join(if present then parts + [x] else parts, ", ") == Join(parts, ", ") + Opt(present, x)
  {
    if present {
      JoinSnoc(parts, x, ", ");
    }
  }

  /** `build_prompt(opportunity, theme)`: the parts appended in order, then joined by ", ". */
  method BuildPrompt(o: Opportunity, theme: ThemeProfile) returns (prompt: string)
    ensures prompt == Prompt(o, theme)
  {
    var base := Template(o.purpose, o.semanticContext);
    var keywords := Join(TopKeywords(theme.style.keywords), ", ");
    var parts := [base, StylePart(theme), ColorPart(theme)];
    JoinThree(base, StylePart(theme), ColorPart(theme), ", ");
    ghost var text := PromptHead(o, theme);
    JoinOpt(parts, keywords != [], keywords, ", ");
    if keywords != [] {
      parts := parts + [keywords];
    }
    text := text + Opt(keywords != [], keywords);
    JoinOpt(parts, true, QualityDirective, ", ");
    parts := parts + [QualityDirective];
    text := text + Opt(true, QualityDirective);
    var white := o.purpose in [Icon, Logo];
    JoinOpt(parts, white, WhiteBackground, ", ");
    if white {
      parts := parts + [WhiteBackground];
    }
    text := text + Opt(white, WhiteBackground);
    var sized := o.sizeHint.Some? && o.sizeHint.value != [];
    var size := if sized then o.sizeHint.value + " resolution" else "";
    JoinOpt(parts, sized, size, ", ");
    if sized {
      parts := parts + [size];
    }
    text := text + Opt(sized, size);
    prompt := Join(parts, ", ");
    assert prompt == text;
  }

  /** The prompt opens with the purpose's template applied to the label, then style and colour. */
  lemma {:induction false} PromptStartsWithTemplate(o: Opportunity, theme: ThemeProfile)
    ensures StartsWith(Prompt(o, theme), o.semanticContext + " " + TemplateWords(o.purpose) + ", ")
    ensures StartsWith(Prompt(o, theme), PromptHead(o, theme))
  {
    var p := Prompt(o, theme);
    var head := PromptHead(o, theme);
    var lead := o.semanticContext + " " + TemplateWords(o.purpose) + ", ";
    assert p[..|head|] == head;
    assert head[..|lead|] == lead;
  }

  /** A piece in the middle of a concatenation is contained in it. */
  lemma {:induction false} ContainsMiddle(a: string, b: string, c: string)
    ensures Contains(a + b + c, b)
  {
    assert (a + b + c)[|a|..|a| + |b|] == b;
    assert LitAt(a + b + c, |a|, b);
  }

  /** A concatenation ends with its last piece. */
  lemma {:induction false} EndsWithLast(a: string, b: string)
    ensures EndsWith(a + b, b)
  {
    assert (a + b)[|a|..] == b;
  }

  /** Two strings ending in different characters do not end with one another. */
  lemma {:induction false} EndsDiffer(x: string, y: string, s: string, k: nat)
    requires k < |x| && k < |y| && x[|x| - 1 - k] != y[|y| - 1 - k]
    ensures !EndsWith(x + s, y + s)
  {
    var n, m := |x + s|, |y + s|;
    assert (x + s)[n - |s| - 1 - k] == x[|x| - 1 - k];
    assert (y + s)[m - |s| - 1 - k] == y[|y| - 1 - k];
    if m <= n {
      assert (x + s)[n - m..][m - |s| - 1 - k] == (x + s)[n - |s| - 1 - k];
    }
  }

  /** Proof step only: moving the brackets of a five-piece concatenation, stated once to keep the prompt proofs cheap. */
  lemma {:induction false} Regroup(a: string, b: string, c: string, d: string, e: string)
    ensures a + (b + c) + d + e == (a + b) + c + (d + e)
  {
  }

  /** The quality directive is always there. */
  lemma {:induction false} PromptHasQuality(o: Opportunity, theme: ThemeProfile)
    ensures Contains(Prompt(o, theme), QualityDirective)
  {
    var head := PromptHead(o, theme) + Opt(KeywordPart(theme) != [], KeywordPart(theme));
    var w, t := Opt(WantsWhiteBackground(o.purpose), WhiteBackground), SizeTail(o);
    Regroup(head, ", ", QualityDirective, w, t);
    ContainsMiddle(head + ", ", QualityDirective, w + t);
  }

  /** Everything before the optional white-background part. */
  function PromptBody(o: Opportunity, theme: ThemeProfile): string
  {
    PromptHead(o, theme) + Opt(KeywordPart(theme) != [], KeywordPart(theme)) + ", " + QualityDirective
  }

  /** The prompt is its body, the optional white-background part and the optional size part. */
  lemma {:induction false} PromptSplit(o: Opportunity, theme: ThemeProfile)
    ensures Prompt(o, theme)
            == PromptBody(o, theme) + Opt(WantsWhiteBackground(o.purpose), WhiteBackground) + SizeTail(o)
  {
    var head := PromptHead(o, theme) + Opt(KeywordPart(theme) != [], KeywordPart(theme));
    assert head + Opt(true, QualityDirective) == head + ", " + QualityDirective;
  }

  /** The prompt ends in " resolution" exactly when the opportunity has a size hint. */
  lemma {:induction false} PromptEndsWithSize(o: Opportunity, theme: ThemeProfile)
    ensures EndsWith(Prompt(o, theme), " resolution") <==> HasSizeHint(o)
    ensures HasSizeHint(o) ==> EndsWith(Prompt(o, theme), ", " + SizePart(o))
  {
    PromptSplit(o, theme);
    var body := PromptBody(o, theme);
    var w := Opt(WantsWhiteBackground(o.purpose), WhiteBackground);
    if HasSizeHint(o) {
      EndsWithSize(body + w, o.sizeHint.value);
    } else if WantsWhiteBackground(o.purpose) {
      assert Prompt(o, theme) == body + ", " + WhiteBackground + [];
      assert " resolution" == " resolution" + [];
      EndsDiffer(body + ", " + WhiteBackground, " resolution", [], 0);
    } else {
      assert Prompt(o, theme) == body + [];
      assert body == (PromptHead(o, theme) + Opt(KeywordPart(theme) != [], KeywordPart(theme)) + ", ")
                     + QualityDirective;
      assert " resolution" == " resolution" + [];
      EndsDiffer(body, " resolution", [], 1);
    }
  }

  /** A text followed by the size part ends with it, and so with " resolution". */
  lemma {:induction false} EndsWithSize(pre: string, hint: string)
    ensures EndsWith(pre + (", " + (hint + " resolution")), " resolution")
    ensures EndsWith(pre + (", " + (hint + " resolution")), ", " + (hint + " resolution"))
  {
    EndsWithLast(pre, ", " + (hint + " resolution"));
    assert pre + (", " + (hint + " resolution")) == (pre + ", " + hint) + " resolution";
    EndsWithLast(pre + ", " + hint, " resolution");
  }

  /** How an optional part between a fixed part `q` and a tail `s` shows at the end of a text. */
  lemma {:induction false} OptionalBeforeTail(pre: string, q: string, present: bool, x: string, s: string)
    requires q != [] && x != [] && q[|q| - 1] != x[|x| - 1]
    ensures EndsWith(pre + (q + Opt(present, x) + s), q + Opt(present, x) + s)
    ensures EndsWith(pre + (q + Opt(present, x) + s), x + s) <==> present
  {
    EndsWithLast(pre, q + Opt(present, x) + s);
    if present {
      assert pre + (q + Opt(present, x) + s) == (pre + q + ", ") + (x + s);
      EndsWithLast(pre + q + ", ", x + s);
    } else {
      assert pre + (q + Opt(present, x) + s) == (pre + q) + s;
      EndsDiffer(pre + q, x, s, 0);
    }
  }

  /**
   * The white-background directive comes right after the quality directive, before any size
   * part, exactly when the purpose is icon or logo.
   */
  lemma {:induction false} PromptWhiteBackground(o: Opportunity, theme: ThemeProfile)
    ensures EndsWith(Prompt(o, theme), WhiteBackground + SizeTail(o)) <==> WantsWhiteBackground(o.purpose)
    ensures EndsWith(Prompt(o, theme), QualityDirective + Opt(WantsWhiteBackground(o.purpose), WhiteBackground) + SizeTail(o))
  {
    PromptSplit(o, theme);
    var pre := PromptHead(o, theme) + Opt(KeywordPart(theme) != [], KeywordPart(theme)) + ", ";
    var w := Opt(WantsWhiteBackground(o.purpose), WhiteBackground);
    Regroup3(pre, QualityDirective, w, SizeTail(o));
    DirectivesEndApart();
    OptionalBeforeTail(pre, QualityDirective, WantsWhiteBackground(o.purpose), WhiteBackground, SizeTail(o));
  }

  /** Proof step only: moving the brackets of a four-piece concatenation, stated once to keep the prompt proofs cheap. */
  lemma {:induction false} Regroup3(a: string, b: string, c: string, d: string)
    ensures a + b + c + d == a + (b + c + d)
  {
  }

  /** The quality and white-background directives end in different letters. */
  lemma {:induction false} DirectivesEndApart()
    ensures QualityDirective != [] && WhiteBackground != []
    ensures QualityDirective[|QualityDirective| - 1] != WhiteBackground[|WhiteBackground| - 1]
  {
  }

  // ---------------------------------------------------------------------------
  // `determine_aspect_ratio`
  // ---------------------------------------------------------------------------

  /** The value of a non-empty run of decimal digits, most significant first. */
  function DigitsValue(s: string): nat
    requires forall k :: 0 <= k < |s| ==> IsDigit(s[k])
  {
    if s == [] then 0
    else
      assert IsDigit(s[|s| - 1]);
      DigitsValue(s[..|s| - 1]) * 10 + (s[|s| - 1] as int - '0' as int)
  }

  /** `int(s)` for an optionally signed run of decimal digits; `None` where `int` raises. */
  function ParseInt(s: string): Option<int>
  {
    if s == [] then None
    else
      var sign := s[0] == '+' || s[0] == '-';
      var digits := if sign then s[1..] else s;
      if digits == [] || exists k :: 0 <= k < |digits| && !IsDigit(digits[k]) then None
      else
        var v: int := DigitsValue(digits);
        Some(if s[0] == '-' then -v else v)
  }

  /** `size_hint.lower().replace("x", " ").split()` read as two integers, if it is two integers. */
  function ParseSize(hint: string): Option<(int, int)>
  {
    var fields := Fields(ReplaceChar(Lower(hint), 'x', ' '), 0);
    if |fields| != 2 then None
    else
      match (ParseInt(fields[0]), ParseInt(fields[1]))
      case (Some(w), Some(h)) => Some((w, h))
      case _ => None
  }

  /** The ratio's verdict, or `None` to fall through: a zero height raises, a middling ratio is no verdict. */
  function RatioChoice(w: int, h: int): Option<string>
  {
    if h == 0 then None
    else
      var ratio := w as real / h as real;
      if 0.9 <= ratio <= 1.1 then Some("1:1")
      else if ratio > 1.5 then Some("16:9")
      else if ratio < 0.7 then Some("9:16")
      else None
  }

  /** `purpose_ratios`. */
  function DefaultRatio(p: ImagePurpose): string
  {
    match p
    case Icon => "1:1"
    case Logo => "4:3"
    case Button => "3:4"
    case Background => "16:9"
    case Illustration => "4:3"
    case Hero => "16:9"
  }

  /** `determine_aspect_ratio(opportunity)`: always a ratio the image service accepts. */
  function AspectRatio(o: Opportunity): (r: string)
    ensures r in ValidRatios
  {
    if !HasSizeHint(o) then DefaultRatio(o.purpose)
    else
      match ParseSize(o.sizeHint.value)
      case Some((w, h)) =>
        (match RatioChoice(w, h)
         case Some(r) => r
         case None => DefaultRatio(o.purpose))
      case None => DefaultRatio(o.purpose)
  }

  /**
   * The same decision in integers: with the height made positive, `w/h` in [0.9, 1.1] is
   * `9h <= 10w <= 11h`, above 1.5 is `2w > 3h`, and below 0.7 is `10w < 7h`.
   */
  function RatioChoiceInts(w: int, h: int): Option<string>
  {
    if h == 0 then None
    else
      var a := if h > 0 then w else -w;
      var b := if h > 0 then h else -h;
      if 9 * b <= 10 * a <= 11 * b then Some("1:1")
      else if 2 * a > 3 * b then Some("16:9")
      else if 10 * a < 7 * b then Some("9:16")
      else None
  }

  /** Multiplying both sides by a positive number keeps a comparison. */
  lemma {:induction false} MulMono(x: real, c: real, m: real)
    requires m > 0.0
    ensures c <= x <==> c * m <= x * m
    ensures c < x <==> c * m < x * m
  {
  }

  lemma {:induction false} DivTimes(a: int, b: int)
    requires b > 0
    ensures (a as real / b as real) * (b as real) == a as real
  {
  }

  lemma {:induction false} AtLeastNineTenths(a: int, b: int)
    requires b > 0
    ensures 0.9 <= a as real / b as real <==> 9 * b <= 10 * a
  {
    DivTimes(a, b);
    MulMono(a as real / b as real, 0.9, b as real);
    assert 0.9 * (b as real) <= a as real <==> 9 * b <= 10 * a;
  }

  lemma {:induction false} AtMostElevenTenths(a: int, b: int)
    requires b > 0
    ensures a as real / b as real <= 1.1 <==> 10 * a <= 11 * b
  {
    DivTimes(a, b);
    MulMono(1.1, a as real / b as real, b as real);
    assert a as real <= 1.1 * (b as real) <==> 10 * a <= 11 * b;
  }

  lemma {:induction false} AboveThreeHalves(a: int, b: int)
    requires b > 0
    ensures a as real / b as real > 1.5 <==> 2 * a > 3 * b
  {
    DivTimes(a, b);
    MulMono(a as real / b as real, 1.5, b as real);
    assert 1.5 * (b as real) < a as real <==> 3 * b < 2 * a;
  }

  lemma {:induction false} BelowSevenTenths(a: int, b: int)
    requires b > 0
    ensures a as real / b as real < 0.7 <==> 10 * a < 7 * b
  {
    DivTimes(a, b);
    MulMono(0.7, a as real / b as real, b as real);
    assert a as real < 0.7 * (b as real) <==> 10 * a < 7 * b;
  }

  /** Negating both operands leaves the quotient as it is. */
  lemma {:induction false} NegatedQuotient(w: int, h: int)
    requires h < 0
    ensures w as real / h as real == (-w) as real / (-h) as real
  {
  }

  /** The exact-real decision and the integer one agree on every pair. */
  lemma {:induction false} RatioChoiceByCrossMultiplication(w: int, h: int)
    ensures RatioChoice(w, h) == RatioChoiceInts(w, h)
  {
    if h != 0 {
      var a := if h > 0 then w else -w;
      var b := if h > 0 then h else -h;
      if h < 0 {
        NegatedQuotient(w, h);
      }
      assert w as real / h as real == a as real / b as real;
      AtLeastNineTenths(a, b);
      AtMostElevenTenths(a, b);
      AboveThreeHalves(a, b);
      BelowSevenTenths(a, b);
    }
  }

  /**
   * The ratio comes from the hint when the hint is two integers with a non-zero height whose
   * quotient is square, wide or tall; in every other case it is the purpose's default.
   */
  lemma {:induction false} AspectRatioSource(o: Opportunity)
    ensures (HasSizeHint(o) && ParseSize(o.sizeHint.value).Some?
             && RatioChoiceInts(ParseSize(o.sizeHint.value).value.0, ParseSize(o.sizeHint.value).value.1).Some?)
            ==> AspectRatio(o) == RatioChoiceInts(ParseSize(o.sizeHint.value).value.0,
                                                  ParseSize(o.sizeHint.value).value.1).value
    ensures !(HasSizeHint(o) && ParseSize(o.sizeHint.value).Some?
              && RatioChoiceInts(ParseSize(o.sizeHint.value).value.0, ParseSize(o.sizeHint.value).value.1).Some?)
            ==> AspectRatio(o) == DefaultRatio(o.purpose)
  {
    if HasSizeHint(o) && ParseSize(o.sizeHint.value).Some? {
      var (w, h) := ParseSize(o.sizeHint.value).value;
      RatioChoiceByCrossMultiplication(w, h);
    }
  }

  /** A prompt of acceptable length and the chosen ratio always make a valid request. */
  lemma {:induction false} AspectRatioAccepted(o: Opportunity, prompt: string, removeBackground: bool)
    requires 1 <= |prompt| <= 2000
    ensures NewGenerationRequest(prompt, Some(AspectRatio(o)), removeBackground).Ok?
    ensures NewGenerationRequest(prompt, Some(AspectRatio(o)), removeBackground).value.aspectRatio == AspectRatio(o)
  {
  }

  // ---------------------------------------------------------------------------
  // Reading back the hints `str` writes.
  // ---------------------------------------------------------------------------

  /** The digits of `n` read back give `n`. */
  lemma {:induction false} DigitsRoundTrip(n: nat)
    ensures DigitsValue(NatToString(n)) == n
  {
    if n >= 10 {
      DigitsRoundTrip(n / 10);
      var s := NatToString(n);
      assert s[..|s| - 1] == NatToString(n / 10);
    }
  }

  /** `int(str(n)) == n`. */
  lemma {:induction false} ParseIntRoundTrip(n: nat)
    ensures ParseInt(NatToString(n)) == Some(n)
  {
    DigitsRoundTrip(n);
  }

  /** `Fields` of two space-free non-empty words joined by one space gives the two words. */
  lemma {:induction false} FieldsOfTwo(a: string, b: string)
    requires a != [] && b != []
    requires forall k :: 0 <= k < |a| ==> !IsSpace(a[k])
    requires forall k :: 0 <= k < |b| ==> !IsSpace(b[k])
    ensures Fields(a + " " + b, 0) == [a, b]
  {
    var s := a + " " + b;
    assert s[0] == a[0];
    SpaceEndIs(s, 0, 0);
    assert FieldEnd(s, 0) == |a| by {
      FieldEndIs(s, 0, |a|);
    }
    assert SpaceEnd(s, |a|) == |a| + 1 by {
      SpaceEndIs(s, |a|, |a| + 1);
    }
    assert FieldEnd(s, |a| + 1) == |s| by {
      FieldEndIs(s, |a| + 1, |s|);
    }
    assert s[|a| + 1..|s|] == b;
    assert SpaceEnd(s, |s|) == |s|;
    assert Fields(s, |s|) == [];
    assert Fields(s, |a| + 1) == [b];
    assert s[0..|a|] == a;
    assert Fields(s, 0) == [a] + Fields(s, |a|);
  }

  /** A run of non-spaces that stops at a space or the end is exactly what `FieldEnd` consumes. */
  lemma {:induction false} FieldEndIs(s: string, i: nat, j: nat)
    requires i <= j <= |s| && (forall k :: i <= k < j ==> !IsSpace(s[k])) && (j == |s| || IsSpace(s[j]))
    ensures FieldEnd(s, i) == j
    decreases j - i
  {
    if i < j {
      FieldEndIs(s, i + 1, j);
    }
  }

  /** A hint `str(w) + "x" + str(h)` parses back to `(w, h)`. */
  lemma {:induction false} SizeHintRoundTrip(w: nat, h: nat)
    ensures ParseSize(NatToString(w) + "x" + NatToString(h)) == Some((w, h))
  {
    var sw, sh := NatToString(w), NatToString(h);
    var hint := sw + "x" + sh;
    assert Lower(hint) == hint;
    assert ReplaceChar(hint, 'x', ' ') == sw + " " + sh;
    FieldsOfTwo(sw, sh);
    ParseIntRoundTrip(w);
    ParseIntRoundTrip(h);
  }

  /** A square hint such as `64x64` asks for `1:1`, whatever the purpose's default. */
  lemma {:induction false} SquareHintIsSquare(o: Opportunity, n: nat)
    requires n > 0 && o.sizeHint == Some(NatToString(n) + "x" + NatToString(n))
    ensures AspectRatio(o) == "1:1"
  {
    SizeHintRoundTrip(n, n);
    RatioChoiceByCrossMultiplication(n, n);
    assert RatioChoice(n, n) == Some("1:1");
    assert HasSizeHint(o);
    assert ParseSize(o.sizeHint.value) == Some((n as int, n as int));
  }
}
