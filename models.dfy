/**
 * The records and enumerations shared by the pipeline, with the field constraints
 * pydantic enforces when one of them is built. A record whose constraint can fail
 * is built by a `New...` function returning `Err` where pydantic raises a
 * validation error.
 */
module Models {
  import opened Wrappers
  import opened Strings
  import opened Paths

  /** What a generated image is for. */
  datatype ImagePurpose = Icon | Logo | Button | Background | Illustration | Hero

  /** Every purpose, in declaration order. */
  const AllPurposes: seq<ImagePurpose> := [Icon, Logo, Button, Background, Illustration, Hero]

  /** The string value of each purpose. */
  function PurposeValue(p: ImagePurpose): string
  {
    match p
    case Icon => "icon"
    case Logo => "logo"
    case Button => "button"
    case Background => "background"
    case Illustration => "illustration"
    case Hero => "hero"
  }

  /** `ImagePurpose(v)`: the purpose whose value is `v`, if any. */
  function ParsePurpose(v: string): (r: Option<ImagePurpose>)
    ensures r.Some? ==> PurposeValue(r.value) == v
  {
    if v == "icon" then Some(Icon)
    else if v == "logo" then Some(Logo)
    else if v == "button" then Some(Button)
    else if v == "background" then Some(Background)
    else if v == "illustration" then Some(Illustration)
    else if v == "hero" then Some(Hero)
    else None
  }

  /** Parsing a purpose's value gives the purpose back, so the values are pairwise distinct. */
  lemma {:induction false} PurposeRoundTrip(p: ImagePurpose)
    ensures ParsePurpose(PurposeValue(p)) == Some(p)
  {
  }

  /** There are exactly six purposes, with six different values. */
  lemma {:induction false} SixPurposes()
    ensures |AllPurposes| == 6
    ensures forall p: ImagePurpose :: p in AllPurposes
    ensures forall i, j :: 0 <= i < j < |AllPurposes|
                           ==> PurposeValue(AllPurposes[i]) != PurposeValue(AllPurposes[j])
  {
    forall p: ImagePurpose ensures p in AllPurposes {
      match p
      case Icon => assert AllPurposes[0] == p;
      case Logo => assert AllPurposes[1] == p;
      case Button => assert AllPurposes[2] == p;
      case Background => assert AllPurposes[3] == p;
      case Illustration => assert AllPurposes[4] == p;
      case Hero => assert AllPurposes[5] == p;
    }
    forall i, j | 0 <= i < j < |AllPurposes|
      ensures PurposeValue(AllPurposes[i]) != PurposeValue(AllPurposes[j])
    {
      PurposeRoundTrip(AllPurposes[i]);
      PurposeRoundTrip(AllPurposes[j]);
    }
  }

  /** The UI frameworks the pipeline knows. */
  datatype Framework = Qt | React | Unity | Html

  /** The kinds of code change an opportunity asks for. */
  datatype IntegrationType =
    | QtIcon | QtPixmap | QtResource | ReactImport | ReactJsx | HtmlImg | CssBackground | UnitySprite

  /** A hexadecimal digit, either case. */
  predicate IsHexDigit(c: char)
  {
    IsDigit(c) || 'a' <= c <= 'f' || 'A' <= c <= 'F'
  }

  /** The pattern `^#[0-9A-Fa-f]{6}$` of a primary colour. */
  predicate IsHexColor(s: string)
  {
    |s| == 7 && s[0] == '#' && forall k :: 1 <= k < 7 ==> IsHexDigit(s[k])
  }

  /** The colours of a theme. */
  datatype ColorPalette = ColorPalette(
    primary: string, secondary: seq<string>, accent: seq<string>, background: string, text: string)

  /** `ColorPalette(primary=...)`, with `background` and `text` defaulting to white and black. */
  function NewColorPalette(primary: string, secondary: seq<string>, accent: seq<string>,
                           background: Option<string>, text: Option<string>): (r: Result<ColorPalette, string>)
    ensures r.Ok? <==> IsHexColor(primary)
    ensures r.Ok? ==> r.value.primary == primary && r.value.secondary == secondary
                      && r.value.accent == accent
    ensures r.Ok? ==> r.value.background == (if background.Some? then background.value else "#FFFFFF")
    ensures r.Ok? ==> r.value.text == (if text.Some? then text.value else "#000000")
  {
    if !IsHexColor(primary) then Err("primary must match ^#[0-9A-Fa-f]{6}$")
    else
      Ok(ColorPalette(primary, secondary, accent,
                      if background.Some? then background.value else "#FFFFFF",
                      if text.Some? then text.value else "#000000"))
  }

  /** The look a theme asks for. */
  datatype VisualStyle = VisualStyle(
    aesthetic: string, mood: string, keywords: seq<string>, iconStyle: Option<string>)

  /** A full theme: palette, style, recurring patterns and the image it came from. */
  datatype ThemeProfile = ThemeProfile(
    colors: ColorPalette, style: VisualStyle, patterns: seq<string>, sourceImage: Option<string>)

  /** A line number in the sense of the source: counted from 1. */
  type LineNumber = n: int | n >= 1 witness 1

  /** A confidence score: a real between 0 and 1. */
  type Confidence = c: real | 0.0 <= c <= 1.0 witness 0.0

  /** Where an opportunity was found. */
  datatype CodeLocation = CodeLocation(filePath: FsPath, lineNumber: LineNumber, column: Option<int>)

  /** `CodeLocation(...)`: rejected unless the line number is at least 1. */
  function NewCodeLocation(filePath: FsPath, lineNumber: int, column: Option<int>): (r: Result<CodeLocation, string>)
    ensures r.Ok? <==> lineNumber >= 1
    ensures r.Ok? ==> r.value.filePath == filePath && r.value.lineNumber == lineNumber
                      && r.value.column == column
  {
    if lineNumber < 1 then Err("line_number must be >= 1")
    else Ok(CodeLocation(filePath, lineNumber, column))
  }

  /** A place in the code where a generated image could go. */
  datatype Opportunity = Opportunity(
    location: CodeLocation,
    purpose: ImagePurpose,
    semanticContext: string,
    codeSnippet: string,
    integrationType: IntegrationType,
    confidence: Confidence,
    sizeHint: Option<string>,
    framework: Framework)

  /** `Opportunity(...)`: rejected unless the confidence lies in [0, 1]. */
  function NewOpportunity(location: CodeLocation, purpose: ImagePurpose, semanticContext: string,
                          codeSnippet: string, integrationType: IntegrationType, confidence: real,
                          sizeHint: Option<string>, framework: Framework): (r: Result<Opportunity, string>)
    ensures r.Ok? <==> 0.0 <= confidence <= 1.0
    ensures r.Ok? ==> r.value.confidence == confidence && r.value.location == location
                      && r.value.purpose == purpose && r.value.semanticContext == semanticContext
                      && r.value.codeSnippet == codeSnippet && r.value.integrationType == integrationType
                      && r.value.sizeHint == sizeHint && r.value.framework == framework
  {
    if !(0.0 <= confidence <= 1.0) then Err("confidence must lie in [0, 1]")
    else Ok(Opportunity(location, purpose, semanticContext, codeSnippet, integrationType,
                        confidence, sizeHint, framework))
  }

  /** The aspect ratios the image service accepts. */
  const ValidRatios: seq<string> := ["1:1", "16:9", "9:16", "4:3", "3:4"]

  /** `GenerationRequest.validate_aspect_ratio`: the value itself, or the error it raises. */
  function ValidateAspectRatio(v: string): (r: Result<string, string>)
    ensures r.Ok? <==> v in ValidRatios
    ensures r.Ok? ==> r.value == v
  {
    if v in ValidRatios then Ok(v) else Err("Aspect ratio must be one of ['1:1', '16:9', '9:16', '4:3', '3:4']")
  }

  /** A request to the image service. */
  datatype GenerationRequest = GenerationRequest(prompt: string, aspectRatio: string, removeBackground: bool)

  /**
   * `GenerationRequest(...)`: the prompt must hold 1 to 2000 characters and the aspect ratio,
   * `1:1` when none is given, must be a valid one.
   */
  function NewGenerationRequest(prompt: string, aspectRatio: Option<string>, removeBackground: bool)
    : (r: Result<GenerationRequest, string>)
    ensures r.Ok? <==> 1 <= |prompt| <= 2000 && (aspectRatio.None? || aspectRatio.value in ValidRatios)
    ensures r.Ok? ==> r.value.prompt == prompt && r.value.removeBackground == removeBackground
    ensures r.Ok? ==> r.value.aspectRatio == (if aspectRatio.Some? then aspectRatio.value else "1:1")
    ensures r.Ok? ==> r.value.aspectRatio in ValidRatios
  {
    if !(1 <= |prompt| <= 2000) then Err("prompt must hold 1 to 2000 characters")
    else if aspectRatio.None? then Ok(GenerationRequest(prompt, "1:1", removeBackground))
    else
      match ValidateAspectRatio(aspectRatio.value)
      case Err(e) => Err(e)
      case Ok(v) => Ok(GenerationRequest(prompt, v, removeBackground))
  }

  /** A generated image; `createdAt` is the clock reading the caller supplies. */
  datatype GeneratedImage = GeneratedImage(
    filePath: FsPath, opportunity: Opportunity, themeProfile: ThemeProfile,
    generationPrompt: string, createdAt: string, cost: real)

  /** `GeneratedImage(...)`: rejected unless the cost is non-negative; the cost defaults to 0. */
  function NewGeneratedImage(filePath: FsPath, opportunity: Opportunity, themeProfile: ThemeProfile,
                             generationPrompt: string, createdAt: string, cost: Option<real>)
    : (r: Result<GeneratedImage, string>)
    ensures r.Ok? <==> cost.None? || cost.value >= 0.0
    ensures r.Ok? ==> r.value.cost == (if cost.Some? then cost.value else 0.0) && r.value.cost >= 0.0
    ensures r.Ok? ==> r.value.filePath == filePath && r.value.opportunity == opportunity
                      && r.value.generationPrompt == generationPrompt
  {
    var c := if cost.Some? then cost.value else 0.0;
    if c < 0.0 then Err("cost must be >= 0")
    else Ok(GeneratedImage(filePath, opportunity, themeProfile, generationPrompt, createdAt, c))
  }

  /** The outcome of rewriting one file. */
  datatype IntegrationResult = IntegrationResult(success: bool, filePath: FsPath, diff: string, error: Option<string>)

  /** The outcome of a whole run; the counters are `nat`, so never negative. */
  datatype SkillResult = SkillResult(
    success: bool,
    theme: Option<ThemeProfile>,
    opportunitiesFound: nat,
    imagesGenerated: nat,
    integrationsCompleted: nat,
    totalCost: real,
    processingTimeSeconds: real,
    filesModified: seq<FsPath>,
    errors: seq<string>)

  /** `SkillResult(...)`: rejected when a counter, the cost or the time is negative. */
  function NewSkillResult(success: bool, theme: Option<ThemeProfile>, opportunitiesFound: int,
                          imagesGenerated: int, integrationsCompleted: int, totalCost: real,
                          processingTimeSeconds: real, filesModified: seq<FsPath>, errors: seq<string>)
    : (r: Result<SkillResult, string>)
    ensures r.Ok? <==> opportunitiesFound >= 0 && imagesGenerated >= 0 && integrationsCompleted >= 0
                       && totalCost >= 0.0 && processingTimeSeconds >= 0.0
    ensures r.Ok? ==> r.value.opportunitiesFound == opportunitiesFound
                      && r.value.imagesGenerated == imagesGenerated
                      && r.value.integrationsCompleted == integrationsCompleted
                      && r.value.totalCost == totalCost && r.value.processingTimeSeconds == processingTimeSeconds
                      && r.value.success == success && r.value.theme == theme && r.value.errors == errors
                      && r.value.filesModified == filesModified
  {
    if opportunitiesFound < 0 || imagesGenerated < 0 || integrationsCompleted < 0 then
      Err("counters must be >= 0")
    else if totalCost < 0.0 || processingTimeSeconds < 0.0 then Err("cost and time must be >= 0")
    else
      Ok(SkillResult(success, theme, opportunitiesFound, imagesGenerated, integrationsCompleted,
                     totalCost, processingTimeSeconds, filesModified, errors))
  }
}
