/**
 * `QtCodeParser.find_opportunities`: five scans over a Qt C++ source, one per pattern of
 * the table, each turning every match into an `Opportunity` with the rule's purpose,
 * confidence, size hint and integration type, and a label taken from a nearby identifier.
 */
module QtParser {
  import opened Wrappers
  import opened Strings
  import opened Paths
  import opened Models
  import opened Patterns
  import opened ParserBase

  /** A match whose spans lie inside `s`, in order. */
  predicate ValidHit(s: string, h: Hit)
  {
    h.start < h.end <= |s| && h.start <= h.groupStart <= h.groupEnd <= h.end
  }

  /** Every match the scan returns is a valid one. */
  lemma {:induction false} FindIterValid(p: QtPattern, s: string)
    ensures forall k :: 0 <= k < |FindIter(p, s, 0)| ==> ValidHit(s, FindIter(p, s, 0)[k])
  {
    var hits := FindIter(p, s, 0);
    FindIterMatches(p, s, 0);
    forall k | 0 <= k < |hits| ensures ValidHit(s, hits[k]) {
      assert Match(p, s, hits[k].start) == Some(hits[k]);
    }
  }

  /** `code[:pos].count("\n") + 1`: the line, counted from 1, that holds position `pos`. */
  function LineNumberOf(code: string, pos: nat): (n: LineNumber)
    requires pos <= |code|
  {
    CountBefore(code, pos, '\n') + 1
  }

  /** The line number is the 1-based index, in `code.split("\n")`, of the line holding `pos`. */
  lemma {:induction false} LineNumberIndexesSplit(code: string, pos: nat)
    requires pos <= |code|
    ensures LineNumberOf(code, pos) - 1 < |Split(code, '\n')|
    ensures Split(code, '\n')[LineNumberOf(code, pos) - 1] == code[LineStart(code, pos)..LineEnd(code, pos)]
  {
    LineAt(code, 0, pos);
  }

  // ---------------------------------------------------------------------------
  // The identifier search `re.search(r"(\w+)\s*<stop>", line)`.
  // ---------------------------------------------------------------------------

  /** The characters `[=.]` that end an assignment or member access. */
  const AssignStops: set<char> := {'=', '.'}

  /** The characters `(?:\(|=)` that end a call or an assignment. */
  const CallStops: set<char> := {'(', '='}

  /**
   * Where `(\w+)\s*[stops]` matches at `p`: the end of its group. The run of word
   * characters is taken whole, since a shorter one would be followed by a word character.
   */
  function IdentAt(t: string, p: nat, stops: set<char>): (g: Option<nat>)
    requires p <= |t|
    ensures g.Some? ==> p < g.value <= |t|
  {
    if p < |t| && IsWord(t[p]) then
      var g := WordEnd(t, p);
      var e := SpaceEnd(t, g);
      if e < |t| && t[e] in stops then Some(g) else None
    else None
  }

  /** `(\w+)\s*[stops]` spans `t[p..e+1]`, its group being `t[p..g]`. */
  predicate IdentShape(t: string, p: nat, g: nat, e: nat, stops: set<char>)
  {
    Word(t, p, g) && Spaces(t, g, e) && e < |t| && t[e] in stops
  }

  /** The search pattern matches at `p` exactly when a word, spaces and a stop character follow. */
  lemma {:induction false} IdentAtExact(t: string, p: nat, g: nat, e: nat, stops: set<char>)
    requires p <= |t|
    requires forall c :: c in stops ==> !IsWord(c) && !IsSpace(c)
    ensures IdentShape(t, p, g, e, stops) ==> IdentAt(t, p, stops) == Some(g)
    ensures IdentAt(t, p, stops) == Some(g) ==> IdentShape(t, p, g, SpaceEnd(t, g), stops)
  {
    if IdentShape(t, p, g, e, stops) {
      WordEndIs(t, p, g);
      SpaceEndIs(t, g, e);
    }
  }

  /** `re.search`: the first position from `p` on where the pattern matches. */
  function FirstIdent(t: string, p: nat, stops: set<char>): (q: Option<nat>)
    requires p <= |t|
    ensures q.Some? ==> p <= q.value < |t| && IdentAt(t, q.value, stops).Some?
    decreases |t| - p
  {
    if p == |t| then None
    else if IdentAt(t, p, stops).Some? then Some(p)
    else FirstIdent(t, p + 1, stops)
  }

  /** The search finds the leftmost match, and finds none only when there is none. */
  lemma {:induction false} FirstIdentLeftmost(t: string, p: nat, stops: set<char>)
    requires p <= |t|
    ensures FirstIdent(t, p, stops).Some? ==>
              forall q :: p <= q < FirstIdent(t, p, stops).value ==> IdentAt(t, q, stops).None?
    ensures FirstIdent(t, p, stops).None? ==> forall q :: p <= q <= |t| ==> IdentAt(t, q, stops).None?
    decreases |t| - p
  {
    if p < |t| && IdentAt(t, p, stops).None? {
      FirstIdentLeftmost(t, p + 1, stops);
    }
  }

  /** `match.group(1)` of the search, if it matched. */
  function SearchGroup(t: string, stops: set<char>): (r: Option<string>)
    ensures r.Some? ==> r.value != [] && forall k :: 0 <= k < |r.value| ==> IsWord(r.value[k])
  {
    match FirstIdent(t, 0, stops)
    case None => None
    case Some(q) =>
      var g := IdentAt(t, q, stops).value;
      assert forall k :: 0 <= k < g - q ==> t[q..g][k] == t[q + k];
      Some(t[q..g])
  }

  // ---------------------------------------------------------------------------
  // One opportunity per match.
  // ---------------------------------------------------------------------------

  /** `empty_qicon_string`'s context: from the start of the match's line to the newline after it. */
  function IconStringLine(code: string, h: Hit): string
    requires ValidHit(code, h)
  {
    code[LineStart(code, h.start)..LineEnd(code, h.end)]
  }

  /** `placeholder_path`'s context: from the start of the match's line to 50 characters past it. */
  function PlaceholderLine(code: string, h: Hit): string
    requires ValidHit(code, h)
  {
    var stop := if h.end + 50 <= |code| then h.end + 50 else |code|;
    code[LineStart(code, h.start)..stop]
  }

  /**
   * The purpose an empty `QPixmap` declaration gets from its variable name: a background
   * when the lower-cased name holds "background" or "bg", a hero image when it holds
   * "hero", a logo otherwise.
   */
  function PixmapPurpose(name: string): ImagePurpose
  {
    var low := Lower(name);
    if Contains(low, "background") || Contains(low, "bg") then Background
    else if Contains(low, "hero") then Hero
    else Logo
  }

  /**
   * The purpose of a declaration depends on its name only up to case, and is one of
   * the three the rule hands out.
   */
  lemma {:induction false} PixmapPurposeIgnoresCase(name: string, other: string)
    requires Lower(name) == Lower(other)
    ensures PixmapPurpose(name) == PixmapPurpose(other)
    ensures PixmapPurpose(name) in {Background, Hero, Logo}
  {
  }

  /** A name that mentions the background in any case gives a background; one mentioning neither gives a logo. */
  lemma {:induction false} PixmapPurposeCases(name: string)
    ensures PixmapPurpose(name) == Background <==> Contains(Lower(name), "background") || Contains(Lower(name), "bg")
    ensures PixmapPurpose(name) == Hero <==>
              !Contains(Lower(name), "background") && !Contains(Lower(name), "bg") && Contains(Lower(name), "hero")
    ensures PixmapPurpose(name) == PixmapPurpose(Lower(name))
  {
    LowerIdempotent(name);
  }

  /** The purpose each rule assigns (for `empty_qpixmap`, the one for a plain name). */
  function RulePurpose(p: QtPattern, code: string, h: Hit): ImagePurpose
    requires ValidHit(code, h)
  {
    match p
    case EmptyQIcon => Icon
    case EmptyQIconString => Icon
    case WindowIcon => Logo
    case EmptyQPixmap => PixmapPurpose(Group(code, h))
    case PlaceholderPath => Illustration
  }

  /** The label each rule derives from the match and its surroundings. */
  function RuleSemantic(p: QtPattern, code: string, h: Hit): string
    requires ValidHit(code, h)
  {
    match p
    case EmptyQIcon => ExtractSemantic(Group(code, h))
    case EmptyQIconString =>
      (match SearchGroup(IconStringLine(code, h), AssignStops)
       case Some(n) => ExtractSemantic(n)
       case None => "icon")
    case WindowIcon => "application window"
    case EmptyQPixmap => ExtractSemantic(Group(code, h))
    case PlaceholderPath =>
      (match SearchGroup(PlaceholderLine(code, h), CallStops)
       case Some(n) => ExtractSemantic(n)
       case None => "placeholder")
  }

  /** The confidence each rule reports. */
  function RuleConfidence(p: QtPattern): Confidence
  {
    match p
    case EmptyQIcon => 0.9
    case EmptyQIconString => 0.85
    case WindowIcon => 0.95
    case EmptyQPixmap => 0.7
    case PlaceholderPath => 0.95
  }

  /** The size hint each rule reports. */
  function RuleSizeHint(p: QtPattern): Option<string>
  {
    match p
    case EmptyQIcon => Some("32x32")
    case EmptyQIconString => Some("32x32")
    case WindowIcon => Some("64x64")
    case EmptyQPixmap => None
    case PlaceholderPath => None
  }

  /** The kind of rewrite each rule asks for: icons for the `QIcon` rules, pixmaps for the others. */
  function RuleIntegration(p: QtPattern): IntegrationType
  {
    if p.EmptyQIcon? || p.EmptyQIconString? || p.WindowIcon? then QtIcon else QtPixmap
  }

  /** The `Opportunity(...)` one loop body appends for match `h` of rule `p`. */
  function OpportunityFor(p: QtPattern, code: string, path: FsPath, h: Hit): Opportunity
    requires ValidHit(code, h)
  {
    Opportunity(
      CodeLocation(path, LineNumberOf(code, h.start), None),
      RulePurpose(p, code, h),
      RuleSemantic(p, code, h),
      Text(code, h),
      RuleIntegration(p),
      RuleConfidence(p),
      RuleSizeHint(p),
      Qt)
  }

  /** Every label is non-empty and free of capitals, whichever rule produced it. */
  lemma {:induction false} SemanticIsLowerCase(p: QtPattern, code: string, h: Hit)
    requires ValidHit(code, h)
    ensures RuleSemantic(p, code, h) != [] && NoUpper(RuleSemantic(p, code, h))
  {
    match p
    case EmptyQIconString =>
      match SearchGroup(IconStringLine(code, h), AssignStops) {
        case Some(n) =>
        case None => assert NoUpper("icon");
      }
    case WindowIcon => assert NoUpper("application window");
    case PlaceholderPath =>
      match SearchGroup(PlaceholderLine(code, h), CallStops) {
        case Some(n) =>
        case None => assert NoUpper("placeholder");
      }
    case _ =>
  }

  /** `[f(h) for h in hits]`. */
  function MapHits<T>(f: Hit --> T, hits: seq<Hit>): (r: seq<T>)
    requires forall m :: 0 <= m < |hits| ==> f.requires(hits[m])
    ensures |r| == |hits|
  {
    if hits == [] then [] else [f(hits[0])] + MapHits(f, hits[1..])
  }

  /** The `k`-th image is the image of the `k`-th match. */
  lemma {:induction false} MapHitsAt<T>(f: Hit --> T, hits: seq<Hit>, k: nat)
    requires forall m :: 0 <= m < |hits| ==> f.requires(hits[m])
    requires k < |hits|
    ensures MapHits(f, hits)[k] == f(hits[k])
  {
    if k > 0 {
      MapHitsAt(f, hits[1..], k - 1);
    }
  }

  /** Mapping one more match appends one more image. */
  lemma {:induction false} MapHitsSnoc<T>(f: Hit --> T, hits: seq<Hit>, k: nat)
    requires forall m :: 0 <= m < |hits| ==> f.requires(hits[m])
    requires k < |hits|
    ensures MapHits(f, hits[..k + 1]) == MapHits(f, hits[..k]) + [f(hits[k])]
  {
    if k > 0 {
      assert hits[..k + 1][1..] == hits[1..][..k];
      assert hits[..k][1..] == hits[1..][..k - 1];
      MapHitsSnoc(f, hits[1..], k - 1);
    }
  }

  /** The loop body of rule `p`, as a function of the match. */
  function Report(p: QtPattern, code: string, path: FsPath): Hit --> Opportunity
  {
    h requires ValidHit(code, h) => OpportunityFor(p, code, path, h)
  }

  /** What one scan of rule `p` over the whole code contributes. */
  function Found(p: QtPattern, code: string, path: FsPath): seq<Opportunity>
  {
    FindIterValid(p, code);
    MapHits(Report(p, code, path), FindIter(p, code, 0))
  }

  /** The result of `find_opportunities`: the five scans, in the order the source runs them. */
  function Detect(code: string, path: FsPath): seq<Opportunity>
  {
    Found(EmptyQIcon, code, path) + Found(EmptyQIconString, code, path) + Found(WindowIcon, code, path)
    + Found(EmptyQPixmap, code, path) + Found(PlaceholderPath, code, path)
  }

  /**
   * The body of one `for match in pattern.finditer(code)` loop: append, for every match
   * in turn, what the loop body `f` makes of it.
   */
  method AppendEach<T>(f: Hit --> T, hits: seq<Hit>, acc: seq<T>) returns (r: seq<T>)
    requires forall m :: 0 <= m < |hits| ==> f.requires(hits[m])
    ensures r == acc + MapHits(f, hits)
  {
    r := acc;
    var k := 0;
    while k < |hits|
      invariant 0 <= k <= |hits|
      invariant r == acc + MapHits(f, hits[..k])
    {
      MapHitsSnoc(f, hits, k);
      r := r + [f(hits[k])];
      k := k + 1;
    }
    assert hits[..k] == hits;
  }

  /** One scan of rule `p`: the matches of its pattern, each reported in turn. */
  method AppendMatches(p: QtPattern, code: string, path: FsPath, acc: seq<Opportunity>)
    returns (r: seq<Opportunity>)
    ensures r == acc + Found(p, code, path)
  {
    var hits := FindIter(p, code, 0);
    FindIterValid(p, code);
    r := AppendEach(Report(p, code, path), hits, acc);
  }

  /** `find_opportunities(code, file_path)`. */
  method FindOpportunities(code: string, path: FsPath) returns (opps: seq<Opportunity>)
    ensures opps == Detect(code, path)
  {
    opps := [];
    opps := AppendMatches(EmptyQIcon, code, path, opps);
    assert opps == Found(EmptyQIcon, code, path);
    opps := AppendMatches(EmptyQIconString, code, path, opps);
    opps := AppendMatches(WindowIcon, code, path, opps);
    opps := AppendMatches(EmptyQPixmap, code, path, opps);
    opps := AppendMatches(PlaceholderPath, code, path, opps);
  }

  // ---------------------------------------------------------------------------
  // What the detected opportunities say.
  // ---------------------------------------------------------------------------

  /**
   * Opportunity `o` describes match `h` of rule `p`: its snippet is the matched text, its
   * line number counts the newlines before the match start (`LineNumberIndexesSplit` says
   * which line of the file that is), and it carries the rule's purpose and constants, a
   * lower-case label and the file path, for the Qt framework.
   */
  predicate DescribesMatch(p: QtPattern, code: string, path: FsPath, h: Hit, o: Opportunity)
    requires ValidHit(code, h)
  {
    o.codeSnippet == code[h.start..h.end]
    && o.purpose == RulePurpose(p, code, h)
    && o.location.filePath == path && o.location.column.None?
    && o.location.lineNumber == LineNumberOf(code, h.start)
    && o.confidence == RuleConfidence(p) && o.sizeHint == RuleSizeHint(p)
    && o.integrationType == RuleIntegration(p) && o.framework == Qt
    && o.semanticContext != [] && NoUpper(o.semanticContext)
  }

  /** The `k`-th opportunity of rule `p` describes the `k`-th match of its pattern. */
  lemma {:induction false} FoundDescribesMatch(p: QtPattern, code: string, path: FsPath, k: nat)
    requires k < |FindIter(p, code, 0)|
    ensures |Found(p, code, path)| == |FindIter(p, code, 0)|
    ensures Match(p, code, FindIter(p, code, 0)[k].start) == Some(FindIter(p, code, 0)[k])
    ensures ValidHit(code, FindIter(p, code, 0)[k])
    ensures DescribesMatch(p, code, path, FindIter(p, code, 0)[k], Found(p, code, path)[k])
  {
    var hits := FindIter(p, code, 0);
    FoundAt(p, code, path, k);
    OpportunityDescribesHit(p, code, path, hits[k]);
  }

  /** The `k`-th opportunity of rule `p` is the one its loop body reports for the `k`-th match. */
  lemma {:induction false} FoundAt(p: QtPattern, code: string, path: FsPath, k: nat)
    requires k < |FindIter(p, code, 0)|
    ensures |Found(p, code, path)| == |FindIter(p, code, 0)|
    ensures Match(p, code, FindIter(p, code, 0)[k].start) == Some(FindIter(p, code, 0)[k])
    ensures ValidHit(code, FindIter(p, code, 0)[k])
    ensures Found(p, code, path)[k] == OpportunityFor(p, code, path, FindIter(p, code, 0)[k])
  {
    var hits := FindIter(p, code, 0);
    FindIterValid(p, code);
    FindIterMatches(p, code, 0);
    MapHitsAt(Report(p, code, path), hits, k);
  }

  /** The opportunity reported for a valid match `h` describes it. */
  lemma {:induction false} OpportunityDescribesHit(p: QtPattern, code: string, path: FsPath, h: Hit)
    requires ValidHit(code, h)
    ensures DescribesMatch(p, code, path, h, OpportunityFor(p, code, path, h))
  {
    SemanticIsLowerCase(p, code, h);
  }

  /** Every place where a rule's pattern matches lies inside the snippet of one of that rule's opportunities. */
  lemma {:induction false} FoundComplete(p: QtPattern, code: string, path: FsPath, q: nat)
    requires q < |code| && Match(p, code, q).Some?
    ensures exists k :: 0 <= k < |FindIter(p, code, 0)|
                        && FindIter(p, code, 0)[k].start <= q < FindIter(p, code, 0)[k].end
                        && Found(p, code, path)[k].codeSnippet
                           == code[FindIter(p, code, 0)[k].start..FindIter(p, code, 0)[k].end]
  {
    FindIterComplete(p, code, 0, q);
    var hits := FindIter(p, code, 0);
    var k :| 0 <= k < |hits| && hits[k].start <= q < hits[k].end;
    FoundDescribesMatch(p, code, path, k);
  }

  /** Code in which no pattern matches anywhere yields no opportunity. */
  lemma {:induction false} DetectNothing(code: string, path: FsPath)
    requires forall p: QtPattern, q :: 0 <= q < |code| ==> Match(p, code, q).None?
    ensures Detect(code, path) == []
  {
    FindIterNone(EmptyQIcon, code, 0);
    FindIterNone(EmptyQIconString, code, 0);
    FindIterNone(WindowIcon, code, 0);
    FindIterNone(EmptyQPixmap, code, 0);
    FindIterNone(PlaceholderPath, code, 0);
  }

  /** The opportunities of one rule come in the order of their matches, each below the next. */
  lemma {:induction false} FoundInOrder(p: QtPattern, code: string, path: FsPath, k: nat)
    requires k + 1 < |FindIter(p, code, 0)|
    ensures Found(p, code, path)[k].location.lineNumber <= Found(p, code, path)[k + 1].location.lineNumber
  {
    var hits := FindIter(p, code, 0);
    FindIterOrdered(p, code, 0);
    FindIterValid(p, code);
    MapHitsAt(Report(p, code, path), hits, k);
    MapHitsAt(Report(p, code, path), hits, k + 1);
    CountMonotone(code, hits[k].start, hits[k + 1].start);
  }

  /** Counting newlines over a longer prefix never gives fewer. */
  lemma {:induction false} CountMonotone(s: string, a: nat, b: nat)
    requires a <= b <= |s|
    ensures CountBefore(s, a, '\n') <= CountBefore(s, b, '\n')
    decreases b - a
  {
    if a < b {
      CountMonotone(s, a, b - 1);
    }
  }

  /** The `empty_qicon` label is the one `_extract_semantic` derives from the variable name. */
  lemma {:induction false} IconLabelFromVariable(code: string, path: FsPath, k: nat)
    requires k < |FindIter(EmptyQIcon, code, 0)|
    ensures var h := FindIter(EmptyQIcon, code, 0)[k];
            h.groupStart == h.start
            && Word(code, h.start, h.groupEnd)
            && LitAt(code, h.groupEnd, ".setIcon(QIcon())")
            && Found(EmptyQIcon, code, path)[k].semanticContext == ExtractSemantic(code[h.start..h.groupEnd])
            && Found(EmptyQIcon, code, path)[k].purpose == Icon
  {
    var h := FindIter(EmptyQIcon, code, 0)[k];
    FoundAt(EmptyQIcon, code, path, k);
    EmptyQIconExact(code, h.start, h.groupEnd, h.end);
  }
}
