# Qt image-opportunity detection and integration, modelled in Dafny

This project models the Qt path of the image-generation skill `imagen_skill`. Each
stage has its own module, and the modules are verified together:

- **Parser** (`Patterns`, `ParserBase`, `QtParser`). The Qt parser runs five regular
  expressions over C++ source with `finditer`. Each match becomes an `Opportunity`: a
  code location, a purpose, a lower-case semantic label taken from a variable name, the
  matched snippet, an integration type, a confidence and a size hint.
- **Analyzer** (`CodeAnalyzer`). The code analyzer detects each file's framework from
  its extension and content. It runs the Qt parser on Qt files and sorts all
  opportunities by confidence, highest first.
- **Integrator** (`IntegratorBase`, `QtIntegrator`).
  - It turns an image's filesystem path into a Qt resource path (`:/resources/...`).
  - It rewrites the opportunity's line with two `re.sub` passes, one for `QIcon` and one
    for `QPixmap`, and leaves every other line alone.
  - Separately, it adds the image to a `.qrc` manifest, at most once.
- **Asset manager** (`AssetManager`, `ImageGenerator`). The asset manager chooses the
  directory for a framework and purpose. It builds a file name such as
  `settings-icon.png` and numbers the name (`-1` … `-100`) when the file already exists.
  The image generator builds the same file name by a second route.
- **Prompt builder** (`PromptBuilder`). It writes the text prompt and chooses the aspect
  ratio from a `WxH` size hint or from the purpose.
- **Data models** (`Models`). These are the records, with the validation rules of their
  fields.

Two modules state properties across the stages:

- `DetectRewrite` proves that a site the parser reports, on a line that holds the whole
  match, is one the integrator rewrites. It also shows where that fails: `QIcon(" ")`,
  and matches that run across a line break.
- `Pipeline` connects the asset manager's Qt directories with the integrator's resource
  paths, and the parser's size hints with the prompt builder's aspect ratio.

Regular expressions are written as deterministic matchers that work on positions.

- `Patterns.Match` tries one pattern at one index. For every pattern, a lemma proves
  that the matcher accepts exactly the texts the expression describes.
- `Patterns.FindIter` is `finditer`: the leftmost matches, without overlap, each search
  resuming where the last match ended.
- `QtIntegrator.Sub` is `re.sub` in the same way.
- `\w` is `[A-Za-z0-9_]`, and `\s` is ASCII white space, including `\x1c`–`\x1f` as
  `str.isspace` does.
- Paths are `Paths.FsPath`, an anchor and a list of segments, rendered as POSIX paths.

Parts of the system are turned into inputs:

- The set of files that already exist is a parameter (`existing`).
- Reading and writing files, and parsing and writing the XML manifest, are not modelled.
  The manifest is the class `QtIntegrator.QrcFile`, whose fields stand for the document.
- Logging is not modelled.

Where the project's prose description and the code disagree, the model follows the code.

- **Placeholder names.** `placeholder_path` matches only the bare quoted words
  `placeholder`, `temp`, `todo` and `empty`. So `QPixmap("placeholder.png")` is not an
  opportunity (`Patterns.PlaceholderWithExtensionMissed`).
- **Empty `QPixmap` purpose.** An empty `QPixmap` declaration gets purpose
  background, hero or logo, chosen from its variable name (`QtParser.PixmapPurposeCases`).
- **Finding the target line.** The integrator finds its target by the opportunity's
  line number, not by matching the snippet again.
- **The manifest.** `integrate` does not touch the `.qrc` manifest;
  `update_qrc_file` is a separate operation.
- **`QIcon(" ")`.** `empty_qicon_string` allows white space between the quotes, but
  the integrator's `QIcon\(["']["']\)` does not. So an opportunity on `QIcon(" ")` is
  integrated without any change to the line (`DetectRewrite.SpacedQuotesNotRewritten`).
- **Matches across lines.** The parser matches over the whole file, and `\s` takes in
  `\n`, so a match can run across a line break, as in `setWindowIcon(\n    QIcon())` or
  `QPixmap\n    logo;`. Such an opportunity is reported at the line where the match
  starts. `integrate` rewrites only that line, which does not hold the whole match, so
  the code comes back unchanged (`DetectRewrite.WindowIconAcrossLines`,
  `DetectRewrite.DeclarationAcrossLines`).

## Model

| member | source | states |
|---|---|---|
| Models.ParsePurpose | src/imagen_skill/core/models.py:11-19 | `ImagePurpose(v)` succeeds only for a string that is the value of the purpose it returns |
| Models.PurposeRoundTrip | src/imagen_skill/core/models.py:11-19 | every purpose's value parses back to that purpose |
| Models.SixPurposes | src/imagen_skill/core/models.py:11-19 | there are exactly six purposes, all listed, with pairwise distinct values |
| Models.NewColorPalette | src/imagen_skill/core/models.py:45-52 | a palette is accepted exactly when `primary` is `#` and six hex digits; `background` defaults to `#FFFFFF`, `text` to `#000000`; the other fields are kept |
| Models.NewCodeLocation | src/imagen_skill/core/models.py:74-79 | a location is accepted exactly when its line number is at least 1; its fields are kept |
| Models.NewOpportunity | src/imagen_skill/core/models.py:82-92 | an opportunity is accepted exactly when its confidence lies in [0, 1]; every field is kept |
| Models.ValidateAspectRatio | src/imagen_skill/core/models.py:103-110 | a ratio is accepted exactly when it is one of `1:1`, `16:9`, `9:16`, `4:3`, `3:4`, and is returned unchanged |
| Models.NewGenerationRequest | src/imagen_skill/core/models.py:96-110 | a request is accepted exactly when the prompt has 1 to 2000 characters and any given ratio is valid; a missing ratio becomes `1:1`; the stored ratio is always valid |
| Models.NewGeneratedImage | src/imagen_skill/core/models.py:113-121 | accepted exactly when a given cost is not negative; a missing cost becomes 0 |
| Models.NewSkillResult | src/imagen_skill/core/models.py:135-146 | accepted exactly when the three counters, the cost and the time are not negative; the fields are kept |
| Paths.FsPath.Parts | src/imagen_skill/integrators/frameworks/qt_integrator.py:129 | `Path.parts`: the anchor, when there is one, followed by the segments |
| Paths.FsPath.Child | src/imagen_skill/integrators/asset_manager.py:65 | `dir / name` has that name and `dir` as its parent |
| Paths.LastDot | src/imagen_skill/integrators/asset_manager.py:111-112 | the index of the last `.` of a name, or none when the name has no dot |
| Paths.Suffix | src/imagen_skill/integrators/asset_manager.py:112 | `Path.suffix` is empty, or a dot followed by at least one character and no other dot |
| Paths.StemSuffix | src/imagen_skill/integrators/asset_manager.py:111-112 | `stem + suffix` gives back the name, and a name with a suffix has a non-empty stem |
| Paths.RelativeTo | src/imagen_skill/integrators/frameworks/base.py:38 | `relative_to` succeeds exactly when the root has the same anchor and is a prefix of the path's segments, and then `root / result` is the path |
| Strings.Lower | src/imagen_skill/analyzers/parsers/base.py:45 | `str.lower` lowers every character by itself and keeps the length |
| Strings.LowerHasNoUpper | src/imagen_skill/analyzers/parsers/base.py:45 | a lowered text has no capital letters |
| Strings.LowerIdempotent | src/imagen_skill/analyzers/code_analyzer.py:34 | lowering twice is lowering once |
| Strings.ReplaceChar | src/imagen_skill/integrators/frameworks/base.py:39 | `str.replace` of one character replaces every occurrence and nothing else |
| Strings.SpaceEnd | src/imagen_skill/analyzers/parsers/patterns.py:18 | a greedy `\s*` consumes exactly the run of white space and stops at the first other character or the end |
| Strings.WordEnd | src/imagen_skill/analyzers/parsers/patterns.py:8 | a greedy `\w+` run consumes exactly the word characters and stops at the first other character or the end |
| Strings.Strip | src/imagen_skill/analyzers/parsers/base.py:45 | `str.strip` leaves no white space at either end |
| Strings.StripRemovesSpaceOnly | src/imagen_skill/analyzers/parsers/base.py:45 | `str.strip` returns a slice of its input, and everything cut off on either side is white space |
| Strings.Fields | src/imagen_skill/generators/prompt_builder.py:85 | `str.split()` returns non-empty fields without white space |
| Strings.FieldsExact | src/imagen_skill/generators/prompt_builder.py:85 | `split()` gives exactly the maximal runs of non-space characters, in order: the text is an all-space gap, the first field, a non-empty all-space gap, the next field, …, and a final all-space gap; no other list of fields has that shape |
| Strings.SplitPartsFree | src/imagen_skill/integrators/frameworks/qt_integrator.py:33 | no part that `code.split("\n")` returns holds a newline |
| Strings.JoinSplit | src/imagen_skill/integrators/frameworks/qt_integrator.py:62 | `"\n".join(code.split("\n"))` is `code` |
| Strings.JoinAround | src/imagen_skill/integrators/frameworks/qt_integrator.py:56-62 | the joined lines are the lines before line `i`, line `i`, and the lines after it |
| Strings.NatToString | src/imagen_skill/integrators/asset_manager.py:117 | `str(n)` is a non-empty run of decimal digits (it reads back as `n`, `PromptBuilder.ParseIntRoundTrip`) |
| ParserBase.SuffixWordAt | src/imagen_skill/analyzers/parsers/base.py:37-42 | finds a suffix word that ends the name, ignoring case, trying the words in the alternation's order; finds none exactly when no word from there on ends it |
| ParserBase.DropSuffixCutsOneWord | src/imagen_skill/analyzers/parsers/base.py:37-42 | the suffix `re.sub` changes the name exactly when a suffix word ends it (before a final newline, as `$` allows), and then removes just that word |
| ParserBase.DropSuffixOfStem | src/imagen_skill/analyzers/parsers/base.py:37-42 | a stem followed by a suffix word, where no earlier alternative matches, loses the word and keeps the stem |
| ParserBase.UnCamelSpaceCamel | src/imagen_skill/analyzers/parsers/base.py:45 | `re.sub(r"([A-Z])", r" \1", s)` only inserts spaces: removing the space before each capital gives `s` back |
| ParserBase.SpaceBeforeCapitals | src/imagen_skill/analyzers/parsers/base.py:45 | after that substitution every capital has a space directly before it |
| ParserBase.ExtractSemantic | src/imagen_skill/analyzers/parsers/base.py:25-47 | the label is never empty, has no capital letters and has no white space at either end |
| ParserBase.LowerWordUnchanged | src/imagen_skill/analyzers/parsers/base.py:45 | a lower-case word passes through spacing, stripping and lowering unchanged |
| ParserBase.SettingsButtonExample | src/imagen_skill/analyzers/parsers/base.py:29-32 | `settingsButton` gives `settings` |
| ParserBase.ProfileIconExample | src/imagen_skill/analyzers/parsers/base.py:29-32 | `profileIcon` gives `profile` |
| Patterns.Match | src/imagen_skill/analyzers/parsers/patterns.py:6-21 | a match tried at `i` starts at `i`, ends inside the text, and its group lies inside it |
| Patterns.EmptyQIconExact | src/imagen_skill/analyzers/parsers/patterns.py:8 | `(\w+)\.setIcon\(QIcon\(\)\)` matches at `i` with group end `g` and end `j` exactly when the text there is a maximal word run followed by `.setIcon(QIcon())` |
| Patterns.EmptyQPixmapExact | src/imagen_skill/analyzers/parsers/patterns.py:10 | `QPixmap\s+(\w+)\s*;` matches with the given group and end exactly when the text has that shape |
| Patterns.PlaceholderPathExact | src/imagen_skill/analyzers/parsers/patterns.py:12 | the `placeholder_path` matcher ends at `j` exactly when `QPixmap`, `(`, a quote, one of the four words and a quote stand there, with `\s*` where the expression allows it |
| Patterns.EmptyQIconStringExact | src/imagen_skill/analyzers/parsers/patterns.py:18 | the `empty_qicon_string` matcher ends at `j` exactly when `QIcon ( "  " )` stands there, with white space allowed wherever the expression allows it |
| Patterns.WindowIconExact | src/imagen_skill/analyzers/parsers/patterns.py:20 | the `window_icon` matcher ends at `j` exactly when `setWindowIcon ( QIcon ( ) )` stands there, with white space allowed wherever the expression allows it |
| Patterns.IconCallExact | src/imagen_skill/integrators/frameworks/qt_integrator.py:79 | `QIcon\s*\(\s*\)` ends at `j` exactly when the text there has that shape |
| Patterns.FindIter | src/imagen_skill/analyzers/parsers/qt_parser.py:35 | every hit of `finditer` from `i` lies between `i` and the end of the text |
| Patterns.FindIterMatches | src/imagen_skill/analyzers/parsers/qt_parser.py:35 | every hit `finditer` reports is the pattern's match at that hit's start |
| Patterns.FindIterOrdered | src/imagen_skill/analyzers/parsers/qt_parser.py:35 | the hits come in order and do not overlap |
| Patterns.FindIterComplete | src/imagen_skill/analyzers/parsers/qt_parser.py:35 | every position where the pattern matches lies inside some reported hit |
| Patterns.FindIterNone | src/imagen_skill/analyzers/parsers/qt_parser.py:35 | where the pattern matches nowhere, `finditer` reports nothing |
| Patterns.PixmapPatternsDisjoint | src/imagen_skill/analyzers/parsers/patterns.py:10-12 | an empty declaration and a placeholder call never start at the same place |
| Patterns.KeywordPatternsDisjoint | src/imagen_skill/analyzers/parsers/patterns.py:10-20 | two different patterns that begin with a keyword never match at the same start |
| Patterns.OnePatternPerStart | src/imagen_skill/analyzers/parsers/patterns.py:6-21 | at most one of the five patterns matches at any position |
| Patterns.EmptyQIconExtends | src/imagen_skill/analyzers/parsers/patterns.py:8 | an `empty_qicon` match preceded by a word character is also a match one position earlier |
| Patterns.EmptyQIconWholeWord | src/imagen_skill/analyzers/parsers/qt_parser.py:35-36 | every `empty_qicon` hit of `finditer` starts at a word boundary, so group 1 is the whole identifier before `.setIcon(QIcon())` |
| Patterns.PlaceholderWithExtensionMissed | src/imagen_skill/analyzers/parsers/patterns.py:11-12 | the commented example `QPixmap("placeholder.png")` is not matched |
| Patterns.PixmapWithArgumentMissed | src/imagen_skill/analyzers/parsers/patterns.py:10 | `QPixmap name("x");` is not an empty declaration |
| Patterns.BlankIconStringFound | src/imagen_skill/analyzers/parsers/patterns.py:18 | `QIcon(" ")` is matched as an empty icon string |
| QtParser.FindIterValid | src/imagen_skill/analyzers/parsers/qt_parser.py:35-45 | every hit lies inside the code, with its group inside the hit |
| QtParser.LineNumberIndexesSplit | src/imagen_skill/analyzers/parsers/qt_parser.py:37 | `code[:pos].count("\n") + 1` is a line of `code.split("\n")`, namely the one that holds `pos` |
| QtParser.IdentAtExact | src/imagen_skill/analyzers/parsers/qt_parser.py:65 | the `(\w+)\s*[=.]` matcher succeeds at `p` with group end `g` exactly when a word run ends at `g` and, after white space, a stop character follows |
| QtParser.FirstIdentLeftmost | src/imagen_skill/analyzers/parsers/qt_parser.py:131 | `re.search` finds the leftmost position where the identifier pattern matches, and none when there is no such position |
| QtParser.SearchGroup | src/imagen_skill/analyzers/parsers/qt_parser.py:65-66 | a found group is a non-empty run of word characters |
| QtParser.PixmapPurposeCases | src/imagen_skill/analyzers/parsers/qt_parser.py:104-109 | background exactly when the lowered name contains `background` or `bg`; hero exactly when it contains neither and contains `hero`; logo otherwise |
| QtParser.PixmapPurposeIgnoresCase | src/imagen_skill/analyzers/parsers/qt_parser.py:106-108 | names equal up to case get the same purpose, always one of background, hero and logo |
| QtParser.SemanticIsLowerCase | src/imagen_skill/analyzers/parsers/qt_parser.py:38 | every rule's label is non-empty and has no capital letters |
| QtParser.AppendEach | src/imagen_skill/analyzers/parsers/qt_parser.py:40-51 | appending inside a loop gives the accumulator followed by one element per hit, in order |
| QtParser.AppendMatches | src/imagen_skill/analyzers/parsers/qt_parser.py:35-51 | one rule's loop appends the opportunities of its `finditer` hits, in order |
| QtParser.FindOpportunities | src/imagen_skill/analyzers/parsers/qt_parser.py:22-148 | the result is the five rules' opportunities in source order, each rule's in match order |
| QtParser.FoundDescribesMatch | src/imagen_skill/analyzers/parsers/qt_parser.py:35-145 | the k-th opportunity of a rule describes its k-th match: the snippet is the matched text, the line is the match's line, and purpose, confidence, size hint and type are the rule's |
| QtParser.FoundAt | src/imagen_skill/analyzers/parsers/qt_parser.py:35-145 | a rule yields one opportunity per `finditer` match, built from that match |
| QtParser.OpportunityDescribesHit | src/imagen_skill/analyzers/parsers/qt_parser.py:40-51 | the opportunity built for a match describes that match |
| QtParser.FoundComplete | src/imagen_skill/analyzers/parsers/qt_parser.py:35-145 | every position where a rule's pattern matches lies inside the snippet of one of that rule's opportunities |
| QtParser.DetectNothing | src/imagen_skill/analyzers/parsers/qt_parser.py:32-148 | code where no pattern matches yields no opportunities |
| QtParser.FoundInOrder | src/imagen_skill/analyzers/parsers/qt_parser.py:37 | a rule's opportunities come with line numbers that never decrease |
| QtParser.IconLabelFromVariable | src/imagen_skill/analyzers/parsers/qt_parser.py:35-51 | an `empty_qicon` opportunity has purpose icon, and its label is `_extract_semantic` of the whole identifier before `.setIcon(QIcon())` |
| CodeAnalyzer.DetectFrameworkCases | src/imagen_skill/analyzers/code_analyzer.py:24-58 | Qt exactly for a C++ extension plus a Qt marker; React for `.jsx`/`.tsx` plus a React marker; Unity for `.cs` plus a Unity marker; HTML for `.html`/`.htm` |
| CodeAnalyzer.SuffixLower | src/imagen_skill/analyzers/code_analyzer.py:34 | the suffix of the lowered name is the lowered suffix |
| CodeAnalyzer.DetectIgnoresCase | src/imagen_skill/analyzers/code_analyzer.py:34 | the case of a file name does not change the detected framework |
| CodeAnalyzer.InsertPermutes | src/imagen_skill/analyzers/code_analyzer.py:105 | inserting adds exactly the one opportunity |
| CodeAnalyzer.InsertSorted | src/imagen_skill/analyzers/code_analyzer.py:105 | inserting into a list sorted by falling confidence keeps it sorted |
| CodeAnalyzer.InsertStable | src/imagen_skill/analyzers/code_analyzer.py:105 | inserting puts the new opportunity after the ones of equal confidence |
| CodeAnalyzer.SortByConfidenceCorrect | src/imagen_skill/analyzers/code_analyzer.py:105 | `sort(key=confidence, reverse=True)` gives falling confidence, is a permutation, and keeps the order of equal confidences (the sort is stable) |
| CodeAnalyzer.CollectedSnoc | src/imagen_skill/analyzers/code_analyzer.py:96-97 | `extend` adds a file's opportunities after those of the files before it |
| CodeAnalyzer.Analyze | src/imagen_skill/analyzers/code_analyzer.py:60-111 | the result is the stable sort, by falling confidence, of the Qt parser's opportunities file by file |
| CodeAnalyzer.CollectedFromQtFiles | src/imagen_skill/analyzers/code_analyzer.py:83-97 | every opportunity collected comes from a file detected as Qt, and from the parser's result for it |
| CodeAnalyzer.NoQtNoFindings | src/imagen_skill/analyzers/code_analyzer.py:85-93 | without Qt files nothing is collected, because only Qt has a parser |
| IntegratorBase.Slashed | src/imagen_skill/integrators/frameworks/base.py:39 | a relative path rendered with `replace("\\", "/")` holds no backslash |
| IntegratorBase.ResourcePathUnderRoot | src/imagen_skill/integrators/frameworks/base.py:36-39 | under a root that holds the image, the result is the path below the root, `.` for the root itself, with forward slashes only |
| IntegratorBase.ResourcePathFallback | src/imagen_skill/integrators/frameworks/base.py:40-43 | without a root, or under one that does not hold the image, the result is the file name |
| QtIntegrator.IndexOf | src/imagen_skill/integrators/frameworks/qt_integrator.py:133 | `parts.index(x)` is the first position of `x`, and fails exactly when `x` is absent |
| QtIntegrator.IndexOfFirst | src/imagen_skill/integrators/frameworks/qt_integrator.py:133 | the first `x` after a prefix without `x` is found at the prefix's length |
| QtIntegrator.QtResourcePathShape | src/imagen_skill/integrators/frameworks/qt_integrator.py:119-139 | a Qt resource path starts with `:/resources`; without a `resources` part it is `:/resources/<name>`; otherwise it joins the parts from the first `resources` on |
| QtIntegrator.QtResourcePathUnderResources | src/imagen_skill/integrators/frameworks/qt_integrator.py:132-134 | an image below the first `resources` directory gets `:/resources/...` followed by the rest of its path |
| QtIntegrator.RewriteAt | src/imagen_skill/integrators/frameworks/qt_integrator.py:78-115 | a rewrite tried at `i` replaces a non-empty stretch of the line that starts at `i` |
| QtIntegrator.IconQuotesExact | src/imagen_skill/integrators/frameworks/qt_integrator.py:86 | `QIcon\s*\(\s*["']["']\s*\)` ends at `j` exactly when the text there has that shape: two quotes with nothing between them |
| QtIntegrator.PixmapPlaceholderExact | src/imagen_skill/integrators/frameworks/qt_integrator.py:112 | the placeholder pattern `QPixmap\s*\(["']…["']\)` ends at `j` exactly when the text there is `QPixmap`, white space, `(`, one of the four placeholder words in quotes and `)`, with no space inside the brackets |
| QtIntegrator.SubNoMatch | src/imagen_skill/integrators/frameworks/qt_integrator.py:78-82 | `re.sub` with no match returns the text unchanged |
| QtIntegrator.QIconUnchanged | src/imagen_skill/integrators/frameworks/qt_integrator.py:67-91 | a line without `QIcon()` or `QIcon("")` comes back from the QIcon rewrite unchanged |
| QtIntegrator.QPixmapUnchanged | src/imagen_skill/integrators/frameworks/qt_integrator.py:93-117 | a line without an empty declaration or placeholder call comes back from the QPixmap rewrite unchanged |
| QtIntegrator.Integrate | src/imagen_skill/integrators/frameworks/qt_integrator.py:18-65 | the method returns exactly the rewritten code, or the error, that `Integrated` describes |
| QtIntegrator.IntegrateFails | src/imagen_skill/integrators/frameworks/qt_integrator.py:35-54 | integration fails exactly when the line number lies past the end of the file or the type is neither QT_ICON nor QT_PIXMAP; the first case reports the line |
| QtIntegrator.IntegrateChangesOneLine | src/imagen_skill/integrators/frameworks/qt_integrator.py:33-62 | a successful integration replaces only the target line, by its rewrite with the image's resource path, and keeps the lines before and after it |
| QtIntegrator.IntegrateNoSite | src/imagen_skill/integrators/frameworks/qt_integrator.py:56-62 | when the rewrite leaves the target line alone, the whole code comes back unchanged |
| QtIntegrator.ResourceEntry | src/imagen_skill/integrators/frameworks/qt_integrator.py:166 | a manifest entry holds no backslash |
| QtIntegrator.AddEntryProperties | src/imagen_skill/integrators/frameworks/qt_integrator.py:165-174 | afterwards the entry is listed and earlier entries keep their order; the list grows by one exactly when the entry is new; adding again changes nothing; no duplicate is ever introduced |
| QtIntegrator.QrcFile.constructor | src/imagen_skill/integrators/frameworks/qt_integrator.py:153-158 | a manifest starts as read, or as an empty `RCC` document |
| QtIntegrator.QrcFile.AddResource | src/imagen_skill/integrators/frameworks/qt_integrator.py:141-182 | an entry already listed leaves the manifest as it was; otherwise the entry is appended, under a `qresource` with prefix `/` created when missing, and the document is marked present |
| AssetManager.SaveDirLookup | src/imagen_skill/integrators/asset_manager.py:53-54 | the directory is the convention's entry for framework and purpose, or `resources/images` when there is none; it has 2 to 4 non-empty parts |
| AssetManager.QtDirsUnderResources | src/imagen_skill/integrators/asset_manager.py:16-23 | every Qt directory starts with `resources` and names it only once |
| AssetManager.MissingEntriesFallBack | src/imagen_skill/integrators/asset_manager.py:24-40 | the purposes the React, Unity and HTML tables leave out go to `resources/images` |
| AssetManager.SanitizeLabel | src/imagen_skill/integrators/asset_manager.py:82-83 | the sanitised label holds only lower-case letters, digits and `-` |
| AssetManager.SanitizeAppend | src/imagen_skill/integrators/asset_manager.py:82-83 | sanitising works character by character, so it distributes over concatenation |
| AssetManager.SanitizeSpace | src/imagen_skill/integrators/asset_manager.py:82 | a space between two words becomes `-` |
| AssetManager.SanitizeFixedPoints | src/imagen_skill/integrators/asset_manager.py:82-83 | a label is left unchanged exactly when it holds only lower-case letters, digits and `-` |
| AssetManager.SanitizeIdempotent | src/imagen_skill/integrators/asset_manager.py:82-83 | sanitising twice is sanitising once |
| AssetManager.PurposeSuffixesDistinct | src/imagen_skill/integrators/asset_manager.py:86-93 | each purpose's suffix is `-` and at least two lower-case letters, and different purposes get different suffixes |
| AssetManager.AssetFilenameParts | src/imagen_skill/integrators/asset_manager.py:72-96 | the file name is the sanitised label plus the purpose's suffix, with suffix `.png` and no `/` |
| AssetManager.Numbered | src/imagen_skill/integrators/asset_manager.py:117 | the n-th candidate sits in the same directory, named `<stem>-<n><suffix>` |
| AssetManager.HandleConflict | src/imagen_skill/integrators/asset_manager.py:98-124 | the desired path when it is free; otherwise the first free numbered path from 1 to 100, in the same directory; an error exactly when the path and all 100 numbered paths exist |
| AssetManager.DesiredPath | src/imagen_skill/integrators/asset_manager.py:53-65 | the desired path lies in the convention's directory under the root and carries the generated file name |
| AssetManager.DetermineSavePath | src/imagen_skill/integrators/asset_manager.py:42-70 | the path returned is free and lies in the convention's directory; it is the desired path exactly when that is free, and a numbered one otherwise; the error case is exactly the one above |
| AssetManager.NumberedAssetName | src/imagen_skill/integrators/asset_manager.py:72-96 | the n-th numbered name is `<label><suffix>-<n>.png` |
| ImageGenerator.SuffixByValue | src/imagen_skill/generators/image_generator.py:117-125 | the map keyed by value strings gives the asset manager's suffix for every purpose value, and `""` for any other string |
| ImageGenerator.FilenamesAgree | src/imagen_skill/generators/image_generator.py:103-127 | the generator's `_generate_filename` gives the same name as the asset manager's, ending in the purpose's suffix and `.png` |
| PromptBuilder.TopKeywords | src/imagen_skill/generators/prompt_builder.py:44 | `keywords[:3]` is a prefix of the keywords of length at most three |
| PromptBuilder.BuildPrompt | src/imagen_skill/generators/prompt_builder.py:23-71 | the parts appended in turn and joined by `", "` give exactly the prompt `Prompt` writes out |
| PromptBuilder.PromptStartsWithTemplate | src/imagen_skill/generators/prompt_builder.py:37-51 | the prompt opens with the label, the purpose's template words, then style and primary colour |
| PromptBuilder.PromptHasQuality | src/imagen_skill/generators/prompt_builder.py:57 | the quality directive is always in the prompt |
| PromptBuilder.PromptWhiteBackground | src/imagen_skill/generators/prompt_builder.py:60-61 | the white-background directive follows the quality directive exactly when the purpose is icon or logo |
| PromptBuilder.PromptEndsWithSize | src/imagen_skill/generators/prompt_builder.py:64-65 | the prompt ends in ` resolution` exactly when there is a non-empty size hint, and then ends with `, <hint> resolution` |
| PromptBuilder.AspectRatio | src/imagen_skill/generators/prompt_builder.py:73-109 | the chosen ratio is always one the request model accepts |
| PromptBuilder.RatioChoiceByCrossMultiplication | src/imagen_skill/generators/prompt_builder.py:88-95 | the thresholds on `w / h` (0.9 to 1.1, above 1.5, below 0.7) are the same decisions made on integers, with a zero height treated as no verdict |
| PromptBuilder.AspectRatioSource | src/imagen_skill/generators/prompt_builder.py:83-109 | a parsed hint with a clear verdict decides the ratio; every other case takes the purpose's default |
| PromptBuilder.AspectRatioAccepted | src/imagen_skill/generators/prompt_builder.py:73-109 | a prompt of acceptable length and the chosen ratio always make a valid generation request that keeps that ratio |
| PromptBuilder.ParseIntRoundTrip | src/imagen_skill/generators/prompt_builder.py:87 | `int(str(n)) == n` |
| PromptBuilder.SizeHintRoundTrip | src/imagen_skill/generators/prompt_builder.py:85-87 | a hint `<w>x<h>` parses back to `(w, h)` |
| PromptBuilder.SquareHintIsSquare | src/imagen_skill/generators/prompt_builder.py:83-91 | a square hint gives `1:1`, whatever the purpose |
| DetectRewrite.SubColons | src/imagen_skill/integrators/frameworks/qt_integrator.py:78-82 | these substitutions never lose a `:`, and a replacement path that holds one adds a `:` wherever a match exists |
| DetectRewrite.ResourcePathHasColon | src/imagen_skill/integrators/frameworks/qt_integrator.py:139 | every Qt resource path holds `:` |
| DetectRewrite.IconSiteRewritten | src/imagen_skill/integrators/frameworks/qt_integrator.py:67-91 | a line with a site of either QIcon substitution is changed by a path that holds `:` |
| DetectRewrite.PixmapSiteRewritten | src/imagen_skill/integrators/frameworks/qt_integrator.py:93-117 | a line with a site of either QPixmap substitution is changed by a path that holds `:` |
| DetectRewrite.EmptyQIconHoldsCall | src/imagen_skill/analyzers/parsers/patterns.py:8 | the `QIcon()` inside a reported `w.setIcon(QIcon())` is exactly a site of `QIcon\s*\(\s*\)` |
| DetectRewrite.WindowIconHoldsCall | src/imagen_skill/analyzers/parsers/patterns.py:20 | a reported `setWindowIcon(QIcon())` holds such a site |
| DetectRewrite.AdjacentQuotesAreSite | src/imagen_skill/analyzers/parsers/patterns.py:18 | an empty icon string whose quotes touch is a site of the second QIcon substitution, ending where the match ends |
| DetectRewrite.TightPlaceholderIsSite | src/imagen_skill/analyzers/parsers/patterns.py:12 | a placeholder match with no space inside the brackets, closed by `)`, is a site of the second QPixmap substitution |
| DetectRewrite.DetectedIconRewritten | src/imagen_skill/analyzers/parsers/qt_parser.py:35-96 | a line that holds a whole `empty_qicon` or `window_icon` match is changed by the QIcon rewrite, for any image |
| DetectRewrite.DetectedPixmapRewritten | src/imagen_skill/analyzers/parsers/qt_parser.py:99-122 | a line that holds a whole `empty_qpixmap` match is changed by the QPixmap rewrite, for any image |
| DetectRewrite.DetectedLiteralRewritten | src/imagen_skill/analyzers/parsers/qt_parser.py:54-79 | a line that holds a whole `QIcon("")` match with touching quotes is changed by the QIcon rewrite, for any image |
| DetectRewrite.DetectedPlaceholderRewritten | src/imagen_skill/analyzers/parsers/qt_parser.py:125-145 | a line that holds a whole tight `QPixmap("temp")` match, closed by `)`, is changed by the QPixmap rewrite, for any image |
| DetectRewrite.SpacedQuotesNotRewritten | src/imagen_skill/integrators/frameworks/qt_integrator.py:85-89 | `QIcon(" ")` is reported by the parser but left unchanged by the QIcon rewrite |
| DetectRewrite.FirstDeclarationText | src/imagen_skill/integrators/frameworks/qt_integrator.py:104-108 | the first `QPixmap name;` of a line becomes `QPixmap name("<path>");`, and the text before it is kept |
| DetectRewrite.FirstSiteText | src/imagen_skill/integrators/frameworks/qt_integrator.py:78-82 | `re.sub` copies the text before its first match, writes that match's replacement and goes on after the match |
| DetectRewrite.FirstIconCallText | src/imagen_skill/integrators/frameworks/qt_integrator.py:78-82 | the first `QIcon()` of a line becomes `QIcon("<path>")`; the text before it is kept |
| DetectRewrite.FirstIconQuotesText | src/imagen_skill/integrators/frameworks/qt_integrator.py:85-89 | the first `QIcon("")` or `QIcon('')` of a line becomes `QIcon("<path>")`; the text before it is kept |
| DetectRewrite.FirstPlaceholderText | src/imagen_skill/integrators/frameworks/qt_integrator.py:111-115 | the first `QPixmap("placeholder")`, `temp`, `todo` or `empty` call of a line becomes `QPixmap("<path>")`; the text before it is kept |
| DetectRewrite.FirstLineNotRewritten | src/imagen_skill/analyzers/parsers/qt_parser.py:82-83 | when a rule matches at the start of the code but the first line alone holds no rewrite site, the first opportunity is at line 1 and integrating it returns the code unchanged |
| DetectRewrite.WindowIconAcrossLines | src/imagen_skill/analyzers/parsers/qt_parser.py:82-83 | a `setWindowIcon(` call whose `QIcon()` is on the next line is reported at line 1, and integrating any image returns the code unchanged |
| DetectRewrite.DeclarationAcrossLines | src/imagen_skill/analyzers/parsers/qt_parser.py:99-101 | `QPixmap` with its variable name on the next line is reported at line 1, and integrating any image returns the code unchanged |
| DetectRewrite.FirstDeclarationFilled | src/imagen_skill/integrators/frameworks/qt_integrator.py:104-108 | after the rewrite, no empty declaration starts where the first one stood |
| Pipeline.QtAssetResourcePath | src/imagen_skill/integrators/frameworks/qt_integrator.py:129-139 | an image saved in its Qt directory, under a root without a `resources` part, gets `:/` followed by that directory and its name |
| Pipeline.SavedQtAssetResourcePath | src/imagen_skill/integrators/asset_manager.py:42-70 | the path the asset manager saves a Qt image to has the resource path that names its directory and file |
| Pipeline.RuleHintsAreSquare | src/imagen_skill/analyzers/parsers/qt_parser.py:48 | the size hints the Qt rules attach (`32x32`, `64x64`) always give `1:1`, even for the window icon, whose purpose (logo) would default to `4:3` |

## Left out

- Reading source files, creating directories, and checking whether a file exists are not modelled. The existing files are a parameter. `read_text` failing and the `ParsingError` it becomes are not modelled.
- Parsing and writing the `.qrc` XML are not modelled. The `QrcFile` fields stand for the document (whether it exists, the first `qresource` prefix, its `file` entries); XML escaping, other elements, and a write or parse failure are not modelled.
- Logging, the `async` form of `analyze`, and the `try`/`except` re-wrapping of errors are not modelled. The model's error values stand for the exceptions.
- The theme analyzer, the remote image service, background removal, configuration and the command line are not modelled. They do I/O or call code that is not part of this model.
- The React, Unity and HTML pattern tables and `sized_qlabel` are not modelled, because no parser uses them. Only Qt has a parser, so analysis reports no other framework.
- `re.sub` processes backslash escapes in its replacement string. The model inserts the resource path as it is, so a path that holds a backslash is outside the model.
- `str.lower`, `str.isalnum`, `str.isspace` and `\w` are modelled on ASCII only; other Unicode letters, digits and spaces are not.
- `int()` accepts `_` between digits and non-ASCII digits; `ParseInt` rejects both.
- Confidences and ratios are exact reals, not binary floating point. Near the thresholds 0.9, 1.1, 1.5 and 0.7, a float quotient could round differently from the exact one.
- The `"{description}"` template and the `"1:1"` and `""` fallbacks for an unknown purpose are not modelled: `ImagePurpose` is closed, so they cannot be reached. `ImageGenerator.SuffixByValue` keeps its fallback, because that map is keyed by strings.
- `created_at` is a parameter, not the clock.
- DetectRewrite.FirstDeclarationFilled: only the first empty declaration of a line is shown to be filled in, not every one.
- DetectRewrite.DetectedPlaceholderRewritten: covers only placeholder calls without white space inside the brackets and with `)` right after the closing quote. Other placeholder matches do not fit the rewrite's pattern. It also needs the whole match on one line; `QPixmap\n("temp")` is reported at its first line and left unchanged.
- DetectRewrite.DetectedLiteralRewritten: covers only `QIcon("")` with touching quotes (see `SpacedQuotesNotRewritten`). It also needs the whole match on one line; `QIcon\n("")` is reported at its first line and left unchanged.
- DetectRewrite.DetectedIconRewritten: needs the line to hold the whole match. A match that runs across a line break is left unchanged (`WindowIconAcrossLines`).
- DetectRewrite.DetectedPixmapRewritten: needs the line to hold the whole match. A match that runs across a line break is left unchanged (`DeclarationAcrossLines`).
- PromptBuilder.AspectRatio: `width / height` raises an `OverflowError`, which the `except` does not catch, when the quotient is too large for a float (for example `10**400 x 1`). The model computes the exact ratio and answers `16:9`.
- PromptBuilder.ParseInt: `int()` refuses a string of more than 4300 digits with a `ValueError`, so the source falls back to the purpose's default. The model parses such strings.
