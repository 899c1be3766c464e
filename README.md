# spec-inspect inspection engine, modelled in Dafny

`spec-inspect` reads the three Markdown specification documents of a project
(`requirement.md`, `design.md`, `tasks.md`), parses each into sections and a
set of requirement identifiers (`[REQ-001]`, `[NFR-012]`, `[T-007]`, ...),
runs two cross-checking rules over them, collects the issues the rules report,
and renders a Markdown report, a console summary and a JSON exchange record.
This project models that engine and proves what it promises.

The modules follow the program's files:

| module | file | form |
|---|---|---|
| `Wrappers`, `Text`, `PyDict`, `Enumeration` | (shared) | `Option`/`Result`; the Python string builtins used (`split`, `join`, `strip`, `lower`, `in`, `str(n)`, `:03d`); the insertion-ordered `dict`; a listing of a set in an unspecified iteration order |
| `Issues` | `models/issue.py` | datatypes and the checked constructor |
| `Documents` | `models/parsed_document.py` | `Section` is a class (the parser appends to its `subsections` in place); documents and specs are datatypes |
| `ParserIds`, `Parser` | `core/parser.py` | imperative: the identifier scanner and the token loop with its section stack are methods with loop invariants, proved against specification functions |
| `RequirementIdRule` | `rules/requirement_id_validator.py` | imperative: three loops over sets, numbered issues |
| `MandatorySections`, `StructureRule` | `rules/structure_validator.py` | imperative: one loop per document, a running counter |
| `Engine` | `core/check_engine.py` | `CheckEngine` is a class with a `rules` field |
| `Results` | `models/inspection_result.py` | pure: the record, its derived counts, and JSON as a value tree |
| `Reports` | `core/report_generator.py` | imperative: the bucketing loop, and the report built line by line |

Some choices in the model:

- **Tokens.** The Markdown tokenizer is a foreign library. The parser therefore
  takes its token stream as input. Each token is a heading open (with level
  1 to 6), an inline, a heading close, a paragraph, a bullet list, a code
  block, a fence, or another token, each with an optional line range.
- **Set iteration order.** Python's order is unspecified. Each loop over a set
  returns a ghost visit order `order` with `Enumerates(order, S)`: the order
  lists every member of `S` exactly once. Every result is then stated as a
  function of that order. Every property proved about it holds for any order.
- **Dict order.** `dict` keeps its keys in first-insertion order, and
  re-assigning a key keeps its place. `ParsedDocument.get_section` depends on
  this order.
- **Rules.** A rule is one of the two built-in validators, or a custom rule
  given by its behaviour. Its behaviour is a function from the specs to an
  outcome: an exception with its message, or a list of issues.
- **Reports.** A report is a sequence of `Line` values, rendered and joined
  with line breaks. A Python list element that itself holds a line break
  (`"### [id] title\n"`, a console issue block) becomes the lines it holds.
- **Timestamps.** A time is carried as its ISO-8601 text. The report takes the
  formatted clock reading as a parameter.

## Model

| member | source | states |
|---|---|---|
| Text.Decimal | skills/spec-inspect/src/spec_inspect/models/issue.py:22 | `str(n)` is a non-empty digit string with no leading zero (except `0`) |
| Text.DecimalRoundTrip | skills/spec-inspect/src/spec_inspect/models/issue.py:22 | reading back the decimal text of `n` gives `n` |
| Text.ZeroPad3Meaning | skills/spec-inspect/src/spec_inspect/rules/requirement_id_validator.py:43 | `f"{n:03d}"` is exactly three digits, or as many as `str(n)` when that is longer, and reads back as `n` |
| Text.ZeroPad3Injective | skills/spec-inspect/src/spec_inspect/rules/requirement_id_validator.py:43 | different numbers get different padded labels |
| Text.LabelInjective | skills/spec-inspect/src/spec_inspect/rules/structure_validator.py:102 | a label prefix plus a padded number determines the number |
| Text.Split | skills/spec-inspect/src/spec_inspect/core/parser.py:91 | `split('\n')` always yields at least one piece |
| Text.JoinSplit | skills/spec-inspect/src/spec_inspect/core/parser.py:91 | joining the pieces of a split with the separator restores the text |
| Text.SplitPiecesFree | skills/spec-inspect/src/spec_inspect/rules/requirement_id_validator.py:95 | no piece of a split contains the separator |
| Text.SplitKeepsInfix | skills/spec-inspect/src/spec_inspect/rules/requirement_id_validator.py:95-97 | a substring without a line break lies inside a single line |
| Text.Join | skills/spec-inspect/src/spec_inspect/core/report_generator.py:94 | `sep.join(xs)`: the pieces with the separator between them; `Text.JoinSplit` proves it undoes `split`, and the report lemmas render a report through it |
| Text.Strip | skills/spec-inspect/src/spec_inspect/core/parser.py:100 | `strip()` is a slice of the text with only whitespace cut off either end, and its result neither starts nor ends with whitespace; whitespace is the set `str.isspace()` accepts (tab to carriage return, U+001C to U+001F, space, U+0085, U+00A0 and the Unicode space and line/paragraph separators) |
| Text.Repeat | skills/spec-inspect/src/spec_inspect/models/parsed_document.py:24 | `c * n` is `n` copies of `c`, and empty for `n <= 0` |
| Text.Lower | skills/spec-inspect/src/spec_inspect/models/parsed_document.py:38 | lowering keeps the length |
| Text.LowerIdentity | skills/spec-inspect/src/spec_inspect/rules/structure_validator.py:96 | text without ASCII capitals is unchanged by lowering |
| Text.LowerIdempotent | skills/spec-inspect/src/spec_inspect/models/parsed_document.py:38 | lowering twice is lowering once |
| Text.ContainsSelf | skills/spec-inspect/src/spec_inspect/rules/structure_validator.py:97 | every title contains itself, so an exact title always covers |
| PyDict.Put | skills/spec-inspect/src/spec_inspect/core/parser.py:107 | assigning a key keeps the dict well formed (each key once, keys and map agree) |
| PyDict.FromPairsKeys | skills/spec-inspect/src/spec_inspect/core/parser.py:107 | after assigning pairs in turn, a key is present iff it was assigned |
| PyDict.FromPairsLastWins | skills/spec-inspect/src/spec_inspect/core/parser.py:107 | a key holds the value of its last assignment: a later section replaces an earlier one with the same title |
| PyDict.FromPairsOrder | skills/spec-inspect/src/spec_inspect/models/parsed_document.py:37 | the dict's key order is the order of first assignment |
| PyDict.KeySet | skills/spec-inspect/src/spec_inspect/rules/structure_validator.py:91 | `set(d.keys())` is the map's key set |
| Enumeration.EnumeratesAppend | skills/spec-inspect/src/spec_inspect/rules/requirement_id_validator.py:39 | visiting one more new member extends a set's listing by that member |
| Enumeration.EnumeratesLength | skills/spec-inspect/src/spec_inspect/rules/requirement_id_validator.py:39 | a listing of a set is as long as the set |
| Issues.Severity.Value | skills/spec-inspect/src/spec_inspect/models/issue.py:8-12 | the three severities have the values "Critical", "Warning", "Info", each value naming exactly one severity |
| Issues.LastColon | skills/spec-inspect/src/spec_inspect/models/issue.py:21-22 | finds the last colon of a displayed location, or reports that there is none |
| Issues.LocationString | skills/spec-inspect/src/spec_inspect/models/issue.py:21-22 | `str(Location)`: the file, a colon and the one-based line; `Issues.LocationRoundTrip` proves the text reads back to the same location |
| Issues.LocationRoundTrip | skills/spec-inspect/src/spec_inspect/models/issue.py:21-22 | `str(Location)` shows the file, a colon and the zero-based line as one-based, and can be read back to the same location |
| Issues.NewIssue | skills/spec-inspect/src/spec_inspect/models/issue.py:25-43 | construction succeeds iff id and title are non-empty; an empty id is reported before an empty title; every field is kept; a missing related-id list becomes `[]` and a given one is kept |
| Documents.Section.constructor | skills/spec-inspect/src/spec_inspect/models/parsed_document.py:15-21 | a section keeps its fields, and defaults to level 1 with no subsections |
| Documents.Section.Display | skills/spec-inspect/src/spec_inspect/models/parsed_document.py:23-24 | `str(section)` is `level` hash signs (none for a level below 1), a space, then the title |
| Documents.GetSection | skills/spec-inspect/src/spec_inspect/models/parsed_document.py:35-40 | the value of the first key, in dict order, equal to the title ignoring case; `None` iff no key is |
| Documents.HasRequirementId | skills/spec-inspect/src/spec_inspect/models/parsed_document.py:42-44 | membership of the identifier in the document's set; `Parser.Parse` proves it holds iff the text contains that identifier |
| Documents.NewParsedSpecs | skills/spec-inspect/src/spec_inspect/models/parsed_document.py:47-62 | construction succeeds iff each slot holds its own kind of document; otherwise the first wrong slot, in the order requirement, design, tasks, names the error |
| ParserIds.KindStarting | skills/spec-inspect/src/spec_inspect/core/parser.py:21 | at most one kind of the alternative starts with a given letter |
| ParserIds.DigitRun | skills/spec-inspect/src/spec_inspect/core/parser.py:21 | the greedy `\d` run: all digits, and followed by a non-digit or the end |
| ParserIds.StartsWithOccurs | skills/spec-inspect/src/spec_inspect/core/parser.py:21 | the letter-by-letter test is the substring test |
| ParserIds.ExtractRequirementIds | skills/spec-inspect/src/spec_inspect/core/parser.py:149-163 | the scanner collects exactly the identifiers occurring in the text (`[`, a kind, `-`, three or more digits, `]`); repeated occurrences collapse |
| ParserIds.ScanFrom | skills/spec-inspect/src/spec_inspect/core/parser.py:161-162 | one scanning step advances and keeps "the matches found so far" exact |
| ParserIds.MatchIsIdentifier | skills/spec-inspect/src/spec_inspect/core/parser.py:21 | every match spells an identifier |
| ParserIds.IdentifierMatches | skills/spec-inspect/src/spec_inspect/core/parser.py:21 | wherever an identifier occurs, a match of exactly its length starts |
| ParserIds.NoMatchInside | skills/spec-inspect/src/spec_inspect/core/parser.py:161 | no match starts inside another, so resuming after a match loses nothing |
| ParserIds.IdsInMeaning | skills/spec-inspect/src/spec_inspect/core/parser.py:158-163 | the identifier set is exactly the identifiers that occur in the text |
| ParserIds.ExtractSingle | skills/spec-inspect/src/spec_inspect/core/parser.py:161-162 | extracting from one identifier's text yields exactly that identifier |
| ParserIds.TooFewDigitsIgnored | skills/spec-inspect/src/spec_inspect/core/parser.py:21 | `[REQ-12]` contributes nothing |
| ParserIds.LowerCaseKindIgnored | skills/spec-inspect/src/spec_inspect/core/parser.py:21 | `[req-001]` contributes nothing |
| ParserIds.TrailingLetterIgnored | skills/spec-inspect/src/spec_inspect/core/parser.py:21 | `[REQ-001a]` contributes nothing |
| ParserIds.NoBracketNoMatch | skills/spec-inspect/src/spec_inspect/core/parser.py:21 | with no `[` past the start and no match at the start, the set is empty |
| Parser.PySlice | skills/spec-inspect/src/spec_inspect/core/parser.py:134 | `lines[start:end]` with Python's clamping is never longer than the lines |
| Parser.PopWhile | skills/spec-inspect/src/spec_inspect/core/parser.py:110-111 | popping leaves a prefix of the stack whose top, if any, is shallower than the new level |
| Parser.PopWhileDeep | skills/spec-inspect/src/spec_inspect/core/parser.py:110-111 | every popped entry is at the new level or deeper |
| Parser.Grow | skills/spec-inspect/src/spec_inspect/core/parser.py:110-114 | saving a section pushes it on the popped stack, with no children of its own |
| Parser.GrowKids | skills/spec-inspect/src/spec_inspect/core/parser.py:112-113 | the new section becomes the last child of the top of the popped stack, and every other child list is unchanged |
| Parser.StackShape | skills/spec-inspect/src/spec_inspect/core/parser.py:110-114 | the stack holds exactly the sections still open, in increasing position and level |
| Parser.TopIsParent | skills/spec-inspect/src/spec_inspect/core/parser.py:110-113 | the top of the popped stack is the nearest earlier, shallower section |
| Parser.ParentUnique | skills/spec-inspect/src/spec_inspect/core/parser.py:112-113 | a section has at most one parent |
| Parser.EmptyStackNoParent | skills/spec-inspect/src/spec_inspect/core/parser.py:112 | with nothing left on the stack the new section gets no parent |
| Parser.KidsAreLevelChildren | skills/spec-inspect/src/spec_inspect/core/parser.py:110-114 | `c` is a subsection of `j` exactly when `j` is the nearest earlier saved section with a smaller level, so a parent is always strictly shallower |
| Parser.PopDeeper | skills/spec-inspect/src/spec_inspect/core/parser.py:110-111 | the pop loop leaves the stack the popping function gives |
| Parser.PushSection | skills/spec-inspect/src/spec_inspect/core/parser.py:110-114 | the hierarchy step appends to the right parent's subsections and pushes the section, as the stack simulation says |
| Parser.Advance | skills/spec-inspect/src/spec_inspect/core/parser.py:96-134 | one loop iteration changes the loop's variables as the step function says, and keeps the dict, the stack and the sections in line with the saved records |
| Parser.ExtractSections | skills/spec-inspect/src/spec_inspect/core/parser.py:73-147 | the sections stored, in order, carry the records the token scan saves; the dict assigns each under its title in turn; each saved section's subsections are the children the stack gives; the last section has none and is nobody's child |
| Parser.Parse | skills/spec-inspect/src/spec_inspect/core/parser.py:27-51 | the document's sections are those above, its identifiers exactly the identifiers in the text (so `has_requirement_id(x)` holds iff `x` is one), its text and kind as given |
| Parser.ParseSpecs | skills/spec-inspect/src/spec_inspect/core/parser.py:53-71 | each text is parsed as `parse` does, into its own slot: its sections are those the token loop builds from its own tokens and lines, its identifiers are those in its text, and the specs' kind check passes |
| Parser.NoHeadingNoSections | skills/spec-inspect/src/spec_inspect/core/parser.py:87-147 | without a heading the level stays 0, inline tokens are ignored, no heading is set, and no section is stored |
| Parser.LevelPositive | skills/spec-inspect/src/spec_inspect/core/parser.py:119 | once a heading has opened, the level is at least 1 from then on |
| Parser.LevelIsLastHeading | skills/spec-inspect/src/spec_inspect/core/parser.py:101-119 | the level a section is saved with is that of the last heading opened |
| Parser.HeadingIsLastInline | skills/spec-inspect/src/spec_inspect/core/parser.py:119-123 | after the first heading every inline token, paragraph text included, replaces the current heading |
| Parser.KeyIsLastInline | skills/spec-inspect/src/spec_inspect/core/parser.py:107-145 | the key a section is stored under, at the next heading or after the loop, is the content of the last inline token |
| Parser.StepKeepsInv | skills/spec-inspect/src/spec_inspect/core/parser.py:96-134 | each loop step keeps the scan invariant: a heading is set only under an open heading, and saved records have titles and levels 1 to 6 |
| Parser.SavedWellFormed | skills/spec-inspect/src/spec_inspect/core/parser.py:99-145 | every stored section has a non-empty title and a level from 1 to 6 |
| Parser.UnbodiedHeadingDropped | skills/spec-inspect/src/spec_inspect/core/parser.py:99-137 | example: the stream of `# A` alone stores nothing; the general statement is `Parser.NoContentNoSections` |
| Parser.BodyCarriesOver | skills/spec-inspect/src/spec_inspect/core/parser.py:99-137 | example: the content is reset only at a save, so a line gathered under `A`, whose heading an empty inline then replaces, is stored under the following bare heading `B` |
| Parser.BodyGathers | skills/spec-inspect/src/spec_inspect/core/parser.py:96-134 | between saves `content_lines` grows by exactly the lines the tokens gather (each mapped paragraph, list, code block or fence reached under a non-empty heading contributes `lines[start:end]`, in token order; tokens without a map add nothing), and nothing is stored |
| Parser.SaveResets | skills/spec-inspect/src/spec_inspect/core/parser.py:99-116 | a save at a heading stores the pending section and empties `content_lines` |
| Parser.SavedContent | skills/spec-inspect/src/spec_inspect/core/parser.py:96-116 | a section saved at a heading has as content the stripped line-joined lines gathered since the previous save, at least one of them, under the heading and level then current |
| Parser.LastContent | skills/spec-inspect/src/spec_inspect/core/parser.py:136-145 | after the loop, the last section holds the lines gathered since the last save, and is stored iff there is one under a non-empty heading |
| Parser.NoContentNoSections | skills/spec-inspect/src/spec_inspect/core/parser.py:99-137 | if no token gathers a line while a heading is current, no section is stored, whatever headings the stream opens |
| Parser.ParagraphTextBecomesTitle | skills/spec-inspect/src/spec_inspect/core/parser.py:119-145 | for `# A`, `# B`, a blank line and `text`, the one section stored is titled `text` |
| Parser.TwoBareHeadings | skills/spec-inspect/src/spec_inspect/core/parser.py:97-123 | two headings with nothing between them: the first is dropped and the scan waits on the second |
| RequirementIdRule.SearchFromMeaning | skills/spec-inspect/src/spec_inspect/rules/requirement_id_validator.py:95-98 | the line found holds the identifier and no earlier line does |
| RequirementIdRule.LocationOfMeaning | skills/spec-inspect/src/spec_inspect/rules/requirement_id_validator.py:84-101 | the location is in the given file, on the first line containing the identifier, or on line 0 when no line does |
| RequirementIdRule.FindLocation | skills/spec-inspect/src/spec_inspect/rules/requirement_id_validator.py:84-101 | the search loop with its early return gives that location |
| RequirementIdRule.FoundInOwnText | skills/spec-inspect/src/spec_inspect/rules/requirement_id_validator.py:95-101 | for an identifier taken from the text itself the fallback to line 0 is never taken |
| RequirementIdRule.IdIssue | skills/spec-inspect/src/spec_inspect/rules/requirement_id_validator.py:42-79 | an issue relates exactly its identifier, sits at the location given, and is Critical for a missing reference and Info for an unreferenced one |
| RequirementIdRule.IdIssueAccepted | skills/spec-inspect/src/spec_inspect/rules/requirement_id_validator.py:42-50 | the `Issue` constructor accepts every issue the rule builds, so the rule never raises |
| RequirementIdRule.ReportAll | skills/spec-inspect/src/spec_inspect/rules/requirement_id_validator.py:39-51 | one loop visits every identifier of one set not in another, once each, numbering them consecutively from its start |
| RequirementIdRule.Check | skills/spec-inspect/src/spec_inspect/rules/requirement_id_validator.py:14-82 | the output is the design issues, then the tasks issues, then the unreferenced ones, for listings of the three set differences |
| RequirementIdRule.JoinedAt | skills/spec-inspect/src/spec_inspect/rules/requirement_id_validator.py:39-80 | the issue at each position: its identifier, severity, number and location |
| RequirementIdRule.JoinedIdAt | skills/spec-inspect/src/spec_inspect/rules/requirement_id_validator.py:28-80 | Critical issues come first, numbered CRITICAL-001, -002, ... across design then tasks; Info issues follow, numbered from INFO-001; each relates one identifier |
| RequirementIdRule.JoinedIdsDistinct | skills/spec-inspect/src/spec_inspect/rules/requirement_id_validator.py:28-80 | no two issues share an id |
| RequirementIdRule.WhereAt | skills/spec-inspect/src/spec_inspect/rules/requirement_id_validator.py:39-80 | a position's severity and file tell which of the three loops produced it |
| RequirementIdRule.JoinedPartition | skills/spec-inspect/src/spec_inspect/rules/requirement_id_validator.py:39-80 | the identifiers of each part are exactly those of the listing that part visits |
| RequirementIdRule.CheckPartition | skills/spec-inspect/src/spec_inspect/rules/requirement_id_validator.py:36-82 | the Critical issues in design.md are exactly the undefined design references; in tasks.md, the undefined tasks references; the Info issues in requirement.md are exactly the defined identifiers referenced nowhere. The count is the sum of the three set sizes |
| RequirementIdRule.ReportedTwice | skills/spec-inspect/src/spec_inspect/rules/requirement_id_validator.py:39-65 | an undefined identifier referenced in both documents is reported twice, once per file |
| RequirementIdRule.JoinedFound | skills/spec-inspect/src/spec_inspect/rules/requirement_id_validator.py:39-80 | every issue's line contains its identifier |
| MandatorySections.MandatoryCounts | skills/spec-inspect/src/spec_inspect/rules/structure_validator.py:14-31 | five mandatory titles for requirement, three for design, two for tasks |
| MandatorySections.MandatoryLowered | skills/spec-inspect/src/spec_inspect/rules/structure_validator.py:14-31 | lowering leaves the Japanese mandatory titles unchanged |
| MandatorySections.NonAsciiLowered | skills/spec-inspect/src/spec_inspect/rules/structure_validator.py:96 | lowering leaves non-ASCII text unchanged |
| StructureRule.WarningIssue | skills/spec-inspect/src/spec_inspect/rules/structure_validator.py:101-109 | a warning has severity Warning, line 0 of its own file, no related identifiers, and the id `WARNING-` plus its padded number |
| StructureRule.Covered | skills/spec-inspect/src/spec_inspect/rules/structure_validator.py:95-98 | the `any(...)` test: some existing key contains the title, both lowered; `StructureRule.WarnedIff` proves a title is warned about iff it fails |
| StructureRule.MissingOfWarning | skills/spec-inspect/src/spec_inspect/rules/structure_validator.py:104 | a warning names the title it was made for |
| StructureRule.WarningAccepted | skills/spec-inspect/src/spec_inspect/rules/structure_validator.py:101-109 | the `Issue` constructor accepts every warning, so the rule never raises |
| StructureRule.Warnings | skills/spec-inspect/src/spec_inspect/rules/structure_validator.py:93-110 | one warning per missing title |
| StructureRule.CheckDocument | skills/spec-inspect/src/spec_inspect/rules/structure_validator.py:70-112 | the warnings are for a listing of the mandatory titles that no section title covers, numbered consecutively from the counter start |
| StructureRule.MissingBound | skills/spec-inspect/src/spec_inspect/rules/structure_validator.py:89-93 | a document lacks at most as many titles as its kind has |
| StructureRule.WarnedIff | skills/spec-inspect/src/spec_inspect/rules/structure_validator.py:93-100 | a mandatory title is warned about iff no section key contains it, both lowered |
| StructureRule.WarnedOnce | skills/spec-inspect/src/spec_inspect/rules/structure_validator.py:93 | no two warnings of a document are about the same title |
| StructureRule.ExactTitlesSuffice | skills/spec-inspect/src/spec_inspect/rules/structure_validator.py:95-100 | a document whose section titles include every mandatory title gets no warnings |
| StructureRule.Check | skills/spec-inspect/src/spec_inspect/rules/structure_validator.py:33-68 | requirement warnings numbered from 1, then design from 1 + r, then tasks from 1 + 2r + d, where r and d are the first two documents' warning counts |
| StructureRule.JoinedAt | skills/spec-inspect/src/spec_inspect/rules/structure_validator.py:43-109 | each warning's severity, file, line 0, empty related list, title, and the number its position gives |
| StructureRule.NumbersIncrease | skills/spec-inspect/src/spec_inspect/rules/structure_validator.py:43-59 | the warning numbers strictly increase along the joined list |
| StructureRule.JoinedIdsDistinct | skills/spec-inspect/src/spec_inspect/rules/structure_validator.py:43-59 | no two warnings share an id, since their numbers increase |
| StructureRule.CheckBound | skills/spec-inspect/src/spec_inspect/rules/structure_validator.py:14-31 | the rule reports at most 10 warnings |
| Engine.Contribution | skills/spec-inspect/src/spec_inspect/core/check_engine.py:49-54 | a rule that raised contributes nothing |
| Engine.Apply | skills/spec-inspect/src/spec_inspect/core/check_engine.py:10-23 | running a rule gives one of the outcomes its `check` can have |
| Engine.CheckEngine.constructor | skills/spec-inspect/src/spec_inspect/core/check_engine.py:29-35 | the engine holds the rules given |
| Engine.CheckEngine.RunChecks | skills/spec-inspect/src/spec_inspect/core/check_engine.py:37-56 | every rule is run, in order; the result concatenates what the rules that did not raise returned; the rule list is left as it was |
| Engine.CheckEngine.AddRule | skills/spec-inspect/src/spec_inspect/core/check_engine.py:58-64 | the new rule goes last, the earlier ones keep their order, and the list grows by one |
| Engine.ConcatSplit | skills/spec-inspect/src/spec_inspect/core/check_engine.py:48-51 | the output over two runs of rules is the first's output followed by the second's |
| Engine.RaisedAddsNothing | skills/spec-inspect/src/spec_inspect/core/check_engine.py:49-54 | a raising rule adds nothing, and the rules after it still contribute |
| Engine.ReturnedAddsItsIssues | skills/spec-inspect/src/spec_inspect/core/check_engine.py:50-51 | a returning rule adds exactly its list, between the earlier and the later rules' issues |
| Engine.ConcatLength | skills/spec-inspect/src/spec_inspect/core/check_engine.py:46-56 | the output length is the sum of the returned lists' lengths |
| Engine.AllRaisedNothing | skills/spec-inspect/src/spec_inspect/core/check_engine.py:46-56 | with no rules, or only raising ones, the output is empty |
| Engine.ConcatMembers | skills/spec-inspect/src/spec_inspect/core/check_engine.py:46-56 | an issue is in the output iff a rule that did not raise returned it |
| Results.CleanIffNothingFlagged | skills/spec-inspect/src/spec_inspect/models/inspection_result.py:23-36 | with non-negative counts, `total_issues` is 0 iff there are neither critical issues nor warnings |
| Results.InfoOnlyHasWarnings | skills/spec-inspect/src/spec_inspect/models/inspection_result.py:33-36 | a result with only info findings "has warnings" but no critical issues |
| Results.Lookup | skills/spec-inspect/src/spec_inspect/models/inspection_result.py:62-71 | a key lookup in a decoded object finds nothing iff no member has that key |
| Results.LookupAppend | skills/spec-inspect/src/spec_inspect/models/inspection_result.py:62 | a member added last wins for its own key and hides no other key |
| Results.LookupLast | skills/spec-inspect/src/spec_inspect/models/inspection_result.py:62 | a member no later member shadows is the one found |
| Results.InspectionResult.TotalIssues | skills/spec-inspect/src/spec_inspect/models/inspection_result.py:23-26 | the sum of the three counts; `Results.CleanIffNothingFlagged` proves it is 0 iff neither flag holds |
| Results.InspectionResult.HasCriticalIssues | skills/spec-inspect/src/spec_inspect/models/inspection_result.py:28-31 | a positive critical count; `Results.CleanIffNothingFlagged` relates it to the total |
| Results.InspectionResult.HasWarnings | skills/spec-inspect/src/spec_inspect/models/inspection_result.py:33-36 | a positive warning or info count; `Results.InfoOnlyHasWarnings` proves info findings alone set it |
| Results.ToJson | skills/spec-inspect/src/spec_inspect/models/inspection_result.py:38-57 | `to_json` as a value tree: seven fields, the summary block and the issue list; `Results.RoundTrip` proves `from_json` reads it back and `Results.SummaryAgrees` proves the summary repeats the counts |
| Results.StringField | skills/spec-inspect/src/spec_inspect/models/inspection_result.py:64-71 | a text field reads back iff present as a string; absent is `MissingKey`, otherwise `WrongKind` |
| Results.IntField | skills/spec-inspect/src/spec_inspect/models/inspection_result.py:66-68 | a count reads back iff present as an integer, with the same errors |
| Results.FromJson | skills/spec-inspect/src/spec_inspect/models/inspection_result.py:59-72 | decoding succeeds iff the document is an object with each read key of the right kind; each field is what its key holds and the issue list is empty; a missing key is one of the seven read |
| Results.EncodedTexts | skills/spec-inspect/src/spec_inspect/models/inspection_result.py:40-47 | every text field `to_json` writes reads back unchanged |
| Results.EncodedCounts | skills/spec-inspect/src/spec_inspect/models/inspection_result.py:40-45 | every count `to_json` writes reads back unchanged |
| Results.RoundTrip | skills/spec-inspect/src/spec_inspect/models/inspection_result.py:38-72 | `from_json(to_json(r))` is `r` with an empty issue list |
| Results.SummaryAgrees | skills/spec-inspect/src/spec_inspect/models/inspection_result.py:48-55 | the written summary's total is the sum of the counts, and its breakdown repeats each count under its severity's value |
| Results.UnreadMemberIgnored | skills/spec-inspect/src/spec_inspect/models/inspection_result.py:63-72 | `from_json` ignores any member it does not read |
| Results.SummaryIgnored | skills/spec-inspect/src/spec_inspect/models/inspection_result.py:48-72 | in particular, the decoded result does not depend on the summary |
| Reports.Filter | skills/spec-inspect/src/spec_inspect/core/report_generator.py:149-152 | a bucket is never longer than the input |
| Reports.FilterAppend | skills/spec-inspect/src/spec_inspect/core/report_generator.py:150-151 | bucketing distributes over concatenation, so input order is kept within each bucket |
| Reports.FilterMembers | skills/spec-inspect/src/spec_inspect/core/report_generator.py:151 | a bucket holds exactly the issues of its severity |
| Reports.BucketsPermutation | skills/spec-inspect/src/spec_inspect/core/report_generator.py:149-152 | the three buckets together are a rearrangement of the input |
| Reports.BucketSizes | skills/spec-inspect/src/spec_inspect/core/report_generator.py:47-49 | the three bucket sizes sum to the number of issues |
| Reports.CategorizeIssues | skills/spec-inspect/src/spec_inspect/core/report_generator.py:140-152 | each bucket, read through the `defaultdict`, is the input's issues of that severity in input order; a key exists iff some issue has that severity |
| Reports.FormatIssue | skills/spec-inspect/src/spec_inspect/core/report_generator.py:154-174 | one issue's block: heading, location, description, suggestion if non-empty, related ids where asked for and non-empty |
| Reports.EntryShows | skills/spec-inspect/src/spec_inspect/core/report_generator.py:63-174 | each issue's block, in either format, shows its heading (severity, id, title), its file line and its detail |
| Reports.EntryDescribes | skills/spec-inspect/src/spec_inspect/core/report_generator.py:63-174 | every line of an issue's block is blank or true of that issue: a suggestion line only for a non-empty suggestion, a related line only where asked for and non-empty, and no other issue's data |
| Reports.AppendEntries | skills/spec-inspect/src/spec_inspect/core/report_generator.py:62-70 | the loop over a bucket appends the issues' blocks in bucket order |
| Reports.AppendSection | skills/spec-inspect/src/spec_inspect/core/report_generator.py:60-70 | a severity's section is appended only when its bucket is non-empty |
| Reports.GenerateMarkdown | skills/spec-inspect/src/spec_inspect/core/report_generator.py:29-94 | the Markdown report is the summary block and the three sections, rendered and joined with line breaks |
| Reports.GenerateConsoleOutput | skills/spec-inspect/src/spec_inspect/core/report_generator.py:96-138 | the console output is the summary block and the three sections, rendered and joined with line breaks |
| Reports.RenderMarkdown | skills/spec-inspect/src/spec_inspect/core/report_generator.py:53-94 | the text of each Markdown line, strings as the source writes them; `Reports.GenerateMarkdown` proves the joined rendering equals the report |
| Reports.RenderConsole | skills/spec-inspect/src/spec_inspect/core/report_generator.py:106-172 | the text of each console line, colour codes included; `Reports.GenerateConsoleOutput` proves the joined rendering equals the output |
| Reports.SectionHeadings | skills/spec-inspect/src/spec_inspect/core/report_generator.py:60-61 | a section has one heading when its bucket is non-empty and none otherwise |
| Reports.PresentMeaning | skills/spec-inspect/src/spec_inspect/core/report_generator.py:60-84 | a severity is listed iff some issue has it |
| Reports.ReportHeadings | skills/spec-inspect/src/spec_inspect/core/report_generator.py:59-92 | a summary block without headings plus the three sections has one heading per severity present, in severity order |
| Reports.MarkdownSectionOrder | skills/spec-inspect/src/spec_inspect/core/report_generator.py:59-92 | exactly the severities that occur get a Markdown section, in the order Critical, Warning, Info |
| Reports.ConsoleSectionOrder | skills/spec-inspect/src/spec_inspect/core/report_generator.py:120-136 | the same for the console |
| Reports.EntriesMembers | skills/spec-inspect/src/spec_inspect/core/report_generator.py:62-70 | a line is in a bucket's entries iff it is in the block of one of its issues |
| Reports.SectionEntries | skills/spec-inspect/src/spec_inspect/core/report_generator.py:60-92 | an issue line is in a severity's section iff it is in the block of an issue of that severity |
| Reports.ReportEntries | skills/spec-inspect/src/spec_inspect/core/report_generator.py:59-136 | an issue line is in a report iff it is in the block of one of the issues |
| Reports.SuggestionShown | skills/spec-inspect/src/spec_inspect/core/report_generator.py:66-172 | a suggestion line appears, in either report, iff some issue has that suggestion and it is non-empty |
| Reports.RelatedShown | skills/spec-inspect/src/spec_inspect/core/report_generator.py:68-69 | the related-ids line appears only in the Markdown report, only for a Critical issue, and only for a non-empty list |
| Reports.EveryIssueListed | skills/spec-inspect/src/spec_inspect/core/report_generator.py:63-168 | every issue has its heading line in both reports, and no heading is invented |
| Reports.MarkdownSummary | skills/spec-inspect/src/spec_inspect/core/report_generator.py:47-57 | the Markdown summary line reports the three bucket sizes, which sum to the number of issues |
| Reports.ConsoleSummary | skills/spec-inspect/src/spec_inspect/core/report_generator.py:109-118 | the console summary shows the total and the three bucket sizes, which sum to the total |

## Left out

- The Markdown tokenizer (`core/parser.py:5, 25, 38`) is a foreign library. Its token stream is an input, and only heading levels 1 to 6 are representable.
- `core/file_loader.py` (finding, checking and decoding the files) is I/O, and is not part of this model. `SpecFiles` is modelled as the four strings the parser reads.
- `cli.py` is not part of this model: argument parsing, echo and process exit. Its one decision, exit status 1 iff some issue is Critical, is the same test as `has_critical_issues`.
- The hash order in which Python iterates a set is not pinned. Every loop over a set yields a listing, and the properties hold for any listing.
- `Text.Lower`: lowers ASCII letters only, where `str.lower` folds all of Unicode. The mandatory titles are Japanese and are unchanged either way (`MandatorySections.MandatoryLowered`).
- The identifier pattern's `\d` also matches non-ASCII decimal digits in Python. The scanner accepts ASCII digits only.
- Clocks and time formats: `datetime.now().strftime(...)` is a parameter of the Markdown report. `isoformat`/`fromisoformat` are treated as inverse, with the timestamp kept as its text.
- The text layout of `json.dumps` (indentation, escaping) and the parsing of `json.loads`: JSON is modelled as a value tree.
- `Results.FromJson`, `Results.StringField`, `Results.IntField`: the two field readers refuse a value of the wrong kind (`WrongKind`), and so does FromJson through them, where Python stores whatever value the key holds and `fromisoformat` raises only for the timestamp.
- The `print` that logs a failed rule (`core/check_engine.py:54`), and exceptions outside `Exception` (such as `KeyboardInterrupt`) that escape the handler.
- `CheckEngine` stores the caller's list (`self.rules = rules`), so `add_rule` also changes the caller's list. The model keeps the rules as a value, so this sharing is not modelled.
- Rule behaviours are total functions of the specs: a custom rule's non-termination or side effects are not modelled. The two built-in rules never raise (`IdIssueAccepted`, `WarningAccepted`).
- Section equality: a `Section` is a Dafny object compared by identity, where dataclass `==` compares fields.
- `ParsedSpecs` values that fail the kind check can exist in the model. `Documents.NewParsedSpecs` is the checked constructor, and `Parser.ParseSpecs` proves it succeeds.
- The unused `findall` call (`core/parser.py:158`) has no effect and is omitted.
- ANSI colour codes and emoji are reproduced as constant text; how a terminal displays them is not modelled.

