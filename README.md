# context-engine diff review, modelled in Dafny

This project models the deterministic diff-review pipeline of context-engine, together with a few small text helpers from the same repository, and proves properties of the model. The pipeline's entry point is `reviewDiff`. It works in these steps:

1. It parses a unified diff into files, hunks and typed lines, with old and new line counters (`parseUnifiedDiff`).
2. It classifies the change as feature, bugfix, refactor, infra or docs.
3. It runs the preflight, which sets path flags, sorted hotspot ids and a risk score clamped to 1..5. The risk is counted in half-points.
4. It loads and evaluates YAML invariants with `deny`, `require` and `when_require` actions.
5. It plans and fetches the context for the LLM pass: priorities, a token budget split in proportion, and merged line windows.
6. It builds the fixed PRE001..PRE005 findings.
7. It decides whether the LLM pass runs or is skipped (`missing_runtime`, `noise_gate_low_risk`).
8. It merges the findings (invariant, then LLM, then deterministic), de-duplicates them by id, filters them by confidence, category and allowlist, and cuts them to `max_findings`.
9. It applies the CI gate.
10. It renders the result as SARIF 2.1.0 and as a GitHub markdown comment.

The side helpers modelled are:
- the legacy review post-filter (`postProcessReviewFindings` with its changed-line backfill);
- query expansion and line-range de-duplication for retrieval;
- the bracket-matching block extraction and markdown rendering of the tool-inventory script;
- prompt building and `<enhanced-prompt>` extraction in the `enhance_prompt` tool.

There is one module per source file:

| module | file | source |
|---|---|---|
| `DiffModel`, `DiffParse` | diff_model.dfy, diff_parse.dfy | src/reviewer/diff/parse.ts |
| `Classify` | classify.dfy | src/reviewer/diff/classify.ts |
| `Preflight` | preflight.dfy | src/reviewer/checks/preflight.ts |
| `Invariants` | invariants.dfy | src/reviewer/checks/invariants/types.ts and load.ts |
| `InvariantRunner` | invariant_runner.dfy | src/reviewer/checks/invariants/runner.ts |
| `Planner` | planner.dfy | src/reviewer/context/planner.ts |
| `Fetcher` | fetcher.dfy | src/reviewer/context/fetcher.ts |
| `Findings` | findings.dfy | src/reviewer/post/findings.ts |
| `PostShared` | post_shared.dfy | src/reviewer/post/shared.ts |
| `PostNormalize` | post_normalize.dfy | src/reviewer/post/normalize.ts |
| `ReviewResults` | review_result.dfy | the result record |
| `Sarif` | sarif.dfy | src/reviewer/output/sarif.ts |
| `GitHubComment` | github_comment.dfy | src/reviewer/output/github.ts |
| `Prompts` | prompts.dfy | src/reviewer/prompts/enterprise.ts |
| `ReviewPipeline` | review_diff.dfy | src/reviewer/reviewDiff.ts |
| `CodeReviewPost` | code_review_post.dfy | src/mcp/services/codeReviewPost.ts |
| `ExpandQuery` | expand_query.dfy | src/internal/retrieval/expandQuery.ts |
| `Dedupe` | retrieval_dedupe.dfy | src/internal/retrieval/dedupe.ts |
| `ToolInventory` | tool_inventory.dfy | scripts/extract-tool-inventory.ts |
| `Enhance` | enhance.dfy | src/mcp/tools/enhance.ts |

`Wrappers`, `Text`, `Seqs`, `Tokens`, `Uniq` and `Numbers` are shared helpers:
- option and result types;
- JavaScript-style `trim`, `split`, `join`, `indexOf` and ASCII lower-casing;
- filtering, subsequences and a stable sort by key;
- maximal character runs;
- first-occurrence de-duplication by key;
- clamping.

Loops that update state become methods with loop invariants. Each method is proved to compute a specification function, and the properties are proved as lemmas about those functions. Examples of such methods are `DiffParse.ParseHunkLines`, `Findings.DedupeFindingsById`, `Fetcher.MergeRanges`, `ExpandQuery.ExpandVariants` and `ToolInventory.ExtractArrayBlock`.

`reviewDiff` is `ReviewPipeline.ReviewDiff`. It returns its intermediate stages as a ghost value, and lemmas state what the pipeline promises about them:
- merge order;
- the gate is taken before the cut;
- the skip reasons;
- the defaults.

The preflight's `isTestPath` patterns are the classifier's. `Preflight` therefore reuses `Classify.IsTestPath`.

## Model

| member | source | states |
|---|---|---|
| DiffModel.NewPaths | src/reviewer/checks/preflight.ts:75-78 | one `new_path` per parsed file, in file order |
| DiffModel.AddNumbersMembers | src/reviewer/diff/parse.ts:97-104 | a number is among a line list's added-line numbers exactly when some added line carries it |
| DiffModel.HunksCountsFlatten | src/reviewer/diff/parse.ts:28-29 | counting added and removed lines hunk by hunk agrees with counting over the file's flattened lines |
| DiffParse.LineEnd | src/reviewer/diff/parse.ts:15 | the end of a line, where `$` matches under the `m` flag, is the first ECMAScript line terminator (LF, CR, U+2028, U+2029) from its start, or the end of the text |
| DiffParse.LineMatches | src/reviewer/diff/parse.ts:15-16 | `matchAll` of a `/^...$/gm` pattern: increasing line-start offsets (the text start or just after any line terminator) whose line satisfies the pattern |
| DiffParse.LineMatchesExact | src/reviewer/diff/parse.ts:15-16 | the matches are exactly the line starts whose line satisfies the pattern (both directions), a line starting after any of the four line terminators |
| DiffParse.LineMatchesComplete | src/reviewer/diff/parse.ts:48-49 | no line start whose line satisfies the pattern is missed, including one after CR, U+2028 or U+2029 |
| DiffParse.SplitPaths | src/reviewer/diff/parse.ts:15 | the lazy groups `(.+?) b\/(.+?)`: the shortest non-empty old path followed by ` b/` and a non-empty new path; no split when ` b/` does not occur |
| DiffParse.SplitPathsFromAt | src/reviewer/diff/parse.ts:15 | the split happens at the first occurrence of ` b/` after the first character |
| DiffParse.FileHeaderRoundTrip | src/reviewer/diff/parse.ts:15-21 | a header `diff --git a/X b/Y` reads back as old path X and new path Y whenever X does not contain ` b/` |
| DiffParse.TerminatedHeaderPaths | src/reviewer/diff/parse.ts:15-21 | a header line ended by any line terminator (the `\r` of CRLF, U+2028) reads back as X and Y with the terminator in neither path |
| DiffParse.ReadNumber | src/reviewer/diff/parse.ts:48-57 | `(\d+)` with `parseInt`: the maximal leading digit run and the rest; no match exactly when the text does not start with a digit |
| DiffParse.ReadOptCount | src/reviewer/diff/parse.ts:48-58 | the optional `,(\d+)` group consumes a suffix of its input, and nothing when absent |
| DiffParse.ReadNumberOf | src/reviewer/diff/parse.ts:57 | a decimal number followed by a non-digit reads back as that number |
| DiffParse.ReadOptCountOf | src/reviewer/diff/parse.ts:58-60 | a present or absent count group reads back as itself |
| DiffParse.ParseHunkHeaderLine | src/reviewer/diff/parse.ts:48-60 | a hunk header as git writes it reads back as the same four numbers, whatever follows it on the line |
| DiffParse.OmittedCountIsOne | src/reviewer/diff/parse.ts:58-60 | an omitted hunk length stands for one line |
| DiffParse.LineOfFacts | src/reviewer/diff/parse.ts:96-121 | one body line: `+` gives an add line numbered by the new counter and advances only it, `-` a remove line that advances only the old counter, space or empty a context line that advances both, anything else is dropped and advances neither |
| DiffParse.HunkLinesNumbering | src/reviewer/diff/parse.ts:93-121 | every kept line's new-file number counts the add and context lines before it, its old-file number the remove and context lines before it |
| DiffParse.HunkLinesShape | src/reviewer/diff/parse.ts:96-121 | one typed line per kept body line, in order, typed by its first character and carrying the text after it |
| DiffParse.BodyStep | src/reviewer/diff/parse.ts:96-121 | one turn of the body loop keeps both the typed-lines and the changed-lines invariants |
| DiffParse.AddNumbersStep | src/reviewer/diff/parse.ts:103 | an added line contributes its new-file number to `changed_lines`, other lines nothing |
| DiffParse.ParseHunkLines | src/reviewer/diff/parse.ts:84-125 | `parseHunkLines`: the lines after the header typed and numbered from the two starts, and `changed_lines` grown by exactly the added lines' numbers |
| DiffParse.TypeBodyLines | src/reviewer/diff/parse.ts:93-122 | the body loop computes the typed lines and the grown changed set |
| DiffParse.NextStart | src/reviewer/diff/parse.ts:53-54 | a hunk ends at the next hunk header or at the end of the section |
| DiffParse.SectionHunks | src/reviewer/diff/parse.ts:48-71 | one hunk per hunk header line of the section, in order |
| DiffParse.ParseFileSection | src/reviewer/diff/parse.ts:39-82 | `parseFileSection`: the three marker flags, one hunk per header in order, and one shared changed-lines set |
| DiffParse.SectionWithoutHunks | src/reviewer/diff/parse.ts:73-81 | a section without a hunk header still yields a file, with no hunks (also lines 49-51) |
| DiffParse.ChangedLinesExact | src/reviewer/diff/parse.ts:97-104 | `changed_lines` is exactly the set of new-file numbers of the file's add lines |
| DiffParse.DiffFiles | src/reviewer/diff/parse.ts:15-27 | one file per `diff --git` header line |
| DiffParse.ParseUnifiedDiff | src/reviewer/diff/parse.ts:9-37 | `parseUnifiedDiff`: one file per header line in header order, and `lines_added`/`lines_removed` equal to the add/remove lines over all hunks of all files |
| DiffParse.ParsedFileFromHeader | src/reviewer/diff/parse.ts:15-27 | each file's paths are the groups of its own header line (which ends at the first line terminator, so a CRLF header's `\r` is in no path), and `is_new`/`is_deleted`/`is_binary` hold exactly when its section contains `new file mode`/`deleted file mode`/`Binary files` (also lines 40-42) |
| DiffParse.EveryHeaderParsed | src/reviewer/diff/parse.ts:15-18 | every header line of the diff starts a parsed file |
| Classify.HalfUpBound | src/reviewer/diff/classify.ts:45 | a count reaches `Math.ceil(n / 2)` exactly when twice the count reaches `n` |
| Classify.ClassifyChangeMatchesSpec | src/reviewer/diff/classify.ts:37-69 | `classifyChange` follows the decision list: `refactor` for no files, `docs` when every path is a docs path, `infra` when infra paths are a non-empty half or more, then the later rules |
| Classify.DocsIff | src/reviewer/diff/classify.ts:38-42 | the result is `docs` exactly when there is a file and every new path is a docs path |
| Classify.InfraIff | src/reviewer/diff/classify.ts:41-45 | the result is `infra` exactly when not every path is a docs path and the infra paths are non-empty and at least `ceil(n/2)` |
| Classify.NewNonDocsFileIsFeature | src/reviewer/diff/classify.ts:47-48 | once the docs and infra rules do not apply, any new file outside the docs paths gives `feature` |
| Classify.BugfixWhenKeyword | src/reviewer/diff/classify.ts:47-57 | once the docs, infra and new-file rules do not apply, the result is `bugfix` exactly when the added text has a whole-word keyword in any case |
| Classify.TestsOnlyIsRefactor | src/reviewer/diff/classify.ts:59-60 | once the docs, infra, new-file and keyword rules do not apply, all-test paths give `refactor` |
| Classify.ChurnDecides | src/reviewer/diff/classify.ts:62-68 | after all earlier rules fail and some path is not a test path, the result is `refactor` exactly when added+removed >= 20 and `min / max(1, max) >= 0.6` on reals, and `feature` otherwise |
| Classify.DivAtLeast | src/reviewer/diff/classify.ts:62-66 | for a positive divisor, `x / m >= c` is `x >= c * m` |
| Classify.BalancedChurnIsRatio | src/reviewer/diff/classify.ts:62-66 | the integer churn test agrees with the ratio `min / max(1, max) >= 0.6` on reals |
| Classify.ReadmeOnlyIsDocs | tests/reviewer/diff/classify.test.ts:6-18 | a change to README.md alone is `docs` |
| Classify.PackageJsonIsInfra | src/reviewer/diff/classify.ts:18 | `package.json` is an infra path and not a docs path |
| Classify.WorkflowIsInfra | src/reviewer/diff/classify.ts:15 | a workflow file under `.github/` is an infra path |
| Classify.PackageAndWorkflowIsInfra | tests/reviewer/diff/classify.test.ts:20-42 | a package.json edit with a workflow file is `infra` |
| Classify.FixCrashLooksLikeBugfix | src/reviewer/diff/classify.ts:50-57 | the line `  return "fix crash";` has the whole-word keyword `fix` |
| Classify.NewSrcFileIsFeature | tests/reviewer/diff/classify.test.ts:44-58 | a brand-new `src/newFeature.ts` alone is `feature` |
| Classify.FixCrashIsBugfix | tests/reviewer/diff/classify.test.ts:60-74 | the edit of `src/a.ts` whose lines are those the test's diff parses to (one added line `  return "fix crash";`) is `bugfix` |
| Preflight.StrLessAt | src/reviewer/checks/preflight.ts:71 | `Array.prototype.sort` order: strings that first differ at index k are ordered by their k-th code units |
| Preflight.SortedZoneIdsSorted | src/reviewer/checks/preflight.ts:33-40 | the six zone ids listed in code-unit order are strictly sorted (also line 71) |
| Preflight.SortedZoneIdsSame | src/reviewer/checks/preflight.ts:33-40 | the sorted list holds exactly the six declared zone ids |
| Preflight.HotspotsSortedSet | src/reviewer/checks/preflight.ts:64-72 | `hotspots` is strictly sorted (so duplicate-free) and holds exactly the zone ids some changed file matches (also lines 33-40) |
| Preflight.ZoneHitSnoc | src/reviewer/checks/preflight.ts:66-69 | one more file adds exactly the zones it matches |
| Preflight.CollectHits | src/reviewer/checks/preflight.ts:65-70 | the nested loop collects exactly the zones some changed file matches |
| Preflight.DetectHotspots | src/reviewer/checks/preflight.ts:64-72 | `detectHotspots`: the hit set in sorted order |
| Preflight.RawRiskHalvesExact | src/reviewer/checks/preflight.ts:92-99 | the integer half-point count is exactly twice the source's real-valued raw risk |
| Preflight.CeilHalf | src/reviewer/checks/preflight.ts:101 | `Math.ceil(h / 2)`: the least natural whose double reaches h |
| Preflight.RiskScore | src/reviewer/checks/preflight.ts:101 | `min(5, max(1, ceil(raw)))`: always in 1..5, and equal to `ceil(raw)` unless clamped |
| Preflight.RiskScoreMonotone | src/reviewer/checks/preflight.ts:101 | the clamped score never decreases when the raw risk grows |
| Preflight.RiskMonotone | src/reviewer/checks/preflight.ts:92-101 | more files or hot zones, an API or config change, or untouched tests never lower the raw risk or the score |
| Preflight.RunDeterministicPreflight | src/reviewer/checks/preflight.ts:74-114 | `runDeterministicPreflight`: the provided list if non-empty, else the new paths; sorted hotspots; the API, config, test and binary flags as "some" tests, where a tsconfig middle holds no line terminator; raw risk by the formula; score in 1..5; five checks executed |
| Preflight.McpToolPathIsHot | src/reviewer/checks/preflight.ts:34 | a path under `src/mcp/tools/` is in the `src/mcp` zone and is a public entry path (also line 52) |
| Preflight.McpToolPathNotConfig | src/reviewer/checks/preflight.ts:15-24 | `src/mcp/tools/x.ts` matches no config pattern |
| Preflight.TsconfigVariantIsConfig | src/reviewer/checks/preflight.ts:18 | `tsconfig.base.json` matches the optional-middle tsconfig pattern |
| Preflight.TsconfigLineBreakNotConfig | src/reviewer/checks/preflight.ts:18 | `tsconfig.\n.json` is not a config path, because `.` does not match a line terminator |
| Preflight.McpToolPathNotTest | src/reviewer/checks/preflight.ts:26-31 | `src/mcp/tools/x.ts` matches no test pattern |
| Preflight.ExportLineDetected | src/reviewer/checks/preflight.ts:59-61 | `export const x = 2;` is an export line |
| Preflight.McpToolExportScenario | tests/reviewer/checks/preflight.test.ts:25-44 | the test's diff, with the lines its text parses to (the remove, the add and the empty context line the final newline leaves): one changed file in the `src/mcp` zone, public API changed, no config and no test touched |
| Preflight.McpToolExportRisk | tests/reviewer/checks/preflight.test.ts:25-44 | one hot zone, an API change and no tests give raw risk 4 and risk 4 |
| Invariants.Strings | src/reviewer/checks/invariants/load.ts:15 | the string elements of `paths` are no more than its elements |
| Invariants.StringsCorrect | src/reviewer/checks/invariants/load.ts:15 | non-string path elements are dropped and the strings kept in order: a subsequence holding exactly the input's strings |
| Invariants.NormalizeInvariant | src/reviewer/checks/invariants/load.ts:10-37 | an accepted record has non-empty id, rule, severity and category and at least one path |
| Invariants.StringsOfStrings | src/reviewer/checks/invariants/load.ts:15 | an all-string `paths` array is kept whole |
| Invariants.EncodeReadBack | src/reviewer/checks/invariants/load.ts:13-24 | each field of an invariant written back as a record is read back unchanged by the validation filter |
| Invariants.NormalizeEncode | src/reviewer/checks/invariants/load.ts:10-37 | validating the record of a well-formed invariant gives that invariant back |
| Invariants.NormalizeIdempotent | src/reviewer/checks/invariants/load.ts:10-37 | validation is idempotent on the records it accepts |
| Invariants.NormalizeFields | src/reviewer/checks/invariants/load.ts:10-37 | a record is accepted exactly when it is a mapping with non-empty string id, rule, severity and category and a `paths` array holding a string; the result carries those strings, the string paths in order, `action` only when it is a string, and `when`/`require`/`deny` only when they are mappings |
| Invariants.NormalizeAll | src/reviewer/checks/invariants/load.ts:57-61 | every invariant a section keeps is well formed |
| Invariants.NormalizeAllIsFilterMap | src/reviewer/checks/invariants/load.ts:57-61 | a section keeps exactly its valid entries, validated, in their original order |
| Invariants.NormalizeSection | src/reviewer/checks/invariants/load.ts:57-61 | the inner loop computes the section's valid invariants in order |
| Invariants.LoadInvariantsConfig | src/reviewer/checks/invariants/load.ts:50-65 | a non-mapping is the "expected a mapping object" error; otherwise the sections that are arrays with a valid entry, in document order |
| Invariants.LoadSectionsSound | src/reviewer/checks/invariants/load.ts:55-63 | every loaded section comes from an array-valued entry, holds exactly that entry's valid invariants, and is non-empty |
| Invariants.LoadSectionsComplete | src/reviewer/checks/invariants/load.ts:55-63 | every array-valued entry with a valid invariant is loaded |
| Invariants.LoadSectionsOrdered | src/reviewer/checks/invariants/load.ts:55 | loaded sections keep document order |
| InvariantRunner.DenyVerdict | src/reviewer/checks/invariants/runner.ts:85-99 | `deny` is violated exactly when its regex is present, compiles and matches the added text; without a regex it throws |
| InvariantRunner.RequireVerdict | src/reviewer/checks/invariants/runner.ts:101-113 | `require` is violated exactly when its regex is present, compiles and does not match; without a regex it throws |
| InvariantRunner.WhenRequireVerdict | src/reviewer/checks/invariants/runner.ts:115-129 | `when_require` is violated exactly when both regexes compile, `when` matches and `require` does not; a missing regex throws |
| InvariantRunner.OtherActionsPass | src/reviewer/checks/invariants/runner.ts:82-83 | no action, or an action the evaluator does not know, is never violated and never throws (also line 131) |
| InvariantRunner.FindFile | src/reviewer/checks/invariants/runner.ts:25 | `files.find`: a file whose new or old path is the path, and none exactly when no file has it |
| InvariantRunner.Title | src/reviewer/checks/invariants/runner.ts:62 | `rule.slice(0, 80)`: a prefix of the rule of at most 80 characters, the whole rule when it is short enough |
| InvariantRunner.PlusAssoc | src/reviewer/checks/invariants/runner.ts:35-75 | appending findings, warnings and counts is associative |
| InvariantRunner.CheckFiles | src/reviewer/checks/invariants/runner.ts:47-72 | the inner loop over the changed files computes the invariant's count, findings and warnings |
| InvariantRunner.RunInvariants | src/reviewer/checks/invariants/runner.ts:34-76 | `runInvariants`: every invariant in section order, a warning for one without an action, otherwise its files |
| InvariantRunner.FilesChecked | src/reviewer/checks/invariants/runner.ts:47-49 | one invariant's count is the number of changed files its globs match, and its findings are no more |
| InvariantRunner.PairCountSnoc | src/reviewer/checks/invariants/runner.ts:41-49 | an invariant with an action adds its matched files to the count, one without adds nothing |
| InvariantRunner.CheckedCount | src/reviewer/checks/invariants/runner.ts:41-49 | `checked_invariants` is the number of (invariant with an action, matched changed file) pairs, whatever the evaluation gives, and the findings are no more |
| InvariantRunner.FilesProvenance | src/reviewer/checks/invariants/runner.ts:52-67 | each finding of one invariant carries its id, severity and category, confidence 0.95, the 80-character title and line 1 of a matched file |
| InvariantRunner.FindingsProvenance | src/reviewer/checks/invariants/runner.ts:41-67 | every finding comes from an invariant with an action, for a changed file its globs match, and carries that invariant's data |
| InvariantRunner.FilesComplete | src/reviewer/checks/invariants/runner.ts:47-67 | a violation on a matched file is reported for that invariant |
| InvariantRunner.FindingsComplete | src/reviewer/checks/invariants/runner.ts:41-67 | every violation of an invariant with an action, on a matched changed file, is reported |
| InvariantRunner.WhenRequireAndDenyExample | tests/reviewer/checks/invariants.test.ts:1-58 | a triggered `when_require` without its safeguard and a matching `deny` on one file: both reported in config order, two pairs checked, no warning |
| InvariantRunner.EvaluatorApplies | src/reviewer/checks/invariants/runner.ts:51-55 | each pair is evaluated against that file's added text |
| InvariantRunner.TwoViolations | src/reviewer/checks/invariants/runner.ts:41-73 | two violated invariants on one file give their two findings in order, two checks and no warning |
| InvariantRunner.OneViolatingFile | src/reviewer/checks/invariants/runner.ts:47-68 | one violated invariant on one file gives exactly its finding and one check |
| InvariantRunner.RunTwo | src/reviewer/checks/invariants/runner.ts:41 | two invariants run one after the other |
| Planner.NonContextIsAddsAndRemoves | src/reviewer/context/planner.ts:29 | the lines that are not context lines are exactly the added plus the removed lines |
| Planner.EstimateIsAddsAndRemoves | src/reviewer/context/planner.ts:28-30 | `estimateLinesChanged` counts exactly the file's added and removed lines |
| Planner.CalculatePriority | src/reviewer/context/planner.ts:44-77 | `calculatePriority`: 5 adjusted by each rule that applies (+1 large, +2 new, -1 deleted, +2 hotzone, +1 API), clamped to 1..10, with the reasons joined by `, ` in rule order |
| Planner.ChangedFileIff | src/reviewer/context/planner.ts:49-76 | the reason is `changed file` exactly when no rule applies, and then the priority is 5 |
| Planner.RawPriorityRange | src/reviewer/context/planner.ts:45-75 | before clamping the priority lies in 4..11, so the clamp binds only at the top |
| Planner.RankFiles | src/reviewer/context/planner.ts:90-95 | the filter-and-map step ranks exactly the non-binary files, in diff order |
| Planner.TotalOf | src/reviewer/context/planner.ts:100 | `totalPriority` is the priority sum, or 1 when that is 0, so never 0 |
| Planner.InitialWith | src/reviewer/context/planner.ts:101-104 | one allocation per selected file, with its share of the budget |
| Planner.Rescaled | src/reviewer/context/planner.ts:108-113 | the rescale pass rewrites every allocation's budget |
| Planner.SplitBudget | src/reviewer/context/planner.ts:100-104 | the split step computes the total priority, then each file's share floored at 200 |
| Planner.Rescale | src/reviewer/context/planner.ts:107-113 | the rescale runs exactly when the total exceeds the budget, once over every allocation |
| Planner.CreateContextPlan | src/reviewer/context/planner.ts:79-116 | `createContextPlan` computes the clamped budget, the strategy and the allocations after split and rescale |
| Planner.PlanLimits | src/reviewer/context/planner.ts:84-85 | the budget is clamped to 1000..50000 (default 8000) and the file cap to 1..20 (default 5) |
| Planner.BroadIff | src/reviewer/context/planner.ts:87-88 | `broad` exactly for at most three files and at most 200 changed lines |
| Planner.RankAllFromFiles | src/reviewer/context/planner.ts:90-95 | every ranked entry is a non-binary file of the diff, and there are no more entries than files |
| Planner.BudgetedShape | src/reviewer/context/planner.ts:101-113 | budgeting keeps each entry's file, priority and reason, and every budget is at least 200 |
| Planner.PlanEntries | src/reviewer/context/planner.ts:90-113 | every allocation is for a non-binary file of the diff, with priority in 1..10 and budget at least 200 |
| Planner.PlanOrder | src/reviewer/context/planner.ts:96-97 | at most `maxFiles` allocations, in non-increasing priority order |
| Planner.PlanStable | src/reviewer/context/planner.ts:96 | the sort is stable: files of equal priority keep diff order |
| Planner.DivLower | src/reviewer/context/planner.ts:102 | a multiple of t at most a bounds `floor(a / t)` from below |
| Planner.MulDiv | src/reviewer/context/planner.ts:102 | `floor(b * t / t) == b` |
| Planner.DivAdd | src/reviewer/context/planner.ts:102 | floors of parts add up to at most the floor of the sum |
| Planner.SharesBound | src/reviewer/context/planner.ts:101-104 | without floors, the shares sum to at most the budget's part for those priorities |
| Planner.ShareStep | src/reviewer/context/planner.ts:101-104 | adding one share keeps the sum of shares within the share of the sum |
| Planner.SumInitialWith | src/reviewer/context/planner.ts:101-104 | with no floor hit, the budgets are the plain shares |
| Planner.NoFloorNoRescale | src/reviewer/context/planner.ts:100-113 | when no share falls below 200, the budgets sum to at most the budget and no rescale happens |
| Planner.FixtureHotzones | tests/reviewer/context/planner.test.ts:7-32 | with hotspot `src/mcp`, the tool file is in a hotzone and the other file is not |
| Planner.SharesOfEightAndSix | tests/reviewer/context/planner.test.ts:26-32 | priorities 8 and 6 over 1000 tokens get 571 and 428 tokens, 999 in all |
| Planner.TwoRankedPlan | src/reviewer/context/planner.ts:96-113 | two ranked files of priorities 8 and 6 with a 1000-token budget keep their order and get 571 and 428 tokens |
| Planner.TwoFileFixture | tests/reviewer/context/planner.test.ts:7-32 | the test's fixture: budget 1000, two allocations, the hotspot file first, budgets 571 and 428 summing to at most 1000 |
| Fetcher.ToMaxCharsShape | src/reviewer/context/fetcher.ts:13-16 | a text within the cap is returned whole; a longer one keeps exactly its first `maxChars` characters followed by `\n...` |
| Fetcher.MergeRanges | src/reviewer/context/fetcher.ts:18-33 | the merge loop, extending the last merged range in place, computes the sorted, filtered and merged ranges |
| Fetcher.CoversAppend | src/reviewer/context/fetcher.ts:18-33 | a line is covered by two range lists together exactly when one of them covers it |
| Fetcher.StepAppend | src/reviewer/context/fetcher.ts:26-27 | pushing a range that starts past the gap keeps the list separated |
| Fetcher.StepWiden | src/reviewer/context/fetcher.ts:28-29 | widening the last range keeps the list separated and adds exactly the new range's lines |
| Fetcher.MergeSortedCorrect | src/reviewer/context/fetcher.ts:23-31 | the loop over sorted, non-empty ranges yields separated ranges covering exactly the input's lines |
| Fetcher.MergedCorrect | src/reviewer/context/fetcher.ts:18-33 | `mergeRanges` drops empty ranges and returns ranges sorted by start, neither overlapping nor adjacent (next start > previous end + 1), covering exactly the input's lines |
| Fetcher.Windows | src/reviewer/context/fetcher.ts:75-78 | one window `[max(1, l - c), min(len, l + c)]` per changed line, in order |
| Fetcher.WindowsCoverage | src/reviewer/context/fetcher.ts:75-79 | the merged windows show exactly the lines of the file within c lines of a changed line |
| Fetcher.NumberedLines | src/reviewer/context/fetcher.ts:39-42 | exactly `end - start + 1` numbered lines, one per line number |
| Fetcher.FormatSection | src/reviewer/context/fetcher.ts:35-44 | `formatSection` pushes the `Path:` and `Lines a-b` headers, then one numbered line per line number, joined by newlines |
| Fetcher.SectionShape | src/reviewer/context/fetcher.ts:39-42 | each numbered line is the number padded to five columns, two spaces and the file's line, empty past the end of the file |
| Fetcher.MinExists | src/reviewer/context/fetcher.ts:68 | a non-empty set of line numbers has a least element |
| Fetcher.SortedLines | src/reviewer/context/fetcher.ts:68 | the changed lines in strictly ascending order, the same set |
| Fetcher.ContextLinesOf | src/reviewer/context/fetcher.ts:52 | the context width is clamped to 0..200, default 20 |
| Fetcher.MaxCharsOf | src/reviewer/context/fetcher.ts:53 | the per-file cap is clamped to 1000..200000, default 20000 |
| Fetcher.FormatSections | src/reviewer/context/fetcher.ts:81-84 | one formatted section per merged range, in order |
| Fetcher.FetchPlannedContext | src/reviewer/context/fetcher.ts:46-90 | `fetchPlannedContext`: the blocks of the allocations that yield one, in allocation order, joined by `\n\n---\n\n` |
| Fetcher.BlockPresence | src/reviewer/context/fetcher.ts:56-65 | an allocation yields a block exactly when a diff file has its path as new path and the file can be read |
| Fetcher.BlocksAppend | src/reviewer/context/fetcher.ts:55-56 | blocks keep allocation order (also line 89) |
| Fetcher.FoundAt | src/reviewer/context/fetcher.ts:57 | `find` returns the first file with the path |
| Fetcher.ChangedBlockBound | src/reviewer/context/fetcher.ts:81-86 | a block built from changed lines is at most the cap plus the four characters of the marker |
| Fetcher.UnchangedFileBlock | src/reviewer/context/fetcher.ts:69-73 | a file without changed lines yields its whole content, capped, under `Path:` and `Lines 1-min(len, 200)` headers |
| Findings.SeverityRank | src/reviewer/post/normalize.ts:26-32 | `SEVERITY_ORDER[s] ?? 0`: at most 5, and positive exactly for the five known severities (also line 48) |
| Findings.DedupeFindingsById | src/reviewer/post/findings.ts:7-16 | the loop with a set of seen ids computes the first-occurrence de-duplication |
| Findings.DedupeByIdCorrect | src/reviewer/post/findings.ts:7-16 | output ids are distinct, the output is a subsequence of the input, every input id appears, each kept finding is the first with its id, and de-duplicating again changes nothing |
| Findings.DedupeExample | tests/reviewer/post/findings.test.ts:20-24 | ids `[A, B, A, C, B]` de-duplicate to `[A, B, C]` |
| PostShared.NonEmptyIds | src/reviewer/post/shared.ts:16 | `filter(Boolean)` keeps exactly the non-empty listed ids |
| PostShared.LimitToMax | src/reviewer/post/shared.ts:22-24 | the prefix of length `min(len, max(0, max))` |
| PostShared.ThresholdCorrect | src/reviewer/post/shared.ts:1-3 | `filterByThreshold` keeps exactly the items scoring at least the threshold, in order |
| PostShared.AllowedValuesCorrect | src/reviewer/post/shared.ts:5-13 | `filterByAllowedValues` is the identity without a non-empty list, otherwise keeps exactly the items whose value is listed, in order |
| PostShared.ExcludeByIdCorrect | src/reviewer/post/shared.ts:15-20 | `excludeById` ignores empty ids, is the identity when none remain, otherwise removes exactly the listed ids, in order |
| PostShared.LimitToMaxSubseq | src/reviewer/post/shared.ts:22-24 | `limitToMax` returns a subsequence of its input |
| PostNormalize.PostProcessFindings | src/reviewer/post/normalize.ts:4-24 | `limitedFindings` is the prefix of `filteredForOutput` of length `min(len, max(0, maxFindings))` |
| PostNormalize.PostProcessCorrect | src/reviewer/post/normalize.ts:14-21 | both lists keep input order, and `filteredForOutput` is the input filtered once by `Survives`, i.e. exactly the findings passing confidence, category and allowlist filters, in input order |
| PostNormalize.FiltersAsOne | src/reviewer/post/normalize.ts:14-19 | the threshold, allowed-values and exclusion filters in a row equal one filter by their conjunction |
| PostNormalize.PostProcessExample | tests/reviewer/post/normalize.test.ts:21-40 | A..E at 0.55 with C allowlisted and limit 2: `[A, D, E]` and `[A, D]` |
| PostNormalize.ExampleThreshold | tests/reviewer/post/normalize.test.ts:21-40 | the confidence filter drops only B |
| PostNormalize.ExampleAllowlist | tests/reviewer/post/normalize.test.ts:21-40 | the allowlist drops only C |
| PostNormalize.Threshold | src/reviewer/post/normalize.ts:41 | the threshold rank is in 1..5, and it is 5 exactly for CRITICAL or an unknown severity |
| PostNormalize.EvaluateFailurePolicy | src/reviewer/post/normalize.ts:34-55 | `evaluateFailurePolicy`: fails exactly when some reason was pushed, and reports the first 20 reasons |
| PostNormalize.ShouldFailIff | src/reviewer/post/normalize.ts:40-52 | the gate fails exactly when some finding has a forced non-empty id or a severity ranked at or above the threshold |
| PostNormalize.ReasonsOnePerFinding | src/reviewer/post/normalize.ts:43-52 | each tripping finding gives exactly one reason; a forced one gives `Invariant X forced-fail`, never a severity reason |
| PostNormalize.ReasonsCapped | src/reviewer/post/normalize.ts:54 | at most 20 reasons are reported, while the verdict counts all of them |
| PostNormalize.GateBySeverityExample | tests/reviewer/post/normalize.test.ts:42-64 | LOW X, HIGH Y, INFO Z failing on HIGH: the single reason `HIGH Y: y` |
| PostNormalize.GateForcedExample | tests/reviewer/post/normalize.test.ts:42-64 | the same findings forcing Z while failing on CRITICAL: the single reason `Invariant Z forced-fail` |
| Sarif.LevelByRank | src/reviewer/output/sarif.ts:6-11 | `result.level` (section 3.27.10 of SARIF 2.1.0): `error` exactly for ranks 4-5, `warning` exactly for MEDIUM, `note` for LOW, INFO and unknown severities |
| Sarif.StableRuleId | src/reviewer/output/sarif.ts:13-15 | same length; each character outside `[A-Za-z0-9_.-]` becomes `_`, every other is kept |
| Sarif.StableRuleIdFixed | src/reviewer/output/sarif.ts:13-15 | an id is kept exactly when all its characters are allowed, so the mapping is idempotent |
| Sarif.BuildRules | src/reviewer/output/sarif.ts:17-33 | the insertion-ordered map from raw id to first finding yields one rule per distinct id, from the first finding with it |
| Sarif.RulesFromFirstOccurrence | src/reviewer/output/sarif.ts:17-33 | no more rules than findings, every finding's id has a rule, each rule comes from the first finding with its id, and the raw ids are distinct |
| Sarif.BuildResult | src/reviewer/output/sarif.ts:35-58 | the result's rule id, id, uri, start line, end line (defaulting to the start line) and level come from the finding |
| Sarif.ToSarif | src/reviewer/output/sarif.ts:60-80 | the sarifLog object (section 3.13 of SARIF 2.1.0): version 2.1.0, one run whose driver is `context-engine-review` at the tool version or `unknown`, one result per finding in order, and the rules of `buildRules` |
| Sarif.OneFindingOneRule | tests/reviewer/output/sarif.test.ts:5-33 | one finding gives one rule |
| GitHubComment.EscapeMd | src/reviewer/output/github.ts:8-10 | no `<` or `>` remains, and a text without them is unchanged |
| GitHubComment.EscapeMdAppend | src/reviewer/output/github.ts:8-10 | escaping works character by character: it distributes over concatenation |
| GitHubComment.SortBySeverityCorrect | src/reviewer/output/github.ts:3-6 | the listing is in non-increasing severity rank, is a permutation of the findings, and keeps input order within a rank (also line 29) |
| GitHubComment.PushBullets | src/reviewer/output/github.ts:17-21 | the risk, classification, hotspots and gate bullets, pushed in order |
| GitHubComment.PushPreamble | src/reviewer/output/github.ts:15-27 | the title, the bullets and the escaped summary when there is one |
| GitHubComment.PushFindings | src/reviewer/output/github.ts:35-45 | the findings heading, at most 20 finding lines and the showing note |
| GitHubComment.PushReasons | src/reviewer/output/github.ts:47-54 | the gate reasons section with at most 20 escaped reasons, absent without reasons |
| GitHubComment.FormatGitHubComment | src/reviewer/output/github.ts:12-57 | `formatGitHubComment`: the summary block, then `No findings.` or the findings and reasons, joined by newlines |
| GitHubComment.GateLineTriState | src/reviewer/output/github.ts:20-21 | the gate line is FAIL exactly when the gate failed, PASS exactly when it passed, absent without a verdict |
| GitHubComment.NoFindingsComment | src/reviewer/output/github.ts:30-33 | without findings the comment is the summary block followed by `No findings.`, whatever the reasons |
| GitHubComment.FindingLinesLead | src/reviewer/output/github.ts:39 | every finding line is a `-` bullet |
| GitHubComment.ReasonLinesLead | src/reviewer/output/github.ts:52 | every reason line is a `-` bullet |
| GitHubComment.NotAmong | src/reviewer/output/github.ts:35-54 | a line that does not start with `-` is none of the bullet lines |
| GitHubComment.ListingHead | src/reviewer/output/github.ts:35-40 | the first min(20, N) findings in listing order come right after the heading |
| GitHubComment.ShowingNoteIff | src/reviewer/output/github.ts:42-45 | the `(Showing first 20 of N findings.)` note appears exactly when N > 20 |
| GitHubComment.ReasonsSectionIff | src/reviewer/output/github.ts:47-54 | the reasons section appears exactly when there are reasons, and it ends with the first min(20, count) of them |
| Prompts.CustomBlock | src/reviewer/prompts/enterprise.ts:27 | the custom-instructions block is present exactly for a non-empty string, and is then `CUSTOM INSTRUCTIONS:\n`, the text and a blank line |
| Prompts.Layout | src/reviewer/prompts/enterprise.ts:28-31 | four headed parts laid end to end can be read back at their offsets |
| Prompts.SectionsLayout | src/reviewer/prompts/enterprise.ts:28-31 | the DIFF, CONTEXT, INVARIANTS and SCHEMA headings sit in that order, each right before its text, ending with the findings schema and a newline |
| Prompts.StructuralLayout | src/reviewer/prompts/enterprise.ts:18-32 | `buildStructuralPrompt` is the fixed introduction, then the custom block, then the sections |
| Prompts.DetailedLayout | src/reviewer/prompts/enterprise.ts:34-51 | `buildDetailedPrompt` is the fixed introduction, the custom block, the `STRUCTURAL FINDINGS (JSON):` heading and JSON, then the same sections |
| CodeReviewPost.NormalizeIsSuffix | src/mcp/services/codeReviewPost.ts:4-6 | the normalized path is a suffix of the input, at most four characters shorter |
| CodeReviewPost.NormalizeSpellings | src/mcp/services/codeReviewPost.ts:4-6 | a canonical path is unchanged, and `a/q`, `b/q`, `./q`, `/q`, `a/./q`, `b//q` all normalize to it |
| CodeReviewPost.SideOnce | src/mcp/services/codeReviewPost.ts:5 | only one side prefix is removed |
| CodeReviewPost.NormalizeStripsOnce | src/mcp/services/codeReviewPost.ts:5 | `a/b/x` becomes `b/x`, so normalization is not idempotent |
| CodeReviewPost.MatchingFileMeaning | src/mcp/services/codeReviewPost.ts:15-19 | a file matches exactly when some diff file's normalized new or old path equals the normalized path, and a new-path match wins |
| CodeReviewPost.ChangedLineFlagMeaning | src/mcp/services/codeReviewPost.ts:8-27 | the flag is undefined exactly without a path, a numeric range or a matching file; otherwise it says whether a line of `[max(1, min), max(1, max)]` is changed |
| CodeReviewPost.ComputeIsOnChangedLine | src/mcp/services/codeReviewPost.ts:8-27 | the line-by-line scan computes the flag |
| CodeReviewPost.FlagOnOrdinaryRange | src/mcp/services/codeReviewPost.ts:21-26 | for `1 <= start <= end`, the flag says whether a line of the range is changed |
| CodeReviewPost.FlagOnLowRange | src/mcp/services/codeReviewPost.ts:21-26 | a range wholly at or before line 1 is checked against line 1 |
| CodeReviewPost.FlagIgnoresDirection | src/mcp/services/codeReviewPost.ts:21-22 | a reversed range is searched like the forward one |
| CodeReviewPost.BackfillAll | src/mcp/services/codeReviewPost.ts:35-39 | one backfilled finding per input finding, in order |
| CodeReviewPost.BackfillKeepsExisting | src/mcp/services/codeReviewPost.ts:34-39 | backfilling keeps an existing boolean flag and every other field, and otherwise sets the computed flag or false |
| CodeReviewPost.PostProcessReviewFindings | src/mcp/services/codeReviewPost.ts:29-64 | `postProcessReviewFindings`: backfill, the three filters, the in-place sort and the cap |
| CodeReviewPost.FilteredMembers | src/mcp/services/codeReviewPost.ts:41-55 | exactly the backfilled findings passing confidence, changed-line (P0 exempt) and category filters remain |
| CodeReviewPost.PostProcessCorrect | src/mcp/services/codeReviewPost.ts:29-64 | the output is in ascending priority, holds at most `max(0, max_findings)` findings, each a backfilled input finding passing every filter, and all of them when the cap is large enough; the output is exactly the first `min(max(0, max_findings), n)` of the priority-sorted filtered findings |
| CodeReviewPost.PostProcessStable | src/mcp/services/codeReviewPost.ts:58 | findings of equal priority keep their order |
| ExpandQuery.TokenizeMeaning | src/internal/retrieval/expandQuery.ts:49-55 | every token is a non-empty run of `[a-z0-9_]`, and the tokens together hold exactly the token characters of the lower-cased input, in order |
| ExpandQuery.TokenizeJoin | src/internal/retrieval/expandQuery.ts:49-55 | tokens joined by single spaces tokenize back to themselves |
| ExpandQuery.AddCorrect | src/internal/retrieval/expandQuery.ts:64-79 | `addVariant` keeps indices equal to positions and keys distinct, only appends, and skips exactly a blank text or a taken lower-case key, appending the trimmed text with the next index otherwise |
| ExpandQuery.AddAllCorrect | src/internal/retrieval/expandQuery.ts:64-79 | offering any candidates in turn keeps the variants well keyed and only appends |
| ExpandQuery.AddAllMono | src/internal/retrieval/expandQuery.ts:104-118 | offering more candidates only appends to the variants, which is why an early return equals a cut |
| ExpandQuery.AddAllFrom | src/internal/retrieval/expandQuery.ts:73-78 | every added variant is a trimmed candidate with its source and weight |
| ExpandQuery.ExpandVariants | src/internal/retrieval/expandQuery.ts:57-121 | `expandQuery`, with its early returns and nested loop, returns the variants of the specification `Expansion`, which looks synonyms up among the table's own entries only (the corrected lookup of the finding below; the source as written is `ExpansionAsWritten`) |
| ExpandQuery.AsWrittenAgrees | src/internal/retrieval/expandQuery.ts:57-121 | when no non-stopword token is `constructor` or `__proto__`, the source as written (plain-object lookup, loop with early return) returns exactly `Expansion`'s variants |
| ExpandQuery.Rephrase | src/internal/retrieval/expandQuery.ts:101-120 | the phrasings and the swap loop with its early return give the variants offered in full and cut to `maxVariants` |
| ExpandQuery.AddPhrasings | src/internal/retrieval/expandQuery.ts:101-102 | after the two phrasings only the swaps remain to be offered |
| ExpandQuery.OfferSwaps | src/internal/retrieval/expandQuery.ts:110-117 | the inner loop offers a prefix of the replacements, and stops early only with at least `maxVariants` variants |
| ExpandQuery.EarlyStop | src/internal/retrieval/expandQuery.ts:114-116 | returning from inside the loop gives the same variants as offering every swap and cutting |
| ExpandQuery.ExpansionHead | src/internal/retrieval/expandQuery.ts:58-61 | a blank query gives no variants; any other gives its trimmed text first, as the original with weight 1 and index 0 (also line 81) |
| ExpandQuery.ExpansionWellKeyed | src/internal/retrieval/expandQuery.ts:63-79 | no two variants share a lower-case key, each index is its position, and there are at most `max(1, maxVariants)` (also lines 115-120) |
| ExpandQuery.ExpansionOnlyOriginal | src/internal/retrieval/expandQuery.ts:83-99 | only the original is kept when `maxVariants <= 1`, the query has a backtick or exceeds 200 characters, or has fewer than two tokens or fewer than two non-stopword tokens |
| ExpandQuery.ExpansionSources | src/internal/retrieval/expandQuery.ts:101-113 | every later variant is a trimmed phrasing with weight 0.7 or a synonym swap with weight 0.6 of the non-stopword tokens |
| ExpandQuery.JoinedTokensQualify | src/internal/retrieval/expandQuery.ts:87-99 | two or more non-stopword tokens joined by spaces form a qualifying query whose core is those tokens |
| ExpandQuery.NoOwnEntryNoSwaps | src/internal/retrieval/expandQuery.ts:106-109 | with own-entry lookup, tokens without an entry of their own contribute no swaps |
| ExpandQuery.PrototypeTokenThrows | src/internal/retrieval/expandQuery.ts:104-110 | as written, a first core token that names an `Object.prototype` value makes the loop throw, whatever `maxVariants` is |
| ExpandQuery.ConstructorQueryThrows | src/internal/retrieval/expandQuery.ts:104-110 | as written, `constructor usage` throws; with own-entry lookup its original comes first |
| Dedupe.FirstRangeIsFirst | src/internal/retrieval/dedupe.ts:11 | the range found is the leftmost match of `(\d+)\s*-\s*(\d+)` |
| Dedupe.FirstMatchUnique | src/internal/retrieval/dedupe.ts:11 | there is only one leftmost match |
| Dedupe.ParseLineRangeMeaning | src/internal/retrieval/dedupe.ts:7-21 | no match gives no range; otherwise the leftmost match's numbers when start <= end, and no range when end < start |
| Dedupe.RangeAtJoined | src/internal/retrieval/dedupe.ts:11 | two digit runs joined by a dash match at position 0 with their values |
| Dedupe.LineRangeRoundTrip | src/internal/retrieval/dedupe.ts:7-21 | the text `a-b` reads back as the range a..b when a <= b, and as no range otherwise |
| Dedupe.OverlapRatioProperties | src/internal/retrieval/dedupe.ts:23-32 | the ratio is symmetric; for valid ranges it lies in [0, 1], is positive exactly when the ranges share a line, and is 1 exactly when one lies within the other |
| Dedupe.CollapseShape | src/internal/retrieval/dedupe.ts:35 | collapsing leaves only single plain spaces, is empty only for empty text, and keeps whether the text starts with a space |
| Dedupe.CollapseVisible | src/internal/retrieval/dedupe.ts:35 | collapsing keeps the non-space characters |
| Dedupe.NormalizeContentProperties | src/internal/retrieval/dedupe.ts:34-36 | normalised content has no space at either end, only single plain spaces, the input's non-space characters, and is idempotent |
| Dedupe.SortByScoreCorrect | src/internal/retrieval/dedupe.ts:56-60 | the ordered group is highest score first, a permutation, and stable for equal scores |
| Dedupe.IsDuplicateSymmetric | src/internal/retrieval/dedupe.ts:68-80 | being a duplicate does not depend on which result came first |
| Dedupe.AnyDuplicate | src/internal/retrieval/dedupe.ts:68-80 | `kept.some(...)` finds a duplicate exactly when one exists |
| Dedupe.KeepDistinct | src/internal/retrieval/dedupe.ts:62-85 | the loop over one ordered group keeps what `Kept` specifies |
| Dedupe.KeptSubseq | src/internal/retrieval/dedupe.ts:62-85 | the kept results are a subsequence of the ordered group |
| Dedupe.KeptHead | src/internal/retrieval/dedupe.ts:64-84 | the first result of an ordered group is always kept first |
| Dedupe.KeptDistinct | src/internal/retrieval/dedupe.ts:68-84 | no kept result is a duplicate of one kept before it |
| Dedupe.KeptCovers | src/internal/retrieval/dedupe.ts:68-84 | every dropped result is a duplicate of a kept one |
| Dedupe.KeptSorted | src/internal/retrieval/dedupe.ts:62-85 | the kept results stay highest score first |
| Dedupe.GroupByPath | src/internal/retrieval/dedupe.ts:43-51 | the Map's keys are the paths in order of first appearance, each holding its results in input order |
| Dedupe.PathsOfMembers | src/internal/retrieval/dedupe.ts:45-51 | the keys are exactly the paths that occur |
| Dedupe.PathsOfDistinct | src/internal/retrieval/dedupe.ts:47-49 | every key occurs once |
| Dedupe.PathsOfOrder | src/internal/retrieval/dedupe.ts:45-51 | the keys come in order of first appearance |
| Dedupe.GroupMembers | src/internal/retrieval/dedupe.ts:50 | a group holds exactly the input results of its path |
| Dedupe.DedupeResults | src/internal/retrieval/dedupe.ts:38-91 | `dedupeResults` returns the specification `Deduped` for the given threshold, 0.6 when none is given |
| Dedupe.BlockFacts | src/internal/retrieval/dedupe.ts:55-87 | one path's block holds input results of that path, highest score first, with no duplicate of an earlier one |
| Dedupe.DedupedByPath | src/internal/retrieval/dedupe.ts:55-87 | the output's results of a path are exactly those kept from its score-ordered group, a subsequence of it |
| Dedupe.DedupedMembers | src/internal/retrieval/dedupe.ts:38-91 | every output result is an input result |
| Dedupe.DedupedOrder | src/internal/retrieval/dedupe.ts:55 | results of different paths come in the order in which the paths first appear (also line 87) |
| Dedupe.DedupedWithinPath | src/internal/retrieval/dedupe.ts:56-85 | within one path the output is highest score first and no result is a duplicate of another, either way round |
| Dedupe.DedupedKeepsTop | src/internal/retrieval/dedupe.ts:56-84 | the highest-scored result of every path is kept |
| Dedupe.DedupedCovers | src/internal/retrieval/dedupe.ts:68-84 | every dropped result is a duplicate of a kept one |
| ToolInventory.ExtractArrayBlock | scripts/extract-tool-inventory.ts:53-70 | the bracket-counting scan computes the specification `ArrayBlock` |
| ToolInventory.CloseMeaning | scripts/extract-tool-inventory.ts:58-69 | the scan stops exactly where the depth first drops back to zero on a closing bracket, and finds nothing exactly when that never happens |
| ToolInventory.ArrayBlockFromOpen | scripts/extract-tool-inventory.ts:53-70 | once the opening bracket is found, the block is missing exactly when it is never closed, and otherwise is balanced and followed by its closing bracket |
| ToolInventory.ArrayBlockMissing | scripts/extract-tool-inventory.ts:54-57 | without the marker, or without an opening bracket, there is no block |
| ToolInventory.ArrayBlockOfList | scripts/extract-tool-inventory.ts:53-70 | `tools: [`, bracket-free text and `]` yield that text as the block, whatever follows |
| ToolInventory.StripCommentPlain | scripts/extract-tool-inventory.ts:77 | on a line without a line terminator the comment starts at the first `//` and runs to the end |
| ToolInventory.StripCommentCarriageReturn | scripts/extract-tool-inventory.ts:76-77 | a line ending in a carriage return keeps its comment, since `.` does not match it |
| ToolInventory.ListToolsSymbolsMeaning | scripts/extract-tool-inventory.ts:72-81 | no block gives no symbols; otherwise each symbol is a run of `[A-Za-z0-9_]` and together they are the identifier characters of the cleaned block, in order |
| ToolInventory.CleanBlockOfList | scripts/extract-tool-inventory.ts:75-78 | a single line of identifiers, commas and inner spaces is its own cleaned block |
| ToolInventory.ListToolsSymbolsOfList | scripts/extract-tool-inventory.ts:72-81 | identifiers listed as `tools: [a, b, c]` are read back exactly |
| ToolInventory.ParseManifestToolNames | scripts/extract-tool-inventory.ts:93-103 | the method computes the specification `ManifestToolNames` |
| ToolInventory.ScanQuoted | scripts/extract-tool-inventory.ts:97-101 | the `exec` loop collects every quoted name from the start of the block |
| ToolInventory.QuotedFromNext | scripts/extract-tool-inventory.ts:99-100 | one `exec` step keeps the loop's invariant |
| ToolInventory.QuotedFromShape | scripts/extract-tool-inventory.ts:97 | every name is non-empty and holds no quote |
| ToolInventory.ManifestToolNamesShape | scripts/extract-tool-inventory.ts:93-103 | every manifest name is non-empty and holds no quote |
| ToolInventory.QuotedNameAt | scripts/extract-tool-inventory.ts:97-100 | a quoted name at the scan position is found by one `exec` |
| ToolInventory.QuotedFromList | scripts/extract-tool-inventory.ts:97-101 | names written as `'a', 'b'` are read back exactly |
| ToolInventory.ManifestToolNamesOfList | scripts/extract-tool-inventory.ts:93-103 | names written as `tools: ['a', 'b']` are read back exactly |
| ToolInventory.FormatPath | scripts/extract-tool-inventory.ts:141-144 | a missing or empty path gives the empty text, and no formatted path holds a backslash |
| ToolInventory.RenderMarkdown | scripts/extract-tool-inventory.ts:209-228 | the markdown is the inventory's lines joined by newlines |
| ToolInventory.MarkdownShape | scripts/extract-tool-inventory.ts:209-228 | the document is the eight head lines, one row per record in order, then the five note lines |
| ToolInventory.MarkdownCount | scripts/extract-tool-inventory.ts:213-215 | the third line carries the time stamp and the fifth the record count in decimal |
| ToolInventory.RecordRowCells | scripts/extract-tool-inventory.ts:220 | a record's row splits on `|` back into its eight cells when no cell holds a `|` or edge space |
| Enhance.BuildAIEnhancementPromptEnds | src/mcp/tools/enhance.ts:39-53 | the instruction starts with the fixed text and ends with the original prompt verbatim, which can be read back |
| Enhance.BuildAIEnhancementPromptInjective | src/mcp/tools/enhance.ts:39-53 | distinct prompts give distinct instructions |
| Enhance.TagPair | src/mcp/tools/enhance.ts:63-65 | a match found is an opening tag followed by a closing tag |
| Enhance.TagPairMeaning | src/mcp/tools/enhance.ts:63-65 | there is a match exactly when a tag pair occurs; it is the leftmost, and its capture holds no closing tag (lazy match) |
| Enhance.ParseEnhancedPromptTrimmed | src/mcp/tools/enhance.ts:61-72 | an answer is trimmed text that occurs in the reply |
| Enhance.ParseEnhancedPromptOfTagged | src/mcp/tools/enhance.ts:61-72 | a reply with `<enhanced-prompt>t</enhanced-prompt>` after tag-free text yields the trimmed `t`, or nothing for an empty `t` |
| Enhance.ParseEnhancedPromptBlank | src/mcp/tools/enhance.ts:67-68 | a capture of spaces only yields an empty answer rather than none |
| Enhance.EmptyResponseUncaught | src/mcp/tools/enhance.ts:110-126 | the empty-reply error leaves the `catch` unchanged |
| Enhance.HandleAIEnhanceOutcome | src/mcp/tools/enhance.ts:82-128 | success exactly for a non-empty reply, then a non-empty text: the trimmed answer or the reply with the note; an empty reply fails with the empty-reply error; a failed call fails with its message or the login advice |
| Enhance.HandleAIEnhanceBlank | src/mcp/tools/enhance.ts:97-108 | a reply whose answer is only spaces is handed back whole with the note |
| Enhance.HandleEnhancePromptValidates | src/mcp/tools/enhance.ts:137-155 | only prompts of 1 to 10000 characters reach the model; the others fail with the matching message |
| Tokens.RunsMeaning | src/internal/retrieval/expandQuery.ts:52-54 | every run is a non-empty string of the class, and together the runs hold exactly the class characters, in order |
| Tokens.RunsJoin | scripts/extract-tool-inventory.ts:79 | runs joined by a separator outside the class split back into themselves |
| ReviewPipeline.SettingsOf | src/reviewer/reviewDiff.ts:87-92 | each option falls back to its default: LLM off, not forced, risk threshold 3, confidence 0.55, 20 findings, two passes, 8000 tokens, 5 files, CRITICAL, no invariant ids (also lines 120-133, 171-172) |
| ReviewPipeline.DefaultSettings | src/reviewer/reviewDiff.ts:87-92 | with no options every setting is its default (also lines 120-133, 171-172) |
| ReviewPipeline.ChangeTypeName | src/reviewer/reviewDiff.ts:55 | the change type is carried as one of the five class names |
| ReviewPipeline.ChangeTypeNameInjective | src/reviewer/reviewDiff.ts:55 | distinct change types have distinct names |
| ReviewPipeline.RunPreflight | src/reviewer/reviewDiff.ts:56 | the preflight computes `PreflightOf` (the config flag uses the same terminator-free tsconfig test), with a risk score in 1..5 |
| ReviewPipeline.PrimaryLocation | src/reviewer/reviewDiff.ts:246-251 | a finding without its own location points at line 1 of the first changed file, or of `(multiple files)` when there is none |
| ReviewPipeline.Pre001 | src/reviewer/reviewDiff.ts:255-266 | PRE001 is a MEDIUM reliability finding at the primary location with confidence 0.95 |
| ReviewPipeline.Pre002 | src/reviewer/reviewDiff.ts:268-279 | PRE002 is a HIGH architecture finding at the primary location with confidence 0.9 |
| ReviewPipeline.Pre003 | src/reviewer/reviewDiff.ts:281-292 | PRE003 carries its fixed severity, category and confidence at the primary location |
| ReviewPipeline.Pre004 | src/reviewer/reviewDiff.ts:294-305 | PRE004 carries its fixed severity, category and confidence at the primary location |
| ReviewPipeline.Pre005 | src/reviewer/reviewDiff.ts:307-318 | PRE005 carries its fixed severity, category and confidence at the primary location |
| ReviewPipeline.DeterministicFindings | src/reviewer/reviewDiff.ts:236-321 | there are at most five deterministic findings |
| ReviewPipeline.PreTable | src/reviewer/reviewDiff.ts:255-318 | the five PRE findings carry their ranks and fixed table rows |
| ReviewPipeline.PushRank | src/reviewer/reviewDiff.ts:248-253 | a conditional push adds a rank exactly when it happens with a finding of that rank |
| ReviewPipeline.RankAfterPushes | src/reviewer/reviewDiff.ts:255-318 | after the five conditional pushes a rank is present exactly when a push that happened had it |
| ReviewPipeline.PushesOrdered | src/reviewer/reviewDiff.ts:255-318 | pushes of findings ranked 1 to 5 in that order give an ordered, well-formed list |
| ReviewPipeline.DeterministicRanks | src/reviewer/reviewDiff.ts:255-318 | rank `k` is present exactly when the `k`-th condition holds, and the list is ordered and well formed |
| ReviewPipeline.DeterministicFindingsShape | src/reviewer/reviewDiff.ts:236-321 | each PRE id is present exactly when its condition holds (PRE001: no tests touched and neither docs nor infra), in order PRE001..PRE005, with its fixed severity and category, at the primary location, confidence at least 0.85 |
| ReviewPipeline.BuildDeterministicFindings | src/reviewer/reviewDiff.ts:236-321 | the pushes compute `DeterministicFindings` |
| ReviewPipeline.SentenceUntrimmed | src/reviewer/reviewDiff.ts:233 | a text opening with `C` and closing with a full stop is left whole by trimming |
| ReviewPipeline.SummaryShape | src/reviewer/reviewDiff.ts:223-234 | the summary is the whole untrimmed sentence, opening with the class and risk and closing with the finding count, or with the hotspot list when there are hotspots |
| ReviewPipeline.SectionLines | src/reviewer/reviewDiff.ts:337-341 | a section's lines are its header with a colon, one line per invariant, and a blank line |
| ReviewPipeline.InvariantsTextNone | src/reviewer/reviewDiff.ts:343 | the invariants text is `(none)` exactly when the config has no section |
| ReviewPipeline.PushSection | src/reviewer/reviewDiff.ts:337-341 | pushing a section appends exactly its lines |
| ReviewPipeline.FormatInvariants | src/reviewer/reviewDiff.ts:334-344 | the loops compute `InvariantsText`, which is `(none)` exactly for an empty config |
| ReviewPipeline.InvariantsStageOf | src/reviewer/reviewDiff.ts:58-75 | no path gives nothing; a path without a workspace gives only the skip warning; a failed load gives only the failure warning; the prompt text is `(none)` in all three |
| ReviewPipeline.RunInvariantsStep | src/reviewer/reviewDiff.ts:58-75 | the invariants step computes `InvariantsStageOf` |
| ReviewPipeline.LlmStageOf | src/reviewer/reviewDiff.ts:94-159 | the skip reason is `missing_runtime` exactly when enabled without a runtime (with its warning), `noise_gate_low_risk` exactly when the gate holds, and none exactly when disabled or run; without a run there are no passes and no findings; a model is reported only with a runtime |
| ReviewPipeline.RunLlmStep | src/reviewer/reviewDiff.ts:94-159 | the LLM step computes `LlmStageOf` |
| ReviewPipeline.RunFront | src/reviewer/reviewDiff.ts:54-92 | parse, preflight, settings, invariants and deterministic findings fit their specifications |
| ReviewPipeline.RunBack | src/reviewer/reviewDiff.ts:94-173 | the LLM step, the merge, the filters, the cut and the gate fit their specifications |
| ReviewPipeline.RenderOutput | src/reviewer/reviewDiff.ts:213-218 | a SARIF log exactly when `include_sarif` is true, with one result per finding, and a markdown comment exactly when `include_markdown` is true |
| ReviewPipeline.ReviewDiff | src/reviewer/reviewDiff.ts:51-221 | `reviewDiff`: every stage in order, the result assembled from them, and the requested renderings |
| ReviewPipeline.MergeOrder | src/reviewer/reviewDiff.ts:161 | merged ids are distinct; each kept finding is the first invariant finding with its id, else the first LLM one, else the first deterministic one; every id is kept (the de-duplication is at lines 323-332) |
| ReviewPipeline.ReviewFindings | src/reviewer/reviewDiff.ts:161-167 | returned findings are merged findings passing the confidence, category and allowlist filters, in merge order, at most `max(0, max_findings)`, with distinct ids; every merged finding passing them reaches the gate's list |
| ReviewPipeline.FilteredFindings | src/reviewer/reviewDiff.ts:162-167 | the filter stage on a merged list satisfies the same |
| ReviewPipeline.GateBeforeCut | src/reviewer/reviewDiff.ts:166-173 | the gate reads the list before the cut, so `max_findings` never changes whether or why the run fails |
| ReviewPipeline.CutFindingStillFails | src/reviewer/reviewDiff.ts:167-173 | with `max_findings` 0 a CRITICAL finding is not returned, yet the run fails on it |
| ReviewPipeline.NoWorkspaceSkipsInvariants | src/reviewer/reviewDiff.ts:61-63 | `invariants_path` without `workspace_path`: the skip warning comes first, no invariant finding is merged, and the prompt gets `(none)` (also lines 161, 208) |
| ReviewPipeline.PassesOnlyWhenRun | src/reviewer/reviewDiff.ts:201-203 | passes and LLM findings are 0 unless the LLM review ran, and the skip reason is the LLM step's (also lines 95-96) |
| ReviewPipeline.NoOptionsDeterministicOnly | src/reviewer/reviewDiff.ts:87-99 | with no options the LLM and invariants do not run, and the merged findings are the deterministic ones (also lines 61, 161) |

## Left out

- File system, YAML, directory listing: `loadInvariantsConfig` is modelled from the parsed value on (`Invariants.LoadInvariantsConfig` takes a JSON-like `Json` value); reading and parsing the file are a parameter of the pipeline (`Env.readInvariantsFile`), and `main`, `buildInventory`, `readToolFiles` and `parseToolDefinitions` of the tool-inventory script, which read directories and files, are not modelled; `parseImports` and `parseCaseHandlers` take file contents as strings but lie outside the modelled core and are not modelled either.
- Asynchronous I/O: the `readFile` callback is a map from path to content; a missing key is a failed read. Awaiting is not modelled; every step is sequential.
- The LLM: `runTwoPassReview` is a function parameter of the `LlmClient` (it receives the prompt builders' inputs), and `searchAndAsk` in enhance.ts is a function parameter returning a result. `scrubSecrets` is a function parameter.
- Regular expressions and globs given at run time: an invariant's regex test is a parameter (`InvariantRunner.Compile`) returning the engine's error text when the pattern does not compile, which `InvariantRunner.CompileRegex` wraps in the `Invalid regex` message, and `minimatch` is a parameter. The fixed patterns in parse.ts, classify.ts, preflight.ts, planner.ts, dedupe.ts, expandQuery.ts, enhance.ts and the tool-inventory script are written out as character-level definitions.
- Clocks and identifiers: `Date.now`, `new Date().toISOString()` and `crypto.randomUUID` are parameters (`Env` fields and `RenderMarkdown`'s `generatedAt`); the duration is their difference.
- Console logging in enhance.ts and the tool-inventory script is not modelled.
- `path.relative` in the tool-inventory script's `formatPath` is a function parameter; only the backslash replacement is modelled.
- Character set: `toLowerCase` is ASCII lower-casing, `trim` and `\s` use the JavaScript white-space set restricted to what a `char` holds, and string length is the number of `char`s (UTF-16 surrogate pairs are not modelled).
- Numbers: confidences, thresholds and overlap ratios are exact reals rather than IEEE doubles; the preflight risk is counted in half-points and the planner's budget split uses exact integer division, which can differ from the source's floating-point `Math.floor` by one in rare cases. `Number(...)` of a digit run is its exact value, with no loss of precision past 2^53. A finding's line range in `computeIsOnChangedLine` is a pair of integers: the fractional, `NaN` and infinite values that `typeof ... === 'number'` also accepts are not modelled.
- Object key order: `Object.entries` of a parsed invariants config is taken as the order of the config's key list; the integer-like keys JavaScript would move to the front are not modelled.
- Untyped input: a severity outside the five names, or a lookup under `constructor` or `__proto__` in `SEVERITY_ORDER`, is reachable only through untyped values; unknown severities rank 0 as in the source, and prototype members are not modelled there. In an invariant's warning text, a `pattern` or `flags` that is a number, an array or an object renders as `undefined` (`InvariantRunner.PropText`), where the template string would give its decimal text, its joined elements or `[object Object]`. In `isHotzone` (src/reviewer/context/planner.ts:32-42) a hotspot id that names an `Object.prototype` member (`constructor`, `__proto__`, `toString`) reaches an inherited value with no `test` method, so the call throws; `Planner.IsHotzone` treats such an id as no hot zone. Preflight only produces its six fixed zone ids, so the throwing path needs a hand-built preflight result.
- In-place sorts (`postProcessReviewFindings`, `sortBySeverity`, the planner and retrieval sorts) are modelled as stable sorts on values, which is what `Array.prototype.sort` guarantees; the aliasing of the sorted array is not modelled.
- src/reviewer/reviewDiff.ts:323-332 and 346-375 are copies of `dedupeFindingsById` and `evaluateFailurePolicy` from src/reviewer/post/; the pipeline uses the `Findings` and `PostNormalize` models of them.
- `reviewDiff` with no options object is `NoOptions` (every option absent); the `catch` around loading and running the invariants is modelled for failures of reading and loading the config, the only ones the model can raise, and `String(e)` of the thrown value is supplied by `Env.readInvariantsFile`.
- ReviewPipeline.RunFront, ReviewPipeline.RunBack, ReviewPipeline.RenderOutput, ReviewPipeline.PushSection, ExpandQuery.Rephrase, ExpandQuery.AddPhrasings, ExpandQuery.OfferSwaps and Dedupe.KeepDistinct are pieces of one source function split out as methods; they have no source function of their own.
- ReviewPipeline.ReviewDiff: the pipeline is specified step by step (each stage equals a function of the earlier ones), and the end-to-end properties are lemmas over those stages rather than one `ensures` on the method.
- ReviewPipeline.RenderOutput: states of the SARIF log only its version, its single run and one result per finding, because `Sarif.ToSarif` is a method whose own contract states the log's content; the markdown comment is stated in full as the joined lines of `GitHubComment.CommentLines`.
- ExpandQuery.Expansion: `maxVariants` is an integer and has no default; a caller relying on the source's default passes 4 explicitly. Non-integer values, which the source accepts, are not modelled: with 2.5 the early stop fires at 3 variants while `slice(0, 2.5)` keeps 2, and with `NaN` neither the `<= 1` test nor the early stop fires and `slice(0, NaN)` returns no variants.
- Preflight.McpToolExportScenario: states that `src/mcp` is among the hotspots of the test's diff, not that it is the only one; the exact risk of 4 for one hot zone is stated separately by Preflight.McpToolExportRisk.
- The types files src/reviewer/types.ts, src/reviewer/llm/types.ts and src/internal/retrieval/types.ts are not part of this model beyond the records the modelled functions use.
- src/mcp/indexStateStore.ts, src/internal/retrieval/rerank.ts, src/internal/handlers/*, src/config/features.ts and src/mcp/tools/codebaseRetrieval.ts are not part of this model.

## Findings

| source | as written | input that shows it | evidently intended | confidence | as-written member | corrected member |
|---|---|---|---|---|---|---|
| src/internal/retrieval/expandQuery.ts:104-110 | `SYNONYMS` is a plain object literal, so `SYNONYMS[token]` for the token `constructor` (or `__proto__`) yields an inherited `Object.prototype` value; it is truthy, and `for...of` over it throws a `TypeError`, so `expandQuery` throws | `expandQuery("constructor usage", 4)` (any `maxVariants` of 2 or more) | only the table's own entries are synonyms: the query gets its original and two phrasings and no swaps | not executed | ExpandQuery.ConstructorQueryThrows, ExpandQuery.PrototypeTokenThrows | ExpandQuery.NoOwnEntryNoSwaps, ExpandQuery.ExpansionSources |
