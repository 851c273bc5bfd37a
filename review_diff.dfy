/** The review pipeline (`reviewDiff`): parse, classify and preflight the
    diff, run the invariants, decide on and run the LLM pass, merge and
    filter the findings, apply the CI gate and assemble the result. The
    file system, the YAML parser, the glob and regex engines, the secret
    scrubber, the LLM and the clock are parameters. */
module ReviewPipeline {
  import opened Wrappers
  import opened Text
  import opened Seqs
  import opened Uniq
  import opened DiffModel
  import DiffParse
  import Classify
  import opened Preflight
  import opened Findings
  import opened Invariants
  import InvariantRunner
  import Planner
  import Fetcher
  import Prompts
  import PostShared
  import opened PostNormalize
  import opened ReviewResults
  import Sarif
  import GitHubComment

  const TOOL_VERSION := "2.0.0-phase1"

  const SKIP_INVARIANTS_WARNING := "invariants_path provided but workspace_path was not provided; skipping invariants"
  const MISSING_RUNTIME_WARNING := "LLM enabled but runtime.readFile/runtime.llm not provided; skipping LLM pass"

  // ---------------------------------------------------------------------
  // Inputs
  // ---------------------------------------------------------------------

  /** `ReviewDiffOptions`; an absent options object is every field `None`. */
  datatype ReviewOptions = ReviewOptions(
    confidenceThreshold: Option<real>,
    maxFindings: Option<int>,
    categories: Option<seq<string>>,
    invariantsPath: Option<string>,
    enableLlm: Option<bool>,
    llmForce: Option<bool>,
    twoPass: Option<bool>,
    riskThreshold: Option<int>,
    tokenBudget: Option<int>,
    maxContextFiles: Option<int>,
    customInstructions: Option<string>,
    failOnSeverity: Option<string>,
    failOnInvariantIds: Option<seq<string>>,
    allowlistFindingIds: Option<seq<string>>,
    includeSarif: Option<bool>,
    includeMarkdown: Option<bool>)

  const NoOptions := ReviewOptions(None, None, None, None, None, None, None, None, None, None, None, None, None, None, None, None)

  /** What both prompt builders close over: the scrubbed diff, context and
      invariants text, and the custom instructions. */
  datatype PromptInputs = PromptInputs(diff: string, context: string, invariants: string, customInstructions: Option<string>)

  /** What the two-pass LLM review is given: whether to run the second pass,
      the risk threshold for it, the risk score, and what the prompt builders
      close over (`StructuralPrompt` and `DetailedPrompt` are the builders). */
  datatype TwoPassRequest = TwoPassRequest(
    twoPass: bool,
    riskThreshold: int,
    riskScore: nat,
    prompts: PromptInputs)

  /** The `buildStructuralPrompt` closure of a request. */
  function StructuralPrompt(r: TwoPassRequest): string {
    Prompts.BuildStructuralPrompt(r.prompts.diff, r.prompts.context, r.prompts.invariants, r.prompts.customInstructions)
  }

  /** The `buildDetailedPrompt` closure of a request, given the structural pass's JSON. */
  function DetailedPrompt(r: TwoPassRequest, structuralJson: string): string {
    Prompts.BuildDetailedPrompt(r.prompts.diff, r.prompts.context, r.prompts.invariants, structuralJson,
      r.prompts.customInstructions)
  }

  /** What `runTwoPassReview` returns. */
  datatype TwoPassOutcome = TwoPassOutcome(findings: seq<Finding>, warnings: seq<string>, passesExecuted: nat)

  /** An `EnterpriseLLMClient`: its model name and the two-pass review run with it. */
  datatype LlmClient = LlmClient(model: Option<string>, runTwoPass: TwoPassRequest -> TwoPassOutcome)

  /** `input.runtime`: the files `readFile` can read, and the LLM client. */
  datatype Runtime = Runtime(readFile: Option<map<string, string>>, llm: Option<LlmClient>)

  /** `ReviewDiffInput`. */
  datatype ReviewInput = ReviewInput(
    diff: string,
    changedFiles: Option<seq<string>>,
    workspacePath: Option<string>,
    options: ReviewOptions,
    runtime: Runtime)

  /** Everything the pipeline takes from outside: the run id, the clock,
      reading and YAML-parsing the invariants file (the error is the thrown
      value as `String(e)` renders it), the glob matcher, the regex compiler
      and the secret scrubber. */
  datatype Env = Env(
    runId: string,
    reviewedAt: string,
    startMs: int,
    endMs: int,
    readInvariantsFile: (string, string) -> Result<Json, string>,
    glob: (string, string) -> bool,
    compile: InvariantRunner.Compile,
    scrub: string -> string)

  /** A string option is truthy when present and non-empty. */
  predicate Truthy(s: Option<string>) {
    s.Some? && s.value != ""
  }

  // ---------------------------------------------------------------------
  // Settings and their defaults
  // ---------------------------------------------------------------------

  datatype Settings = Settings(
    llmEnabled: bool,
    llmForce: bool,
    riskThreshold: int,
    confidenceThreshold: real,
    maxFindings: int,
    twoPass: bool,
    tokenBudget: int,
    maxContextFiles: int,
    failOnSeverity: string,
    failOnInvariantIds: seq<string>)

  /** The options with every `??` default applied. */
  function SettingsOf(o: ReviewOptions): (s: Settings)
    ensures s.llmEnabled <==> o.enableLlm == Some(true)
    ensures s.llmForce <==> o.llmForce == Some(true)
    ensures s.riskThreshold == if o.riskThreshold.Some? then o.riskThreshold.value else 3
    ensures s.confidenceThreshold == if o.confidenceThreshold.Some? then o.confidenceThreshold.value else 0.55
    ensures s.maxFindings == if o.maxFindings.Some? then o.maxFindings.value else 20
    ensures s.twoPass <==> o.twoPass != Some(false)
    ensures s.tokenBudget == if o.tokenBudget.Some? then o.tokenBudget.value else 8000
    ensures s.maxContextFiles == if o.maxContextFiles.Some? then o.maxContextFiles.value else 5
    ensures s.failOnSeverity == if o.failOnSeverity.Some? then o.failOnSeverity.value else "CRITICAL"
    ensures s.failOnInvariantIds == if o.failOnInvariantIds.Some? then o.failOnInvariantIds.value else []
  {
    Settings(
      o.enableLlm.GetOr(false), o.llmForce.GetOr(false), o.riskThreshold.GetOr(3),
      o.confidenceThreshold.GetOr(0.55), o.maxFindings.GetOr(20), o.twoPass.GetOr(true),
      o.tokenBudget.GetOr(8000), o.maxContextFiles.GetOr(5), o.failOnSeverity.GetOr("CRITICAL"),
      o.failOnInvariantIds.GetOr([]))
  }

  /** With no options the LLM is off, the risk threshold is 3, the confidence
      threshold 0.55, at most 20 findings are kept, two passes are run on
      a budget of 8000 tokens over 5 files, and only CRITICAL fails the run. */
  lemma DefaultSettings()
    ensures SettingsOf(NoOptions) == Settings(false, false, 3, 0.55, 20, true, 8000, 5, "CRITICAL", [])
  {
  }

  // ---------------------------------------------------------------------
  // Classification names and preflight
  // ---------------------------------------------------------------------

  /** The change type as the result carries it. */
  function ChangeTypeName(c: Classify.ChangeType): (s: string)
    ensures s in ["feature", "bugfix", "refactor", "infra", "docs"]
  {
    match c
    case Feature => "feature"
    case Bugfix => "bugfix"
    case Refactor => "refactor"
    case Infra => "infra"
    case Docs => "docs"
  }

  /** Distinct change types have distinct names. */
  lemma ChangeTypeNameInjective(a: Classify.ChangeType, b: Classify.ChangeType)
    ensures ChangeTypeName(a) == ChangeTypeName(b) ==> a == b
  {
  }

  /** The preflight result as a value of the diff and the caller's file list. */
  function PreflightOf(d: ParsedDiff, provided: Option<seq<string>>): PreflightResult {
    var files := ChangedFiles(d, provided);
    var hotspots := Hotspots(files);
    var api := DetectPublicApiChange(d, files);
    var config := exists i :: 0 <= i < |files| && IsConfigPath(files[i]);
    var tests := exists i :: 0 <= i < |files| && Classify.IsTestPath(files[i]);
    var binary := exists i :: 0 <= i < |d.files| && d.files[i].isBinary;
    var halves := RawRiskHalves(|files|, |hotspots|, api, config, tests);
    PreflightResult(files, hotspots, api, config, tests, binary, RiskScore(halves), halves, 5)
  }

  /** `runDeterministicPreflight` computes `PreflightOf`. */
  method RunPreflight(d: ParsedDiff, provided: Option<seq<string>>) returns (pre: PreflightResult)
    ensures pre == PreflightOf(d, provided)
    ensures 1 <= pre.riskScore <= 5
  {
    pre := RunDeterministicPreflight(d, provided);
    RawRiskHalvesExact(|pre.changedFiles|, |pre.hotspots|, pre.publicApiChanged, pre.configChanged, pre.testsTouched);
  }

  // ---------------------------------------------------------------------
  // Deterministic findings (`buildDeterministicFindings`)
  // ---------------------------------------------------------------------

  /** The facts the deterministic findings are built from. */
  datatype FindingArgs = FindingArgs(
    classification: string,
    changedFiles: seq<string>,
    hotspots: seq<string>,
    configChanged: bool,
    publicApiChanged: bool,
    testsTouched: bool,
    isBinaryChange: bool)

  /** Where a finding without its own location points: the first changed
      file, or `(multiple files)` when there is none, at line 1. */
  function PrimaryLocation(changedFiles: seq<string>): (loc: Location)
    ensures loc.startLine == 1 && loc.endLine == Some(1)
    ensures |changedFiles| > 0 ==> loc.file == changedFiles[0]
    ensures |changedFiles| == 0 ==> loc.file == "(multiple files)"
  {
    Location(if |changedFiles| > 0 then changedFiles[0] else "(multiple files)", 1, Some(1))
  }

  /** `changed_files: ` and the first ten files, with `, ...` when there are more. */
  function ChangedFilesEvidence(changedFiles: seq<string>): string {
    var shown := if |changedFiles| > 10 then changedFiles[..10] else changedFiles;
    "changed_files: " + Join(shown, ", ") + (if |changedFiles| > 10 then ", ..." else "")
  }

  /** The hotspot list, or `(none)` when it joins to nothing. */
  function HotspotsOrNone(hotspots: seq<string>): string {
    var joined := Join(hotspots, ", ");
    if joined == "" then "(none)" else joined
  }

  /** The fixed texts of the deterministic findings. */
  const PRE001_TITLE := "No tests appear to be touched by this change"
  const PRE001_IMPACT := "Risk of regressions is higher without test changes or additions."
  const PRE001_RECOMMENDATION := "Add or update tests covering the modified behavior, or justify why no tests are needed."
  const PRE002_TITLE := "Possible public API surface change detected"
  const PRE002_EVIDENCE := "Detected export-related changes or updates to entry/tool registration paths."
  const PRE002_IMPACT := "Downstream clients may break if the API change is not backward compatible."
  const PRE002_RECOMMENDATION := "Review API compatibility, update documentation, and ensure semantic versioning expectations are met."
  const PRE003_TITLE := "Configuration or CI-related files changed"
  const PRE003_IMPACT := "Build, release, or runtime behavior can change in subtle ways."
  const PRE003_RECOMMENDATION := "Verify build/test locally and confirm CI behavior matches expectations."
  const PRE004_TITLE := "Binary file change detected in diff"
  const PRE004_EVIDENCE := "Binary files were detected; content cannot be reviewed deterministically."
  const PRE004_IMPACT := "Reviewers cannot evaluate binary changes for safety or correctness."
  const PRE004_RECOMMENDATION := "Provide provenance and rationale (e.g., generated asset), and consider storing generated artifacts elsewhere."
  const PRE005_TITLE := "Hotspot paths detected"
  const PRE005_IMPACT := "Changes in these areas typically have larger blast radius."
  const PRE005_RECOMMENDATION := "Double-check edge cases and ensure tests cover critical flows."

  function Pre001(loc: Location, changedFiles: seq<string>): (f: Finding)
    ensures f.id == "PRE001" && f.severity == "MEDIUM" && f.category == "reliability"
    ensures f.location == loc && f.confidence == 0.95
  {
    Finding("PRE001", "MEDIUM", "reliability", 0.95, PRE001_TITLE, loc,
      [ChangedFilesEvidence(changedFiles)],
      PRE001_IMPACT,
      PRE001_RECOMMENDATION)
  }

  function Pre002(loc: Location): (f: Finding)
    ensures f.id == "PRE002" && f.severity == "HIGH" && f.category == "architecture"
    ensures f.location == loc && f.confidence == 0.9
  {
    Finding("PRE002", "HIGH", "architecture", 0.9, PRE002_TITLE, loc,
      [PRE002_EVIDENCE],
      PRE002_IMPACT,
      PRE002_RECOMMENDATION)
  }

  function Pre003(loc: Location, hotspots: seq<string>): (f: Finding)
    ensures f.id == "PRE003" && f.severity == "MEDIUM" && f.category == "infra"
    ensures f.location == loc && f.confidence == 0.9
  {
    Finding("PRE003", "MEDIUM", "infra", 0.9, PRE003_TITLE, loc,
      ["hotspots: " + HotspotsOrNone(hotspots)],
      PRE003_IMPACT,
      PRE003_RECOMMENDATION)
  }

  function Pre004(loc: Location): (f: Finding)
    ensures f.id == "PRE004" && f.severity == "LOW" && f.category == "maintainability"
    ensures f.location == loc && f.confidence == 0.85
  {
    Finding("PRE004", "LOW", "maintainability", 0.85, PRE004_TITLE, loc,
      [PRE004_EVIDENCE],
      PRE004_IMPACT,
      PRE004_RECOMMENDATION)
  }

  function Pre005(loc: Location, hotspots: seq<string>): (f: Finding)
    ensures f.id == "PRE005" && f.severity == "INFO" && f.category == "maintainability"
    ensures f.location == loc && f.confidence == 0.9
  {
    Finding("PRE005", "INFO", "maintainability", 0.9, PRE005_TITLE, loc,
      ["hotspots: " + Join(hotspots, ", ")],
      PRE005_IMPACT,
      PRE005_RECOMMENDATION)
  }

  /** PRE001 applies: no test is touched and the change is neither docs nor infra. */
  predicate NeedsTests(a: FindingArgs) {
    !a.testsTouched && a.classification != "docs" && a.classification != "infra"
  }

  /** The position of a PRE id in the fixed order, 0 for any other id. */
  function PreRank(id: string): nat {
    if id == "PRE001" then 1 else if id == "PRE002" then 2 else if id == "PRE003" then 3
    else if id == "PRE004" then 4 else if id == "PRE005" then 5 else 0
  }

  /** The fixed severity and category of each PRE finding. */
  predicate FixedTable(f: Finding) {
    (f.id == "PRE001" && f.severity == "MEDIUM" && f.category == "reliability") ||
    (f.id == "PRE002" && f.severity == "HIGH" && f.category == "architecture") ||
    (f.id == "PRE003" && f.severity == "MEDIUM" && f.category == "infra") ||
    (f.id == "PRE004" && f.severity == "LOW" && f.category == "maintainability") ||
    (f.id == "PRE005" && f.severity == "INFO" && f.category == "maintainability")
  }

  /** A deterministic finding as it must be: its fixed severity and category,
      the primary location, and a confidence of at least 0.85. */
  predicate WellFormedPre(f: Finding, loc: Location) {
    FixedTable(f) && f.location == loc && f.confidence >= 0.85
  }

  predicate HasId(fs: seq<Finding>, id: string) {
    exists i :: 0 <= i < |fs| && fs[i].id == id
  }

  /** Some finding has the PRE id of rank `k`. */
  predicate HasRank(fs: seq<Finding>, k: nat) {
    exists i :: 0 <= i < |fs| && PreRank(fs[i].id) == k
  }

  /** Every finding has a PRE id, in strictly increasing PRE order. */
  predicate PreOrdered(fs: seq<Finding>) {
    (forall i :: 0 <= i < |fs| ==> PreRank(fs[i].id) > 0) &&
    (forall i, j :: 0 <= i < j < |fs| ==> PreRank(fs[i].id) < PreRank(fs[j].id))
  }

  /** Every finding ranks below `k`. */
  predicate RanksBelow(fs: seq<Finding>, k: nat) {
    forall i :: 0 <= i < |fs| ==> PreRank(fs[i].id) < k
  }

  /** Every finding is a well-formed PRE finding at `loc`. */
  predicate AllWellFormed(fs: seq<Finding>, loc: Location) {
    forall i :: 0 <= i < |fs| ==> WellFormedPre(fs[i], loc)
  }

  /** One conditional push: `f` is appended when `c` holds. */
  function Push(fs: seq<Finding>, c: bool, f: Finding): seq<Finding> {
    if c then fs + [f] else fs
  }

  /** The deterministic findings, PRE001 to PRE005, each when its condition holds. */
  function DeterministicFindings(a: FindingArgs): (r: seq<Finding>)
    ensures |r| <= 5
  {
    var loc := PrimaryLocation(a.changedFiles);
    var r1 := Push([], NeedsTests(a), Pre001(loc, a.changedFiles));
    var r2 := Push(r1, a.publicApiChanged, Pre002(loc));
    var r3 := Push(r2, a.configChanged, Pre003(loc, a.hotspots));
    var r4 := Push(r3, a.isBinaryChange, Pre004(loc));
    Push(r4, |a.hotspots| > 0, Pre005(loc, a.hotspots))
  }

  /** A PRE rank names exactly one id. */
  lemma PreRankInjective(x: string, y: string)
    requires PreRank(x) == PreRank(y) > 0
    ensures x == y
  {
  }

  /** The ranks of the five PRE ids. */
  lemma PreRanks()
    ensures PreRank("PRE001") == 1 && PreRank("PRE002") == 2 && PreRank("PRE003") == 3
    ensures PreRank("PRE004") == 4 && PreRank("PRE005") == 5
  {
  }

  /** For a PRE id, having the id and having its rank are the same. */
  lemma HasIdRank(fs: seq<Finding>, id: string)
    requires PreRank(id) > 0
    ensures HasId(fs, id) <==> HasRank(fs, PreRank(id))
  {
    if HasRank(fs, PreRank(id)) {
      var i :| 0 <= i < |fs| && PreRank(fs[i].id) == PreRank(id);
      PreRankInjective(fs[i].id, id);
    }
  }

  /** The five PRE findings carry their ranks and their fixed table rows. */
  lemma PreTable(loc: Location, changedFiles: seq<string>, hotspots: seq<string>)
    ensures PreRank(Pre001(loc, changedFiles).id) == 1 && WellFormedPre(Pre001(loc, changedFiles), loc)
    ensures PreRank(Pre002(loc).id) == 2 && WellFormedPre(Pre002(loc), loc)
    ensures PreRank(Pre003(loc, hotspots).id) == 3 && WellFormedPre(Pre003(loc, hotspots), loc)
    ensures PreRank(Pre004(loc).id) == 4 && WellFormedPre(Pre004(loc), loc)
    ensures PreRank(Pre005(loc, hotspots).id) == 5 && WellFormedPre(Pre005(loc, hotspots), loc)
  {
  }

  /** One conditional push of a finding ranked `k` keeps the list ordered,
      well formed and below `k + 1`. */
  lemma PushPre(fs: seq<Finding>, c: bool, f: Finding, k: nat, loc: Location)
    requires PreOrdered(fs) && RanksBelow(fs, k) && AllWellFormed(fs, loc)
    requires k > 0 && PreRank(f.id) == k && WellFormedPre(f, loc)
    ensures var r := Push(fs, c, f);
      PreOrdered(r) && RanksBelow(r, k + 1) && AllWellFormed(r, loc)
  {
  }

  /** A conditional push adds rank `k` exactly when it happens with a finding of that rank. */
  lemma PushRank(fs: seq<Finding>, c: bool, f: Finding, k: nat)
    ensures HasRank(Push(fs, c, f), k) <==> HasRank(fs, k) || (c && PreRank(f.id) == k)
  {
    var r := Push(fs, c, f);
    if HasRank(r, k) {
      var i :| 0 <= i < |r| && PreRank(r[i].id) == k;
      if i < |fs| {
        assert fs[i] == r[i];
      }
    }
    if HasRank(fs, k) {
      var i :| 0 <= i < |fs| && PreRank(fs[i].id) == k;
      assert r[i] == fs[i];
    }
    if c && PreRank(f.id) == k {
      assert r[|fs|] == f;
    }
  }

  /** After five conditional pushes, rank `k` is present exactly when one of
      the pushes that happened had that rank. */
  lemma {:induction false} RankAfterPushes(c1: bool, c2: bool, c3: bool, c4: bool, c5: bool,
                                           f1: Finding, f2: Finding, f3: Finding, f4: Finding, f5: Finding, k: nat)
    ensures HasRank(Push(Push(Push(Push(Push([], c1, f1), c2, f2), c3, f3), c4, f4), c5, f5), k) <==>
      (c1 && PreRank(f1.id) == k) || (c2 && PreRank(f2.id) == k) || (c3 && PreRank(f3.id) == k) ||
      (c4 && PreRank(f4.id) == k) || (c5 && PreRank(f5.id) == k)
  {
    var r0: seq<Finding> := [];
    assert !HasRank(r0, k);
    PushRank(r0, c1, f1, k);
    var r1 := Push(r0, c1, f1);
    PushRank(r1, c2, f2, k);
    var r2 := Push(r1, c2, f2);
    PushRank(r2, c3, f3, k);
    var r3 := Push(r2, c3, f3);
    PushRank(r3, c4, f4, k);
    var r4 := Push(r3, c4, f4);
    PushRank(r4, c5, f5, k);
  }

  /** Five conditional pushes of findings ranked 1 to 5 in that order give an
      ordered, well-formed list. */
  lemma {:induction false} PushesOrdered(c1: bool, c2: bool, c3: bool, c4: bool, c5: bool,
                                         f1: Finding, f2: Finding, f3: Finding, f4: Finding, f5: Finding, loc: Location)
    requires PreRank(f1.id) == 1 && PreRank(f2.id) == 2 && PreRank(f3.id) == 3
    requires PreRank(f4.id) == 4 && PreRank(f5.id) == 5
    requires WellFormedPre(f1, loc) && WellFormedPre(f2, loc) && WellFormedPre(f3, loc)
    requires WellFormedPre(f4, loc) && WellFormedPre(f5, loc)
    ensures var r := Push(Push(Push(Push(Push([], c1, f1), c2, f2), c3, f3), c4, f4), c5, f5);
      PreOrdered(r) && AllWellFormed(r, loc)
  {
    var r0: seq<Finding> := [];
    PushPre(r0, c1, f1, 1, loc);
    var r1 := Push(r0, c1, f1);
    PushPre(r1, c2, f2, 2, loc);
    var r2 := Push(r1, c2, f2);
    PushPre(r2, c3, f3, 3, loc);
    var r3 := Push(r2, c3, f3);
    PushPre(r3, c4, f4, 4, loc);
    var r4 := Push(r3, c4, f4);
    PushPre(r4, c5, f5, 5, loc);
  }

  /** The pushes in order: rank `k` is present exactly when the `k`-th condition holds. */
  lemma DeterministicRanks(a: FindingArgs)
    ensures var r := DeterministicFindings(a);
      (HasRank(r, 1) <==> NeedsTests(a)) && (HasRank(r, 2) <==> a.publicApiChanged) &&
      (HasRank(r, 3) <==> a.configChanged) && (HasRank(r, 4) <==> a.isBinaryChange) &&
      (HasRank(r, 5) <==> |a.hotspots| > 0) &&
      PreOrdered(r) && AllWellFormed(r, PrimaryLocation(a.changedFiles))
  {
    var loc := PrimaryLocation(a.changedFiles);
    var c1, c2, c3, c4, c5 := NeedsTests(a), a.publicApiChanged, a.configChanged, a.isBinaryChange, |a.hotspots| > 0;
    var f1, f2, f3, f4, f5 := Pre001(loc, a.changedFiles), Pre002(loc), Pre003(loc, a.hotspots), Pre004(loc),
      Pre005(loc, a.hotspots);
    PreTable(loc, a.changedFiles, a.hotspots);
    PushesOrdered(c1, c2, c3, c4, c5, f1, f2, f3, f4, f5, loc);
    RankAfterPushes(c1, c2, c3, c4, c5, f1, f2, f3, f4, f5, 1);
    RankAfterPushes(c1, c2, c3, c4, c5, f1, f2, f3, f4, f5, 2);
    RankAfterPushes(c1, c2, c3, c4, c5, f1, f2, f3, f4, f5, 3);
    RankAfterPushes(c1, c2, c3, c4, c5, f1, f2, f3, f4, f5, 4);
    RankAfterPushes(c1, c2, c3, c4, c5, f1, f2, f3, f4, f5, 5);
  }

  /** The deterministic findings: each PRE id exactly when its condition
      holds, in the fixed order PRE001..PRE005, with its fixed severity and
      category, at the primary location and with a confidence of at least 0.85. */
  lemma DeterministicFindingsShape(a: FindingArgs)
    ensures var r := DeterministicFindings(a);
      (HasId(r, "PRE001") <==> NeedsTests(a)) &&
      (HasId(r, "PRE002") <==> a.publicApiChanged) &&
      (HasId(r, "PRE003") <==> a.configChanged) &&
      (HasId(r, "PRE004") <==> a.isBinaryChange) &&
      (HasId(r, "PRE005") <==> |a.hotspots| > 0) &&
      PreOrdered(r) &&
      forall i :: 0 <= i < |r| ==> WellFormedPre(r[i], PrimaryLocation(a.changedFiles))
  {
    var r := DeterministicFindings(a);
    DeterministicRanks(a);
    PreRanks();
    HasIdRank(r, "PRE001");
    HasIdRank(r, "PRE002");
    HasIdRank(r, "PRE003");
    HasIdRank(r, "PRE004");
    HasIdRank(r, "PRE005");
  }

  /** `buildDeterministicFindings`: one conditional push per PRE finding. */
  method BuildDeterministicFindings(a: FindingArgs) returns (findings: seq<Finding>)
    ensures findings == DeterministicFindings(a)
  {
    findings := [];
    var primary := if |a.changedFiles| > 0 then a.changedFiles[0] else "(multiple files)";
    var loc := Location(primary, 1, Some(1));
    assert loc == PrimaryLocation(a.changedFiles);
    if NeedsTests(a) {
      findings := findings + [Pre001(loc, a.changedFiles)];
    }
    assert findings == Push([], NeedsTests(a), Pre001(loc, a.changedFiles));
    ghost var r1 := findings;
    if a.publicApiChanged {
      findings := findings + [Pre002(loc)];
    }
    assert findings == Push(r1, a.publicApiChanged, Pre002(loc));
    ghost var r2 := findings;
    if a.configChanged {
      findings := findings + [Pre003(loc, a.hotspots)];
    }
    assert findings == Push(r2, a.configChanged, Pre003(loc, a.hotspots));
    ghost var r3 := findings;
    if a.isBinaryChange {
      findings := findings + [Pre004(loc)];
    }
    assert findings == Push(r3, a.isBinaryChange, Pre004(loc));
    ghost var r4 := findings;
    if |a.hotspots| > 0 {
      findings := findings + [Pre005(loc, a.hotspots)];
    }
    assert findings == Push(r4, |a.hotspots| > 0, Pre005(loc, a.hotspots));
  }

  /** The arguments the pipeline passes, read off the preflight result. */
  function FindingArgsOf(d: ParsedDiff, pre: PreflightResult): FindingArgs {
    FindingArgs(ChangeTypeName(Classify.ClassifyChange(d)), pre.changedFiles, pre.hotspots,
      pre.configChanged, pre.publicApiChanged, pre.testsTouched, pre.isBinaryChange)
  }

  // ---------------------------------------------------------------------
  // Summary (`buildSummary`)
  // ---------------------------------------------------------------------

  function HotspotsText(hotspots: seq<string>): string {
    if |hotspots| > 0 then " Hotspots: " + Join(hotspots, ", ") + "." else ""
  }

  function SummaryHead(classification: string, riskScore: nat): string {
    "Classified as " + classification + ". Risk " + NatToString(riskScore) + "/5. "
  }

  function SummaryCounts(filesChanged: nat, linesAdded: nat, linesRemoved: nat, findingsCount: nat): string {
    NatToString(filesChanged) + " files changed (+" + NatToString(linesAdded) + "/-" +
    NatToString(linesRemoved) + "). " + NatToString(findingsCount)
  }

  /** The summary sentence before trimming. */
  function SummaryText(classification: string, riskScore: nat, filesChanged: nat, linesAdded: nat,
                       linesRemoved: nat, hotspots: seq<string>, findingsCount: nat): string
  {
    SummaryHead(classification, riskScore) + SummaryCounts(filesChanged, linesAdded, linesRemoved, findingsCount) +
    " deterministic findings." + HotspotsText(hotspots)
  }

  /** `buildSummary`: the summary sentence, trimmed. */
  function BuildSummary(classification: string, riskScore: nat, filesChanged: nat, linesAdded: nat,
                        linesRemoved: nat, hotspots: seq<string>, findingsCount: nat): string
  {
    Trim(SummaryText(classification, riskScore, filesChanged, linesAdded, linesRemoved, hotspots, findingsCount))
  }

  lemma EdgesNotSpace()
    ensures !IsJsSpace('C') && !IsJsSpace('.')
  {
  }

  /** A text that opens with `C` and closes with a full stop is left whole
      by trimming; the parts sit where they were put. */
  lemma SentenceUntrimmed(x: string, y: string, z: string, w: string)
    requires |x| > 0 && x[0] == 'C'
    requires |z| > 0 && z[|z| - 1] == '.'
    requires w == [] || w[|w| - 1] == '.'
    ensures var s := x + y + z + w;
      Trim(s) == s && StartsWith(s, x) && EndsWith(s, z + w) && EndsWith(s, w)
  {
    var s := x + y + z + w;
    assert s[..|x|] == x;
    assert s[|s| - |z + w|..] == z + w;
    assert s[|s| - |w|..] == w;
    assert s[0] == 'C';
    if w == [] {
      assert s[|s| - 1] == z[|z| - 1];
    } else {
      assert s[|s| - 1] == w[|w| - 1];
    }
    EdgesNotSpace();
    TrimUnpadded(s);
  }

  /** The sentence starts with a letter and ends with a full stop, so
      trimming keeps all of it: it opens with the class and the risk and
      closes with the finding count, or with the hotspot list when there
      are hotspots. */
  lemma SummaryShape(classification: string, riskScore: nat, filesChanged: nat, linesAdded: nat,
                     linesRemoved: nat, hotspots: seq<string>, findingsCount: nat)
    ensures var s := BuildSummary(classification, riskScore, filesChanged, linesAdded, linesRemoved, hotspots, findingsCount);
      s == SummaryText(classification, riskScore, filesChanged, linesAdded, linesRemoved, hotspots, findingsCount) &&
      StartsWith(s, SummaryHead(classification, riskScore)) &&
      (|hotspots| == 0 ==> EndsWith(s, " deterministic findings.")) &&
      (|hotspots| > 0 ==> EndsWith(s, " Hotspots: " + Join(hotspots, ", ") + "."))
  {
    var x := SummaryHead(classification, riskScore);
    var y := SummaryCounts(filesChanged, linesAdded, linesRemoved, findingsCount);
    var z := " deterministic findings.";
    var w := HotspotsText(hotspots);
    assert x[0] == 'C';
    assert z[|z| - 1] == '.';
    if |hotspots| == 0 {
      assert w == [];
      assert z + w == z;
    } else {
      assert w[|w| - 1] == '.';
    }
    SentenceUntrimmed(x, y, z, w);
  }

  // ---------------------------------------------------------------------
  // Invariants text for the prompt (`formatInvariants`)
  // ---------------------------------------------------------------------

  /** One invariant as the prompt lists it. */
  function InvariantLine(inv: ReviewInvariant): string {
    "- [" + inv.id + "] (" + inv.severity + "/" + inv.category + ") " + inv.rule
  }

  /** A section's lines: its header, one line per invariant, a blank line. */
  function SectionLines(section: (string, seq<ReviewInvariant>)): (r: seq<string>)
    ensures |r| == |section.1| + 2
    ensures r[0] == section.0 + ":" && r[|r| - 1] == ""
    ensures forall k :: 0 <= k < |section.1| ==> r[k + 1] == InvariantLine(section.1[k])
  {
    [section.0 + ":"] + Map(section.1, InvariantLine) + [""]
  }

  /** The lines of every section, in section order. */
  function ConfigLines(config: Config): seq<string> {
    if config == [] then [] else ConfigLines(config[..|config| - 1]) + SectionLines(config[|config| - 1])
  }

  /** The prompt text: the lines joined by newlines and trimmed, `(none)` if nothing is left. */
  function InvariantsText(config: Config): string {
    var t := Trim(Join(ConfigLines(config), "\n"));
    if t == "" then "(none)" else t
  }

  /** A non-empty config's lines open with its first section's header. */
  lemma {:induction false} ConfigLinesHead(config: Config)
    requires config != []
    ensures |ConfigLines(config)| > 0 && ConfigLines(config)[0] == config[0].0 + ":"
  {
    var init := config[..|config| - 1];
    if init == [] {
      assert ConfigLines(config) == SectionLines(config[0]);
    } else {
      assert init[0] == config[0];
      ConfigLinesHead(init);
    }
  }

  /** A joined list starts with its first part. */
  lemma JoinHead(parts: seq<string>, sep: string)
    requires |parts| > 0
    ensures StartsWith(Join(parts, sep), parts[0])
  {
  }

  /** The invariants text is `(none)` exactly when the config has no section:
      any section contributes its header, whose `:` survives the trim. */
  lemma InvariantsTextNone(config: Config)
    ensures InvariantsText(config) == "(none)" <==> config == []
  {
    if config != [] {
      var s := Join(ConfigLines(config), "\n");
      ConfigLinesHead(config);
      JoinHead(ConfigLines(config), "\n");
      var p := |config[0].0|;
      assert s[p] == (config[0].0 + ":")[p] == ':';
      var t := Trim(s);
      var k := SpacesEnd(s, 0);
      assert !IsJsSpace(s[p]);
      assert k <= p;
      assert p < k + |t|;
      assert t[p - k] == ':';
      assert "(none)"[0] != ':' && "(none)"[1] != ':' && "(none)"[2] != ':';
      assert "(none)"[3] != ':' && "(none)"[4] != ':' && "(none)"[5] != ':';
      assert t != "(none)";
    }
  }

  /** The body of `formatInvariants`' outer loop: push a section's header,
      its invariant lines and a blank line. */
  method PushSection(lines: seq<string>, section: (string, seq<ReviewInvariant>)) returns (r: seq<string>)
    ensures r == lines + SectionLines(section)
  {
    var invariants := section.1;
    var head := lines + [section.0 + ":"];
    r := head;
    for j := 0 to |invariants|
      invariant r == head + Map(invariants[..j], InvariantLine)
    {
      MapSnoc(invariants, j, InvariantLine);
      r := r + [InvariantLine(invariants[j])];
    }
    assert invariants[..|invariants|] == invariants;
    r := r + [""];
    assert r == lines + ([section.0 + ":"] + Map(invariants, InvariantLine) + [""]);
  }

  /** `formatInvariants`: push every section's lines, then join, trim and
      fall back to `(none)`. */
  method FormatInvariants(config: Config) returns (text: string)
    ensures text == InvariantsText(config)
    ensures text == "(none)" <==> config == []
  {
    var lines: seq<string> := [];
    for i := 0 to |config|
      invariant lines == ConfigLines(config[..i])
    {
      lines := PushSection(lines, config[i]);
      assert config[..i + 1][..i] == config[..i];
    }
    assert config[..|config|] == config;
    text := Trim(Join(lines, "\n"));
    if text == "" {
      text := "(none)";
    }
    InvariantsTextNone(config);
  }

  // ---------------------------------------------------------------------
  // Invariants step
  // ---------------------------------------------------------------------

  /** What the invariants step leaves behind. */
  datatype InvariantsStage = InvariantsStage(findings: seq<Finding>, warnings: seq<string>, promptText: string)

  const INVALID_CONFIG := "Invalid invariants config: expected a mapping object"

  /** `loadInvariantsConfig` after the file is read and parsed. */
  function ConfigOf(parsed: Json): Result<Config, string> {
    if !IsObject(parsed) then Err(INVALID_CONFIG)
    else Ok(LoadSections(parsed.fields))
  }

  /** `String(e)` of an `Error` thrown with message `m`. */
  function ErrorString(m: string): string {
    "Error: " + m
  }

  function LoadFailed(e: string): string {
    "Failed to load/run invariants: " + e
  }

  /** The invariants step: nothing without a path; only a warning without a
      workspace; a warning when reading or loading fails; otherwise the
      runner's findings and warnings and the config's prompt text. */
  function InvariantsStageOf(d: ParsedDiff, changedFiles: seq<string>, path: Option<string>,
                             workspace: Option<string>, env: Env): (s: InvariantsStage)
    ensures !Truthy(path) ==> s == InvariantsStage([], [], "(none)")
    ensures Truthy(path) && !Truthy(workspace) ==> s == InvariantsStage([], [SKIP_INVARIANTS_WARNING], "(none)")
    ensures Truthy(path) && Truthy(workspace) && env.readInvariantsFile(workspace.value, path.value).Err? ==>
      s == InvariantsStage([], [LoadFailed(env.readInvariantsFile(workspace.value, path.value).error)], "(none)")
  {
    if !Truthy(path) then InvariantsStage([], [], "(none)")
    else if !Truthy(workspace) then InvariantsStage([], [SKIP_INVARIANTS_WARNING], "(none)")
    else match env.readInvariantsFile(workspace.value, path.value)
      case Err(e) => InvariantsStage([], [LoadFailed(e)], "(none)")
      case Ok(parsed) =>
        match ConfigOf(parsed)
        case Err(e) => InvariantsStage([], [LoadFailed(ErrorString(e))], "(none)")
        case Ok(config) =>
          var run := InvariantRunner.RunAll(InvariantRunner.AllInvariants(config), changedFiles, env.glob,
            InvariantRunner.Evaluator(d, env.compile));
          InvariantsStage(run.findings, run.warnings, InvariantsText(config))
  }

  /** The invariants step of `reviewDiff`. */
  method RunInvariantsStep(d: ParsedDiff, changedFiles: seq<string>, path: Option<string>,
                           workspace: Option<string>, env: Env) returns (s: InvariantsStage)
    ensures s == InvariantsStageOf(d, changedFiles, path, workspace, env)
  {
    s := InvariantsStage([], [], "(none)");
    if path.Some? && path.value != "" {
      if workspace.None? || workspace.value == "" {
        s := s.(warnings := s.warnings + [SKIP_INVARIANTS_WARNING]);
      } else {
        var parsed := env.readInvariantsFile(workspace.value, path.value);
        if parsed.Err? {
          s := s.(warnings := s.warnings + [LoadFailed(parsed.error)]);
        } else {
          var loaded := LoadInvariantsConfig(parsed.value);
          if loaded.Err? {
            s := s.(warnings := s.warnings + [LoadFailed(ErrorString(loaded.error))]);
          } else {
            var run := InvariantRunner.RunInvariants(d, changedFiles, loaded.value, env.glob, env.compile);
            var text := FormatInvariants(loaded.value);
            assert s.findings + run.findings == run.findings && s.warnings + run.warnings == run.warnings;
            s := InvariantsStage(s.findings + run.findings, s.warnings + run.warnings, text);
          }
        }
      }
    }
  }

  // ---------------------------------------------------------------------
  // LLM step
  // ---------------------------------------------------------------------

  /** What the LLM step leaves behind. */
  datatype LlmStage = LlmStage(
    findings: seq<Finding>,
    warnings: seq<string>,
    passes: nat,
    skippedReason: Option<string>,
    model: Option<string>)

  /** The noise gate: a low-risk change with touched tests and no invariant
      finding is not sent to the LLM unless forced. */
  predicate NoiseGate(force: bool, riskScore: nat, invariantFindings: nat, testsTouched: bool) {
    !force && riskScore <= 2 && invariantFindings == 0 && testsTouched
  }

  predicate RuntimePresent(rt: Runtime) {
    rt.readFile.Some? && rt.llm.Some?
  }

  /** The LLM review runs: enabled, with a runtime, and not stopped by the gate. */
  predicate LlmRuns(st: Settings, rt: Runtime, pre: PreflightResult, inv: InvariantsStage) {
    st.llmEnabled && RuntimePresent(rt) && !NoiseGate(st.llmForce, pre.riskScore, |inv.findings|, pre.testsTouched)
  }

  /** The request the pipeline sends: context planned with the budget and
      file limit, fetched with 20 context lines, and the diff, the context
      and the invariants text scrubbed before they reach a prompt. */
  function RequestOf(st: Settings, o: ReviewOptions, files: map<string, string>, diff: string, d: ParsedDiff,
                     pre: PreflightResult, inv: InvariantsStage, scrub: string -> string): TwoPassRequest
  {
    var plan := Planner.Plan(d, pre, Some(st.tokenBudget), Some(st.maxContextFiles));
    var context := scrub(Fetcher.Fetched(d, plan, files, Some(20), None));
    var sDiff := scrub(diff);
    var sInvariants := scrub(inv.promptText);
    TwoPassRequest(st.twoPass, st.riskThreshold, pre.riskScore,
      PromptInputs(sDiff, context, sInvariants, o.customInstructions))
  }

  /** The LLM step. The skip reason is `missing_runtime` exactly when the LLM
      is enabled without a runtime, and then a warning is added;
      `noise_gate_low_risk` exactly when it is enabled with a runtime and the
      noise gate holds; there is no skip reason otherwise. Unless the review
      runs there are no LLM findings and no passes. */
  function LlmStageOf(st: Settings, o: ReviewOptions, rt: Runtime, diff: string, d: ParsedDiff,
                      pre: PreflightResult, inv: InvariantsStage, scrub: string -> string): (s: LlmStage)
    ensures s.skippedReason == Some("missing_runtime") <==> st.llmEnabled && !RuntimePresent(rt)
    ensures s.skippedReason == Some("noise_gate_low_risk") <==>
      st.llmEnabled && RuntimePresent(rt) && NoiseGate(st.llmForce, pre.riskScore, |inv.findings|, pre.testsTouched)
    ensures s.skippedReason.None? <==> !st.llmEnabled || LlmRuns(st, rt, pre, inv)
    ensures st.llmEnabled && !RuntimePresent(rt) ==> s.warnings == [MISSING_RUNTIME_WARNING]
    ensures !LlmRuns(st, rt, pre, inv) ==> s.passes == 0 && s.findings == []
    ensures s.model.Some? ==> st.llmEnabled && RuntimePresent(rt) && s.model == rt.llm.value.model
  {
    if !st.llmEnabled then LlmStage([], [], 0, None, None)
    else if rt.readFile.None? || rt.llm.None? then LlmStage([], [MISSING_RUNTIME_WARNING], 0, Some("missing_runtime"), None)
    else if NoiseGate(st.llmForce, pre.riskScore, |inv.findings|, pre.testsTouched) then
      LlmStage([], [], 0, Some("noise_gate_low_risk"), rt.llm.value.model)
    else
      var out := rt.llm.value.runTwoPass(RequestOf(st, o, rt.readFile.value, diff, d, pre, inv, scrub));
      LlmStage(out.findings, out.warnings, out.passesExecuted, None, rt.llm.value.model)
  }

  /** The LLM step of `reviewDiff`. */
  method RunLlmStep(st: Settings, o: ReviewOptions, rt: Runtime, diff: string, d: ParsedDiff,
                    pre: PreflightResult, inv: InvariantsStage, scrub: string -> string) returns (s: LlmStage)
    ensures s == LlmStageOf(st, o, rt, diff, d, pre, inv, scrub)
  {
    s := LlmStage([], [], 0, None, None);
    if st.llmEnabled {
      if rt.readFile.None? || rt.llm.None? {
        s := s.(skippedReason := Some("missing_runtime"), warnings := s.warnings + [MISSING_RUNTIME_WARNING]);
      } else {
        var llm := rt.llm.value;
        s := s.(model := llm.model);
        var noiseGateSkip := !st.llmForce && pre.riskScore <= 2 && |inv.findings| == 0 && pre.testsTouched;
        if noiseGateSkip {
          s := s.(skippedReason := Some("noise_gate_low_risk"));
        } else {
          var plan := Planner.CreateContextPlan(d, pre, Some(st.tokenBudget), Some(st.maxContextFiles));
          var contextRaw := Fetcher.FetchPlannedContext(d, plan, rt.readFile.value, Some(20), None);
          var context := scrub(contextRaw);
          var sDiff := scrub(diff);
          var sInvariants := scrub(inv.promptText);
          var request := TwoPassRequest(st.twoPass, st.riskThreshold, pre.riskScore,
            PromptInputs(sDiff, context, sInvariants, o.customInstructions));
          var out := llm.runTwoPass(request);
          s := s.(findings := s.findings + out.findings, warnings := s.warnings + out.warnings,
                  passes := out.passesExecuted);
        }
      }
    }
  }

  // ---------------------------------------------------------------------
  // The pipeline
  // ---------------------------------------------------------------------

  /** Every intermediate value of a review. */
  datatype Stages = Stages(
    d: ParsedDiff,
    pre: PreflightResult,
    settings: Settings,
    inv: InvariantsStage,
    deterministic: seq<Finding>,
    llm: LlmStage,
    merged: seq<Finding>,
    processed: Processed,
    policy: FailurePolicy)

  /** The CI gate as a value: fail when any finding trips it, with the first
      20 reasons. */
  function PolicyOf(findings: seq<Finding>, failOnSeverity: string, failIds: seq<string>): FailurePolicy {
    var reasons := AllReasons(findings, failIds, Threshold(failOnSeverity));
    FailurePolicy(|reasons| > 0, PostShared.LimitToMax(reasons, 20))
  }

  /** The findings after the merge, the filters and the cut, and the gate
      taken on the filtered list. */
  function FilterStages(merged: seq<Finding>, st: Settings, o: ReviewOptions): (Processed, FailurePolicy) {
    var processed := PostProcessFindings(merged, st.confidenceThreshold, o.categories, o.allowlistFindingIds, st.maxFindings);
    (processed, PolicyOf(processed.filteredForOutput, st.failOnSeverity, st.failOnInvariantIds))
  }

  // One relation per step: each stage is the step's function of the input
  // and of the stages before it.

  /** The diff is parsed and the preflight runs on it. */
  predicate ParseFits(input: ReviewInput, d: ParsedDiff, pre: PreflightResult) {
    d == DiffParse.ParsedDiffOf(input.diff) && pre == PreflightOf(d, input.changedFiles)
  }

  /** The settings are the options with their defaults. */
  predicate SettingsFit(input: ReviewInput, st: Settings) {
    st == SettingsOf(input.options)
  }

  /** The invariants step ran on the parsed diff and the preflight's files. */
  predicate InvariantsFit(input: ReviewInput, env: Env, d: ParsedDiff, pre: PreflightResult, inv: InvariantsStage) {
    inv == InvariantsStageOf(d, pre.changedFiles, input.options.invariantsPath, input.workspacePath, env)
  }

  /** The deterministic findings are built from the preflight. */
  predicate DeterministicFits(d: ParsedDiff, pre: PreflightResult, det: seq<Finding>) {
    det == DeterministicFindings(FindingArgsOf(d, pre))
  }

  /** The LLM step ran after the invariants step. */
  predicate LlmFits(input: ReviewInput, env: Env, d: ParsedDiff, pre: PreflightResult, st: Settings,
                    inv: InvariantsStage, llm: LlmStage) {
    llm == LlmStageOf(st, input.options, input.runtime, input.diff, d, pre, inv, env.scrub)
  }

  /** Merge order: invariant findings, then LLM findings, then deterministic
      findings, de-duplicated by id. */
  predicate MergeFits(inv: InvariantsStage, llm: LlmStage, det: seq<Finding>, merged: seq<Finding>) {
    merged == DedupeById(inv.findings + llm.findings + det)
  }

  /** The filters, the cut and the gate ran on the merged list. */
  predicate FilterFits(input: ReviewInput, st: Settings, merged: seq<Finding>, processed: Processed, policy: FailurePolicy) {
    (processed, policy) == FilterStages(merged, st, input.options)
  }

  /** The stages of a review of `input`, every step in `reviewDiff`'s order. */
  predicate StagesFit(input: ReviewInput, env: Env, s: Stages) {
    ParseFits(input, s.d, s.pre) && SettingsFit(input, s.settings) &&
    InvariantsFit(input, env, s.d, s.pre, s.inv) && DeterministicFits(s.d, s.pre, s.deterministic) &&
    LlmFits(input, env, s.d, s.pre, s.settings, s.inv, s.llm) &&
    MergeFits(s.inv, s.llm, s.deterministic, s.merged) &&
    FilterFits(input, s.settings, s.merged, s.processed, s.policy)
  }

  /** The result assembled from the stages. */
  function ResultFrom(s: Stages, env: Env): ReviewResult {
    var classification := ChangeTypeName(Classify.ClassifyChange(s.d));
    ReviewResult(
      env.runId, s.pre.riskScore, classification, s.pre.hotspots,
      BuildSummary(classification, s.pre.riskScore, |s.pre.changedFiles|, s.d.linesAdded, s.d.linesRemoved,
        s.pre.hotspots, |s.processed.limitedFindings|),
      s.processed.limitedFindings, Some(s.policy.shouldFail), s.policy.reasons,
      ReviewStats(|s.pre.changedFiles|, s.d.linesAdded, s.d.linesRemoved, env.endMs - env.startMs,
        s.pre.checksExecuted, s.llm.passes, |s.llm.findings|, s.llm.skippedReason),
      env.reviewedAt, Some(TOOL_VERSION), s.inv.warnings + s.llm.warnings, s.llm.model)
  }

  /** The steps of `reviewDiff` before the LLM: parse, classify, preflight,
      settings, invariants and the deterministic findings. */
  method RunFront(input: ReviewInput, env: Env)
    returns (d: ParsedDiff, pre: PreflightResult, st: Settings, inv: InvariantsStage, det: seq<Finding>)
    ensures ParseFits(input, d, pre) && SettingsFit(input, st)
    ensures InvariantsFit(input, env, d, pre, inv) && DeterministicFits(d, pre, det)
  {
    d := DiffParse.ParseUnifiedDiff(input.diff);
    var classification := ChangeTypeName(Classify.ClassifyChange(d));
    pre := RunPreflight(d, input.changedFiles);
    inv := RunInvariantsStep(d, pre.changedFiles, input.options.invariantsPath, input.workspacePath, env);
    det := BuildDeterministicFindings(FindingArgs(classification, pre.changedFiles, pre.hotspots,
      pre.configChanged, pre.publicApiChanged, pre.testsTouched, pre.isBinaryChange));
    st := SettingsOf(input.options);
  }

  /** The steps of `reviewDiff` from the LLM to the gate: the LLM step, the
      merge, the filters and the cut, and the gate. */
  method RunBack(input: ReviewInput, env: Env, d: ParsedDiff, pre: PreflightResult, st: Settings,
                 inv: InvariantsStage, det: seq<Finding>)
    returns (llm: LlmStage, merged: seq<Finding>, processed: Processed, policy: FailurePolicy)
    ensures LlmFits(input, env, d, pre, st, inv, llm) && MergeFits(inv, llm, det, merged)
    ensures FilterFits(input, st, merged, processed, policy)
  {
    llm := RunLlmStep(st, input.options, input.runtime, input.diff, d, pre, inv, env.scrub);
    merged := DedupeFindingsById(inv.findings + llm.findings + det);
    processed := PostProcessFindings(merged, st.confidenceThreshold, input.options.categories,
      input.options.allowlistFindingIds, st.maxFindings);
    policy := EvaluateFailurePolicy(processed.filteredForOutput, st.failOnSeverity, st.failOnInvariantIds);
  }

  /** The result with its optional SARIF log and markdown comment. */
  datatype ReviewOutput = ReviewOutput(result: ReviewResult, sarif: Option<Sarif.SarifLog>, markdown: Option<string>)

  /** The optional renderings: a SARIF log exactly when `include_sarif` is
      true, with one run and one result per finding, and the markdown
      comment exactly when `include_markdown` is true. */
  predicate Rendered(out: ReviewOutput, o: ReviewOptions) {
    (out.sarif.Some? <==> o.includeSarif == Some(true)) &&
    (out.sarif.Some? ==>
      out.sarif.value.version == "2.1.0" && |out.sarif.value.runs| == 1 &&
      |out.sarif.value.runs[0].results| == |out.result.findings|) &&
    (out.markdown.Some? <==> o.includeMarkdown == Some(true)) &&
    (out.markdown.Some? ==> out.markdown.value == Join(GitHubComment.CommentLines(out.result), "\n"))
  }

  /** The renderings `reviewDiff` adds to a result. */
  method RenderOutput(result: ReviewResult, o: ReviewOptions) returns (out: ReviewOutput)
    ensures out.result == result && Rendered(out, o)
  {
    out := ReviewOutput(result, None, None);
    if o.includeSarif == Some(true) {
      var log := Sarif.ToSarif(result);
      out := out.(sarif := Some(log));
    }
    if o.includeMarkdown == Some(true) {
      var comment := GitHubComment.FormatGitHubComment(result);
      out := out.(markdown := Some(comment));
    }
  }

  /** `reviewDiff`: the stages of the review, the result assembled from them,
      and the renderings the options ask for. */
  method ReviewDiff(input: ReviewInput, env: Env) returns (out: ReviewOutput, ghost s: Stages)
    ensures StagesFit(input, env, s)
    ensures out.result == ResultFrom(s, env)
    ensures Rendered(out, input.options)
  {
    var d, pre, st, inv, det := RunFront(input, env);
    var llm, merged, processed, policy := RunBack(input, env, d, pre, st, inv, det);
    var stages := Stages(d, pre, st, inv, det, llm, merged, processed, policy);
    s := stages;
    var result := ResultFrom(stages, env);
    out := RenderOutput(result, input.options);
  }

  // ---------------------------------------------------------------------
  // Properties of the pipeline
  // ---------------------------------------------------------------------

  /** Merge order: for every kept id, the kept finding is the first invariant
      finding with that id when there is one, else the first LLM finding,
      else the first deterministic finding; every id of every source is kept,
      and no id is kept twice. */
  lemma MergeOrder(inv: seq<Finding>, llm: seq<Finding>, det: seq<Finding>)
    ensures var m := DedupeById(inv + llm + det);
      DistinctKeys(m, FindingId) &&
      (forall j :: 0 <= j < |m| ==>
        Some(m[j]) == (if FirstWithKey(inv, FindingId, m[j].id).Some? then FirstWithKey(inv, FindingId, m[j].id)
                       else if FirstWithKey(llm, FindingId, m[j].id).Some? then FirstWithKey(llm, FindingId, m[j].id)
                       else FirstWithKey(det, FindingId, m[j].id))) &&
      (forall i :: 0 <= i < |inv + llm + det| ==>
        exists j :: 0 <= j < |m| && m[j].id == (inv + llm + det)[i].id)
  {
    var all := inv + llm + det;
    DedupeByIdCorrect(all);
    var m := DedupeById(all);
    forall j | 0 <= j < |m|
      ensures Some(m[j]) == (if FirstWithKey(inv, FindingId, m[j].id).Some? then FirstWithKey(inv, FindingId, m[j].id)
                             else if FirstWithKey(llm, FindingId, m[j].id).Some? then FirstWithKey(llm, FindingId, m[j].id)
                             else FirstWithKey(det, FindingId, m[j].id))
    {
      assert all == inv + (llm + det);
      FirstWithKeyAppend(inv, llm + det, FindingId, m[j].id);
      FirstWithKeyAppend(llm, det, FindingId, m[j].id);
    }
  }

  /** A subsequence of a list with distinct ids has distinct ids. */
  lemma {:induction false} DistinctOfSubseq(a: seq<Finding>, b: seq<Finding>)
    requires IsSubseq(a, b) && DistinctKeys(b, FindingId)
    ensures DistinctKeys(a, FindingId)
    decreases |b|
  {
    if b != [] {
      assert DistinctKeys(b[1..], FindingId) by {
        forall i, j | 0 <= i < j < |b[1..]| ensures b[1..][i].id != b[1..][j].id {
          assert b[1..][i] == b[i + 1] && b[1..][j] == b[j + 1];
        }
      }
      if a != [] && a[0] == b[0] && IsSubseq(a[1..], b[1..]) {
        DistinctOfSubseq(a[1..], b[1..]);
        SubseqMembers(a[1..], b[1..]);
        forall i, j | 0 <= i < j < |a| ensures a[i].id != a[j].id {
          assert a[j] == a[1..][j - 1];
          if i == 0 {
            assert a[j] in b[1..];
            var k :| 0 <= k < |b[1..]| && b[1..][k] == a[j];
            assert b[k + 1] == a[j];
          } else {
            assert a[i] == a[1..][i - 1];
          }
        }
      } else {
        DistinctOfSubseq(a, b[1..]);
      }
    }
  }

  /** A finding passes the confidence, category and allowlist filters. */
  predicate Kept(f: Finding, st: Settings, o: ReviewOptions) {
    Survives(f, st.confidenceThreshold, o.categories, o.allowlistFindingIds)
  }

  /** The returned findings are merged findings that survive the confidence,
      category and allowlist filters, in merge order, at most `max_findings`
      of them, with distinct ids; every merged finding that survives is in
      the filtered list the gate reads. */
  lemma ReviewFindings(input: ReviewInput, env: Env, s: Stages)
    requires MergeFits(s.inv, s.llm, s.deterministic, s.merged)
    requires FilterFits(input, s.settings, s.merged, s.processed, s.policy)
    ensures var r := ResultFrom(s, env);
      IsSubseq(r.findings, s.merged) &&
      DistinctKeys(r.findings, FindingId) &&
      |r.findings| <= (if s.settings.maxFindings < 0 then 0 else s.settings.maxFindings) &&
      (forall f :: f in r.findings ==> Kept(f, s.settings, input.options)) &&
      forall f :: f in s.merged && Kept(f, s.settings, input.options) ==> f in s.processed.filteredForOutput
  {
    FilteredFindings(s.inv.findings + s.llm.findings + s.deterministic, s.settings, input.options);
  }

  /** The filter stage on a merged list, as `ReviewFindings` states it. */
  lemma FilteredFindings(all: seq<Finding>, st: Settings, o: ReviewOptions)
    ensures var merged := DedupeById(all);
      var p := FilterStages(merged, st, o).0;
      IsSubseq(p.limitedFindings, merged) &&
      DistinctKeys(p.limitedFindings, FindingId) &&
      |p.limitedFindings| <= (if st.maxFindings < 0 then 0 else st.maxFindings) &&
      (forall f :: f in p.limitedFindings ==> Kept(f, st, o)) &&
      forall f :: f in merged && Kept(f, st, o) ==> f in p.filteredForOutput
  {
    var merged := DedupeById(all);
    DedupeByIdCorrect(all);
    PostProcessCorrect(merged, st.confidenceThreshold, o.categories, o.allowlistFindingIds, st.maxFindings);
    var p := FilterStages(merged, st, o).0;
    assert p.limitedFindings == p.filteredForOutput[..|p.limitedFindings|];
    PrefixIsSubseq(p.filteredForOutput, |p.limitedFindings|);
    SubseqMembers(p.limitedFindings, p.filteredForOutput);
    DistinctOfSubseq(p.limitedFindings, merged);
  }

  /** The gate is taken on the filtered list before the cut: two runs that
      differ only in `max_findings` fail alike and for the same reasons. */
  lemma GateBeforeCut(merged: seq<Finding>, st: Settings, o: ReviewOptions, m: int)
    ensures FilterStages(merged, st.(maxFindings := m), o).1 == FilterStages(merged, st, o).1
    ensures FilterStages(merged, st, o).0.limitedFindings ==
      PostShared.LimitToMax(FilterStages(merged, st, o).0.filteredForOutput, st.maxFindings)
  {
  }

  /** A finding past the cut still fails the run: with `max_findings` 0 a
      CRITICAL finding is not returned, yet the run fails on it. */
  lemma CutFindingStillFails(f: Finding, st: Settings, o: ReviewOptions)
    requires f.severity == "CRITICAL" && f.confidence >= st.confidenceThreshold && st.maxFindings == 0
    requires o.categories == None && o.allowlistFindingIds == None
    ensures var (p, policy) := FilterStages([f], st, o);
      p.limitedFindings == [] && policy.shouldFail
  {
    var p := FilterStages([f], st, o).0;
    PostProcessCorrect([f], st.confidenceThreshold, None, None, 0);
    assert f in p.filteredForOutput;
    var i :| 0 <= i < |p.filteredForOutput| && p.filteredForOutput[i] == f;
    ShouldFailIff(p.filteredForOutput, st.failOnSeverity, st.failOnInvariantIds);
  }

  /** `invariants_path` without `workspace_path`: the first warning says the
      invariants were skipped, no invariant finding is merged and the prompt
      gets `(none)`. */
  lemma NoWorkspaceSkipsInvariants(input: ReviewInput, env: Env, s: Stages)
    requires Truthy(input.options.invariantsPath) && !Truthy(input.workspacePath)
    requires InvariantsFit(input, env, s.d, s.pre, s.inv) && MergeFits(s.inv, s.llm, s.deterministic, s.merged)
    ensures s.inv == InvariantsStage([], [SKIP_INVARIANTS_WARNING], "(none)")
    ensures s.merged == DedupeById(s.llm.findings + s.deterministic)
    ensures ResultFrom(s, env).warnings == [SKIP_INVARIANTS_WARNING] + s.llm.warnings
  {
    assert s.inv.findings + s.llm.findings + s.deterministic == s.llm.findings + s.deterministic;
  }

  /** `llm_passes_executed` and `llm_findings_added` are 0 unless the LLM
      review ran, and the skip reason is the LLM step's. */
  lemma PassesOnlyWhenRun(input: ReviewInput, env: Env, s: Stages)
    requires LlmFits(input, env, s.d, s.pre, s.settings, s.inv, s.llm)
    ensures var stats := ResultFrom(s, env).stats;
      stats.llmSkippedReason == s.llm.skippedReason &&
      (!LlmRuns(s.settings, input.runtime, s.pre, s.inv) ==> stats.llmPasses == 0 && stats.llmFindingsAdded == 0)
  {
  }

  /** With no options the LLM is off and no invariants are run, so the
      merged findings are the deterministic ones. */
  lemma NoOptionsDeterministicOnly(input: ReviewInput, env: Env, s: Stages)
    requires input.options == NoOptions
    requires SettingsFit(input, s.settings) && InvariantsFit(input, env, s.d, s.pre, s.inv)
    requires LlmFits(input, env, s.d, s.pre, s.settings, s.inv, s.llm) && MergeFits(s.inv, s.llm, s.deterministic, s.merged)
    ensures s.llm == LlmStage([], [], 0, None, None)
    ensures s.inv == InvariantsStage([], [], "(none)")
    ensures s.merged == DedupeById(s.deterministic)
  {
    assert s.inv.findings + s.llm.findings + s.deterministic == s.deterministic;
  }
}
