/** The deterministic evaluator of project invariants (`runInvariants`,
    `evaluateInvariant`). Glob matching and regular expressions are
    parameters: `glob(path, pattern)` is the `minimatch` test with dot files
    matched, and `compile(regex)` either yields the compiled test or the
    message of the error the `RegExp` constructor throws. */
module InvariantRunner {
  import opened Wrappers
  import opened Text
  import opened Seqs
  import opened DiffModel
  import opened Findings
  import opened Invariants

  /** JavaScript truthiness of a parsed value (`!value` is false). */
  predicate Truthy(v: Json) {
    match v
    case JNull => false
    case JBool(b) => b
    case JNum(n) => n != 0.0
    case JStr(s) => s != ""
    case _ => true
  }

  /** `value[key]` on a parsed value: only mappings have properties here. */
  function Prop(v: Json, key: string): Option<Json> {
    if v.JObj? then Get(v.fields, key) else None
  }

  /** `block?.regex` when it is truthy. */
  function RegexOf(block: Option<Fields>): Option<Json> {
    if block.None? then None
    else match Get(block.value, "regex")
      case Some(re) => if Truthy(re) then Some(re) else None
      case None => None
  }

  /** The text of a pattern or flags property inside a template string:
      a string as is, a missing one as `undefined`. */
  function PropText(p: Option<Json>, missing: string): string {
    match p
    case Some(JStr(s)) => s
    case Some(JNull) => "null"
    case Some(JBool(b)) => if b then "true" else "false"
    case _ => missing
  }

  /** `/${re.pattern}/${re.flags ?? ''}`. */
  function Describe(re: Json): string {
    var flags := Prop(re, "flags");
    "/" + PropText(Prop(re, "pattern"), "undefined") + "/" +
    (if flags.None? || flags == Some(JNull) then "" else PropText(flags, ""))
  }

  /** Compiles a regex or throws: the test, or the thrown error's text. */
  type Compile = Json -> Result<string -> bool, string>

  /** The outcome of evaluating one invariant against one file's added text:
      no violation, a violation with its evidence, or a thrown error. */
  datatype Verdict =
    | Pass
    | Violation(evidence: string, impact: string, recommendation: string)
    | Throw(message: string)

  /** `compileRegex`: the engine's error is wrapped in an `Invalid regex` error. */
  function CompileRegex(re: Json, compile: Compile): Result<string -> bool, string> {
    match compile(re)
    case Ok(test) => Ok(test)
    case Err(e) => Err("Error: Invalid regex: " + Describe(re) + " (" + e + ")")
  }

  /** `!invariant.action` is false: an action string that is not empty. */
  predicate HasAction(inv: ReviewInvariant) {
    inv.action.Some? && inv.action.value != ""
  }

  /** `evaluateInvariant`. An unknown action string evaluates to no violation. */
  function EvaluateInvariant(inv: ReviewInvariant, addedText: string, compile: Compile): Verdict {
    if !HasAction(inv) then Pass
    else if inv.action.value == "deny" then
      match RegexOf(inv.deny)
      case None => Throw("Error: deny action requires deny.regex")
      case Some(re) =>
        match CompileRegex(re, compile)
        case Err(e) => Throw(e)
        case Ok(test) =>
          if test(addedText) then
            Violation("deny.regex matched: " + Describe(re),
              "A project invariant was violated by newly added code.",
              "Refactor the change to comply with the invariant or update the policy intentionally.")
          else Pass
    else if inv.action.value == "require" then
      match RegexOf(inv.require)
      case None => Throw("Error: require action requires require.regex")
      case Some(re) =>
        match CompileRegex(re, compile)
        case Err(e) => Throw(e)
        case Ok(test) =>
          if !test(addedText) then
            Violation("require.regex not found: " + Describe(re),
              "A required pattern was not found in newly added code for affected files.",
              "Add the required construct (or adjust the policy if it is no longer appropriate).")
          else Pass
    else if inv.action.value == "when_require" then
      var when := RegexOf(inv.when);
      var req := RegexOf(inv.require);
      if when.None? || req.None? then Throw("Error: when_require action requires when.regex and require.regex")
      else
        match CompileRegex(when.value, compile)
        case Err(e) => Throw(e)
        case Ok(whenTest) =>
          match CompileRegex(req.value, compile)
          case Err(e) => Throw(e)
          case Ok(reqTest) =>
            if whenTest(addedText) && !reqTest(addedText) then
              Violation("when.regex matched but require.regex missing: when=" + Describe(when.value) +
                " require=" + Describe(req.value),
                "Conditional invariant triggered; required safeguard appears missing.",
                "Add the required safeguard or remove the triggering behavior.")
            else Pass
    else Pass
  }

  /** A `deny` invariant is violated exactly when its regex compiles and
      matches; without a regex it throws. */
  lemma DenyVerdict(inv: ReviewInvariant, text: string, compile: Compile)
    requires inv.action == Some("deny")
    ensures RegexOf(inv.deny).None? ==> EvaluateInvariant(inv, text, compile) == Throw("Error: deny action requires deny.regex")
    ensures EvaluateInvariant(inv, text, compile).Violation? <==>
      RegexOf(inv.deny).Some? && compile(RegexOf(inv.deny).value).Ok? && compile(RegexOf(inv.deny).value).value(text)
  {
  }

  /** A `require` invariant is violated exactly when its regex compiles and
      does not match. */
  lemma RequireVerdict(inv: ReviewInvariant, text: string, compile: Compile)
    requires inv.action == Some("require")
    ensures RegexOf(inv.require).None? ==> EvaluateInvariant(inv, text, compile) == Throw("Error: require action requires require.regex")
    ensures EvaluateInvariant(inv, text, compile).Violation? <==>
      RegexOf(inv.require).Some? && compile(RegexOf(inv.require).value).Ok? && !compile(RegexOf(inv.require).value).value(text)
  {
    assert "require" != "deny" by { KeysDiffer("require", "deny"); }
  }

  /** A `when_require` invariant is violated exactly when both regexes
      compile, `when` matches and `require` does not. */
  lemma WhenRequireVerdict(inv: ReviewInvariant, text: string, compile: Compile)
    requires inv.action == Some("when_require")
    ensures RegexOf(inv.when).None? || RegexOf(inv.require).None? ==>
      EvaluateInvariant(inv, text, compile) == Throw("Error: when_require action requires when.regex and require.regex")
    ensures EvaluateInvariant(inv, text, compile).Violation? <==>
      RegexOf(inv.when).Some? && RegexOf(inv.require).Some? &&
      compile(RegexOf(inv.when).value).Ok? && compile(RegexOf(inv.require).value).Ok? &&
      compile(RegexOf(inv.when).value).value(text) && !compile(RegexOf(inv.require).value).value(text)
  {
    assert "when_require" != "deny" && "when_require" != "require" by {
      KeysDiffer("when_require", "deny");
      assert "when_require"[0] != "require"[0];
    }
  }

  /** An invariant with no action, or with an action the evaluator does not
      know, is never violated and never throws. */
  lemma OtherActionsPass(inv: ReviewInvariant, text: string, compile: Compile)
    requires !HasAction(inv) || inv.action.value !in ["deny", "require", "when_require"]
    ensures EvaluateInvariant(inv, text, compile) == Pass
  {
  }

  /** The first file whose new or old path is `path` (`files.find(...)`). */
  function FindFile(files: seq<DiffFile>, path: string): (r: Option<DiffFile>)
    ensures r.Some? ==> r.value in files && (r.value.newPath == path || r.value.oldPath == path)
    ensures r.None? <==> forall i :: 0 <= i < |files| ==> files[i].newPath != path && files[i].oldPath != path
  {
    if files == [] then None
    else if files[0].newPath == path || files[0].oldPath == path then Some(files[0])
    else FindFile(files[1..], path)
  }

  /** `getAddedTextForFile`: the added lines of the matching file joined
      with newlines, or the empty text when no file matches. */
  function AddedTextForFile(d: ParsedDiff, path: string): string {
    match FindFile(d.files, path)
    case None => ""
    case Some(f) => Join(AddedContents(FileLines(f)), "\n")
  }

  /** `appliesToFile`: one of the invariant's globs matches the path. */
  predicate AppliesToFile(inv: ReviewInvariant, path: string, glob: (string, string) -> bool) {
    exists k | 0 <= k < |inv.paths| :: glob(path, inv.paths[k])
  }

  /** `Object.values(config).flat()`: the invariants of every section in order. */
  function AllInvariants(config: Config): seq<ReviewInvariant> {
    if config == [] then [] else config[0].1 + AllInvariants(config[1..])
  }

  /** `rule.slice(0, 80)`. */
  function Title(rule: string): (t: string)
    ensures |t| <= 80 && StartsWith(rule, t)
    ensures |rule| <= 80 ==> t == rule
  {
    if |rule| <= 80 then rule else rule[..80]
  }

  /** The finding a violated invariant produces for a file. */
  function InvariantFinding(inv: ReviewInvariant, path: string, v: Verdict): Finding
    requires v.Violation?
  {
    Finding(inv.id, inv.severity, inv.category, 0.95, Title(inv.rule), Location(path, 1, Some(1)),
      [v.evidence], v.impact, v.recommendation)
  }

  datatype RunResult = RunResult(findings: seq<Finding>, warnings: seq<string>, checked: nat)

  const Empty := RunResult([], [], 0)

  function Plus(a: RunResult, b: RunResult): RunResult {
    RunResult(a.findings + b.findings, a.warnings + b.warnings, a.checked + b.checked)
  }

  /** The verdict of each (invariant, file) pair. */
  type Eval = (ReviewInvariant, string) -> Verdict

  /** Evaluation against the added text of the file in the diff. */
  function Evaluator(d: ParsedDiff, compile: Compile): Eval {
    (inv, path) => EvaluateInvariant(inv, AddedTextForFile(d, path), compile)
  }

  /** One (invariant, file) pair the invariant applies to: it is counted,
      then yields a finding, nothing, or a warning. */
  function PairResult(inv: ReviewInvariant, path: string, v: Verdict): RunResult {
    match v
    case Pass => RunResult([], [], 1)
    case Violation(_, _, _) => RunResult([InvariantFinding(inv, path, v)], [], 1)
    case Throw(m) => RunResult([], ["Invariant " + inv.id + " evaluation failed: " + m], 1)
  }

  /** One invariant with an action, over the changed files. */
  function FilesResult(inv: ReviewInvariant, files: seq<string>, glob: (string, string) -> bool, eval: Eval): RunResult {
    if files == [] then Empty
    else
      var last := files[|files| - 1];
      Plus(FilesResult(inv, files[..|files| - 1], glob, eval),
        if AppliesToFile(inv, last, glob) then PairResult(inv, last, eval(inv, last)) else Empty)
  }

  /** One invariant: a warning when it has no action, otherwise its files. */
  function InvariantResult(inv: ReviewInvariant, files: seq<string>, glob: (string, string) -> bool, eval: Eval): RunResult {
    if !HasAction(inv) then RunResult([], ["Invariant " + inv.id + " has no action; skipping deterministic evaluation"], 0)
    else FilesResult(inv, files, glob, eval)
  }

  /** All invariants in order. */
  function RunAll(invs: seq<ReviewInvariant>, files: seq<string>, glob: (string, string) -> bool, eval: Eval): RunResult {
    if invs == [] then Empty
    else Plus(RunAll(invs[..|invs| - 1], files, glob, eval), InvariantResult(invs[|invs| - 1], files, glob, eval))
  }

  lemma PlusAssoc(a: RunResult, b: RunResult, c: RunResult)
    ensures Plus(Plus(a, b), c) == Plus(a, Plus(b, c))
  {
    assert (a.findings + b.findings) + c.findings == a.findings + (b.findings + c.findings);
    assert (a.warnings + b.warnings) + c.warnings == a.warnings + (b.warnings + c.warnings);
  }

  /** The inner loop of `runInvariants` for one invariant with an action:
      every changed file one of its globs matches is counted and evaluated
      against that file's added text. */
  method CheckFiles(inv: ReviewInvariant, d: ParsedDiff, changedFiles: seq<string>,
                    glob: (string, string) -> bool, compile: Compile)
    returns (r: RunResult)
    ensures r == FilesResult(inv, changedFiles, glob, Evaluator(d, compile))
  {
    r := Empty;
    for j := 0 to |changedFiles|
      invariant r == FilesResult(inv, changedFiles[..j], glob, Evaluator(d, compile))
    {
      var filePath := changedFiles[j];
      assert changedFiles[..j + 1][..j] == changedFiles[..j];
      if !AppliesToFile(inv, filePath, glob) {
        assert Plus(r, Empty) == r;
        continue;
      }
      var checked := r.checked + 1;
      var addedText := AddedTextForFile(d, filePath);
      var verdict := EvaluateInvariant(inv, addedText, compile);
      assert verdict == Evaluator(d, compile)(inv, filePath);
      match verdict {
        case Pass =>
          r := r.(checked := checked);
        case Violation(_, _, _) =>
          r := r.(findings := r.findings + [InvariantFinding(inv, filePath, verdict)], checked := checked);
        case Throw(m) =>
          r := r.(warnings := r.warnings + ["Invariant " + inv.id + " evaluation failed: " + m], checked := checked);
      }
    }
    assert changedFiles[..|changedFiles|] == changedFiles;
  }

  /** `runInvariants`: for each invariant, skip it with a warning when it has
      no action, otherwise check it against the changed files. */
  method RunInvariants(d: ParsedDiff, changedFiles: seq<string>, config: Config,
                       glob: (string, string) -> bool, compile: Compile)
    returns (r: RunResult)
    ensures r == RunAll(AllInvariants(config), changedFiles, glob, Evaluator(d, compile))
  {
    r := Empty;
    var allInvariants := AllInvariants(config);
    for i := 0 to |allInvariants|
      invariant r == RunAll(allInvariants[..i], changedFiles, glob, Evaluator(d, compile))
    {
      var inv := allInvariants[i];
      assert RunAll(allInvariants[..i + 1], changedFiles, glob, Evaluator(d, compile))
          == Plus(r, InvariantResult(inv, changedFiles, glob, Evaluator(d, compile))) by {
        assert allInvariants[..i + 1][..i] == allInvariants[..i];
      }
      if !HasAction(inv) {
        r := r.(warnings := r.warnings + ["Invariant " + inv.id + " has no action; skipping deterministic evaluation"]);
        continue;
      }
      var fileResult := CheckFiles(inv, d, changedFiles, glob, compile);
      r := Plus(r, fileResult);
    }
    assert allInvariants[..|allInvariants|] == allInvariants;
  }

  /** `appliesToFile` as a predicate on paths. */
  function AppliesTo(inv: ReviewInvariant, glob: (string, string) -> bool): string -> bool {
    path => AppliesToFile(inv, path, glob)
  }

  /** The number of (invariant, file) pairs to check: for every invariant
      with an action, the changed files one of its globs matches. */
  function PairCount(invs: seq<ReviewInvariant>, files: seq<string>, glob: (string, string) -> bool): nat {
    if invs == [] then 0
    else (if HasAction(invs[0]) then |Filter(files, AppliesTo(invs[0], glob))| else 0) + PairCount(invs[1..], files, glob)
  }

  lemma {:induction false} FilesChecked(inv: ReviewInvariant, files: seq<string>, 
                                        glob: (string, string) -> bool, eval: Eval)
    ensures FilesResult(inv, files, glob, eval).checked == |Filter(files, AppliesTo(inv, glob))|
    ensures |FilesResult(inv, files, glob, eval).findings| <= FilesResult(inv, files, glob, eval).checked
  {
    if files != [] {
      var front := files[..|files| - 1];
      var last := files[|files| - 1];
      FilesChecked(inv, front, glob, eval);
      assert files == front + [last];
      FilterAppend(front, [last], AppliesTo(inv, glob));
    }
  }

  lemma {:induction false} PairCountSnoc(invs: seq<ReviewInvariant>, inv: ReviewInvariant, files: seq<string>,
                                         glob: (string, string) -> bool)
    ensures PairCount(invs + [inv], files, glob) ==
      PairCount(invs, files, glob) + (if HasAction(inv) then |Filter(files, AppliesTo(inv, glob))| else 0)
  {
    if invs != [] {
      assert (invs + [inv])[1..] == invs[1..] + [inv];
      PairCountSnoc(invs[1..], inv, files, glob);
    } else {
      assert ([inv])[1..] == [];
    }
  }

  /** `checked_invariants` counts every (invariant with an action, file its
      globs match) pair once, whatever the evaluation gives; there are never
      more findings than checked pairs. */
  lemma {:induction false} CheckedCount(invs: seq<ReviewInvariant>, files: seq<string>, 
                                        glob: (string, string) -> bool, eval: Eval)
    ensures RunAll(invs, files, glob, eval).checked == PairCount(invs, files, glob)
    ensures |RunAll(invs, files, glob, eval).findings| <= RunAll(invs, files, glob, eval).checked
  {
    if invs != [] {
      var front := invs[..|invs| - 1];
      var last := invs[|invs| - 1];
      CheckedCount(front, files, glob, eval);
      FilesChecked(last, files, glob, eval);
      assert invs == front + [last];
      PairCountSnoc(front, last, files, glob);
    }
  }

  /** `f` is the finding of `inv` for one of the changed files it applies to:
      the invariant's id, severity and category, confidence 0.95, the rule's
      first 80 characters as title, line 1 of the file, one evidence line. */
  predicate ProducedBy(f: Finding, inv: ReviewInvariant, files: seq<string>, glob: (string, string) -> bool) {
    HasAction(inv) && f.id == inv.id && f.severity == inv.severity && f.category == inv.category &&
    f.confidence == 0.95 && f.title == Title(inv.rule) &&
    f.location == Location(f.location.file, 1, Some(1)) &&
    f.location.file in files && AppliesToFile(inv, f.location.file, glob) && |f.evidence| == 1
  }

  lemma {:induction false} FilesProvenance(inv: ReviewInvariant, files: seq<string>, 
                                           glob: (string, string) -> bool, eval: Eval, k: nat)
    requires HasAction(inv)
    requires k < |FilesResult(inv, files, glob, eval).findings|
    ensures ProducedBy(FilesResult(inv, files, glob, eval).findings[k], inv, files, glob)
  {
    var front := files[..|files| - 1];
    var last := files[|files| - 1];
    var a := FilesResult(inv, front, glob, eval);
    if k < |a.findings| {
      FilesProvenance(inv, front, glob, eval, k);
      assert front[..] <= files;
    }
  }

  /** Every finding comes from an invariant with an action, for a changed
      file one of its globs matches, and carries that invariant's data. */
  lemma {:induction false} FindingsProvenance(invs: seq<ReviewInvariant>, files: seq<string>, 
                                              glob: (string, string) -> bool, eval: Eval, k: nat)
    requires k < |RunAll(invs, files, glob, eval).findings|
    ensures exists inv :: inv in invs && ProducedBy(RunAll(invs, files, glob, eval).findings[k], inv, files, glob)
  {
    var front := invs[..|invs| - 1];
    var last := invs[|invs| - 1];
    var a := RunAll(front, files, glob, eval);
    var b := InvariantResult(last, files, glob, eval);
    var f := RunAll(invs, files, glob, eval).findings[k];
    assert RunAll(invs, files, glob, eval).findings == a.findings + b.findings;
    if k < |a.findings| {
      assert f == a.findings[k];
      FindingsProvenance(front, files, glob, eval, k);
      var inv :| inv in front && ProducedBy(f, inv, files, glob);
      assert inv in invs;
    } else {
      assert f == b.findings[k - |a.findings|];
      FilesProvenance(last, files, glob, eval, k - |a.findings|);
      assert last in invs;
    }
  }

  lemma {:induction false} FilesComplete(inv: ReviewInvariant, files: seq<string>, 
                                         glob: (string, string) -> bool, eval: Eval, k: nat)
    requires k < |files| && AppliesToFile(inv, files[k], glob)
    requires eval(inv, files[k]).Violation?
    ensures InvariantFinding(inv, files[k], eval(inv, files[k]))
      in FilesResult(inv, files, glob, eval).findings
  {
    var front := files[..|files| - 1];
    var last := files[|files| - 1];
    var a := FilesResult(inv, front, glob, eval);
    var b := if AppliesToFile(inv, last, glob) then PairResult(inv, last, eval(inv, last)) else Empty;
    assert FilesResult(inv, files, glob, eval).findings == a.findings + b.findings;
    if k < |front| {
      FilesComplete(inv, front, glob, eval, k);
      assert files[k] == front[k];
    }
  }

  /** Every violation of an invariant with an action, on a changed file one
      of its globs matches, is reported as that invariant's finding. */
  lemma {:induction false} FindingsComplete(invs: seq<ReviewInvariant>, files: seq<string>, 
                                            glob: (string, string) -> bool, eval: Eval, i: nat, k: nat)
    requires i < |invs| && k < |files| && HasAction(invs[i]) && AppliesToFile(invs[i], files[k], glob)
    requires eval(invs[i], files[k]).Violation?
    ensures InvariantFinding(invs[i], files[k], eval(invs[i], files[k]))
      in RunAll(invs, files, glob, eval).findings
  {
    var front := invs[..|invs| - 1];
    if i < |front| {
      FindingsComplete(front, files, glob, eval, i, k);
    } else {
      FilesComplete(invs[i], files, glob, eval, k);
    }
  }

  /** Two invariants on one changed file, as in the invariants test: a
      `when_require` whose trigger matches and whose safeguard is missing,
      and a `deny` whose pattern matches. Both are checked and reported, in
      configuration order, with no warning. */
  lemma WhenRequireAndDenyExample(sec1: ReviewInvariant, sec2: ReviewInvariant, path: string, d: ParsedDiff,
                                  glob: (string, string) -> bool, compile: Compile, w: Json, q: Json, e: Json)
    requires sec1.action == Some("when_require") && RegexOf(sec1.when) == Some(w) && RegexOf(sec1.require) == Some(q)
    requires sec2.action == Some("deny") && RegexOf(sec2.deny) == Some(e)
    requires AppliesToFile(sec1, path, glob) && AppliesToFile(sec2, path, glob)
    requires compile(w).Ok? && compile(q).Ok? && compile(e).Ok?
    requires compile(w).value(AddedTextForFile(d, path)) && !compile(q).value(AddedTextForFile(d, path))
    requires compile(e).value(AddedTextForFile(d, path))
    ensures Map(RunAll([sec1, sec2], [path], glob, Evaluator(d, compile)).findings, FindingId) == [sec1.id, sec2.id]
    ensures RunAll([sec1, sec2], [path], glob, Evaluator(d, compile)).checked == 2
    ensures RunAll([sec1, sec2], [path], glob, Evaluator(d, compile)).warnings == []
  {
    var text := AddedTextForFile(d, path);
    var eval := Evaluator(d, compile);
    assert EvaluateInvariant(sec1, text, compile).Violation? by {
      WhenRequireVerdict(sec1, text, compile);
    }
    assert EvaluateInvariant(sec2, text, compile).Violation? by {
      DenyVerdict(sec2, text, compile);
    }
    EvaluatorApplies(d, compile, sec1, path);
    EvaluatorApplies(d, compile, sec2, path);
    TwoViolations(sec1, sec2, path, glob, eval);
  }

  lemma EvaluatorApplies(d: ParsedDiff, compile: Compile, inv: ReviewInvariant, path: string)
    ensures Evaluator(d, compile)(inv, path) == EvaluateInvariant(inv, AddedTextForFile(d, path), compile)
  {
  }

  lemma TwoViolations(inv1: ReviewInvariant, inv2: ReviewInvariant, path: string, glob: (string, string) -> bool, eval: Eval)
    requires HasAction(inv1) && AppliesToFile(inv1, path, glob) && eval(inv1, path).Violation?
    requires HasAction(inv2) && AppliesToFile(inv2, path, glob) && eval(inv2, path).Violation?
    ensures Map(RunAll([inv1, inv2], [path], glob, eval).findings, FindingId) == [inv1.id, inv2.id]
    ensures RunAll([inv1, inv2], [path], glob, eval).checked == 2
    ensures RunAll([inv1, inv2], [path], glob, eval).warnings == []
  {
    OneViolatingFile(inv1, path, glob, eval);
    OneViolatingFile(inv2, path, glob, eval);
    RunTwo(inv1, inv2, [path], glob, eval);
    var f1 := InvariantFinding(inv1, path, eval(inv1, path));
    var f2 := InvariantFinding(inv2, path, eval(inv2, path));
    assert RunAll([inv1, inv2], [path], glob, eval).findings == [f1, f2];
  }

  lemma OneViolatingFile(inv: ReviewInvariant, path: string, glob: (string, string) -> bool, eval: Eval)
    requires HasAction(inv) && AppliesToFile(inv, path, glob) && eval(inv, path).Violation?
    ensures InvariantResult(inv, [path], glob, eval) == RunResult([InvariantFinding(inv, path, eval(inv, path))], [], 1)
  {
    assert [path][..0] == [];
    assert FilesResult(inv, [], glob, eval) == Empty;
    var pr := PairResult(inv, path, eval(inv, path));
    assert pr == RunResult([InvariantFinding(inv, path, eval(inv, path))], [], 1);
    assert FilesResult(inv, [path], glob, eval) == Plus(Empty, pr);
    assert Plus(Empty, pr) == pr;
  }

  lemma RunTwo(inv1: ReviewInvariant, inv2: ReviewInvariant, files: seq<string>, glob: (string, string) -> bool, eval: Eval)
    ensures RunAll([inv1, inv2], files, glob, eval) ==
      Plus(InvariantResult(inv1, files, glob, eval), InvariantResult(inv2, files, glob, eval))
  {
    assert [inv1, inv2][..1] == [inv1] && [inv1][..0] == [];
    var r1 := InvariantResult(inv1, files, glob, eval);
    assert Plus(Empty, r1) == r1;
    assert RunAll([inv1], files, glob, eval) == Plus(RunAll([], files, glob, eval), r1);
    assert RunAll([inv1], files, glob, eval) == r1;
  }
}
