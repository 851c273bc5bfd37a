/** The SARIF renderer (`toSarif`): a sarifLog object in the layout of
    OASIS SARIF Version 2.1.0 (section 3.13), with one run whose results
    follow the findings and whose rules are the first finding of each id. */
module Sarif {
  import opened Wrappers
  import opened Seqs
  import opened Uniq
  import opened Findings
  import opened ReviewResults

  /** `result.level` (section 3.27.10 of SARIF 2.1.0). */
  datatype Level = Error | Warning | Note

  function LevelName(l: Level): string {
    match l
    case Error => "error"
    case Warning => "warning"
    case Note => "note"
  }

  /** `toSarifLevel`. */
  function ToSarifLevel(severity: string): Level {
    if severity == "CRITICAL" then Error
    else if severity == "HIGH" then Error
    else if severity == "MEDIUM" then Warning
    else Note
  }

  /** The level follows the severity ranking: `error` for the two highest
      ranks, `warning` for MEDIUM, `note` for LOW, INFO and unknown severities. */
  lemma LevelByRank(severity: string)
    ensures ToSarifLevel(severity) == Error <==> SeverityRank(severity) >= 4
    ensures ToSarifLevel(severity) == Warning <==> SeverityRank(severity) == 3
    ensures ToSarifLevel(severity) == Note <==> SeverityRank(severity) <= 2
  {
  }

  predicate IsRuleIdChar(c: char) {
    'A' <= c <= 'Z' || 'a' <= c <= 'z' || '0' <= c <= '9' || c == '_' || c == '.' || c == '-'
  }

  /** `id.replace(/[^A-Za-z0-9_.-]/g, '_')`: every character outside the
      set becomes `_`, every other character is kept. */
  function StableRuleId(id: string): (r: string)
    ensures |r| == |id|
    ensures forall i :: 0 <= i < |r| ==> IsRuleIdChar(r[i])
    ensures forall i :: 0 <= i < |r| ==> r[i] == (if IsRuleIdChar(id[i]) then id[i] else '_')
  {
    seq(|id|, i requires 0 <= i < |id| => if IsRuleIdChar(id[i]) then id[i] else '_')
  }

  /** Ids made of allowed characters are kept, so the mapping is idempotent. */
  lemma StableRuleIdFixed(id: string)
    ensures StableRuleId(id) == id <==> forall i :: 0 <= i < |id| ==> IsRuleIdChar(id[i])
    ensures StableRuleId(StableRuleId(id)) == StableRuleId(id)
  {
    if StableRuleId(id) == id {
      forall i | 0 <= i < |id| ensures IsRuleIdChar(id[i]) {
        assert StableRuleId(id)[i] == id[i];
      }
    }
  }

  datatype Rule = Rule(
    id: string,
    name: string,
    shortDescription: string,
    fullDescription: string,
    category: string,
    severity: string,
    confidence: real)

  function RuleOf(f: Finding): Rule {
    Rule(StableRuleId(f.id), StableRuleId(f.id), f.title, f.recommendation, f.category, f.severity, f.confidence)
  }

  /** `buildRules`: a map from raw id to the first finding with that id,
      filled in one pass; its values in insertion order become the rules. */
  method BuildRules(findings: seq<Finding>) returns (rules: seq<Rule>)
    ensures rules == Map(DedupeById(findings), RuleOf)
  {
    var byId: map<string, Finding> := map[];
    var values: seq<Finding> := [];
    assert byId.Keys == {} && findings[0..] == findings;
    for i := 0 to |findings|
      invariant values + KeepFirst(findings[i..], FindingId, byId.Keys) == DedupeById(findings)
    {
      var f := findings[i];
      assert findings[i..][0] == f && findings[i..][1..] == findings[i + 1..];
      ghost var oldKeys := byId.Keys;
      if f.id !in byId {
        assert values + ([f] + KeepFirst(findings[i + 1..], FindingId, byId.Keys + {f.id})) ==
          (values + [f]) + KeepFirst(findings[i + 1..], FindingId, byId.Keys + {f.id});
        byId := byId[f.id := f];
        assert byId.Keys == oldKeys + {f.id};
        values := values + [f];
      }
    }
    assert findings[|findings|..] == [];
    rules := Map(values, RuleOf);
  }

  /** One rule per distinct raw id, taken from the first finding with it. */
  lemma RulesFromFirstOccurrence(findings: seq<Finding>)
    ensures |Map(DedupeById(findings), RuleOf)| <= |findings|
    ensures forall i :: 0 <= i < |findings| ==>
      exists j :: 0 <= j < |DedupeById(findings)| && DedupeById(findings)[j].id == findings[i].id
    ensures forall j :: 0 <= j < |DedupeById(findings)| ==>
      FirstWithKey(findings, FindingId, DedupeById(findings)[j].id) == Some(DedupeById(findings)[j])
    ensures DistinctKeys(DedupeById(findings), FindingId)
  {
    DedupeByIdCorrect(findings);
    SubseqLength(DedupeById(findings), findings);
  }

  datatype SarifResult = SarifResult(
    ruleId: string,
    level: Level,
    message: string,
    uri: string,
    startLine: int,
    endLine: int,
    id: string,
    category: string,
    severity: string,
    confidence: real)

  /** `buildResult`. */
  function BuildResult(f: Finding): (r: SarifResult)
    ensures r.ruleId == StableRuleId(f.id) && r.id == f.id
    ensures r.uri == f.location.file && r.startLine == f.location.startLine
    ensures r.endLine == f.location.endLine.GetOr(f.location.startLine)
    ensures r.level == ToSarifLevel(f.severity)
  {
    SarifResult(StableRuleId(f.id), ToSarifLevel(f.severity),
      f.title + "\n\nImpact: " + f.impact + "\n\nRecommendation: " + f.recommendation,
      f.location.file, f.location.startLine, f.location.endLine.GetOr(f.location.startLine),
      f.id, f.category, f.severity, f.confidence)
  }

  datatype SarifRun = SarifRun(driverName: string, driverVersion: string, rules: seq<Rule>, results: seq<SarifResult>)

  datatype SarifLog = SarifLog(schema: string, version: string, runs: seq<SarifRun>)

  /** `toSarif`: version 2.1.0, one run, one result per finding in finding
      order, and the rules of `buildRules`. */
  method ToSarif(result: ReviewResult) returns (log: SarifLog)
    ensures log.version == "2.1.0" && |log.runs| == 1
    ensures log.runs[0].driverName == "context-engine-review"
    ensures log.runs[0].driverVersion == result.toolVersion.GetOr("unknown")
    ensures |log.runs[0].results| == |result.findings|
    ensures forall i :: 0 <= i < |result.findings| ==> log.runs[0].results[i] == BuildResult(result.findings[i])
    ensures log.runs[0].rules == Map(DedupeById(result.findings), RuleOf)
  {
    var rules := BuildRules(result.findings);
    var results := Map(result.findings, BuildResult);
    log := SarifLog("https://json.schemastore.org/sarif-2.1.0.json", "2.1.0",
      [SarifRun("context-engine-review", result.toolVersion.GetOr("unknown"), rules, results)]);
  }

  /** One finding gives one result and one rule. */
  lemma OneFindingOneRule(f: Finding)
    ensures |Map(DedupeById([f]), RuleOf)| == 1
  {
    KeepFirstCons(f, [], FindingId, {});
  }
}
