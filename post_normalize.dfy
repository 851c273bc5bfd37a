/** Finding post-processing (`postProcessFindings`) and the CI fail gate
    (`evaluateFailurePolicy`). */
module PostNormalize {
  import opened Wrappers
  import opened Seqs
  import opened PostShared
  import opened Findings

  datatype Processed = Processed(filteredForOutput: seq<Finding>, limitedFindings: seq<Finding>)

  function Confidence(f: Finding): real { f.confidence }

  function Category(f: Finding): string { f.category }

  /** Confidence filter, then category filter, then allowlist exclusion; the
      output list is the filtered list cut to `maxFindings`. */
  function PostProcessFindings(merged: seq<Finding>, confidenceThreshold: real, categories: Option<seq<string>>,
                               allowlist: Option<seq<string>>, maxFindings: int): (r: Processed)
    ensures |r.limitedFindings| == if maxFindings <= 0 then 0
      else if maxFindings < |r.filteredForOutput| then maxFindings else |r.filteredForOutput|
    ensures r.limitedFindings == r.filteredForOutput[..|r.limitedFindings|]
  {
    var filtered := FilterByAllowedValues(FilterByThreshold(merged, Confidence, confidenceThreshold), Category, categories);
    var filteredForOutput := ExcludeById(filtered, FindingId, allowlist);
    Processed(filteredForOutput, LimitToMax(filteredForOutput, maxFindings))
  }

  /** A finding survives the three filters. */
  predicate Survives(f: Finding, confidenceThreshold: real, categories: Option<seq<string>>, allowlist: Option<seq<string>>) {
    f.confidence >= confidenceThreshold &&
    (categories.None? || categories.value == [] || f.category in categories.value) &&
    !(allowlist.Some? && f.id in allowlist.value && f.id != "")
  }

  function Surviving(confidenceThreshold: real, categories: Option<seq<string>>, allowlist: Option<seq<string>>): Finding -> bool {
    f => Survives(f, confidenceThreshold, categories, allowlist)
  }

  /** The output list keeps input order (it is a subsequence of the input)
      and holds exactly the input findings that survive every filter: the
      three filters in a row are one filter by `Survives`. */
  lemma PostProcessCorrect(merged: seq<Finding>, confidenceThreshold: real, categories: Option<seq<string>>,
                           allowlist: Option<seq<string>>, maxFindings: int)
    ensures var r := PostProcessFindings(merged, confidenceThreshold, categories, allowlist, maxFindings);
      IsSubseq(r.filteredForOutput, merged) && IsSubseq(r.limitedFindings, merged) &&
      forall f :: f in r.filteredForOutput <==> f in merged && Survives(f, confidenceThreshold, categories, allowlist)
    ensures PostProcessFindings(merged, confidenceThreshold, categories, allowlist, maxFindings).filteredForOutput
      == Filter(merged, Surviving(confidenceThreshold, categories, allowlist))
  {
    var a := FilterByThreshold(merged, Confidence, confidenceThreshold);
    var b := FilterByAllowedValues(a, Category, categories);
    var c := ExcludeById(b, FindingId, allowlist);
    ThresholdCorrect(merged, Confidence, confidenceThreshold);
    AllowedValuesCorrect(a, Category, categories);
    ExcludeByIdCorrect(b, FindingId, allowlist);
    FiltersAsOne(merged, confidenceThreshold, categories, allowlist);
    SubseqTrans(b, a, merged);
    SubseqTrans(c, b, merged);
    LimitToMaxSubseq(c, maxFindings);
    SubseqTrans(LimitToMax(c, maxFindings), c, merged);
  }

  /** The three filters of `PostProcessFindings` in a row keep exactly what
      one filter by `Survives` keeps, in the same order. */
  lemma FiltersAsOne(merged: seq<Finding>, confidenceThreshold: real, categories: Option<seq<string>>,
                     allowlist: Option<seq<string>>)
    ensures ExcludeById(FilterByAllowedValues(FilterByThreshold(merged, Confidence, confidenceThreshold), Category, categories),
                        FindingId, allowlist)
      == Filter(merged, Surviving(confidenceThreshold, categories, allowlist))
  {
    var keep := AtLeast(Confidence, confidenceThreshold);
    var b := FilterByAllowedValues(FilterByThreshold(merged, Confidence, confidenceThreshold), Category, categories);
    var both: Finding -> bool := (f: Finding) => f.confidence >= confidenceThreshold &&
      (categories.None? || categories.value == [] || f.category in categories.value);
    forall f ensures keep(f) == (f.confidence >= confidenceThreshold) {
      assert Confidence(f) == f.confidence;
    }
    if categories.None? || |categories.value| == 0 {
      FilterExt(merged, keep, both);
    } else {
      var listed := Listed(Category, categories.value);
      forall f ensures listed(f) == (f.category in categories.value) {
        assert Category(f) == f.category;
      }
      FilterFilter(merged, keep, listed, both);
    }
    var list := NonEmptyIds(allowlist);
    var all := Surviving(confidenceThreshold, categories, allowlist);
    forall f ensures all(f) == (both(f) && !(allowlist.Some? && f.id in allowlist.value && f.id != "")) {
      assert all(f) == Survives(f, confidenceThreshold, categories, allowlist);
    }
    if |list| == 0 {
      forall f ensures all(f) == both(f) {
        assert f.id !in list;
      }
      FilterExt(merged, both, all);
    } else {
      var unlisted := NotListed(FindingId, list);
      forall f ensures unlisted(f) == (f.id !in list) {
        assert FindingId(f) == f.id;
      }
      FilterFilter(merged, both, unlisted, all);
    }
  }

  /** Five findings filtered at 0.55 with C allowlisted and a limit of 2:
      B falls to the confidence filter, C to the allowlist, and the order is kept. */
  lemma PostProcessExample(a: Finding, b: Finding, c: Finding, d: Finding, e: Finding)
    requires a.id == "A" && b.id == "B" && c.id == "C" && d.id == "D" && e.id == "E"
    requires a.confidence == 0.9 && b.confidence == 0.2 && c.confidence == 0.9 && d.confidence == 0.9 && e.confidence == 0.9
    ensures PostProcessFindings([a, b, c, d, e], 0.55, None, Some(["C"]), 2) == Processed([a, d, e], [a, d])
  {
    ExampleThreshold(a, b, c, d, e, Confidence);
    ExampleAllowlist(a, c, d, e, FindingId);
    assert [a, d, e][..2] == [a, d];
  }

  lemma ExampleThreshold<X>(a: X, b: X, c: X, d: X, e: X, score: X -> real)
    requires score(a) == 0.9 && score(b) == 0.2 && score(c) == 0.9 && score(d) == 0.9 && score(e) == 0.9
    ensures FilterByThreshold([a, b, c, d, e], score, 0.55) == [a, c, d, e]
  {
    var keep := AtLeast(score, 0.55);
    assert Filter([e], keep) == [e] by { FilterCons(e, [], keep); }
    assert Filter([d, e], keep) == [d, e] by { FilterCons(d, [e], keep); }
    assert Filter([c, d, e], keep) == [c, d, e] by { FilterCons(c, [d, e], keep); }
    assert Filter([b, c, d, e], keep) == [c, d, e] by { FilterCons(b, [c, d, e], keep); }
    FilterCons(a, [b, c, d, e], keep);
  }

  lemma ExampleAllowlist<X>(a: X, c: X, d: X, e: X, id: X -> string)
    requires id(a) == "A" && id(c) == "C" && id(d) == "D" && id(e) == "E"
    ensures ExcludeById([a, c, d, e], id, Some(["C"])) == [a, d, e]
  {
    assert NonEmptyIds(Some(["C"])) == ["C"] by {
      FilterCons("C", [], s => s != "");
    }
    var out := NotListed(id, ["C"]);
    assert "A" !in ["C"] && "D" !in ["C"] && "E" !in ["C"] by {
      assert "A"[0] != "C"[0] && "D"[0] != "C"[0] && "E"[0] != "C"[0];
    }
    assert Filter([e], out) == [e] by { FilterCons(e, [], out); }
    assert Filter([d, e], out) == [d, e] by { FilterCons(d, [e], out); }
    assert Filter([c, d, e], out) == [d, e] by { FilterCons(c, [d, e], out); }
    FilterCons(a, [c, d, e], out);
  }

  /** `SEVERITY_ORDER[failOnSeverity] ?? SEVERITY_ORDER.CRITICAL`. */
  function Threshold(failOnSeverity: string): (t: nat)
    ensures 1 <= t <= 5
    ensures failOnSeverity == "CRITICAL" || SeverityRank(failOnSeverity) == 0 <==> t == 5
  {
    if SeverityRank(failOnSeverity) > 0 then SeverityRank(failOnSeverity) else 5
  }

  /** A finding fails the gate: its id is forced, or its severity reaches the threshold. */
  predicate Trips(f: Finding, failIds: seq<string>, threshold: nat) {
    (f.id in failIds && f.id != "") || SeverityRank(f.severity) >= threshold
  }

  function TripsAt(failIds: seq<string>, threshold: nat): Finding -> bool {
    f => Trips(f, failIds, threshold)
  }

  /** The reason a tripping finding gives: the forced-fail reason when its id
      is forced, the severity reason otherwise. */
  function ReasonFor(f: Finding, failIds: seq<string>): string {
    if f.id in failIds && f.id != "" then "Invariant " + f.id + " forced-fail"
    else f.severity + " " + f.id + ": " + f.title
  }

  function ReasonsFor(failIds: seq<string>): Finding -> string {
    f => ReasonFor(f, failIds)
  }

  /** Every reason, before the cut to 20: one per tripping finding, in order. */
  function AllReasons(findings: seq<Finding>, failIds: seq<string>, threshold: nat): seq<string> {
    Map(Filter(findings, TripsAt(failIds, threshold)), ReasonsFor(failIds))
  }

  datatype FailurePolicy = FailurePolicy(shouldFail: bool, reasons: seq<string>)

  /** `evaluateFailurePolicy`: one pass pushing a reason per tripping finding. */
  method EvaluateFailurePolicy(findings: seq<Finding>, failOnSeverity: string, failOnInvariantIds: seq<string>)
    returns (r: FailurePolicy)
    ensures r.shouldFail <==> |AllReasons(findings, failOnInvariantIds, Threshold(failOnSeverity))| > 0
    ensures r.reasons == LimitToMax(AllReasons(findings, failOnInvariantIds, Threshold(failOnSeverity)), 20)
  {
    var failIds: set<string> := set s | s in failOnInvariantIds && s != "";
    var threshold := Threshold(failOnSeverity);
    ghost var trips := TripsAt(failOnInvariantIds, threshold);
    var reasons: seq<string> := [];
    for i := 0 to |findings|
      invariant reasons == Map(Filter(findings[..i], trips), ReasonsFor(failOnInvariantIds))
    {
      var f := findings[i];
      FilterAppend(findings[..i], [f], trips);
      PrefixSnoc(findings, i);
      if f.id in failIds {
        reasons := reasons + ["Invariant " + f.id + " forced-fail"];
      } else if SeverityRank(f.severity) >= threshold {
        reasons := reasons + [f.severity + " " + f.id + ": " + f.title];
      }
    }
    assert findings[..|findings|] == findings;
    r := FailurePolicy(|reasons| > 0, LimitToMax(reasons, 20));
  }

  /** The gate fails exactly when some finding has a forced id or a severity
      ranked at or above the threshold. */
  lemma ShouldFailIff(findings: seq<Finding>, failOnSeverity: string, failOnInvariantIds: seq<string>)
    ensures |AllReasons(findings, failOnInvariantIds, Threshold(failOnSeverity))| > 0 <==>
      exists i :: 0 <= i < |findings| &&
        ((findings[i].id in failOnInvariantIds && findings[i].id != "") ||
         SeverityRank(findings[i].severity) >= Threshold(failOnSeverity))
  {
    FilterNonEmptyAny(findings, TripsAt(failOnInvariantIds, Threshold(failOnSeverity)));
  }

  /** Each tripping finding gives exactly one reason, and a forced finding's
      reason is the forced-fail text, never a severity reason. */
  lemma ReasonsOnePerFinding(findings: seq<Finding>, failIds: seq<string>, threshold: nat, k: nat)
    requires k < |AllReasons(findings, failIds, threshold)|
    ensures var f := Filter(findings, TripsAt(failIds, threshold))[k];
      f in findings && Trips(f, failIds, threshold) &&
      AllReasons(findings, failIds, threshold)[k] ==
        if f.id in failIds && f.id != "" then "Invariant " + f.id + " forced-fail"
        else f.severity + " " + f.id + ": " + f.title
  {
    FilterElem(findings, TripsAt(failIds, threshold), k);
  }

  /** Reasons are cut to 20 while the verdict counts all of them. */
  lemma ReasonsCapped(findings: seq<Finding>, failOnSeverity: string, failOnInvariantIds: seq<string>)
    ensures |LimitToMax(AllReasons(findings, failOnInvariantIds, Threshold(failOnSeverity)), 20)| <= 20
    ensures |AllReasons(findings, failOnInvariantIds, Threshold(failOnSeverity))| > 0 <==>
      |LimitToMax(AllReasons(findings, failOnInvariantIds, Threshold(failOnSeverity)), 20)| > 0
  {
  }
  /** With findings LOW X, HIGH Y and INFO Z, failing on HIGH gives the one
      reason `HIGH Y: y`. */
  lemma GateBySeverityExample(x: Finding, y: Finding, z: Finding)
    requires x.id == "X" && x.severity == "LOW"
    requires y.id == "Y" && y.severity == "HIGH" && y.title == "y"
    requires z.id == "Z" && z.severity == "INFO"
    ensures AllReasons([x, y, z], [], Threshold("HIGH")) == ["HIGH Y: y"]
  {
    var high := TripsAt([], 4);
    assert Threshold("HIGH") == 4;
    assert Filter([x, y, z], high) == [y] by {
      assert Filter([z], high) == [] by { FilterCons(z, [], high); }
      assert Filter([y, z], high) == [y] by { FilterCons(y, [z], high); }
      FilterCons(x, [y, z], high);
    }
    assert ReasonFor(y, []) == "HIGH Y: y";
    assert Map([y], ReasonsFor([])) == [ReasonFor(y, [])];
  }

  /** With the same findings, forcing Z while failing on CRITICAL gives the
      one reason `Invariant Z forced-fail`. */
  lemma GateForcedExample(x: Finding, y: Finding, z: Finding)
    requires x.id == "X" && x.severity == "LOW"
    requires y.id == "Y" && y.severity == "HIGH"
    requires z.id == "Z" && z.severity == "INFO"
    ensures AllReasons([x, y, z], ["Z"], Threshold("CRITICAL")) == ["Invariant Z forced-fail"]
  {
    var forced := TripsAt(["Z"], 5);
    assert Threshold("CRITICAL") == 5;
    assert Filter([x, y, z], forced) == [z] by {
      assert "X" !in ["Z"] && "Y" !in ["Z"] by {
        assert "X"[0] != "Z"[0] && "Y"[0] != "Z"[0];
      }
      assert Filter([z], forced) == [z] by { FilterCons(z, [], forced); }
      assert Filter([y, z], forced) == [z] by { FilterCons(y, [z], forced); }
      FilterCons(x, [y, z], forced);
    }
    assert ReasonFor(z, ["Z"]) == "Invariant Z forced-fail";
    assert Map([z], ReasonsFor(["Z"])) == [ReasonFor(z, ["Z"])];
  }
}
