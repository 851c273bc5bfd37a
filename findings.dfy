/** Review findings, the severity ranking shared by the gate and the
    comment renderer, and de-duplication by id. */
module Findings {
  import opened Wrappers
  import opened Seqs
  import opened Uniq

  datatype Location = Location(file: string, startLine: int, endLine: Option<int>)

  /** An `EnterpriseFinding`. Severity and category are kept as the strings
      the producer wrote; unknown severities are ranked below every known one. */
  datatype Finding = Finding(
    id: string,
    severity: string,
    category: string,
    confidence: real,
    title: string,
    location: Location,
    evidence: seq<string>,
    impact: string,
    recommendation: string)

  function FindingId(f: Finding): string {
    f.id
  }

  /** `SEVERITY_ORDER[s] ?? 0`: CRITICAL 5, HIGH 4, MEDIUM 3, LOW 2, INFO 1, anything else 0. */
  function SeverityRank(s: string): (r: nat)
    ensures r <= 5
    ensures r > 0 <==> s in ["CRITICAL", "HIGH", "MEDIUM", "LOW", "INFO"]
  {
    if s == "CRITICAL" then 5
    else if s == "HIGH" then 4
    else if s == "MEDIUM" then 3
    else if s == "LOW" then 2
    else if s == "INFO" then 1
    else 0
  }

  /** The findings with the first occurrence of each id, in input order. */
  function DedupeById(findings: seq<Finding>): seq<Finding> {
    KeepFirst(findings, FindingId, {})
  }

  /** `dedupeFindingsById`: one pass with a set of the ids already emitted. */
  method DedupeFindingsById(findings: seq<Finding>) returns (out: seq<Finding>)
    ensures out == DedupeById(findings)
  {
    var seen: set<string> := {};
    out := [];
    for i := 0 to |findings|
      invariant out + KeepFirst(findings[i..], FindingId, seen) == DedupeById(findings)
    {
      var f := findings[i];
      assert findings[i..][0] == f && findings[i..][1..] == findings[i + 1..];
      if f.id !in seen {
        seen := seen + {f.id};
        assert out + ([f] + KeepFirst(findings[i + 1..], FindingId, seen)) ==
          (out + [f]) + KeepFirst(findings[i + 1..], FindingId, seen);
        out := out + [f];
      }
    }
    assert findings[|findings|..] == [];
  }

  /** The output ids are distinct, the output is a subsequence of the input,
      every input id is kept, each kept finding is the first with its id, and
      de-duplicating again changes nothing. */
  lemma DedupeByIdCorrect(findings: seq<Finding>)
    ensures DistinctKeys(DedupeById(findings), FindingId)
    ensures IsSubseq(DedupeById(findings), findings)
    ensures forall i :: 0 <= i < |findings| ==>
      exists j :: 0 <= j < |DedupeById(findings)| && DedupeById(findings)[j].id == findings[i].id
    ensures forall j :: 0 <= j < |DedupeById(findings)| ==>
      FirstWithKey(findings, FindingId, DedupeById(findings)[j].id) == Some(DedupeById(findings)[j])
    ensures DedupeById(DedupeById(findings)) == DedupeById(findings)
  {
    KeepFirstDistinct(findings, FindingId, {});
    KeepFirstSubseq(findings, FindingId, {});
    forall i | 0 <= i < |findings|
      ensures exists j :: 0 <= j < |DedupeById(findings)| && DedupeById(findings)[j].id == findings[i].id
    {
      KeepFirstCovers(findings, FindingId, {}, i);
      var j :| 0 <= j < |DedupeById(findings)| && FindingId(DedupeById(findings)[j]) == FindingId(findings[i]);
      assert DedupeById(findings)[j].id == findings[i].id;
    }
    forall j | 0 <= j < |DedupeById(findings)|
      ensures FirstWithKey(findings, FindingId, DedupeById(findings)[j].id) == Some(DedupeById(findings)[j])
    {
      KeepFirstIsFirst(findings, FindingId, {}, j);
    }
    KeepFirstIdempotent(findings, FindingId);
  }

  /** Ids `[A, B, A, C, B]` de-duplicate to `[A, B, C]`. */
  lemma DedupeExample(a: Finding, b: Finding, c: Finding)
    requires a.id == "A" && b.id == "B" && c.id == "C"
    ensures DedupeById([a, b, a, c, b]) == [a, b, c]
  {
    KeepFirstExample(a, b, c, FindingId);
  }
}
