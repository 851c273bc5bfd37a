/** The Markdown pull-request comment (`formatGitHubComment`): a summary
    block, the findings by severity (at most 20), and the gate reasons (at
    most 20). */
module GitHubComment {
  import opened Wrappers
  import opened Text
  import opened Seqs
  import opened Findings
  import opened ReviewResults

  function EscapeChar(c: char): string {
    if c == '<' then "&lt;" else if c == '>' then "&gt;" else [c]
  }

  /** `escapeMd`: `<` and `>` become `&lt;` and `&gt;`, every other
      character is kept. */
  function EscapeMd(text: string): (r: string)
    ensures '<' !in r && '>' !in r
    ensures ('<' !in text && '>' !in text) ==> r == text
  {
    if text == [] then [] else EscapeChar(text[0]) + EscapeMd(text[1..])
  }

  lemma {:induction false} EscapeMdAppend(a: string, b: string)
    ensures EscapeMd(a + b) == EscapeMd(a) + EscapeMd(b)
  {
    if a != [] {
      assert (a + b)[1..] == a[1..] + b;
      EscapeMdAppend(a[1..], b);
    } else {
      assert a + b == b;
    }
  }

  /** `sortBySeverity` as a key: `(order[b] ?? 0) - (order[a] ?? 0)` sorts by
      descending rank, which is ascending negated rank. */
  function NegRank(f: Finding): int {
    -(SeverityRank(f.severity) as int)
  }

  /** `findings.slice().sort(sortBySeverity)`: a stable sort of a copy. */
  function SortBySeverity(findings: seq<Finding>): seq<Finding> {
    SortBy(findings, NegRank)
  }

  /** The listing order: severity rank never increases, the findings are a
      permutation of the input, and findings of equal severity rank keep
      their input order. */
  lemma SortBySeverityCorrect(findings: seq<Finding>)
    ensures forall i, j :: 0 <= i < j < |SortBySeverity(findings)| ==>
      SeverityRank(SortBySeverity(findings)[i].severity) >= SeverityRank(SortBySeverity(findings)[j].severity)
    ensures multiset(SortBySeverity(findings)) == multiset(findings)
    ensures forall v :: WithKey(SortBySeverity(findings), NegRank, v) == WithKey(findings, NegRank, v)
  {
    SortByCorrect(findings, NegRank);
    var s := SortBySeverity(findings);
    forall i, j | 0 <= i < j < |s| ensures SeverityRank(s[i].severity) >= SeverityRank(s[j].severity) {
      assert NegRank(s[i]) <= NegRank(s[j]);
    }
  }

  function Backticked(h: string): string {
    "`" + h + "`"
  }

  const GateFail := "- CI gate: **FAIL**"
  const GatePass := "- CI gate: **PASS**"

  /** The bullet list of the summary block. */
  function Bullets(r: ReviewResult): seq<string> {
    ["- Risk: **" + NatToString(r.riskScore) + "/5**", "- Classification: **" + r.classification + "**"] +
    (if |r.hotspots| > 0 then ["- Hotspots: " + Join(Map(r.hotspots, Backticked), ", ")] else []) +
    (if r.shouldFail == Some(true) then [GateFail] else []) +
    (if r.shouldFail == Some(false) then [GatePass] else [])
  }

  /** The summary block: title, bullets, and the escaped summary when there is one. */
  function Preamble(r: ReviewResult): seq<string> {
    ["## Code Review Summary", ""] + Bullets(r) + [""] +
    (if r.summary != "" then [EscapeMd(r.summary), ""] else [])
  }

  function FindingLine(f: Finding): string {
    "- **" + f.severity + "** `" + f.id + "` (" + f.category + ") at `" +
    f.location.file + ":" + IntToString(f.location.startLine) + "`: " + EscapeMd(f.title)
  }

  function ReasonLine(reason: string): string {
    "- " + EscapeMd(reason)
  }

  function ShowingNote(n: nat): string {
    "(Showing first 20 of " + NatToString(n) + " findings.)"
  }

  function Min(a: int, b: int): int { if a <= b then a else b }

  /** The findings section: at most 20 lines, then the note when some are not shown. */
  function FindingsBlock(sorted: seq<Finding>): seq<string> {
    ["## Findings", ""] + Map(sorted[..Min(20, |sorted|)], FindingLine) +
    (if |sorted| > 20 then ["", ShowingNote(|sorted|)] else [])
  }

  /** The gate reasons section, absent when there are no reasons. */
  function ReasonsBlock(reasons: seq<string>): seq<string> {
    if |reasons| > 0 then ["", "## CI Gate Reasons", ""] + Map(reasons[..Min(20, |reasons|)], ReasonLine) else []
  }

  /** What follows the summary block, given the sorted findings. */
  function Listing(sorted: seq<Finding>, reasons: seq<string>): seq<string> {
    if sorted == [] then ["No findings."] else FindingsBlock(sorted) + ReasonsBlock(reasons)
  }

  function CommentLines(r: ReviewResult): seq<string> {
    Preamble(r) + Listing(SortBySeverity(r.findings), r.failReasons)
  }

  /** The bullets of the summary block, pushed line by line. */
  method PushBullets(result: ReviewResult) returns (lines: seq<string>)
    ensures lines == Bullets(result)
  {
    lines := ["- Risk: **" + NatToString(result.riskScore) + "/5**"];
    lines := lines + ["- Classification: **" + result.classification + "**"];
    if |result.hotspots| > 0 {
      lines := lines + ["- Hotspots: " + Join(Map(result.hotspots, Backticked), ", ")];
    }
    if result.shouldFail == Some(true) {
      lines := lines + [GateFail];
    }
    if result.shouldFail == Some(false) {
      lines := lines + [GatePass];
    }
  }

  /** The summary block. */
  method PushPreamble(result: ReviewResult) returns (lines: seq<string>)
    ensures lines == Preamble(result)
  {
    var bullets := PushBullets(result);
    lines := ["## Code Review Summary", ""] + bullets + [""];
    if result.summary != "" {
      lines := lines + [EscapeMd(result.summary), ""];
    }
  }

  /** The findings section, pushed line by line. */
  method PushFindings(findings: seq<Finding>) returns (lines: seq<string>)
    ensures lines == FindingsBlock(findings)
  {
    lines := ["## Findings", ""];
    var shown := findings[..Min(20, |findings|)];
    for i := 0 to |shown|
      invariant lines == ["## Findings", ""] + Map(shown[..i], FindingLine)
    {
      assert Map(shown[..i + 1], FindingLine) == Map(shown[..i], FindingLine) + [FindingLine(shown[i])];
      lines := lines + [FindingLine(shown[i])];
    }
    assert shown[..|shown|] == shown;
    if |findings| > 20 {
      lines := lines + [""];
      lines := lines + [ShowingNote(|findings|)];
    }
  }

  /** The gate reasons section, pushed line by line. */
  method PushReasons(reasons: seq<string>) returns (lines: seq<string>)
    ensures lines == ReasonsBlock(reasons)
  {
    lines := [];
    if |reasons| > 0 {
      lines := ["", "## CI Gate Reasons", ""];
      var listed := reasons[..Min(20, |reasons|)];
      for i := 0 to |listed|
        invariant lines == ["", "## CI Gate Reasons", ""] + Map(listed[..i], ReasonLine)
      {
        assert Map(listed[..i + 1], ReasonLine) == Map(listed[..i], ReasonLine) + [ReasonLine(listed[i])];
        lines := lines + [ReasonLine(listed[i])];
      }
      assert listed[..|listed|] == listed;
    }
  }

  /** `formatGitHubComment`: the summary block, then either `No findings.`
      or the findings and the gate reasons, joined with newlines. */
  method FormatGitHubComment(result: ReviewResult) returns (comment: string)
    ensures comment == Join(CommentLines(result), "\n")
  {
    var lines := PushPreamble(result);
    var findings := SortBySeverity(result.findings);
    if |findings| == 0 {
      lines := lines + ["No findings."];
      comment := Join(lines, "\n");
      return;
    }
    var shown := PushFindings(findings);
    lines := lines + shown;
    var reasons := PushReasons(result.failReasons);
    lines := lines + reasons;
    assert lines == Preamble(result) + (FindingsBlock(findings) + ReasonsBlock(result.failReasons));
    comment := Join(lines, "\n");
  }

  /** The gate line is FAIL when the gate failed, PASS when it passed, and
      absent when the result has no gate verdict. */
  lemma GateLineTriState(r: ReviewResult)
    ensures GateFail in Bullets(r) <==> r.shouldFail == Some(true)
    ensures GatePass in Bullets(r) <==> r.shouldFail == Some(false)
  {
    var risk := "- Risk: **" + NatToString(r.riskScore) + "/5**";
    var kind := "- Classification: **" + r.classification + "**";
    assert risk[2] == 'R' && kind[3] == 'l' && GateFail[2] == 'C' && GateFail[3] == 'I' && GatePass[3] == 'I';
    assert GateFail[13] != GatePass[13];
    if |r.hotspots| > 0 {
      var hot := "- Hotspots: " + Join(Map(r.hotspots, Backticked), ", ");
      assert hot[2] == 'H';
    }
  }

  /** Without findings the comment ends with `No findings.` and has no
      findings or reasons section, whatever the gate reasons are. */
  lemma NoFindingsComment(r: ReviewResult)
    requires r.findings == []
    ensures CommentLines(r) == Preamble(r) + ["No findings."]
    ensures EndsWith(Join(CommentLines(r), "\n"), "No findings.")
  {
    assert SortBySeverity(r.findings) == [];
    JoinAppendOne(Preamble(r), "No findings.", "\n");
  }

  predicate Leads(line: string, c: char) {
    |line| > 0 && line[0] == c
  }

  /** Every line of `lines` starts with `c`. */
  predicate AllLead(lines: seq<string>, c: char) {
    forall k :: 0 <= k < |lines| ==> Leads(lines[k], c)
  }

  lemma NotAmong(x: string, lines: seq<string>, c: char)
    requires AllLead(lines, c) && |x| > 0 && x[0] != c
    ensures x !in lines
  {
  }

  lemma FindingLinesLead(fs: seq<Finding>)
    ensures AllLead(Map(fs, FindingLine), '-')
  {
  }

  lemma ReasonLinesLead(rs: seq<string>)
    ensures AllLead(Map(rs, ReasonLine), '-')
  {
  }

  /** With findings, the first min(20, N) findings in listing order come
      right after the heading. */
  lemma ListingHead(sorted: seq<Finding>, reasons: seq<string>)
    requires sorted != []
    ensures var m := Min(20, |sorted|);
      Listing(sorted, reasons)[..2 + m] == ["## Findings", ""] + Map(sorted[..m], FindingLine)
  {
    var m := Min(20, |sorted|);
    var head := ["## Findings", ""] + Map(sorted[..m], FindingLine);
    assert FindingsBlock(sorted)[..2 + m] == head;
  }

  /** With findings, the `(Showing first 20 of N findings.)` note appears
      exactly when N > 20. */
  lemma ShowingNoteIff(sorted: seq<Finding>, reasons: seq<string>)
    requires sorted != []
    ensures ShowingNote(|sorted|) in Listing(sorted, reasons) <==> |sorted| > 20
  {
    var note := ShowingNote(|sorted|);
    var lines := Map(sorted[..Min(20, |sorted|)], FindingLine);
    var rs := Map(reasons[..Min(20, |reasons|)], ReasonLine);
    assert note[0] == '(';
    FindingLinesLead(sorted[..Min(20, |sorted|)]);
    ReasonLinesLead(reasons[..Min(20, |reasons|)]);
    NotAmong(note, lines, '-');
    NotAmong(note, rs, '-');
    assert note !in ["## Findings", ""] && note !in ["", "## CI Gate Reasons", ""];
    if |sorted| > 20 {
      assert note in FindingsBlock(sorted);
    } else {
      assert FindingsBlock(sorted) == ["## Findings", ""] + lines;
    }
  }

  /** With findings, the reasons section appears exactly when there are
      reasons, and it ends with the first min(20, |reasons|) of them. */
  lemma ReasonsSectionIff(sorted: seq<Finding>, reasons: seq<string>)
    requires sorted != []
    ensures "## CI Gate Reasons" in Listing(sorted, reasons) <==> |reasons| > 0
    ensures var L := Listing(sorted, reasons); var k := Min(20, |reasons|);
      |reasons| > 0 ==> L[|L| - k..] == Map(reasons[..k], ReasonLine)
  {
    var heading := "## CI Gate Reasons";
    var lines := Map(sorted[..Min(20, |sorted|)], FindingLine);
    var rs := Map(reasons[..Min(20, |reasons|)], ReasonLine);
    FindingLinesLead(sorted[..Min(20, |sorted|)]);
    NotAmong(heading, lines, '-');
    assert heading[3] != "## Findings"[3];
    assert heading !in ["## Findings", ""] && heading !in ["", ShowingNote(|sorted|)];
    assert heading !in FindingsBlock(sorted);
    if |reasons| > 0 {
      assert heading in ReasonsBlock(reasons);
      var L := Listing(sorted, reasons);
      assert L == (FindingsBlock(sorted) + ["", heading, ""]) + rs;
    }
  }
}
