/** The review result the pipeline returns and the renderers read. Optional
    fields are `Option`s; the run id, clock readings and tool version are
    carried as given. */
module ReviewResults {
  import opened Wrappers
  import opened Findings

  datatype ReviewStats = ReviewStats(
    filesChanged: nat,
    linesAdded: nat,
    linesRemoved: nat,
    durationMs: int,
    checksExecuted: nat,
    llmPasses: nat,
    llmFindingsAdded: nat,
    llmSkippedReason: Option<string>)

  datatype ReviewResult = ReviewResult(
    runId: string,
    riskScore: nat,
    classification: string,
    hotspots: seq<string>,
    summary: string,
    findings: seq<Finding>,
    shouldFail: Option<bool>,
    failReasons: seq<string>,
    stats: ReviewStats,
    reviewedAt: string,
    toolVersion: Option<string>,
    warnings: seq<string>,
    llmModel: Option<string>)
}
