/**
 * The JSON-shaped values the reviewer passes around: issues, score blocks,
 * analysis results, governance verdicts and the stored analysis record.
 *
 * Fields that the code reads with `dict.get(key, default)` are `Option`s,
 * because a result returned by the remote analysis service may lack them.
 */
module Records {
  import opened Wrappers

  /** One finding of an analysis: type, severity, message and line. */
  datatype Issue = Issue(kind: string, severity: string, message: string, line: int)

  /** The `scores` block of an analysis result. */
  datatype Scores = Scores(
    quality: Option<real>,
    security: Option<real>,
    alignment: Option<real>,
    overall: Option<real>)

  /** An analysis result, remote or produced by the local heuristic scorer. */
  datatype Analysis = Analysis(
    language: string,
    scores: Scores,
    issues: seq<Issue>,
    linesAnalyzed: nat,
    governanceStatus: Option<string>)

  /** A governance verdict for a repository. */
  datatype Governance = Governance(
    repository: string,
    governanceStatus: string,
    compliant: bool,
    coherenceScore: int,
    violations: seq<string>,
    warnings: seq<string>,
    policiesChecked: nat,
    filesChecked: nat)

  /** One entry of the recent-analyses store; `language` is `None` when the key is absent. */
  datatype AnalysisRecord = AnalysisRecord(
    language: Option<string>,
    repository: string,
    analysis: Analysis,
    governance: Option<Governance>,
    recommendations: seq<string>,
    codePreview: string)
}
