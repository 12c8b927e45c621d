/**
 * `generate_ai_recommendations`: advice strings derived from an analysis's
 * scores and issues by independent rules, in a fixed order.
 */
module Recommendations {
  import opened Wrappers
  import opened Records
  import Scorer

  const RefactorAdvice := "Consider refactoring for better code quality and maintainability"
  const DocumentAdvice := "Add comprehensive documentation and type hints"
  const SecurityReviewAdvice := "Review security issues immediately - high priority"
  const ValidationAdvice := "Implement input validation and sanitization"
  const GovernanceAdvice := "Ensure code follows organizational governance standards"
  const PolicyAdvice := "Review and update documentation to match policies"
  /** Kept apart so that proofs can see the praise string's first character. */
  const PraiseOpening := "Excellent"
  const PraiseAdvice := PraiseOpening + " work! Code meets all governance standards"
  const ContinueAdvice := "Continue following best practices"

  const QualityAdvice: seq<string> := [RefactorAdvice, DocumentAdvice]
  const SecurityAdvice: seq<string> := [SecurityReviewAdvice, ValidationAdvice]
  const AlignmentAdvice: seq<string> := [GovernanceAdvice, PolicyAdvice]
  const PositiveFeedback: seq<string> := [PraiseAdvice, ContinueAdvice]

  const CriticalPrefix := "CRITICAL: "
  /** A missing score is read as this value, which never fires a rule. */
  const MissingScore: real := 10.0
  const Threshold: real := 7.0

  /** Scores strictly below the threshold fire their rule. */
  predicate Fires(score: Option<real>) {
    score.GetOr(MissingScore) < Threshold
  }

  /** The advice of the three score rules, in quality, security, alignment order. */
  function ScoreAdvice(scores: Scores): seq<string> {
    (if Fires(scores.quality) then QualityAdvice else [])
    + (if Fires(scores.security) then SecurityAdvice else [])
    + (if Fires(scores.alignment) then AlignmentAdvice else [])
  }

  predicate IsHigh(issue: Issue) {
    issue.severity == "high"
  }

  /** The line a single issue contributes: one CRITICAL line if it is high-severity. */
  function CriticalLine(issue: Issue): seq<string> {
    if IsHigh(issue) then [CriticalPrefix + issue.message] else []
  }

  /**
   * One CRITICAL line per high-severity issue, in issue order: every line
   * comes from a high-severity issue, and there is a line exactly when there
   * is such an issue.
   */
  function CriticalLines(issues: seq<Issue>): (r: seq<string>)
    ensures forall line | line in r ::
      exists issue | issue in issues :: IsHigh(issue) && line == CriticalPrefix + issue.message
    ensures r == [] <==> forall issue | issue in issues :: !IsHigh(issue)
  {
    if issues == [] then []
    else CriticalLines(issues[..|issues| - 1]) + CriticalLine(issues[|issues| - 1])
  }

  /** The critical lines of two issue lists concatenated are the concatenation of their lines. */
  lemma {:induction false} CriticalLinesAppend(xs: seq<Issue>, ys: seq<Issue>)
    ensures CriticalLines(xs + ys) == CriticalLines(xs) + CriticalLines(ys)
  {
    if ys == [] {
      assert xs + ys == xs;
    } else {
      var last := ys[|ys| - 1];
      assert (xs + ys)[..|xs + ys| - 1] == xs + ys[..|ys| - 1];
      CriticalLinesAppend(xs, ys[..|ys| - 1]);
    }
  }

  /** Extending the issues by one extends the CRITICAL lines by that issue's line. */
  lemma CriticalLinesStep(issues: seq<Issue>, i: nat)
    requires i < |issues|
    ensures CriticalLines(issues[..i + 1]) == CriticalLines(issues[..i]) + CriticalLine(issues[i])
  {
    assert issues[..i + 1][..i] == issues[..i];
  }

  /** Every rule that fired, in order: score rules, then CRITICAL lines. */
  function FiredAdvice(analysis: Analysis): seq<string> {
    ScoreAdvice(analysis.scores) + CriticalLines(analysis.issues)
  }

  /** No rule fired: no score below the threshold and no high-severity issue. */
  predicate NothingFired(analysis: Analysis) {
    && !Fires(analysis.scores.quality)
    && !Fires(analysis.scores.security)
    && !Fires(analysis.scores.alignment)
    && forall issue | issue in analysis.issues :: !IsHigh(issue)
  }

  /**
   * The recommendation list: the fired advice, or the two positive strings
   * when nothing fired. It is never empty, and it is the positive feedback
   * exactly when no rule fired.
   */
  function Recommend(analysis: Analysis): (r: seq<string>)
    ensures r != []
    ensures NothingFired(analysis) ==> r == PositiveFeedback
    ensures !NothingFired(analysis) ==> r == FiredAdvice(analysis) && PraiseAdvice !in r
    ensures r == PositiveFeedback <==> NothingFired(analysis)
  {
    var fired := FiredAdvice(analysis);
    NoPraiseAmongFired(analysis);
    if fired == [] then PositiveFeedback else fired
  }

  /** A CRITICAL line is never the praise string: they differ in their first character. */
  lemma NoPraiseAmongFired(analysis: Analysis)
    ensures PraiseAdvice !in FiredAdvice(analysis)
    ensures FiredAdvice(analysis) == [] <==> NothingFired(analysis)
  {
    forall issue | issue in analysis.issues
      ensures CriticalPrefix + issue.message != PraiseAdvice
    {
      assert (CriticalPrefix + issue.message)[0] != PraiseAdvice[0];
    }
  }

  /**
   * The issue loop of `generate_ai_recommendations`: append one CRITICAL
   * line per high-severity issue, in issue order.
   */
  method AppendCriticalLines(recs: seq<string>, issues: seq<Issue>) returns (out: seq<string>)
    ensures out == recs + CriticalLines(issues)
  {
    out := recs;
    for i := 0 to |issues|
      invariant out == recs + CriticalLines(issues[..i])
    {
      CriticalLinesStep(issues, i);
      if issues[i].severity == "high" {
        out := out + [CriticalPrefix + issues[i].message];
      }
    }
    assert issues[..|issues|] == issues;
  }

  /**
   * `generate_ai_recommendations`: conditional appends for the three score
   * rules, the issue loop, then the positive fallback.
   */
  method GenerateRecommendations(analysis: Analysis) returns (recs: seq<string>)
    ensures recs == Recommend(analysis)
  {
    recs := [];
    var scores := analysis.scores;
    if scores.quality.GetOr(MissingScore) < Threshold {
      recs := recs + [RefactorAdvice];
      recs := recs + [DocumentAdvice];
    }
    if scores.security.GetOr(MissingScore) < Threshold {
      recs := recs + [SecurityReviewAdvice];
      recs := recs + [ValidationAdvice];
    }
    if scores.alignment.GetOr(MissingScore) < Threshold {
      recs := recs + [GovernanceAdvice];
      recs := recs + [PolicyAdvice];
    }
    assert recs == ScoreAdvice(scores);
    recs := AppendCriticalLines(recs, analysis.issues);
    if recs == [] {
      recs := recs + [PraiseAdvice];
      recs := recs + [ContinueAdvice];
    }
  }

  /** The baseline scores 7.5 / 8.0 / 7.0 with no issues earn exactly the positive feedback. */
  lemma BaselineEarnsPraise(language: string, lines: nat, status: Option<string>)
    ensures Recommend(Analysis(language, Scores(Some(7.5), Some(8.0), Some(7.0), Some(7.5)), [], lines, status))
            == PositiveFeedback
  {
  }

  /**
   * Chained with the local scorer: code with a credential keyword gets the
   * security advice and one CRITICAL line; any other code, however long,
   * gets the positive feedback (quality 7.0 is not below the threshold).
   */
  lemma MockRecommendations(code: string, language: string)
    ensures Scorer.HasCredentialKeyword(code) ==>
      Recommend(Scorer.MockAnalysis(code, language))
        == SecurityAdvice + [CriticalPrefix + Scorer.CredentialIssue.message]
    ensures !Scorer.HasCredentialKeyword(code) ==>
      Recommend(Scorer.MockAnalysis(code, language)) == PositiveFeedback
  {
    var a := Scorer.MockAnalysis(code, language);
    if Scorer.HasCredentialKeyword(code) {
      if Scorer.IsLong(code) {
        assert a.issues == [Scorer.CredentialIssue] + [Scorer.ComplexityIssue];
        CriticalLinesAppend([Scorer.CredentialIssue], [Scorer.ComplexityIssue]);
        assert [Scorer.CredentialIssue][..0] == [];
        assert [Scorer.ComplexityIssue][..0] == [];
      } else {
        assert a.issues == [Scorer.CredentialIssue];
        assert a.issues[..0] == [];
      }
    } else {
      assert forall issue | issue in a.issues :: !IsHigh(issue);
    }
  }
}
