/**
 * The local heuristic scorer (`generate_mock_analysis`) and the fallback
 * that uses it when the remote analysis service gives no usable answer.
 */
module Scorer {
  import opened Wrappers
  import opened Text
  import opened Records

  const BaselineQuality: real := 7.5
  const BaselineSecurity: real := 8.0
  const BaselineAlignment: real := 7.0
  /** Above this many characters the code counts as too complex. */
  const LengthLimit: nat := 500

  const CredentialIssue := Issue("security", "high", "Potential hardcoded credentials detected", 1)
  const ComplexityIssue := Issue("quality", "medium", "Function may be too complex", 1)

  /** The lower-cased code contains "password" or "api_key". */
  predicate HasCredentialKeyword(code: string) {
    Contains(Lower(code), "password") || Contains(Lower(code), "api_key")
  }

  /** The code is longer than the length limit. */
  predicate IsLong(code: string) {
    |code| > LengthLimit
  }

  /**
   * What the scorer reports, stated rule by rule: each rule lowers one score
   * and contributes one issue, the credential rule's issue first.
   */
  function MockAnalysis(code: string, language: string): (r: Analysis)
    ensures r.scores.alignment == Some(7.0)
    ensures r.scores.security == Some(if HasCredentialKeyword(code) then 6.0 else 8.0)
    ensures r.scores.quality == Some(if IsLong(code) then 7.0 else 7.5)
    ensures r.scores.overall ==
      Some((r.scores.quality.value + r.scores.security.value + r.scores.alignment.value) / 3.0)
    ensures r.governanceStatus == Some("compliant") <==> r.scores.security.value >= 7.0
    ensures r.governanceStatus == Some("compliant") <==> !HasCredentialKeyword(code)
    ensures r.governanceStatus == Some("compliant") || r.governanceStatus == Some("needs_review")
    ensures |r.issues| == (if HasCredentialKeyword(code) then 1 else 0) + (if IsLong(code) then 1 else 0)
    ensures forall issue | issue in r.issues :: issue == CredentialIssue || issue == ComplexityIssue
    ensures CredentialIssue in r.issues <==> HasCredentialKeyword(code)
    ensures ComplexityIssue in r.issues <==> IsLong(code)
    ensures HasCredentialKeyword(code) ==> r.issues[0] == CredentialIssue
    ensures IsLong(code) ==> r.issues[|r.issues| - 1] == ComplexityIssue
    ensures r.linesAnalyzed == NewlineCount(code) + 1
    ensures r.language == language
  {
    var credentials := HasCredentialKeyword(code);
    var long := IsLong(code);
    var quality := BaselineQuality - (if long then 0.5 else 0.0);
    var security := BaselineSecurity - (if credentials then 2.0 else 0.0);
    Analysis(
      language,
      Scores(Some(quality), Some(security), Some(BaselineAlignment),
             Some((quality + security + BaselineAlignment) / 3.0)),
      (if credentials then [CredentialIssue] else []) + (if long then [ComplexityIssue] else []),
      |Split(code)|,
      Some(if security >= 7.0 then "compliant" else "needs_review"))
  }

  /**
   * `generate_mock_analysis`: start from the baseline scores, then apply the
   * credential rule and the length rule in turn.
   */
  method GenerateMockAnalysis(code: string, language: string) returns (a: Analysis)
    ensures a == MockAnalysis(code, language)
  {
    var quality, security, alignment := BaselineQuality, BaselineSecurity, BaselineAlignment;
    var issues: seq<Issue> := [];
    var lowered := Lower(code);
    if Contains(lowered, "password") || Contains(lowered, "api_key") {
      security := security - 2.0;
      issues := issues + [CredentialIssue];
    }
    if |code| > LengthLimit {
      quality := quality - 0.5;
      issues := issues + [ComplexityIssue];
    }
    var status := if security >= 7.0 then "compliant" else "needs_review";
    a := Analysis(
      language,
      Scores(Some(quality), Some(security), Some(alignment),
             Some((quality + security + alignment) / 3.0)),
      issues,
      |Split(code)|,
      Some(status));
  }

  /**
   * `call_codexa_analyze`: a usable remote answer (HTTP 200) is passed through;
   * any failure falls back to the local scorer.
   */
  function AnalyzeWithFallback(remote: Option<Analysis>, code: string, language: string): (r: Analysis)
    ensures remote.Some? ==> r == remote.value
    ensures remote.None? ==> r == MockAnalysis(code, language)
  {
    match remote
    case Some(answer) => answer
    case None => MockAnalysis(code, language)
  }

  /** A keyword spelled in any mixture of upper and lower case is detected. */
  lemma KeywordInAnyCase(code: string, keyword: string, i: nat)
    requires keyword == "password" || keyword == "api_key"
    requires i + |keyword| <= |code|
    requires Lower(code[i..i + |keyword|]) == keyword
    ensures HasCredentialKeyword(code)
  {
    LowerSlice(code, i, i + |keyword|);
    assert OccursAt(Lower(code), keyword, i);
  }

  /** Short code with a credential keyword: security 6.0 and exactly the one high-severity security issue. */
  lemma ShortCodeWithCredentials(code: string, language: string)
    requires HasCredentialKeyword(code) && |code| <= LengthLimit
    ensures MockAnalysis(code, language).scores.security == Some(6.0)
    ensures MockAnalysis(code, language).issues == [CredentialIssue]
  {
  }

  /** Long code without a credential keyword: quality 7.0 and exactly the one medium-severity quality issue. */
  lemma LongCodeWithoutCredentials(code: string, language: string)
    requires !HasCredentialKeyword(code) && IsLong(code)
    ensures MockAnalysis(code, language).scores.quality == Some(7.0)
    ensures MockAnalysis(code, language).issues == [ComplexityIssue]
  {
  }
}
