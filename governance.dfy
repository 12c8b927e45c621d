/**
 * The governance stub (`generate_mock_governance`) and the fallback that
 * uses it when the remote governance service gives no usable answer.
 */
module GovernanceCheck {
  import opened Wrappers
  import opened Records

  const CoherenceScore: int := 85
  const PoliciesChecked: nat := 8

  /**
   * The stub always reports an aligned, compliant repository with no
   * violations or warnings; only the repository name and the number of
   * files are taken from the input.
   */
  function MockGovernance(repository: string, files: seq<string>): (r: Governance)
    ensures r.compliant && r.governanceStatus == "aligned"
    ensures r.coherenceScore == 85 && r.policiesChecked == 8
    ensures r.violations == [] && r.warnings == []
    ensures r.repository == repository && r.filesChecked == |files|
  {
    Governance(repository, "aligned", true, CoherenceScore, [], [], PoliciesChecked, |files|)
  }

  /**
   * `call_codexa_governance`: a usable remote answer (HTTP 200) is passed
   * through; any failure falls back to the stub.
   */
  function GovernanceWithFallback(remote: Option<Governance>, repository: string, files: seq<string>): (r: Governance)
    ensures remote.Some? ==> r == remote.value
    ensures remote.None? ==> r == MockGovernance(repository, files)
  {
    match remote
    case Some(answer) => answer
    case None => MockGovernance(repository, files)
  }
}
