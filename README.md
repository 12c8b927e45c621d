# codexa-ai-reviewer: the local review rules, modelled in Dafny

The reviewer is a small web dashboard. It sends code to a remote AI analysis
service and falls back to a local heuristic scorer when that service fails.
It turns scores and issues into advice strings and keeps the last 50 analyses
in memory, most recent first. It also summarises that store into statistics.
This project models the deterministic part of `app.py`:

- `Scorer`: the heuristic scorer `generate_mock_analysis` and the analysis fallback.
  The baselines are quality 7.5, security 8.0 and alignment 7.0. The credential
  rule looks for `password` / `api_key`; the length rule fires above 500 characters.
  Scores are exact `real`s, so 7.5 − 0.5 and 8.0 − 2.0 are exact.
- `GovernanceCheck`: the constant governance stub and the governance fallback.
- `Recommendations`: `generate_ai_recommendations`. It has three strict `< 7`
  score rules, where a missing score counts as 10. It adds one `CRITICAL:` line
  per high-severity issue and falls back to two positive strings.
- `Store`: the `recent_analyses` list as a class whose `seq` field is updated by
  insert-at-front / drop-last (capacity 50). It also holds the `code_preview`
  truncation.
- `Statistics`: `calculate_statistics`. This includes the empty-store default,
  the counting loop, the language tally, the averages and the trend rule.
- `Text`: ASCII lower-casing, substring search and `split('\n')`, with its inverse `join`.
- `Records`, `Wrappers`: the JSON-shaped values. A remote answer may lack keys.
  An absent score or `governance_status` is an `Option`'s `None`. An absent
  `issues` list is `[]`. An absent `scores` block is a `Scores` with every field
  `None`. The record's `analysis` is always present, as `analyze_code` stores it.

Operations that the source writes as loops or step-by-step updates are Dafny
methods: `GenerateMockAnalysis`, `GenerateRecommendations`/`AppendCriticalLines`,
`CalculateStatistics` and `AnalysisStore.Insert`. Each is proved equal to a
specification function or to aggregate functions. The properties are proved
as lemmas about those functions.

Two consequences of the rules are proved in `MockRecommendations`. First, code
without a credential keyword earns the positive feedback even when the scorer
flags it as too long, because its quality of 7.0 is not below 7. Second, only
the credential rule ever produces advice.

## Model

| member | source | states |
|---|---|---|
| Text.LowerSlice | app.py:160 | lower-casing a slice equals slicing the lower-cased text, so a keyword can be found at any position |
| Text.Split | app.py:189 | `split('\n')` yields one segment more than the number of '\n' characters (so "" gives 1), and no segment contains '\n' |
| Text.JoinSplit | app.py:189 | joining the segments with '\n' gives back the original code |
| Text.SplitJoin | app.py:189 | splitting the '\n'-join of separator-free pieces gives back those pieces |
| Scorer.MockAnalysis | app.py:153-191 | security is 6.0 with a credential keyword, else 8.0; quality is 7.0 above 500 characters, else 7.5; alignment is 7.0; overall is the mean of the three; status is "compliant" iff security ≥ 7.0, iff there is no keyword; at most two issues, the credential issue first and the complexity issue last, each present iff its rule fired, and no other issue; so code matching no rule gets an empty list; lines_analyzed is the newline count plus one |
| Scorer.GenerateMockAnalysis | app.py:153-191 | the step-by-step scorer (baselines, decrements, appends) returns exactly what MockAnalysis specifies |
| Scorer.AnalyzeWithFallback | app.py:110-130 | a usable remote analysis is passed through; otherwise the local scorer's result is returned |
| Scorer.KeywordInAnyCase | app.py:160 | "password" or "api_key" written in any case anywhere in the code is detected |
| Scorer.ShortCodeWithCredentials | app.py:160-167 | code of at most 500 characters with a keyword gets security 6.0 and exactly the one high-severity security issue |
| Scorer.LongCodeWithoutCredentials | app.py:169-176 | code over 500 characters without a keyword gets quality 7.0 and exactly the one medium-severity quality issue |
| GovernanceCheck.MockGovernance | app.py:193-206 | the stub always reports compliant, "aligned", coherence 85, 8 policies, no violations or warnings, the given repository and files_checked = number of files |
| GovernanceCheck.GovernanceWithFallback | app.py:132-151 | a usable remote verdict is passed through; otherwise the stub's verdict is returned |
| Recommendations.CriticalLines | app.py:230-233 | every CRITICAL line is "CRITICAL: " + the message of some high-severity issue, and there are none iff no issue is high-severity |
| Recommendations.CriticalLinesAppend | app.py:230-233 | the CRITICAL lines follow issue order: those of a concatenation are the concatenation of those of the parts |
| Recommendations.AppendCriticalLines | app.py:230-233 | the issue loop appends exactly the CRITICAL lines of the issues, in order, after the existing advice |
| Recommendations.Recommend | app.py:208-239 | the list is never empty; it is the fired advice (quality, security and alignment pairs for scores below 7, where a missing score counts as 10, then the CRITICAL lines) whenever something fired; it is exactly the two positive strings iff nothing fired; the praise string never appears otherwise |
| Recommendations.NoPraiseAmongFired | app.py:235-239 | the fired advice never contains the praise string, and it is empty iff no score rule fired and no issue is high-severity |
| Recommendations.GenerateRecommendations | app.py:208-239 | the step-by-step generator (conditional appends, issue loop, fallback) returns exactly Recommend |
| Recommendations.BaselineEarnsPraise | app.py:235-239 | scores 7.5 / 8.0 / 7.0 with no issues give exactly the two positive strings |
| Recommendations.MockRecommendations | app.py:212-239 | for scorer output: code with a keyword gets the two security strings and one CRITICAL line for the credential issue; all other code gets the positive strings |
| Store.CodePreview | app.py:59 | code of at most 200 characters is kept whole; longer code becomes its first 200 characters followed by "..."; the preview never exceeds 203 characters |
| Store.InsertNewest | app.py:62-64 | the new record is first; the old records follow in order, with only the last one dropped once the store is full; the length is min(old length + 1, 50) |
| Store.InsertAllKeepsNewest | app.py:62-64 | inserting a batch one record at a time leaves the batch reversed followed by the old records, cut to 50 |
| Store.SixtyInserts | app.py:62-64 | 60 inserts into an empty store leave exactly 50 records, the most recent first, with the oldest 10 evicted |
| Store.AnalysisStore.constructor | app.py:16 | the store starts empty |
| Store.AnalysisStore.Insert | app.py:62-64 | the in-place insert/evict step keeps the size ≤ 50 invariant and leaves exactly InsertNewest of the old contents |
| Store.AnalysisStore.Count | app.py:102 | the reported count is the store's length and is at most 50 |
| Statistics.CompliantCount | app.py:267-268 | the number of compliant records never exceeds the number of records |
| Statistics.LanguageCounts | app.py:270-271 | every language in the tally has a positive count |
| Statistics.LanguageCountsOccurrences | app.py:270-271 | a language is a key iff it occurs, and its count is its number of occurrences (an absent language key counts as "unknown") |
| Statistics.LanguageCountsTotal | app.py:270-271 | the language counts add up to the number of records |
| Statistics.PercentageBounds | app.py:283 | a count no larger than the total gives a percentage in [0, 100] |
| Statistics.CalculateStatistics | app.py:241-286 | an empty store gives the fixed default record (zeros, no languages, "stable", no avg_overall); otherwise: total is the record count; each average is the exact mean of that score over the records, where a missing score counts as 0; avg_overall is the mean of the three averages; compliance_rate is the compliant share × 100 and lies in [0, 100]; languages is the tally and sums to the total; the trend is "improving" when the unrounded average quality exceeds 7 and "needs_attention" otherwise, never "stable" |

## Left out

- The Flask routes, templates, JSON request parsing and the 400/500 error responses (app.py:18-108). This includes the `analyze_code` handler's assembly of a record (only its `code_preview` and store step are modelled) and its rule that governance is checked only when the repository is not "manual-submission". These are web transport.
- The HTTP calls to the remote service (app.py:110-151). The remote answer is a parameter: `Some` for an HTTP 200 answer, `None` for any failure. Its arbitrary JSON shape is narrowed to the `Analysis` / `Governance` datatypes with optional score fields.
- The MD5 digests for `id`, `analysis_id` and `check_id`, and the `datetime.utcnow()` timestamps. These are a foreign hash library and the clock; the record datatypes omit them.
- Statistics.CalculateStatistics: does not model `round(…, 2)` / `round(…, 1)`, nor binary floating-point summation and division. Averages and the compliance rate are exact reals. The trend rule already uses the unrounded average, as the source does.
- Scorer.MockAnalysis: lower-casing covers ASCII letters only, not Python's full Unicode `str.lower()`. `overall` is the exact real mean of the three scores, not the binary floating-point result of the source's division. For example, the source gives about 6.833333333333333 where the model gives exactly 41/6.
- Recommendations.Recommend: every issue is assumed to carry a severity and a message. In the source, a remote issue without a severity raises `KeyError`, and so does a high-severity issue without a message. That error becomes a 500 response, which is not modelled. The unused `code` and `language` parameters of `generate_ai_recommendations` are dropped.
- Unsynchronised concurrent access to the shared store. The model is sequential.
- Environment configuration (`CODEXA_API_BASE`, `CODEXA_FUNCTION_KEY`, `PORT`) and `app.run`.
- Python's distinction between `0` and `0.0` in the empty statistics record. Both are the real 0 here. The insertion order of the `languages` dict is not modelled either: a Dafny `map` is unordered.
