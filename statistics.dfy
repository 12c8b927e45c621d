/**
 * `calculate_statistics`: summary figures over the recent-analyses store.
 * Averages are exact; the source's rounding to 2 (or 1) decimals is not modelled.
 */
module Statistics {
  import opened Wrappers
  import opened Records

  /** The statistics record; `avgOverall` is absent from the empty-store record. */
  datatype Stats = Stats(
    totalAnalyses: nat,
    avgQuality: real,
    avgSecurity: real,
    avgAlignment: real,
    avgOverall: Option<real>,
    complianceRate: real,
    languages: map<string, nat>,
    recentTrend: string)

  const EmptyStats := Stats(0, 0.0, 0.0, 0.0, None, 0.0, map[], "stable")
  const UnknownLanguage := "unknown"
  const TrendThreshold: real := 7.0

  // Per-record readings, with the defaults the source uses for absent keys.
  function Quality(r: AnalysisRecord): real { r.analysis.scores.quality.GetOr(0.0) }
  function Security(r: AnalysisRecord): real { r.analysis.scores.security.GetOr(0.0) }
  function Alignment(r: AnalysisRecord): real { r.analysis.scores.alignment.GetOr(0.0) }
  function LanguageOf(r: AnalysisRecord): string { r.language.GetOr(UnknownLanguage) }
  predicate IsCompliant(r: AnalysisRecord) { r.analysis.governanceStatus == Some("compliant") }

  /** Python's `sum`. */
  function Sum(xs: seq<real>): real {
    if xs == [] then 0.0 else Sum(xs[..|xs| - 1]) + xs[|xs| - 1]
  }

  /** `sum(xs) / len(xs) if xs else 0`. */
  function Mean(xs: seq<real>): real {
    if xs == [] then 0.0 else Sum(xs) / |xs| as real
  }

  /** `count / total * 100`, the share of `total` as a percentage. */
  function Percentage(count: nat, total: nat): real
    requires total > 0
  {
    count as real / total as real * 100.0
  }

  /** The mean of the three per-metric averages. */
  function Overall(quality: real, security: real, alignment: real): real {
    (quality + security + alignment) / 3.0
  }

  function Qualities(rs: seq<AnalysisRecord>): seq<real> { seq(|rs|, i requires 0 <= i < |rs| => Quality(rs[i])) }
  function Securities(rs: seq<AnalysisRecord>): seq<real> { seq(|rs|, i requires 0 <= i < |rs| => Security(rs[i])) }
  function Alignments(rs: seq<AnalysisRecord>): seq<real> { seq(|rs|, i requires 0 <= i < |rs| => Alignment(rs[i])) }

  /** Number of records whose analysis reports "compliant": never more than the records. */
  function CompliantCount(rs: seq<AnalysisRecord>): (n: nat)
    ensures n <= |rs|
  {
    if rs == [] then 0 else CompliantCount(rs[..|rs| - 1]) + (if IsCompliant(rs[|rs| - 1]) then 1 else 0)
  }

  /** Number of records with language `lang`. */
  function Occurrences(rs: seq<AnalysisRecord>, lang: string): nat {
    if rs == [] then 0 else Occurrences(rs[..|rs| - 1], lang) + (if LanguageOf(rs[|rs| - 1]) == lang then 1 else 0)
  }

  /** The language tally (`languages[lang] = languages.get(lang, 0) + 1` per record); every count is positive. */
  function LanguageCounts(rs: seq<AnalysisRecord>): (m: map<string, nat>)
    ensures forall lang | lang in m :: m[lang] >= 1
  {
    if rs == [] then map[]
    else
      var m := LanguageCounts(rs[..|rs| - 1]);
      var lang := LanguageOf(rs[|rs| - 1]);
      m[lang := (if lang in m then m[lang] else 0) + 1]
  }

  /**
   * The tally has one key per language that occurs, mapped to its number of
   * occurrences.
   */
  lemma {:induction false} LanguageCountsOccurrences(rs: seq<AnalysisRecord>, lang: string)
    ensures lang in LanguageCounts(rs) <==> Occurrences(rs, lang) > 0
    ensures lang in LanguageCounts(rs) ==> LanguageCounts(rs)[lang] == Occurrences(rs, lang)
  {
    if rs != [] {
      LanguageCountsOccurrences(rs[..|rs| - 1], lang);
    }
  }

  /** The sum of the values of a map. */
  ghost function Total(m: map<string, nat>): nat
    decreases |m|
  {
    if m == map[] then 0
    else
      var k :| k in m;
      m[k] + Total(m - {k})
  }

  /** Any key may be taken out first when summing a map. */
  lemma {:induction false} TotalRemove(m: map<string, nat>, k: string)
    requires k in m
    ensures Total(m) == m[k] + Total(m - {k})
    decreases |m|
  {
    var j :| j in m && Total(m) == m[j] + Total(m - {j});
    if j != k {
      var mj, mk := m - {j}, m - {k};
      assert |mj| < |m| && |mk| < |m|;
      TotalRemove(mj, k);
      TotalRemove(mk, j);
      assert mj - {k} == mk - {j};
    }
  }

  /** Setting one key changes the total by the difference of the values. */
  lemma TotalUpdate(m: map<string, nat>, k: string, v: nat)
    ensures Total(m[k := v]) == Total(m) - (if k in m then m[k] else 0) + v
  {
    TotalRemove(m[k := v], k);
    if k in m {
      TotalRemove(m, k);
      assert m[k := v] - {k} == m - {k};
    } else {
      assert m[k := v] - {k} == m;
    }
  }

  /** The tally of a non-empty list is its prefix's tally with the last language bumped. */
  lemma LanguageCountsStep(rs: seq<AnalysisRecord>)
    requires rs != []
    ensures var m := LanguageCounts(rs[..|rs| - 1]);
            var lang := LanguageOf(rs[|rs| - 1]);
            LanguageCounts(rs) == m[lang := (if lang in m then m[lang] else 0) + 1]
  {
  }

  /** The language counts add up to the number of records. */
  lemma {:induction false} LanguageCountsTotal(rs: seq<AnalysisRecord>)
    ensures Total(LanguageCounts(rs)) == |rs|
  {
    if rs != [] {
      var init := rs[..|rs| - 1];
      var m := LanguageCounts(init);
      var lang := LanguageOf(rs[|rs| - 1]);
      var v: nat := (if lang in m then m[lang] else 0) + 1;
      LanguageCountsTotal(init);
      LanguageCountsStep(rs);
      TotalUpdate(m, lang, v);
    }
  }

  /** Extending a prefix of the store by one record extends each aggregate by that record. */
  lemma PrefixStep(rs: seq<AnalysisRecord>, i: nat)
    requires i < |rs|
    ensures Qualities(rs[..i + 1]) == Qualities(rs[..i]) + [Quality(rs[i])]
    ensures Securities(rs[..i + 1]) == Securities(rs[..i]) + [Security(rs[i])]
    ensures Alignments(rs[..i + 1]) == Alignments(rs[..i]) + [Alignment(rs[i])]
    ensures CompliantCount(rs[..i + 1]) == CompliantCount(rs[..i]) + (if IsCompliant(rs[i]) then 1 else 0)
    ensures var m := LanguageCounts(rs[..i]);
            var lang := LanguageOf(rs[i]);
            LanguageCounts(rs[..i + 1]) == m[lang := (if lang in m then m[lang] else 0) + 1]
  {
    var next := rs[..i + 1];
    assert next[..i] == rs[..i] && next[i] == rs[i];
    LanguageCountsStep(next);
  }

  /** A share of `total` expressed as a percentage lies between 0 and 100. */
  lemma PercentageBounds(count: nat, total: nat)
    requires 0 < total && count <= total
    ensures 0.0 <= Percentage(count, total) <= 100.0
  {
  }

  /**
   * `calculate_statistics`: the empty store gives the fixed default record;
   * otherwise one pass collects the scores, the compliant count and the
   * language tally, and the averages are taken afterwards.
   */
  method CalculateStatistics(analyses: seq<AnalysisRecord>) returns (st: Stats)
    ensures analyses == [] ==> st == EmptyStats
    ensures analyses != [] ==> st.totalAnalyses == |analyses|
    ensures analyses != [] ==> st.avgQuality == Mean(Qualities(analyses))
    ensures analyses != [] ==> st.avgSecurity == Mean(Securities(analyses))
    ensures analyses != [] ==> st.avgAlignment == Mean(Alignments(analyses))
    ensures analyses != [] ==> st.avgOverall == Some(Overall(st.avgQuality, st.avgSecurity, st.avgAlignment))
    ensures analyses != [] ==> st.complianceRate == Percentage(CompliantCount(analyses), |analyses|)
    ensures 0.0 <= st.complianceRate <= 100.0
    ensures analyses != [] ==> st.languages == LanguageCounts(analyses)
    ensures Total(st.languages) == st.totalAnalyses
    ensures analyses != [] ==> st.recentTrend == (if st.avgQuality > TrendThreshold then "improving" else "needs_attention")
    ensures st.recentTrend in {"improving", "needs_attention", "stable"}
  {
    if analyses == [] {
      assert Total(map[]) == 0;
      return EmptyStats;
    }
    var total := |analyses|;
    var qualityScores: seq<real> := [];
    var securityScores: seq<real> := [];
    var alignmentScores: seq<real> := [];
    var compliantCount: nat := 0;
    var languages: map<string, nat> := map[];
    for i := 0 to total
      invariant qualityScores == Qualities(analyses[..i])
      invariant securityScores == Securities(analyses[..i])
      invariant alignmentScores == Alignments(analyses[..i])
      invariant compliantCount == CompliantCount(analyses[..i])
      invariant languages == LanguageCounts(analyses[..i])
    {
      var record := analyses[i];
      PrefixStep(analyses, i);
      qualityScores := qualityScores + [Quality(record)];
      securityScores := securityScores + [Security(record)];
      alignmentScores := alignmentScores + [Alignment(record)];
      if IsCompliant(record) {
        compliantCount := compliantCount + 1;
      }
      var lang := LanguageOf(record);
      languages := languages[lang := (if lang in languages then languages[lang] else 0) + 1];
    }
    assert analyses[..total] == analyses;
    var avgQuality := Mean(qualityScores);
    var avgSecurity := Mean(securityScores);
    var avgAlignment := Mean(alignmentScores);
    LanguageCountsTotal(analyses);
    PercentageBounds(compliantCount, total);
    st := Stats(
      total,
      avgQuality,
      avgSecurity,
      avgAlignment,
      Some(Overall(avgQuality, avgSecurity, avgAlignment)),
      Percentage(compliantCount, total),
      languages,
      if avgQuality > TrendThreshold then "improving" else "needs_attention");
  }
}
