/**
 * The in-memory store of recent analyses: a most-recent-first list that
 * keeps at most 50 records, and the code preview kept in each record.
 */
module Store {
  import opened Records

  const Capacity: nat := 50
  const PreviewLength: nat := 200
  const Ellipsis := "..."

  /**
   * `code[:200] + '...' if len(code) > 200 else code`: short code is kept
   * whole; longer code keeps its first 200 characters and gains an ellipsis.
   */
  function CodePreview(code: string): (p: string)
    ensures |p| <= PreviewLength + |Ellipsis|
    ensures |code| <= PreviewLength ==> p == code
    ensures |code| > PreviewLength ==> |p| == PreviewLength + |Ellipsis|
    ensures |code| > PreviewLength ==> p[..PreviewLength] == code[..PreviewLength] && p[PreviewLength..] == Ellipsis
  {
    if |code| > PreviewLength then code[..PreviewLength] + Ellipsis else code
  }

  function Min(a: int, b: int): int {
    if a <= b then a else b
  }

  /**
   * One store step (`insert(0, record)`, then `pop()` when over capacity):
   * the new record comes first, the old records follow in order, and only the
   * oldest is dropped when the capacity is exceeded.
   */
  function InsertNewest(records: seq<AnalysisRecord>, record: AnalysisRecord): (r: seq<AnalysisRecord>)
    ensures 1 <= |r| <= |records| + 1 && r[0] == record
    ensures |records| <= Capacity ==> |r| == Min(|records| + 1, Capacity)
    ensures |records| < Capacity ==> r[1..] == records
    ensures |records| >= Capacity ==> r[1..] == records[..|records| - 1]
  {
    var grown := [record] + records;
    if |grown| > Capacity then grown[..|grown| - 1] else grown
  }

  /** The records present after inserting `batch` one by one, first element first. */
  function InsertAll(records: seq<AnalysisRecord>, batch: seq<AnalysisRecord>): seq<AnalysisRecord>
    decreases |batch|
  {
    if batch == [] then records else InsertAll(InsertNewest(records, batch[0]), batch[1..])
  }

  function Reverse<T>(s: seq<T>): (r: seq<T>)
    ensures |r| == |s|
    ensures forall i | 0 <= i < |s| :: r[i] == s[|s| - 1 - i]
  {
    if s == [] then [] else Reverse(s[1..]) + [s[0]]
  }

  /** Truncating an already-truncated tail is the same as truncating the whole. */
  lemma PrefixOfPrefix<T>(a: seq<T>, b: seq<T>, k: nat, n: nat)
    requires k <= |b| && n <= |a| + k
    ensures (a + b[..k])[..n] == (a + b)[..n]
  {
  }

  /**
   * Inserting a batch into a store within capacity leaves the newest records
   * first: the batch reversed, followed by the old contents, cut to capacity.
   */
  lemma {:induction false} InsertAllKeepsNewest(records: seq<AnalysisRecord>, batch: seq<AnalysisRecord>)
    requires |records| <= Capacity
    ensures InsertAll(records, batch) == (Reverse(batch) + records)[..Min(|batch| + |records|, Capacity)]
    decreases |batch|
  {
    if batch == [] {
      assert Reverse(batch) + records == records;
    } else {
      var x, rest := batch[0], batch[1..];
      var step := InsertNewest(records, x);
      var m := Min(|records| + 1, Capacity);
      assert step == ([x] + records)[..m];
      InsertAllKeepsNewest(step, rest);
      var n := Min(|rest| + m, Capacity);
      assert n == Min(|batch| + |records|, Capacity);
      PrefixOfPrefix(Reverse(rest), [x] + records, m, n);
      assert Reverse(batch) == Reverse(rest) + [x];
      assert Reverse(rest) + ([x] + records) == Reverse(batch) + records;
    }
  }

  /** Sixty sequential inserts into an empty store keep the last fifty, most recent first. */
  lemma SixtyInserts(batch: seq<AnalysisRecord>)
    requires |batch| == 60
    ensures |InsertAll([], batch)| == Capacity
    ensures forall i | 0 <= i < Capacity :: InsertAll([], batch)[i] == batch[59 - i]
  {
    InsertAllKeepsNewest([], batch);
    assert Reverse(batch) + [] == Reverse(batch);
  }

  /** The `recent_analyses` list, updated in place by each analysis request. */
  class AnalysisStore {
    var records: seq<AnalysisRecord>

    ghost predicate Valid()
      reads this
    {
      |records| <= Capacity
    }

    constructor ()
      ensures Valid() && records == []
    {
      records := [];
    }

    /** Insert at the front, then drop the last record if the store has grown past capacity. */
    method Insert(record: AnalysisRecord)
      requires Valid()
      modifies this
      ensures Valid()
      ensures records == InsertNewest(old(records), record)
      ensures records[0] == record && |records| == Min(|old(records)| + 1, Capacity)
    {
      records := [record] + records;
      if |records| > Capacity {
        records := records[..|records| - 1];
      }
    }

    /** `len(recent_analyses)`, as reported by the health endpoint. */
    method Count() returns (n: nat)
      requires Valid()
      ensures n == |records| && n <= Capacity
    {
      n := |records|;
    }
  }
}
