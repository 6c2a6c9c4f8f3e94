/**
 The aggregator: one pass over the parsed rows producing the `AuditSummary`
 (totals, net exposure, aging buckets, high-risk count and the 50% impairment
 provision). The pass is `Accumulate`, one `Step` per row in order; the
 `Total*`, `*Exposure` and `Impaired*` functions are the per-field reference
 definitions it is proved against.
 */
module Aggregate {
  import opened Types

  datatype Bucket = Current | Days30 | Days60 | Days90 | Over90

  /**
   The aging bucket of a row: at most 30, 60, 90 or 120 days, else over. An age
   of NaN is never "at most" anything and so lands in the last bucket.
   */
  function BucketOf(age: Age): Bucket {
    match age
    case NaN => Over90
    case Days(n) =>
      if n <= 30 then Current
      else if n <= 60 then Days30
      else if n <= 90 then Days60
      else if n <= 120 then Days90
      else Over90
  }

  function Get(b: Buckets, k: Bucket): int {
    match k
    case Current => b.current
    case Days30 => b.days30
    case Days60 => b.days60
    case Days90 => b.days90
    case Over90 => b.over90
  }

  function BucketTotal(b: Buckets): int {
    b.current + b.days30 + b.days60 + b.days90 + b.over90
  }

  const Empty: AuditSummary := AuditSummary(0, 0, 0, 0, 0.0, Buckets(0, 0, 0, 0, 0))

  /** One iteration of the aggregation loop. */
  function Step(s: AuditSummary, r: ARRecord): AuditSummary {
    var s1 := s.(totalAR := s.totalAR + r.bill, totalCollections := s.totalCollections + r.payment);
    var net := Net(r);
    if net > 0 then
      var b := s1.agingBuckets;
      var aged :=
        if AtMost(r.overdue, 30) then b.(current := b.current + net)
        else if AtMost(r.overdue, 60) then b.(days30 := b.days30 + net)
        else if AtMost(r.overdue, 90) then b.(days60 := b.days60 + net)
        else if AtMost(r.overdue, 120) then b.(days90 := b.days90 + net)
        else b.(over90 := b.over90 + net);
      var s2 := s1.(netExposure := s1.netExposure + net, agingBuckets := aged);
      if r.risk == High then
        s2.(countHighRisk := s2.countHighRisk + 1, badDebtProvision := s2.badDebtProvision + net as real * 0.5)
      else s2
    else s1
  }

  // ---------------------------------------------------------------- reference sums

  function TotalBilled(data: seq<ARRecord>): int {
    if |data| == 0 then 0 else data[0].bill + TotalBilled(data[1..])
  }

  function TotalReceived(data: seq<ARRecord>): int {
    if |data| == 0 then 0 else data[0].payment + TotalReceived(data[1..])
  }

  /** What a row owes, counting overpaid and settled rows as owing nothing. */
  function Exposure(r: ARRecord): nat {
    if Net(r) > 0 then Net(r) else 0
  }

  function TotalExposure(data: seq<ARRecord>): int {
    if |data| == 0 then 0 else Exposure(data[0]) + TotalExposure(data[1..])
  }

  /** The exposure of the rows whose age falls in bucket `k`. */
  function BucketExposure(data: seq<ARRecord>, k: Bucket): int {
    if |data| == 0 then 0
    else (if BucketOf(data[0].overdue) == k then Exposure(data[0]) else 0) + BucketExposure(data[1..], k)
  }

  /** A row that is owed money and classified High: it is provisioned for. */
  predicate Impaired(r: ARRecord) {
    Net(r) > 0 && r.risk == High
  }

  function ImpairedCount(data: seq<ARRecord>): int {
    if |data| == 0 then 0 else (if Impaired(data[0]) then 1 else 0) + ImpairedCount(data[1..])
  }

  function ImpairedNet(data: seq<ARRecord>): int {
    if |data| == 0 then 0 else (if Impaired(data[0]) then Net(data[0]) else 0) + ImpairedNet(data[1..])
  }

  // ---------------------------------------------------------------- the pass

  /** `data.forEach(...)` continuing from the running summary `acc`. */
  function Accumulate(acc: AuditSummary, data: seq<ARRecord>): (s: AuditSummary)
    ensures s.totalAR == acc.totalAR + TotalBilled(data)
    ensures s.totalCollections == acc.totalCollections + TotalReceived(data)
    ensures s.netExposure == acc.netExposure + TotalExposure(data)
    ensures forall k :: Get(s.agingBuckets, k) == Get(acc.agingBuckets, k) + BucketExposure(data, k)
    ensures s.countHighRisk == acc.countHighRisk + ImpairedCount(data)
    ensures s.badDebtProvision == acc.badDebtProvision + ImpairedNet(data) as real / 2.0
    decreases |data|
  {
    if |data| == 0 then acc else Accumulate(Step(acc, data[0]), data[1..])
  }

  /** `calculateSummary` */
  function CalculateSummary(data: seq<ARRecord>): (s: AuditSummary)
    ensures s.totalAR == TotalBilled(data) && s.totalCollections == TotalReceived(data)
    ensures s.netExposure == TotalExposure(data)
    ensures forall k :: Get(s.agingBuckets, k) == BucketExposure(data, k)
    ensures s.countHighRisk == ImpairedCount(data)
    ensures s.badDebtProvision == ImpairedNet(data) as real / 2.0
    ensures |data| == 0 ==> s == Empty
  {
    Accumulate(Empty, data)
  }

  // ---------------------------------------------------------------- properties

  /** The five buckets split the exposure: each is non-negative and together they are all of it. */
  lemma {:induction false} BucketsPartition(data: seq<ARRecord>)
    ensures forall k :: BucketExposure(data, k) >= 0
    ensures BucketExposure(data, Current) + BucketExposure(data, Days30) + BucketExposure(data, Days60)
            + BucketExposure(data, Days90) + BucketExposure(data, Over90) == TotalExposure(data)
    decreases |data|
  {
    if |data| > 0 {
      BucketsPartition(data[1..]);
    }
  }

  /** Exposure ignores overpayments, so it is at least billed minus received, and never negative. */
  lemma {:induction false} ExposureBounds(data: seq<ARRecord>)
    ensures TotalExposure(data) >= TotalBilled(data) - TotalReceived(data)
    ensures TotalExposure(data) >= 0
    decreases |data|
  {
    if |data| > 0 {
      ExposureBounds(data[1..]);
    }
  }

  /** With no negative amount, exposure never exceeds what was billed. */
  lemma {:induction false} ExposureAtMostBilled(data: seq<ARRecord>)
    requires forall r :: r in data ==> r.bill >= 0 && r.payment >= 0
    ensures TotalExposure(data) <= TotalBilled(data)
    decreases |data|
  {
    if |data| > 0 {
      assert forall r :: r in data[1..] ==> r in data;
      ExposureAtMostBilled(data[1..]);
    }
  }

  /** `parseFloat` accepts a negative payment, and then exposure can exceed the billed total. */
  lemma NegativePaymentExceedsBilled(r: ARRecord)
    requires r.bill == 0 && r.payment == -5
    ensures TotalExposure([r]) == 5 && TotalBilled([r]) == 0
    ensures TotalExposure([r]) > TotalBilled([r])
  {
  }

  /** The provisioned rows are some of the rows and carry part of the exposure. */
  lemma {:induction false} ImpairedBounds(data: seq<ARRecord>)
    ensures 0 <= ImpairedCount(data) <= |data|
    ensures 0 <= ImpairedNet(data) <= TotalExposure(data)
    decreases |data|
  {
    if |data| > 0 {
      ImpairedBounds(data[1..]);
    }
  }

  /** The invariant the summary of any ledger satisfies. */
  predicate Consistent(s: AuditSummary) {
    && BucketTotal(s.agingBuckets) == s.netExposure
    && (forall k :: Get(s.agingBuckets, k) >= 0)
    && s.netExposure >= s.totalAR - s.totalCollections
    && 0.0 <= s.badDebtProvision <= s.netExposure as real / 2.0
  }

  lemma SummaryConsistent(data: seq<ARRecord>)
    ensures Consistent(CalculateSummary(data))
    ensures CalculateSummary(data).countHighRisk <= |data|
    ensures (forall r :: r in data ==> r.bill >= 0 && r.payment >= 0) ==>
      CalculateSummary(data).netExposure <= CalculateSummary(data).totalAR
  {
    var s := CalculateSummary(data);
    BucketsPartition(data);
    ExposureBounds(data);
    ImpairedBounds(data);
    if forall r :: r in data ==> r.bill >= 0 && r.payment >= 0 {
      ExposureAtMostBilled(data);
    }
    assert s.agingBuckets.current == Get(s.agingBuckets, Current);
    assert s.agingBuckets.days30 == Get(s.agingBuckets, Days30);
    assert s.agingBuckets.days60 == Get(s.agingBuckets, Days60);
    assert s.agingBuckets.days90 == Get(s.agingBuckets, Days90);
    assert s.agingBuckets.over90 == Get(s.agingBuckets, Over90);
  }

  /** The rows still owed money. */
  function OwingRows(data: seq<ARRecord>): seq<ARRecord> {
    if |data| == 0 then []
    else if Net(data[0]) > 0 then [data[0]] + OwingRows(data[1..])
    else OwingRows(data[1..])
  }

  /** Settled and overpaid rows change only the two totals: dropping them leaves every other figure as it was. */
  lemma {:induction false} SettledRowsInert(data: seq<ARRecord>)
    ensures var s, t := CalculateSummary(data), CalculateSummary(OwingRows(data));
      && s.netExposure == t.netExposure
      && s.agingBuckets == t.agingBuckets
      && s.countHighRisk == t.countHighRisk
      && s.badDebtProvision == t.badDebtProvision
    decreases |data|
  {
    if |data| > 0 {
      SettledRowsInert(data[1..]);
      var rest := OwingRows(data[1..]);
      if Net(data[0]) > 0 {
        assert ([data[0]] + rest)[1..] == rest;
      }
      var s, t := CalculateSummary(data), CalculateSummary(OwingRows(data));
      assert forall k :: Get(s.agingBuckets, k) == Get(t.agingBuckets, k);
      assert s.agingBuckets.current == Get(s.agingBuckets, Current) == Get(t.agingBuckets, Current);
      assert s.agingBuckets.days30 == Get(s.agingBuckets, Days30) == Get(t.agingBuckets, Days30);
      assert s.agingBuckets.days60 == Get(s.agingBuckets, Days60) == Get(t.agingBuckets, Days60);
      assert s.agingBuckets.days90 == Get(s.agingBuckets, Days90) == Get(t.agingBuckets, Days90);
      assert s.agingBuckets.over90 == Get(s.agingBuckets, Over90) == Get(t.agingBuckets, Over90);
    }
  }
}
