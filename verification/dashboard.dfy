/**
 The overview page's figures: the aging chart's non-empty slices, the
 "Potential Bad Debt" card and the top-5 debtor concentration (per-customer
 net sums, sorted descending, first five).
 */
module Dashboard {
  import opened Types
  import opened Seqs
  import opened Aggregate

  // ---------------------------------------------------------------- aging chart

  datatype Slice = Slice(name: string, value: int)

  /** The five buckets in chart order. */
  function AllSlices(b: Buckets): seq<Slice> {
    [ Slice("Current", b.current), Slice("31-60 Days", b.days30), Slice("61-90 Days", b.days60),
      Slice("91-120 Days", b.days90), Slice("> 120 Days", b.over90) ]
  }

  function SliceSum(ss: seq<Slice>): int {
    if |ss| == 0 then 0 else ss[0].value + SliceSum(ss[1..])
  }

  /** `.filter(d => d.value > 0)` */
  function PositiveSlices(ss: seq<Slice>): (r: seq<Slice>)
    ensures IsSubseq(r, ss)
    ensures forall s :: s in r ==> s.value > 0
    ensures forall s :: s in ss && s.value > 0 ==> s in r
    ensures (forall i :: 0 <= i < |ss| ==> ss[i].value >= 0) ==> SliceSum(r) == SliceSum(ss)
  {
    if |ss| == 0 then []
    else
      var rest := PositiveSlices(ss[1..]);
      ConsSubseq(ss[0], rest, ss[1..]);
      assert ss == [ss[0]] + ss[1..];
      if ss[0].value > 0 then [ss[0]] + rest else rest
  }

  /** `agingData`: the buckets in their fixed order, keeping only those that hold money. */
  function AgingData(b: Buckets): (r: seq<Slice>)
    ensures IsSubseq(r, AllSlices(b))
    ensures forall s :: s in r ==> s.value > 0
    ensures forall s :: s in AllSlices(b) && s.value > 0 ==> s in r
  {
    PositiveSlices(AllSlices(b))
  }

  lemma AllSlicesTotal(b: Buckets)
    ensures SliceSum(AllSlices(b)) == BucketTotal(b)
  {
    var ss := AllSlices(b);
    assert SliceSum(ss[4..]) == b.over90;
    assert SliceSum(ss[3..]) == b.days90 + b.over90;
    assert SliceSum(ss[2..]) == b.days60 + b.days90 + b.over90;
    assert SliceSum(ss[1..]) == b.days30 + b.days60 + b.days90 + b.over90;
  }

  lemma NonNegativeSlices(b: Buckets)
    requires b.current >= 0 && b.days30 >= 0 && b.days60 >= 0 && b.days90 >= 0 && b.over90 >= 0
    ensures SliceSum(AgingData(b)) == BucketTotal(b)
  {
    var ss := AllSlices(b);
    assert forall i :: 0 <= i < |ss| ==> ss[i].value >= 0;
    AllSlicesTotal(b);
  }

  /** Dropping the empty buckets loses nothing: the chart still adds up to the net exposure. */
  lemma AgingDataTotal(data: seq<ARRecord>)
    ensures var s := CalculateSummary(data); SliceSum(AgingData(s.agingBuckets)) == s.netExposure
  {
    var s := CalculateSummary(data);
    SummaryConsistent(data);
    var b := s.agingBuckets;
    assert Get(b, Current) >= 0 && Get(b, Days30) >= 0 && Get(b, Days60) >= 0;
    assert Get(b, Days90) >= 0 && Get(b, Over90) >= 0;
    NonNegativeSlices(b);
  }

  /** The "Potential Bad Debt" card: the two buckets past 90 days. */
  function PotentialBadDebt(s: AuditSummary): int {
    s.agingBuckets.days90 + s.agingBuckets.over90
  }

  /** Exposure of the rows not known to be at most 90 days old, which includes every undated row. */
  function LateExposure(data: seq<ARRecord>): int {
    if |data| == 0 then 0
    else (if AtMost(data[0].overdue, 90) then 0 else Exposure(data[0])) + LateExposure(data[1..])
  }

  lemma {:induction false} LateBuckets(data: seq<ARRecord>)
    ensures BucketExposure(data, Days90) + BucketExposure(data, Over90) == LateExposure(data)
    decreases |data|
  {
    if |data| > 0 {
      LateBuckets(data[1..]);
    }
  }

  lemma {:induction false} PotentialBadDebtSpec(data: seq<ARRecord>)
    ensures PotentialBadDebt(CalculateSummary(data)) == LateExposure(data)
  {
    var b := CalculateSummary(data).agingBuckets;
    assert b.days90 == Get(b, Days90) && b.over90 == Get(b, Over90);
    LateBuckets(data);
  }

  // ---------------------------------------------------------------- debtor map

  /** One entry of the debtor map; the key is the row's (possibly undefined) customer name. */
  datatype Debtor = Debtor(name: Option<string>, value: int)

  function NameSet(ds: seq<Debtor>): set<Option<string>> {
    if |ds| == 0 then {} else {ds[0].name} + NameSet(ds[1..])
  }

  /** No name is the key of two entries. */
  predicate DistinctNames(ds: seq<Debtor>) {
    |ds| == 0 || (ds[0].name !in NameSet(ds[1..]) && DistinctNames(ds[1..]))
  }

  /** `debtorMap.get(k) || 0` */
  function Lookup(ds: seq<Debtor>, k: Option<string>): int {
    if |ds| == 0 then 0 else if ds[0].name == k then ds[0].value else Lookup(ds[1..], k)
  }

  function ValueSum(ds: seq<Debtor>): int {
    if |ds| == 0 then 0 else ds[0].value + ValueSum(ds[1..])
  }

  /** The keys of the map in iteration order. */
  function Keys(ds: seq<Debtor>): seq<Option<string>> {
    if |ds| == 0 then [] else [ds[0].name] + Keys(ds[1..])
  }

  /** The customer names of `data` not in `seen`, each listed where it first appears. */
  function FirstSeen(seen: seq<Option<string>>, data: seq<ARRecord>): seq<Option<string>>
    decreases |data|
  {
    if |data| == 0 then []
    else
      var k := data[0].customerName;
      if k in seen then FirstSeen(seen, data[1..]) else [k] + FirstSeen(seen + [k], data[1..])
  }

  /** One fold step, seen from before it: the keys `after` it plus the names still to come. */
  lemma KeysStep(before: seq<Option<string>>, after: seq<Option<string>>, tail: seq<Option<string>>,
                 added: seq<Option<string>>, k: Option<string>, known: bool)
    requires known ==> after == before && added == tail
    requires !known ==> after == before + [k] && added == [k] + tail
    ensures after + tail == before + added
  {
  }

  /** `debtorMap.set(k, v)`: an existing key keeps its place, a new key goes last. */
  function Put(ds: seq<Debtor>, k: Option<string>, v: int): (r: seq<Debtor>)
    requires DistinctNames(ds)
    ensures DistinctNames(r)
    ensures NameSet(r) == NameSet(ds) + {k}
    ensures Lookup(r, k) == v
    ensures forall k' :: k' != k ==> Lookup(r, k') == Lookup(ds, k')
    ensures ValueSum(r) == ValueSum(ds) - Lookup(ds, k) + v
    ensures Keys(r) == if k in Keys(ds) then Keys(ds) else Keys(ds) + [k]
    decreases |ds|
  {
    if |ds| == 0 then [Debtor(k, v)]
    else if ds[0].name == k then
      var r := [Debtor(k, v)] + ds[1..];
      assert r[1..] == ds[1..];
      r
    else
      var rest := Put(ds[1..], k, v);
      var r := [ds[0]] + rest;
      assert r[1..] == rest;
      assert Keys(ds) == [ds[0].name] + Keys(ds[1..]);
      r
  }

  /** The sum of the net amounts of the rows billed to customer `k`, negative ones included. */
  function NetOfName(data: seq<ARRecord>, k: Option<string>): int {
    if |data| == 0 then 0
    else (if data[0].customerName == k then Net(data[0]) else 0) + NetOfName(data[1..], k)
  }

  /** The distinct customer names of the ledger (an absent name counts as one more). */
  function CustomerNames(data: seq<ARRecord>): set<Option<string>> {
    if |data| == 0 then {} else {data[0].customerName} + CustomerNames(data[1..])
  }

  /** `data.forEach(d => debtorMap.set(name, (debtorMap.get(name) || 0) + net))` from the map `acc`. */
  function DebtorsFrom(acc: seq<Debtor>, data: seq<ARRecord>): (r: seq<Debtor>)
    requires DistinctNames(acc)
    ensures DistinctNames(r)
    ensures forall k :: Lookup(r, k) == Lookup(acc, k) + NetOfName(data, k)
    ensures NameSet(r) == NameSet(acc) + CustomerNames(data)
    ensures ValueSum(r) == ValueSum(acc) + TotalBilled(data) - TotalReceived(data)
    ensures Keys(r) == Keys(acc) + FirstSeen(Keys(acc), data)
    decreases |data|
  {
    if |data| == 0 then
      assert Keys(acc) + [] == Keys(acc);
      acc
    else
      var k := data[0].customerName;
      var next := Put(acc, k, Lookup(acc, k) + Net(data[0]));
      KeysStep(Keys(acc), Keys(next), FirstSeen(Keys(next), data[1..]), FirstSeen(Keys(acc), data), k, k in Keys(acc));
      DebtorsFrom(next, data[1..])
  }

  /**
   `debtorMap`: one entry per distinct customer name, holding that customer's
   net sum; together the entries hold billed minus received over the ledger.
   */
  function DebtorMap(data: seq<ARRecord>): (r: seq<Debtor>)
    ensures DistinctNames(r)
    ensures NameSet(r) == CustomerNames(data)
    ensures forall k :: Lookup(r, k) == NetOfName(data, k)
    ensures ValueSum(r) == CalculateSummary(data).totalAR - CalculateSummary(data).totalCollections
  {
    DebtorsFrom([], data)
  }

  /** Like a JavaScript `Map`, the debtor map lists customers in order of first appearance. */
  lemma DebtorMapOrder(data: seq<ARRecord>)
    ensures Keys(DebtorMap(data)) == FirstSeen([], data)
  {
  }

  lemma {:induction false} DistinctCount(ds: seq<Debtor>)
    requires DistinctNames(ds)
    ensures |NameSet(ds)| == |ds|
    decreases |ds|
  {
    if |ds| > 0 {
      DistinctCount(ds[1..]);
    }
  }

  /** The debtor map has exactly one entry per distinct customer name. */
  lemma {:induction false} DebtorCount(data: seq<ARRecord>)
    ensures |DebtorMap(data)| == |CustomerNames(data)|
  {
    DistinctCount(DebtorMap(data));
  }

  lemma {:induction false} NameOfMember(ds: seq<Debtor>, i: int)
    requires 0 <= i < |ds|
    ensures ds[i].name in NameSet(ds)
    decreases |ds|
  {
    if i > 0 {
      NameOfMember(ds[1..], i - 1);
    }
  }

  /** In a map with distinct keys, looking up an entry's name finds that entry's value. */
  lemma {:induction false} LookupDistinct(ds: seq<Debtor>, i: int)
    requires DistinctNames(ds)
    requires 0 <= i < |ds|
    ensures Lookup(ds, ds[i].name) == ds[i].value
    decreases |ds|
  {
    if i > 0 {
      NameOfMember(ds[1..], i - 1);
      LookupDistinct(ds[1..], i - 1);
    }
  }

  // ---------------------------------------------------------------- top debtors

  /** Each entry's value is at least the next one's. */
  predicate SortedDesc(ds: seq<Debtor>) {
    |ds| <= 1 || (ds[0].value >= ds[1].value && SortedDesc(ds[1..]))
  }

  lemma {:induction false} SortedDescPairs(ds: seq<Debtor>, i: int, j: int)
    requires SortedDesc(ds)
    requires 0 <= i <= j < |ds|
    ensures ds[i].value >= ds[j].value
    decreases |ds|
  {
    if 0 < i {
      SortedDescPairs(ds[1..], i - 1, j - 1);
    } else if i < j {
      SortedDescPairs(ds[1..], 0, j - 1);
    }
  }

  /** Places `d` before the first entry not larger than it, so `d` stays ahead of equal entries. */
  function Insert(d: Debtor, ds: seq<Debtor>): (r: seq<Debtor>)
    requires SortedDesc(ds)
    ensures SortedDesc(r)
    ensures |r| > 0 && (r[0] == d || (|ds| > 0 && r[0] == ds[0]))
    ensures multiset(r) == multiset(ds) + multiset{d}
    decreases |ds|
  {
    if |ds| == 0 || ds[0].value <= d.value then
      [d] + ds
    else
      var rest := Insert(d, ds[1..]);
      assert ds == [ds[0]] + ds[1..];
      [ds[0]] + rest
  }

  lemma {:induction false} InsertNames(d: Debtor, ds: seq<Debtor>)
    requires SortedDesc(ds)
    ensures NameSet(Insert(d, ds)) == NameSet(ds) + {d.name}
    ensures DistinctNames(ds) && d.name !in NameSet(ds) ==> DistinctNames(Insert(d, ds))
    decreases |ds|
  {
    var r := Insert(d, ds);
    if |ds| == 0 || ds[0].value <= d.value {
      assert r[1..] == ds;
    } else {
      InsertNames(d, ds[1..]);
      assert r[1..] == Insert(d, ds[1..]);
    }
  }

  /** `.sort((a, b) => b.value - a.value)`, a stable sort into non-increasing order. */
  function SortDesc(ds: seq<Debtor>): (r: seq<Debtor>)
    ensures SortedDesc(r)
    ensures multiset(r) == multiset(ds)
    ensures NameSet(r) == NameSet(ds)
    ensures DistinctNames(ds) ==> DistinctNames(r)
    decreases |ds|
  {
    if |ds| == 0 then []
    else
      assert ds == [ds[0]] + ds[1..];
      InsertNames(ds[0], SortDesc(ds[1..]));
      Insert(ds[0], SortDesc(ds[1..]))
  }

  /** The entries of value `v`, in their order in `ds`. */
  function WithValue(ds: seq<Debtor>, v: int): seq<Debtor> {
    if |ds| == 0 then []
    else (if ds[0].value == v then [ds[0]] else []) + WithValue(ds[1..], v)
  }

  lemma WithValueCons(x: Debtor, ds: seq<Debtor>, v: int)
    ensures x.value == v ==> WithValue([x] + ds, v) == [x] + WithValue(ds, v)
    ensures x.value != v ==> WithValue([x] + ds, v) == WithValue(ds, v)
  {
    assert ([x] + ds)[1..] == ds;
  }

  /** `d` lands ahead of every entry of equal value. */
  lemma {:induction false} InsertStable(d: Debtor, ds: seq<Debtor>, v: int)
    requires SortedDesc(ds)
    ensures d.value == v ==> WithValue(Insert(d, ds), v) == [d] + WithValue(ds, v)
    ensures d.value != v ==> WithValue(Insert(d, ds), v) == WithValue(ds, v)
    decreases |ds|
  {
    if |ds| == 0 || ds[0].value <= d.value {
      WithValueCons(d, ds, v);
    } else {
      InsertStable(d, ds[1..], v);
      PassLarger(d, ds, v);
    }
  }

  /** Insertion behind a larger head, given the claim for the tail. */
  lemma PassLarger(d: Debtor, ds: seq<Debtor>, v: int)
    requires SortedDesc(ds) && |ds| > 0 && ds[0].value > d.value
    requires d.value == v ==> WithValue(Insert(d, ds[1..]), v) == [d] + WithValue(ds[1..], v)
    requires d.value != v ==> WithValue(Insert(d, ds[1..]), v) == WithValue(ds[1..], v)
    ensures d.value == v ==> WithValue(Insert(d, ds), v) == [d] + WithValue(ds, v)
    ensures d.value != v ==> WithValue(Insert(d, ds), v) == WithValue(ds, v)
  {
    var rest := Insert(d, ds[1..]);
    assert Insert(d, ds) == [ds[0]] + rest;
    assert ds == [ds[0]] + ds[1..];
    WithValueCons(ds[0], rest, v);
    WithValueCons(ds[0], ds[1..], v);
    if ds[0].value == v {
      assert WithValue(Insert(d, ds), v) == [ds[0]] + WithValue(rest, v);
    }
  }

  /** The sort is stable: entries of equal value keep the order they had in the map. */
  lemma {:induction false} SortStable(ds: seq<Debtor>, v: int)
    ensures WithValue(SortDesc(ds), v) == WithValue(ds, v)
    decreases |ds|
  {
    if |ds| > 0 {
      SortStable(ds[1..], v);
      InsertStable(ds[0], SortDesc(ds[1..]), v);
    }
  }

  const TopCount: nat := 5

  /** `.slice(0, n)` */
  function Take(ds: seq<Debtor>, n: nat): (r: seq<Debtor>)
    ensures |r| == if |ds| < n then |ds| else n
    ensures r == ds[..|r|]
    ensures SortedDesc(ds) ==> SortedDesc(r)
    ensures NameSet(r) <= NameSet(ds)
    ensures DistinctNames(ds) ==> DistinctNames(r)
    decreases n
  {
    if n == 0 || |ds| == 0 then []
    else
      var rest := Take(ds[1..], n - 1);
      var r := [ds[0]] + rest;
      assert r[1..] == rest;
      r
  }

  /** `topDebtors`: the five customers with the largest net balances, largest first. */
  function TopDebtors(data: seq<ARRecord>): (top: seq<Debtor>)
    ensures |top| == if |DebtorMap(data)| < TopCount then |DebtorMap(data)| else TopCount
    ensures DistinctNames(top) && SortedDesc(top)
    ensures forall d :: d in top ==> d in DebtorMap(data) && d.value == NetOfName(data, d.name)
    ensures forall d, e :: d in top && e in DebtorMap(data) && e !in top ==> d.value >= e.value
  {
    var m := DebtorMap(data);
    var sorted := SortDesc(m);
    var top := Take(sorted, TopCount);
    assert |sorted| == |multiset(sorted)| == |multiset(m)| == |m|;
    TopSelected(m, sorted, top);
    TopDominates(m, sorted, top);
    top
  }

  /** The chosen entries are genuine entries of the map, carrying the customer's sum. */
  lemma TopSelected(m: seq<Debtor>, sorted: seq<Debtor>, top: seq<Debtor>)
    requires DistinctNames(m)
    requires multiset(sorted) == multiset(m)
    requires |top| <= |sorted| && top == sorted[..|top|]
    ensures forall d :: d in top ==> d in m && d.value == Lookup(m, d.name)
  {
    forall d | d in top
      ensures d in m && d.value == Lookup(m, d.name)
    {
      assert d in sorted;
      assert d in multiset(m);
      var i :| 0 <= i < |m| && m[i] == d;
      LookupDistinct(m, i);
    }
  }

  /** An entry left out of a prefix of a sorted list is no larger than any entry kept. */
  lemma TopDominates(m: seq<Debtor>, sorted: seq<Debtor>, top: seq<Debtor>)
    requires SortedDesc(sorted) && multiset(sorted) == multiset(m)
    requires |top| <= |sorted| && top == sorted[..|top|]
    ensures forall d, e :: d in top && e in m && e !in top ==> d.value >= e.value
  {
    forall d, e | d in top && e in m && e !in top
      ensures d.value >= e.value
    {
      var i :| 0 <= i < |top| && top[i] == d;
      assert e in multiset(sorted);
      var j :| 0 <= j < |sorted| && sorted[j] == e;
      SortedDescPairs(sorted, i, j);
    }
  }
}
