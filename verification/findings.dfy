/**
 The findings table's row selection: a risk selector combined with a
 case-insensitive search over customer name and invoice number, and the
 "Showing N records" count.

 Rows whose name (or, when the name does not match, invoice number) is absent
 make the search call `toLowerCase` on `undefined`, which throws; the model
 returns `None` for that outcome.
 */
module Findings {
  import opened Types
  import opened Text
  import opened Seqs

  /** The selector's three options: 'All', 'High', 'Medium'. */
  datatype RiskFilter = All | OnlyHigh | OnlyMedium

  /** `filter === 'All' || item.RiskLevel === filter` */
  predicate PassesRisk(f: RiskFilter, risk: Risk) {
    match f
    case All => true
    case OnlyHigh => risk == High
    case OnlyMedium => risk == Medium
  }

  /** The name check, then (only if it fails) the invoice check; `None` where an absent cell is lower-cased. */
  function SearchOutcome(r: ARRecord, search: string): Option<bool> {
    var q := Lower(search);
    match r.customerName
    case None => None
    case Some(name) =>
      if Includes(Lower(name), q) then Some(true)
      else
        match r.invoiceNo
        case None => None
        case Some(inv) => Some(Includes(Lower(inv), q))
  }

  /** `matchesFilter && matchesSearch`; both are evaluated for every row. */
  function RowOutcome(r: ARRecord, f: RiskFilter, search: string): Option<bool> {
    match SearchOutcome(r, search)
    case None => None
    case Some(m) => Some(PassesRisk(f, r.risk) && m)
  }

  predicate Kept(r: ARRecord, f: RiskFilter, search: string) {
    RowOutcome(r, f, search) == Some(true)
  }

  /** The number of rows that pass both checks. */
  function CountKept(data: seq<ARRecord>, f: RiskFilter, search: string): nat {
    if |data| == 0 then 0
    else (if Kept(data[0], f, search) then 1 else 0) + CountKept(data[1..], f, search)
  }

  /** `data.filter(...)`: `None` when the predicate throws on some row. */
  function FilterRows(data: seq<ARRecord>, f: RiskFilter, search: string): (res: Option<seq<ARRecord>>)
    ensures res.None? <==> exists i :: 0 <= i < |data| && SearchOutcome(data[i], search).None?
    ensures res.Some? ==> IsSubseq(res.value, data) && |res.value| <= |data|
    ensures res.Some? ==> |res.value| == CountKept(data, f, search)
    ensures res.Some? ==> forall r :: r in res.value ==> Kept(r, f, search)
    ensures res.Some? ==> forall i :: 0 <= i < |data| && Kept(data[i], f, search) ==> data[i] in res.value
    ensures res.Some? && f == OnlyHigh ==> forall r :: r in res.value ==> r.risk == High
    ensures res.Some? && f == OnlyMedium ==> forall r :: r in res.value ==> r.risk == Medium
    decreases |data|
  {
    if |data| == 0 then Some([])
    else
      assert data == [data[0]] + data[1..];
      match RowOutcome(data[0], f, search)
      case None => None
      case Some(keep) =>
        match FilterRows(data[1..], f, search)
        case None => None
        case Some(rest) =>
          ConsSubseq(data[0], rest, data[1..]);
          var out := if keep then [data[0]] + rest else rest;
          SubseqBounds(out, data);
          Some(out)
  }

  /** "Showing N records" */
  function ShownCount(data: seq<ARRecord>, f: RiskFilter, search: string): (n: Option<nat>)
    ensures n.Some? <==> FilterRows(data, f, search).Some?
    ensures n.Some? ==> n.value == CountKept(data, f, search) <= |data|
  {
    match FilterRows(data, f, search)
    case None => None
    case Some(rows) => Some(|rows|)
  }

  /**
   A row is kept exactly when it passes the risk selector and the lower-cased
   query occurs in its lower-cased name or lower-cased invoice number.
   */
  lemma KeptSpec(r: ARRecord, f: RiskFilter, search: string)
    ensures Kept(r, f, search) <==>
      && PassesRisk(f, r.risk)
      && r.customerName.Some?
      && (|| HasSubstring(Lower(r.customerName.value), Lower(search))
          || (r.invoiceNo.Some? && HasSubstring(Lower(r.invoiceNo.value), Lower(search))))
  {
    if r.customerName.Some? {
      IncludesSpec(Lower(r.customerName.value), Lower(search));
      if r.invoiceNo.Some? {
        IncludesSpec(Lower(r.invoiceNo.value), Lower(search));
      }
    }
  }

  /** The search throws on a row with no name, or with no invoice number when the name does not match. */
  lemma ThrowsSpec(r: ARRecord, search: string)
    ensures SearchOutcome(r, search).None? <==>
      || r.customerName.None?
      || (!HasSubstring(Lower(r.customerName.value), Lower(search)) && r.invoiceNo.None?)
  {
    if r.customerName.Some? {
      IncludesSpec(Lower(r.customerName.value), Lower(search));
    }
  }

  /** The empty query matches every named row. */
  lemma EmptySearch(r: ARRecord)
    ensures RowOutcome(r, All, "") == if r.customerName.Some? then Some(true) else None
  {
    assert Lower("") == "";
    if r.customerName.Some? {
      assert IsPrefix("", Lower(r.customerName.value));
    }
  }

  /** With every risk shown and an empty search the table shows the ledger unchanged, provided no name is absent. */
  lemma {:induction false} ShowAllUnfiltered(data: seq<ARRecord>)
    ensures FilterRows(data, All, "") == Some(data) <==> forall i :: 0 <= i < |data| ==> data[i].customerName.Some?
    decreases |data|
  {
    if |data| > 0 {
      ShowAllUnfiltered(data[1..]);
      EmptySearch(data[0]);
      if forall i :: 0 <= i < |data| ==> data[i].customerName.Some? {
        assert forall i :: 0 <= i < |data[1..]| ==> data[1..][i].customerName.Some? by {
          forall i | 0 <= i < |data[1..]| ensures data[1..][i].customerName.Some? {
            assert data[1..][i] == data[i + 1];
          }
        }
        assert data == [data[0]] + data[1..];
      }
    }
  }
}
