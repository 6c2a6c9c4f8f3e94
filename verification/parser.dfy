/**
 The ledger parser: CSV text to a sequence of `ARRecord`s, with days overdue
 against the fixed audit cut-off and a risk level per row.

 Two collaborators are parameters: `parseNum` stands for `parseFloat` (`None`
 for NaN) and `parseDate` for `new Date(s).getTime()` (`None` for an invalid
 date, otherwise milliseconds since the epoch).
 */
module Parser {
  import opened Types
  import opened Text
  import opened Seqs

  datatype ParseError =
    | NoHeader         // no non-blank line: `lines[0]` is undefined
    | MissingColumns   // the header lacks one of the required column names

  datatype Result<T> = Ok(value: T) | Err(error: ParseError)

  const RequiredColumns: seq<string> := ["Customer_ID", "Nama_Pelanggan", "Jumlah_Tagihan", "Tanggal_Invoice"]

  const MsPerDay: nat := 1000 * 60 * 60 * 24

  /** `new Date('2023-12-31').getTime()`: midnight UTC of the audit cut-off. */
  const CutoffTime: int := 1703980800000

  /** A received amount that is a positive multiple of this looks like a lapping payment. */
  const RoundPayment: int := 1000000

  /** An unconfirmed bill above this amount is high risk. */
  const LargeBill: int := 10000000

  // ---------------------------------------------------------------- lines

  /** Number of lines that are not entirely white space. */
  function NonBlankCount(lines: seq<string>): nat {
    if |lines| == 0 then 0
    else (if AllSpace(lines[0]) then 0 else 1) + NonBlankCount(lines[1..])
  }

  /** `lines.filter(line => line.trim() !== '')` */
  function DropBlank(lines: seq<string>): (r: seq<string>)
    ensures |r| == NonBlankCount(lines)
    ensures forall i :: 0 <= i < |r| ==> !AllSpace(r[i])
    ensures forall i :: 0 <= i < |lines| && !AllSpace(lines[i]) ==> lines[i] in r
  {
    if |lines| == 0 then []
    else
      var rest := DropBlank(lines[1..]);
      assert lines == [lines[0]] + lines[1..];
      if Trim(lines[0]) != "" then [lines[0]] + rest else rest
  }

  /** The kept lines stay in their original order. */
  lemma {:induction false} DropBlankOrder(lines: seq<string>)
    ensures IsSubseq(DropBlank(lines), lines)
    decreases |lines|
  {
    if |lines| > 0 {
      DropBlankOrder(lines[1..]);
      ConsSubseq(lines[0], DropBlank(lines[1..]), lines[1..]);
      assert lines == [lines[0]] + lines[1..];
    }
  }

  function Lines(text: string): seq<string> {
    DropBlank(Split(text, '\n'))
  }

  // ---------------------------------------------------------------- header

  /** `lines[0].split(',').map(h => h.trim())` */
  function HeaderCells(header: string): seq<string> {
    var parts := Split(header, ',');
    seq(|parts|, i requires 0 <= i < |parts| => Trim(parts[i]))
  }

  /** `headers.some(h => h.includes(token))` */
  predicate SomeIncludes(cells: seq<string>, token: string) {
    |cells| > 0 && (Includes(cells[0], token) || SomeIncludes(cells[1..], token))
  }

  /** `required.every(r => headers.some(h => h.includes(r)))` */
  predicate EveryPresent(tokens: seq<string>, cells: seq<string>) {
    |tokens| == 0 || (SomeIncludes(cells, tokens[0]) && EveryPresent(tokens[1..], cells))
  }

  predicate HasRequiredColumns(header: string) {
    EveryPresent(RequiredColumns, HeaderCells(header))
  }

  /** Some trimmed header cell contains `token`. */
  ghost predicate Announces(header: string, token: string) {
    exists h :: h in HeaderCells(header) && HasSubstring(h, token)
  }

  lemma {:induction false} SomeIncludesSpec(cells: seq<string>, token: string)
    ensures SomeIncludes(cells, token) <==> exists h :: h in cells && HasSubstring(h, token)
    decreases |cells|
  {
    if |cells| > 0 {
      SomeIncludesSpec(cells[1..], token);
      IncludesSpec(cells[0], token);
      if SomeIncludes(cells, token) {
        if !Includes(cells[0], token) {
          var h :| h in cells[1..] && HasSubstring(h, token);
          assert h in cells;
        } else {
          assert cells[0] in cells && HasSubstring(cells[0], token);
        }
      }
      if exists h :: h in cells && HasSubstring(h, token) {
        var h :| h in cells && HasSubstring(h, token);
        if h != cells[0] {
          assert cells == [cells[0]] + cells[1..];
          assert h in cells[1..];
          assert SomeIncludes(cells[1..], token);
        } else {
          assert Includes(cells[0], token);
        }
      }
    }
  }

  lemma {:induction false} SomeIncludesAt(cells: seq<string>, i: int, token: string)
    requires 0 <= i < |cells| && Includes(cells[i], token)
    ensures SomeIncludes(cells, token)
    decreases i
  {
    if i > 0 {
      SomeIncludesAt(cells[1..], i - 1, token);
    }
  }

  lemma {:induction false} EveryPresentSpec(tokens: seq<string>, cells: seq<string>)
    ensures EveryPresent(tokens, cells) <==> forall t :: t in tokens ==> SomeIncludes(cells, t)
    decreases |tokens|
  {
    if |tokens| > 0 {
      EveryPresentSpec(tokens[1..], cells);
      assert tokens == [tokens[0]] + tokens[1..];
      if EveryPresent(tokens, cells) {
        forall t | t in tokens
          ensures SomeIncludes(cells, t)
        {
          if t != tokens[0] {
            assert t in tokens[1..];
          }
        }
      }
      if forall t :: t in tokens ==> SomeIncludes(cells, t) {
        assert SomeIncludes(cells, tokens[0]);
        forall t | t in tokens[1..]
          ensures SomeIncludes(cells, t)
        {
          assert t in tokens;
        }
      }
    }
  }

  /** The header check accepts exactly the headers that announce all four required columns. */
  lemma HeaderSpec(header: string)
    ensures HasRequiredColumns(header) <==> forall t :: t in RequiredColumns ==> Announces(header, t)
  {
    var cells := HeaderCells(header);
    EveryPresentSpec(RequiredColumns, cells);
    forall t | t in RequiredColumns
      ensures SomeIncludes(cells, t) <==> Announces(header, t)
    {
      SomeIncludesSpec(cells, t);
    }
  }

  // ---------------------------------------------------------------- one row

  /** `values[i]`: `None` (undefined) past the end of the row. */
  function Cell(values: seq<string>, i: nat): Option<string> {
    if i < |values| then Some(values[i]) else None
  }

  /** `parseFloat(cell) || 0`: an absent or unparsable cell counts as 0. */
  function Amount(cell: Option<string>, parseNum: string -> Option<int>): int {
    match cell
    case None => 0
    case Some(s) => match parseNum(s) case None => 0 case Some(v) => v
  }

  /** `new Date(cell).getTime()`, `None` standing for NaN. */
  function InvoiceTime(cell: Option<string>, parseDate: string -> Option<int>): Option<int> {
    match cell
    case None => None
    case Some(s) => parseDate(s)
  }

  function Abs(x: int): nat {
    if x < 0 then -x else x
  }

  /** Ceiling of `a / b`. */
  function CeilDiv(a: nat, b: nat): (q: nat)
    requires b > 0
    ensures a <= q * b
    ensures q == 0 || (q - 1) * b < a
  {
    var q := (a + b - 1) / b;
    assert q * b <= a + b - 1 < (q + 1) * b;
    q
  }

  /**
   `Math.ceil(Math.abs(today - invoiceDate.getTime()) / (1000 * 60 * 60 * 24))`:
   the whole days, rounded up, between the invoice and the cut-off, in either direction.
   */
  function DaysOverdue(time: Option<int>): (age: Age)
    ensures time.None? <==> age.NaN?
    ensures time.Some? ==> (age.n - 1) * MsPerDay < Abs(CutoffTime - time.value) <= age.n * MsPerDay
  {
    match time
    case None => NaN
    case Some(t) => Days(CeilDiv(Abs(CutoffTime - t), MsPerDay))
  }

  /** An invoice dated `d` milliseconds after the cut-off is as old as one `d` before it. */
  lemma DaysOverdueSymmetric(d: int)
    ensures DaysOverdue(Some(CutoffTime + d)) == DaysOverdue(Some(CutoffTime - d))
  {
  }

  /** The risk from the age alone. */
  function BaseRisk(age: Age): (risk: Risk)
    ensures risk == High <==> Exceeds(age, 90)
    ensures risk == Medium <==> Exceeds(age, 60) && !Exceeds(age, 90)
    ensures risk == Low <==> !Exceeds(age, 60)
  {
    if Exceeds(age, 90) then High
    else if Exceeds(age, 60) then Medium
    else Low
  }

  /** A round received amount on an invoice older than 45 days. */
  predicate LappingSign(age: Age, payment: int) {
    payment > 0 && payment % RoundPayment == 0 && Exceeds(age, 45)
  }

  /** A large bill whose confirmation request went unanswered. */
  predicate UnconfirmedLarge(status: Option<string>, bill: int) {
    status == Some("No Reply") && bill > LargeBill
  }

  /** The base risk, then the lapping rule, then the confirmation rule; each may only raise it to High. */
  function AssessRisk(age: Age, bill: int, payment: int, status: Option<string>): (risk: Risk)
    ensures risk == High <==> Exceeds(age, 90) || LappingSign(age, payment) || UnconfirmedLarge(status, bill)
    ensures risk != High ==> risk == BaseRisk(age)
    ensures Rank(risk) >= Rank(BaseRisk(age))
    ensures age.NaN? ==> risk == (if UnconfirmedLarge(status, bill) then High else Low)
  {
    var base := BaseRisk(age);
    var afterLapping := if LappingSign(age, payment) then High else base;
    if UnconfirmedLarge(status, bill) then High else afterLapping
  }

  /** The derived fields of a row are functions of its other fields. */
  predicate WellDerived(r: ARRecord, parseDate: string -> Option<int>) {
    && r.overdue == DaysOverdue(InvoiceTime(r.invoiceDate, parseDate))
    && r.risk == AssessRisk(r.overdue, r.bill, r.payment, r.status)
  }

  /** One data line, read by fixed position. */
  function ParseRow(line: string, parseNum: string -> Option<int>, parseDate: string -> Option<int>): (r: ARRecord)
    ensures WellDerived(r, parseDate)
  {
    var values := Split(line, ',');
    var age := DaysOverdue(InvoiceTime(Cell(values, 3), parseDate));
    var bill := Amount(Cell(values, 5), parseNum);
    var payment := Amount(Cell(values, 6), parseNum);
    var status := match Cell(values, 8) case None => None case Some(s) => Some(Trim(s));
    ARRecord(values[0], Cell(values, 1), Cell(values, 2), Cell(values, 3), Cell(values, 4),
             bill, payment, Cell(values, 7), status, age, AssessRisk(age, bill, payment, status))
  }

  /**
   A line built from comma-free cells gives back those cells in their fixed
   positions; missing cells are absent, and amounts that do not parse are 0.
   */
  lemma {:induction false} RowFields(cells: seq<string>, parseNum: string -> Option<int>, parseDate: string -> Option<int>)
    requires |cells| >= 1
    requires forall i :: 0 <= i < |cells| ==> ',' !in cells[i]
    ensures var r := ParseRow(Join(cells, ','), parseNum, parseDate);
      && r.customerId == cells[0]
      && r.customerName == Cell(cells, 1)
      && r.invoiceNo == Cell(cells, 2)
      && r.invoiceDate == Cell(cells, 3)
      && r.dueDate == Cell(cells, 4)
      && r.paymentDate == Cell(cells, 7)
      && r.bill == (if |cells| > 5 && parseNum(cells[5]).Some? then parseNum(cells[5]).value else 0)
      && r.payment == (if |cells| > 6 && parseNum(cells[6]).Some? then parseNum(cells[6]).value else 0)
      && r.status == (if |cells| > 8 then Some(Trim(cells[8])) else None)
  {
    SplitJoin(cells, ',');
  }

  // ---------------------------------------------------------------- whole file

  function ParseRows(lines: seq<string>, parseNum: string -> Option<int>, parseDate: string -> Option<int>): seq<ARRecord> {
    seq(|lines|, i requires 0 <= i < |lines| => ParseRow(lines[i], parseNum, parseDate))
  }

  /** `parseCSV`: fails only on the header; every later non-blank line becomes one record, in order. */
  function Parse(text: string, parseNum: string -> Option<int>, parseDate: string -> Option<int>): (res: Result<seq<ARRecord>>)
    ensures res == Err(NoHeader) <==> |Lines(text)| == 0
    ensures res == Err(MissingColumns) <==> |Lines(text)| > 0 && !HasRequiredColumns(Lines(text)[0])
    ensures res.Ok? ==> |res.value| == |Lines(text)| - 1
    ensures res.Ok? ==> forall i :: 0 <= i < |res.value| ==> res.value[i] == ParseRow(Lines(text)[i + 1], parseNum, parseDate)
    ensures res.Ok? ==> forall r :: r in res.value ==> WellDerived(r, parseDate)
  {
    var lines := Lines(text);
    if |lines| == 0 then Err(NoHeader)
    else if !HasRequiredColumns(lines[0]) then Err(MissingColumns)
    else Ok(ParseRows(lines[1..], parseNum, parseDate))
  }

  /** A header in which no cell mentions one of the required columns rejects the whole file. */
  lemma {:induction false} MissingColumnRejected(text: string, token: string, parseNum: string -> Option<int>, parseDate: string -> Option<int>)
    requires token in RequiredColumns
    requires |Lines(text)| > 0
    requires forall h :: h in HeaderCells(Lines(text)[0]) ==> !HasSubstring(h, token)
    ensures Parse(text, parseNum, parseDate) == Err(MissingColumns)
  {
    HeaderSpec(Lines(text)[0]);
  }
}
