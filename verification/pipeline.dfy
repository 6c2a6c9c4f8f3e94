/**
 The upload pipeline end to end on a one-row example ledger: parse the CSV
 text, then aggregate the records.
 */
module Pipeline {
  import opened Types
  import opened Text
  import opened Parser
  import opened Aggregate

  const ExampleHeader: seq<string> := ["Customer_ID", "Nama_Pelanggan", "No_Invoice", "Tanggal_Invoice",
    "Tanggal_Jatuh_Tempo", "Jumlah_Tagihan", "Pembayaran_Diterima", "Tanggal_Bayar", "Status_Konfirmasi"]

  const ExampleRow: seq<string> := ["C1", "Acme", "INV1", "2023-08-01", "2023-09-01", "15000000", "0", "", "No Reply"]

  /** The two CSV lines, header first. */
  const ExampleCsv: string := Join([Join(ExampleHeader, ','), Join(ExampleRow, ',')], '\n')

  /** Stand-in for `parseFloat` on the two amounts of the example. */
  function ExampleNumber(s: string): Option<int> {
    if s == "15000000" then Some(15000000) else if s == "0" then Some(0) else None
  }

  /** Stand-in for `new Date(s).getTime()`: 2023-08-01 is 152 days before the cut-off. */
  function ExampleDate(s: string): Option<int> {
    if s == "2023-08-01" then Some(CutoffTime - 152 * MsPerDay) else None
  }

  /** Two comma-joined lines, each starting with a visible character, read back as two lines. */
  lemma {:induction false} TwoLines(header: seq<string>, row: seq<string>)
    requires |header| > 0 && |row| > 0
    requires forall i :: 0 <= i < |header| ==> '\n' !in header[i]
    requires forall i :: 0 <= i < |row| ==> '\n' !in row[i]
    requires |header[0]| > 0 && !IsSpace(header[0][0]) && |row[0]| > 0 && !IsSpace(row[0][0])
    ensures Lines(Join([Join(header, ','), Join(row, ',')], '\n')) == [Join(header, ','), Join(row, ',')]
  {
    var h := Join(header, ',');
    var r := Join(row, ',');
    JoinAvoids(header, ',', '\n');
    JoinAvoids(row, ',', '\n');
    SplitJoin([h, r], '\n');
    JoinStartsWithFirst(header, ',');
    JoinStartsWithFirst(row, ',');
    assert h[0] == header[0][0] && r[0] == row[0][0];
    assert !AllSpace(h) && !AllSpace(r);
    assert DropBlank([h, r][1..]) == [r];
  }

  lemma {:induction false} ExampleLines()
    ensures Lines(ExampleCsv) == [Join(ExampleHeader, ','), Join(ExampleRow, ',')]
  {
    TwoLines(ExampleHeader, ExampleRow);
  }

  /** A header of untrimmed-clean, comma-free cells naming every required column is accepted. */
  lemma {:induction false} CleanHeaderAccepted(cells: seq<string>)
    requires |cells| > 0
    requires forall i :: 0 <= i < |cells| ==> ',' !in cells[i]
    requires forall i :: 0 <= i < |cells| ==> |cells[i]| > 0 && !IsSpace(cells[i][0]) && !IsSpace(cells[i][|cells[i]| - 1])
    requires forall t :: t in RequiredColumns ==> t in cells
    ensures HasRequiredColumns(Join(cells, ','))
  {
    SplitJoin(cells, ',');
    forall i | 0 <= i < |cells|
      ensures Trim(cells[i]) == cells[i]
    {
      TrimIdle(cells[i]);
    }
    assert HeaderCells(Join(cells, ',')) == cells;
    EveryPresentSpec(RequiredColumns, cells);
    forall t | t in RequiredColumns
      ensures SomeIncludes(cells, t)
    {
      var i :| 0 <= i < |cells| && cells[i] == t;
      assert IsPrefix(t, t);
      SomeIncludesAt(cells, i, t);
    }
  }

  lemma {:induction false} ExampleHeaderAccepted()
    ensures HasRequiredColumns(Join(ExampleHeader, ','))
  {
    CleanHeaderAccepted(ExampleHeader);
  }

  lemma {:induction false} ExampleAge()
    ensures DaysOverdue(Some(CutoffTime - 152 * MsPerDay)) == Days(152)
  {
    var age := DaysOverdue(Some(CutoffTime - 152 * MsPerDay));
    assert (age.n - 1) * MsPerDay < 152 * MsPerDay <= age.n * MsPerDay;
  }

  lemma {:induction false} ExampleRecord(row: seq<string>)
    requires row == ExampleRow
    ensures var r := ParseRow(Join(row, ','), ExampleNumber, ExampleDate);
      && r.overdue == Days(152) && r.risk == High && r.bill == 15000000 && r.payment == 0
  {
    RowFields(row, ExampleNumber, ExampleDate);
    var r := ParseRow(Join(row, ','), ExampleNumber, ExampleDate);
    assert r.invoiceDate == Some(row[3]);
    assert ExampleDate(row[3]) == Some(CutoffTime - 152 * MsPerDay);
    ExampleAge();
    assert r.overdue == Days(152);
    assert r.bill == 15000000;
    assert r.payment == 0;
    assert r.risk == High;
  }

  /** A file of one header line that passes the check and one data line parses to that line's record. */
  lemma {:induction false} OneRowFile(text: string, header: string, row: string, parseNum: string -> Option<int>, parseDate: string -> Option<int>)
    requires Lines(text) == [header, row]
    requires HasRequiredColumns(header)
    ensures Parse(text, parseNum, parseDate) == Ok([ParseRow(row, parseNum, parseDate)])
  {
    assert Lines(text)[1..] == [row];
    assert ParseRows([row], parseNum, parseDate) == [ParseRow(row, parseNum, parseDate)];
  }

  lemma {:induction false} ExampleParsed(text: string)
    requires text == ExampleCsv
    ensures Parse(text, ExampleNumber, ExampleDate) == Ok([ParseRow(Join(ExampleRow, ','), ExampleNumber, ExampleDate)])
  {
    ExampleLines();
    ExampleHeaderAccepted();
    OneRowFile(text, Join(ExampleHeader, ','), Join(ExampleRow, ','), ExampleNumber, ExampleDate);
  }

  lemma {:induction false} ExampleSummary(r: ARRecord)
    requires r.overdue == Days(152) && r.risk == High && r.bill == 15000000 && r.payment == 0
    ensures var s := CalculateSummary([r]);
      && s.netExposure == 15000000
      && s.agingBuckets == Buckets(0, 0, 0, 0, 15000000)
      && s.countHighRisk == 1
      && s.badDebtProvision == 7500000.0
  {
    assert [r][1..] == [];
    assert CalculateSummary([r]) == Accumulate(Step(Empty, r), []);
  }

  /**
   The row is 152 days old and High by both the age rule and the unconfirmed
   large bill rule; its 15,000,000 lands in the over-120 bucket, with one
   high-risk customer and a 7,500,000 provision.
   */
  lemma {:induction false} ExampleLedger(text: string)
    requires text == ExampleCsv
    ensures var res := Parse(text, ExampleNumber, ExampleDate);
      && res.Ok? && |res.value| == 1
      && res.value[0].overdue == Days(152)
      && res.value[0].risk == High
      && var s := CalculateSummary(res.value);
         && s.netExposure == 15000000
         && s.agingBuckets == Buckets(0, 0, 0, 0, 15000000)
         && s.countHighRisk == 1
         && s.badDebtProvision == 7500000.0
  {
    ExampleParsed(text);
    ExampleRecord(ExampleRow);
    ExampleSummary(ParseRow(Join(ExampleRow, ','), ExampleNumber, ExampleDate));
  }
}
