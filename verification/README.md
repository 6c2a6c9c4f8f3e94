# AR-Audit ledger pipeline — a Dafny model

AR-Audit is a browser dashboard for auditing an Accounts-Receivable ledger.
The user uploads the ledger as CSV. `parseCSV` turns each row into an
`ARRecord`, deriving its days overdue against the 2023-12-31 audit cut-off
and a Low/Medium/High risk level. `calculateSummary` folds the records into
an `AuditSummary`: total billed, total collected, net exposure, five aging
buckets, the high-risk count and a 50% impairment (CKPN) provision. Two
views compute small figures of their own. The findings table filters rows by
risk and by a case-insensitive search. The overview page keeps the non-empty
aging buckets, shows "Potential Bad Debt" and ranks the five largest debtors.

This project models that pipeline as pure functions over immutable datatypes
and proves what the pipeline promises:

- Parsing fails only on the header. Every later non-blank line becomes one
  record, in order, read by fixed column position.
- The risk rules only ever escalate.
- The five buckets partition the net exposure. Settled rows touch nothing but
  the totals.
- The filtered table is an order-preserving subsequence that keeps exactly
  the rows passing both checks.
- The debtor map holds one entry per customer and conserves billed minus
  received. The top five are sorted and dominate every debtor left out.

| file | module | models |
|---|---|---|
| `types.dfy` | `Types` | `types.ts`: `ARRecord`, `RiskLevel`, `AuditSummary` and its buckets |
| `text.dfy` | `Text` | `split` on one character, `trim`, `includes`, ASCII `toLowerCase` |
| `seqs.dfy` | `Seqs` | order-preserving subsequences |
| `parser.dfy` | `Parser` | `parseCSV` in `utils/auditUtils.ts` |
| `summary.dfy` | `Aggregate` | `calculateSummary` in `utils/auditUtils.ts` |
| `findings.dfy` | `Findings` | `filteredData` and the record count in `components/FindingsTable.tsx` |
| `dashboard.dfy` | `Dashboard` | `agingData`, the bad-debt card, `debtorMap` and `topDebtors` in `components/DashboardInfo.tsx` |
| `pipeline.dfy` | `Pipeline` | the one-row example ledger, parsed and summarised end to end |

Modelling choices:

- **Missing cells.** A CSV cell past the end of a short line is JavaScript
  `undefined`. Such cells are `Option<string>` fields. `Customer_ID` is
  always present, because `split` yields at least one piece.
- **Numbers and dates.** `parseFloat` and `new Date(s).getTime()` become the
  parameters `parseNum` and `parseDate`, of type `string -> Option<int>`;
  `None` stands for NaN.
- **Money and time.** Amounts are whole currency units (`int`). Time values
  are integer milliseconds.
- **Days overdue.** The cut-off is `Date.UTC(2023, 11, 31)` =
  1703980800000 ms. Days overdue is the integer ceiling of
  |cut-off − invoice time| / 86400000. Within the range of valid time values
  this ceiling equals the float one, because the quotient stays below 2^27.
- **Unparsable invoice dates.** Such a date gives the `Age` value `NaN`, as
  in the source, and every comparison with it is false. The base risk is
  then Low and the lapping rule cannot fire; only the "No Reply" rule can
  raise the risk. Such a row ages into the last bucket (over 120 days). The
  model keeps this behaviour rather than choosing a new one.
- **Search errors.** The findings search calls `toLowerCase` on the customer
  name. It also calls it on the invoice number when the name does not match.
  When that field is `undefined` the call throws. `FilterRows` returns
  `None` for this case.
- **Parse errors.** An input with no non-blank line throws a `TypeError` in
  the source, because `lines[0]` is `undefined`. The model reports it as
  `Err(NoHeader)`, distinct from `Err(MissingColumns)`.
- **Debtor map order.** The debtor map is an association list in insertion
  order, matching the iteration order of a JavaScript `Map`. The sort is
  stable, as `Array.prototype.sort` is required to be. Any stable sort yields
  the same order; the model uses insertion.
- **Net exposure and total billed.** Net exposure is at most total billed
  only when no amount is negative. `parseFloat` accepts negative amounts, such
  as a payment of `-5`. A row billed 0 with that payment has an exposure of 5,
  above its billed total of 0. So the bound is proved only under that
  condition.

## Model

| member | source | states |
|---|---|---|
| Text.Trim | utils/auditUtils.ts:4-5 | the result is the input minus a white-space prefix and suffix, has no white space at either end, and is empty exactly when the input is all white space |
| Text.Split | utils/auditUtils.ts:16 | splitting on a character yields at least one piece and no piece contains the separator |
| Text.JoinSplit | utils/auditUtils.ts:16 | joining the pieces of a split with the separator restores the text |
| Text.SplitJoin | utils/auditUtils.ts:16 | splitting separator-free cells joined by the separator gives back exactly those cells |
| Text.Lower | components/FindingsTable.tsx:16-17 | lower-casing keeps the length, leaves no upper-case ASCII letter and changes nothing but letter case |
| Text.IncludesSpec | components/FindingsTable.tsx:16-17 | `includes` is true exactly when the pattern occurs at some index of the text |
| Parser.DropBlank | utils/auditUtils.ts:4 | the kept lines are every line that is not all white space and no other, one per such line |
| Parser.DropBlankOrder | utils/auditUtils.ts:4 | the kept lines keep their order in the file |
| Parser.HeaderSpec | utils/auditUtils.ts:5-9 | the header check passes exactly when each of Customer_ID, Nama_Pelanggan, Jumlah_Tagihan, Tanggal_Invoice occurs case-sensitively in some trimmed header cell |
| Parser.MissingColumnRejected | utils/auditUtils.ts:8-11 | a header where no cell mentions a required column makes the whole parse fail with the format error |
| Parser.DaysOverdue | utils/auditUtils.ts:21-27 | an unparsable invoice date gives NaN; otherwise the days are the least whole number covering the distance to the cut-off, in either direction |
| Parser.BaseRisk | utils/auditUtils.ts:29-31 | High exactly above 90 days, Medium exactly for 61-90 days, Low otherwise (including NaN) |
| Parser.AssessRisk | utils/auditUtils.ts:29-40 | the risk is High exactly when the age exceeds 90 days, or a positive round million was received on an invoice older than 45 days, or an unanswered confirmation covers a bill above 10,000,000; otherwise it is the base risk, never lower |
| Parser.ParseRow | utils/auditUtils.ts:15-54 | a parsed row's days overdue and risk are the functions of its invoice date, amounts and status given above |
| Parser.RowFields | utils/auditUtils.ts:16-51 | a row's fields come from cell positions 0-8; missing cells are absent; an amount that is missing or does not parse becomes 0; the status is trimmed |
| Parser.Parse | utils/auditUtils.ts:3-56 | parsing fails with no non-blank line or a bad header and in no other case; on success it yields one record per non-blank line after the header, in order, the i-th being the parse of line i + 1, each well derived |
| Aggregate.Accumulate | utils/auditUtils.ts:68-88 | folding rows into a running summary adds the billed and received sums, the positive nets, each bucket's positive nets, the count of owing High rows and half their nets |
| Aggregate.CalculateSummary | utils/auditUtils.ts:58-91 | each figure of the summary equals its reference sum over the rows, and the empty ledger gives the all-zero summary |
| Aggregate.BucketsPartition | utils/auditUtils.ts:72-80 | the five bucket sums are non-negative and add up to the net exposure |
| Aggregate.ExposureBounds | utils/auditUtils.ts:69-74 | net exposure is non-negative and at least total billed minus total received |
| Aggregate.ImpairedBounds | utils/auditUtils.ts:82-86 | the high-risk count is at most the number of rows and the provisioned net lies between 0 and the net exposure |
| Aggregate.ExposureAtMostBilled | utils/auditUtils.ts:69-74 | when no bill or payment is negative, net exposure is at most total billed |
| Aggregate.NegativePaymentExceedsBilled | utils/auditUtils.ts:21-23 | a row billed 0 with a parsed payment of -5 has exposure 5, above its billed total, so the bound needs non-negative amounts |
| Aggregate.SummaryConsistent | utils/auditUtils.ts:58-91 | every summary has buckets summing to the net exposure, non-negative buckets, exposure at least billed minus received, a provision between 0 and half the exposure, and a high-risk count at most the row count; with no negative amount, exposure is at most totalAR |
| Aggregate.SettledRowsInert | utils/auditUtils.ts:72-87 | removing rows with net at most 0 leaves net exposure, buckets, high-risk count and provision unchanged |
| Findings.FilterRows | components/FindingsTable.tsx:14-19 | the filter throws exactly when some row's search reaches an absent cell; otherwise the result is an order-preserving subsequence of the ledger holding every row that passes both checks and no other, with exactly the selected risk under High or Medium |
| Findings.KeptSpec | components/FindingsTable.tsx:15-18 | a row is kept exactly when it passes the risk selector and the lower-cased query occurs in its lower-cased name or invoice number |
| Findings.ThrowsSpec | components/FindingsTable.tsx:16-17 | the search throws exactly on a row without a name, or without an invoice number when the name does not match |
| Findings.ShowAllUnfiltered | components/FindingsTable.tsx:14-19 | with all risks and an empty search the table shows the ledger unchanged, provided every row has a name |
| Findings.ShownCount | components/FindingsTable.tsx:109 | the displayed count is the number of rows passing both checks, at most the ledger's length |
| Dashboard.PositiveSlices | components/DashboardInfo.tsx:21 | the kept slices are an order-preserving subsequence holding every slice with positive value and no other, with the same total when no value is negative |
| Dashboard.AgingData | components/DashboardInfo.tsx:15-21 | the chart lists the buckets in the fixed order Current, 31-60, 61-90, 91-120, >120, keeping exactly those holding money |
| Dashboard.AgingDataTotal | components/DashboardInfo.tsx:15-21 | the chart slices of a ledger's summary add up to its net exposure |
| Dashboard.PotentialBadDebtSpec | components/DashboardInfo.tsx:63-69 | "Potential Bad Debt" is the exposure of rows not known to be at most 90 days old, undated rows included |
| Dashboard.Put | components/DashboardInfo.tsx:26-27 | setting a key keeps keys distinct, gives it the new value, leaves other keys' values alone and changes the sum by the difference; an existing key keeps its place and a new key goes last |
| Dashboard.DebtorsFrom | components/DashboardInfo.tsx:24-28 | folding rows into the map adds each customer's net sum, adds billed minus received to the value sum, and appends each new customer name at its first appearance |
| Dashboard.DebtorMap | components/DashboardInfo.tsx:24-28 | one entry per distinct customer name, each holding that customer's net sum including negative nets, all summing to totalAR minus totalCollections |
| Dashboard.DebtorMapOrder | components/DashboardInfo.tsx:24-28 | the map lists customer names in order of first appearance in the ledger, as a JavaScript `Map` iterates |
| Dashboard.SortDesc | components/DashboardInfo.tsx:30-32 | the sorted list is a permutation of the map, in non-increasing value order, with the same distinct names |
| Dashboard.SortStable | components/DashboardInfo.tsx:30-32 | the sort is stable: for every value, the entries holding it appear in the same order as in the map |
| Dashboard.Take | components/DashboardInfo.tsx:33 | `slice(0, n)` is the prefix of length min(n, length); it stays sorted and keeps distinct names |
| Dashboard.DebtorCount | components/DashboardInfo.tsx:24-28 | the debtor map has exactly as many entries as there are distinct customer names |
| Dashboard.TopDebtors | components/DashboardInfo.tsx:30-33 | the top list has min(5, number of debtor-map entries) entries with distinct names in non-increasing order, each a genuine debtor with its net sum, each at least every debtor left out |
| Pipeline.ExampleLedger | utils/auditUtils.ts:3-91 | the one-row ledger (Acme, invoiced 2023-08-01, 15,000,000 unpaid, "No Reply") parses to a row 152 days overdue and High, summarised as 15,000,000 in the over-120 bucket, one high-risk customer and a 7,500,000 provision |

## Left out

- Floating point. `parseFloat`, the float `%`, `Math.ceil` and `0.5 * net` are not modelled bit for bit. Amounts are whole numbers and the provision is a `real`. `parseFloat` and `Date` parsing are parameters, because their string grammars are large foreign code.
- Fractional amounts: amounts are `int`, so a bill such as `1500.50` is outside the model.
- Unicode `toLowerCase`: only ASCII letters are folded, because full Unicode case mapping is a foreign table.
- `formatCurrency`, because it is `Intl.NumberFormat` output, a foreign call.
- Chart rendering (recharts), the table markup and the status colouring, because they are presentation only.
- `components/AnalysisChat.tsx`: microphone and Web Audio I/O, the live model session, PCM16 and base64 conversion and prompt text. These are I/O and a network API.
- `services/geminiService.ts`: a network client.
- `components/AuditReport.tsx`: report text, a float percentage and the current date.
- `components/DataUpload.tsx`: `FileReader` and drag-and-drop plumbing, which are I/O.
- `App.tsx` and `components/Sidebar.tsx`: view switching, which has no rules to prove.
- Pipeline.ExampleLedger: `parseNum` and `parseDate` are stand-ins that parse only the example's cells.
