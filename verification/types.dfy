/**
 The records exchanged between the ledger parser, the aggregator and the views:
 one ledger row (`ARRecord`) and the aggregate over all rows (`AuditSummary`).
 */
module Types {

  datatype Option<T> = None | Some(value: T)

  datatype Risk = Low | Medium | High

  /** Severity order of the risk levels, used to state that a rule never lowers a risk. */
  function Rank(r: Risk): nat {
    match r
    case Low => 0
    case Medium => 1
    case High => 2
  }

  /**
   Days overdue. A ledger row whose invoice date does not parse carries the
   floating-point NaN instead of a number of days.
   */
  datatype Age = Days(n: nat) | NaN

  /** `age > k`; every comparison with NaN is false. */
  predicate Exceeds(age: Age, k: int) {
    age.Days? && age.n > k
  }

  /** `age <= k`; every comparison with NaN is false. */
  predicate AtMost(age: Age, k: int) {
    age.Days? && age.n <= k
  }

  /**
   One parsed ledger row. The text cells are `None` where the CSV line had too
   few comma-separated cells (the cell is `undefined`); amounts are whole
   currency units.
   */
  datatype ARRecord = ARRecord(
    customerId: string,               // Customer_ID
    customerName: Option<string>,     // Nama_Pelanggan
    invoiceNo: Option<string>,        // No_Invoice
    invoiceDate: Option<string>,      // Tanggal_Invoice
    dueDate: Option<string>,          // Tanggal_Jatuh_Tempo
    bill: int,                        // Jumlah_Tagihan
    payment: int,                     // Pembayaran_Diterima
    paymentDate: Option<string>,      // Tanggal_Bayar
    status: Option<string>,           // Status_Konfirmasi
    overdue: Age,                     // DaysOverdue
    risk: Risk                        // RiskLevel
  )

  /** The five aging buckets: <= 30, 31-60, 61-90, 91-120 and > 120 days. */
  datatype Buckets = Buckets(current: int, days30: int, days60: int, days90: int, over90: int)

  datatype AuditSummary = AuditSummary(
    totalAR: int,
    totalCollections: int,
    netExposure: int,
    countHighRisk: nat,
    badDebtProvision: real,
    agingBuckets: Buckets
  )

  /** Outstanding amount of a row: billed minus received. */
  function Net(r: ARRecord): int {
    r.bill - r.payment
  }
}
