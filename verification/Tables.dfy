/**
 * Rows of the accounting tables and the database they form. A row's id is its
 * position: none of these tables ever deletes a row. Amounts are integer minor
 * units and rates integer millionths (module Decimal connects both to text).
 */
module Tables {
  import opened Folds

  datatype CalendarDate = CalendarDate(year: int, month: int, day: int) {
    predicate Until(d: CalendarDate) {
      year < d.year || (year == d.year && (month < d.month || (month == d.month && day <= d.day)))
    }

    predicate InMonth(y: int, m: int) { year == y && month == m }
  }

  /** The Gregorian rule, as the database's date type follows it. */
  predicate IsLeap(year: int) { year % 4 == 0 && (year % 100 != 0 || year % 400 == 0) }

  function DaysIn(year: int, month: int): (days: int)
    ensures 28 <= days <= 31
  {
    if month == 2 then if IsLeap(year) then 29 else 28
    else if month == 4 || month == 6 || month == 9 || month == 11 then 30
    else 31
  }

  /** The days of the calendar, and nothing else. */
  type Date = d: CalendarDate | 1 <= d.year && 1 <= d.month <= 12 && 1 <= d.day <= DaysIn(d.year, d.month)
    witness CalendarDate(1, 1, 1)

  function NextDay(d: Date): Date {
    if d.day < DaysIn(d.year, d.month) then CalendarDate(d.year, d.month, d.day + 1)
    else if d.month < 12 then CalendarDate(d.year, d.month + 1, 1)
    else CalendarDate(d.year + 1, 1, 1)
  }

  /** No day lies between a day and the next, and the next is later. */
  lemma NextDayAdjacent(mid: Date, d: Date)
    ensures d.Until(mid) <==> !NextDay(mid).Until(d)
  {
  }

  function MonthStart(year: int, month: int): Date
    requires 1 <= year && 1 <= month <= 12
  {
    CalendarDate(year, month, 1)
  }

  function MonthEnd(year: int, month: int): Date
    requires 1 <= year && 1 <= month <= 12
  {
    CalendarDate(year, month, DaysIn(year, month))
  }

  /** Between the first and the last day of a month lie exactly the days of that month. */
  lemma MonthDays(year: int, month: int, d: Date)
    requires 1 <= year && 1 <= month <= 12
    ensures d.InMonth(year, month) <==> MonthStart(year, month).Until(d) && d.Until(MonthEnd(year, month))
  {
  }

  // ---------- Chart of accounts, periods, rates ----------

  datatype AccountType = Asset | Liability | Equity | Income | Expense {
    predicate IsDebitNormal() { Asset? || Expense? }
  }

  datatype Account = Account(code: string, kind: AccountType, isCash: bool, isActive: bool)

  datatype PeriodStatus = Open | Closing | Closed {
    predicate Allows(next: PeriodStatus) {
      match this
      case Open => next.Closing?
      case Closing => next.Open? || next.Closed?
      case Closed => false
    }
  }

  datatype Period = Period(year: int, month: int, status: PeriodStatus)

  datatype RateRow = RateRow(currency: string, date: Date, rate: int)

  // ---------- Ledger ----------

  datatype Source = FromDocument(document: nat) | FromPayment(payment: nat)

  datatype EntryStatus = Posted | Reversed

  datatype Entry = Entry(period: nat, date: Date, source: Source, status: EntryStatus)

  /** Everything a ledger report can group by, apart from the entry's date and period. */
  datatype LineKey = LineKey(
    account: nat, currency: string,
    counterparty: Option<nat>, contract: Option<nat>, costCenter: Option<nat>, project: Option<nat>)

  datatype PostingLine = PostingLine(key: LineKey, debit: int, credit: int, rate: int) {
    predicate OneSided() {
      debit >= 0 && credit >= 0 && !(debit > 0 && credit > 0) && !(debit == 0 && credit == 0)
    }
  }

  datatype Line = Line(entry: nat, body: PostingLine, baseDebit: int, baseCredit: int)

  // ---------- Documents ----------

  datatype DocumentType = Invoice | Act | Waybill | Receipt | WriteOff | Correction | Internal

  datatype DocumentStatus = Draft | Submitted | Approved | Rejected | Posted | Cancelled | Reversed {
    predicate Allows(next: DocumentStatus) {
      match this
      case Draft => next.Submitted? || next.Cancelled?
      case Submitted => next.Approved? || next.Rejected?
      case Approved => next.Posted? || next.Cancelled?
      case Rejected => next.Draft?
      case Posted => next.Reversed?
      case Cancelled => false
      case Reversed => false
    }

    predicate Editable() { Draft? || Rejected? }
  }

  datatype DocumentLine = DocumentLine(
    amount: int, debitAccount: nat, creditAccount: nat, costCenter: Option<nat>, project: Option<nat>)

  datatype Document = Document(
    kind: DocumentType, date: Date, counterparty: Option<nat>, contract: Option<nat>, currency: string,
    amountTotal: int, status: DocumentStatus, createdBy: nat,
    entry: Option<nat>, correctionOf: Option<nat>, lines: seq<DocumentLine>)

  // ---------- Expense requests and payments ----------

  datatype RequestStatus = Draft | Submitted | Approved | Rejected | Paid | Accounted | Cancelled {
    predicate Allows(next: RequestStatus) {
      match this
      case Draft => next.Submitted? || next.Cancelled?
      case Submitted => next.Approved? || next.Rejected?
      case Approved => next.Paid? || next.Cancelled?
      case Rejected => next.Draft?
      case Paid => next.Accounted?
      case Accounted => false
      case Cancelled => false
    }

    predicate Editable() { Draft? || Rejected? }
  }

  datatype ExpenseRequest = ExpenseRequest(
    requestedBy: nat, expenseAccount: nat, amount: int, currency: string,
    status: RequestStatus, payment: Option<nat>, entry: Option<nat>)

  datatype Direction = Incoming | Outgoing

  datatype PaymentStatus = Pending | Executed

  datatype Payment = Payment(
    key: string, direction: Direction, request: Option<nat>,
    cashAccount: nat, counterAccount: nat, counterparty: Option<nat>, contract: Option<nat>,
    amount: int, currency: string, rate: int, baseAmount: int, date: Date,
    status: PaymentStatus, entry: Option<nat>)

  // ---------- The database ----------

  datatype Db = Db(
    baseCurrency: string,
    accounts: seq<Account>, periods: seq<Period>, rates: seq<RateRow>,
    entries: seq<Entry>, lines: seq<Line>,
    documents: seq<Document>, requests: seq<ExpenseRequest>, payments: seq<Payment>)

  function EmptyDb(baseCurrency: string): Db {
    Db(baseCurrency, [], [], [], [], [], [], [], [])
  }

  /** The services' own errors, and a constraint of the database that refused a row. */
  datatype Error = NotFound | Conflict | Forbidden | BadRequest | ConstraintViolation

  /** How a transaction ends: with a new database and a result, or with the error that rolled it back. */
  datatype Tx = Commit(db: Db, id: nat) | Rollback(error: Error) {
    function Reply(): Reply { if Commit? then Success(id) else Failure(error) }
  }

  datatype Reply = Success(id: nat) | Failure(error: Error)

  function After(db: Db, tx: Tx): Db { if tx.Commit? then tx.db else db }

  /** The one mutable object: the services' methods change the tables here. */
  class Store {
    var db: Db

    constructor (baseCurrency: string)
      ensures db == EmptyDb(baseCurrency)
    {
      db := EmptyDb(baseCurrency);
    }
  }
}
