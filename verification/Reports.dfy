/**
 * The reports read from the ledger. Each one is written as its own query: its own
 * joins, filters and grouping. The lemmas show that they agree with each other.
 */
module Reports {
  import opened Folds
  import opened Tables
  import opened Posting
  import Erp

  // ---------- Trial balance ----------

  /** SELECT id FROM journal_entries WHERE date BETWEEN from AND to. */
  function EntryIds(entries: seq<Entry>, from: Date, to: Date): set<nat> {
    set e | 0 <= e < |entries| && from.Until(entries[e].date) && entries[e].date.Until(to)
  }

  datatype BalanceRow = BalanceRow(account: nat, debitTurnover: int, creditTurnover: int, balance: int)

  /** The lines joined to one account: of that account, in one of the entries. */
  function Joined(account: nat, ids: set<nat>): Line -> bool {
    (l: Line) => l.body.key.account == account && l.entry in ids
  }

  function BalanceOf(kind: AccountType, debit: int, credit: int): int {
    if kind.Asset? || kind.Expense? then debit - credit else credit - debit
  }

  function TrialRow(db: Db, from: Date, to: Date, account: nat): BalanceRow
    requires account < |db.accounts|
  {
    var lines := Filter(db.lines, Joined(account, EntryIds(db.entries, from, to)));
    var debit := Sum(lines, Debit(Every()));
    var credit := Sum(lines, Credit(Every()));
    BalanceRow(account, debit, credit, BalanceOf(db.accounts[account].kind, debit, credit))
  }

  /** One row per account, lines or not. */
  function TrialBalance(db: Db, from: Date, to: Date): (rows: seq<BalanceRow>)
    ensures |rows| == |db.accounts|
    ensures forall a :: 0 <= a < |db.accounts| ==> rows[a] == TrialRow(db, from, to, a)
  {
    seq(|db.accounts|, a requires 0 <= a < |db.accounts| => TrialRow(db, from, to, a))
  }

  function AccountBalances(db: Db, asOf: Date): seq<BalanceRow> {
    TrialBalance(db, CalendarDate(1, 1, 1), asOf)
  }

  // ---------- Profit and loss, cash flow ----------

  /** JOIN journal_entries ... WHERE e.date BETWEEN from AND to. */
  function InRange(entries: seq<Entry>, from: Date, to: Date): Line -> bool {
    (l: Line) => l.entry < |entries| && from.Until(entries[l.entry].date) && entries[l.entry].date.Until(to)
  }

  /** JOIN accounts a ON a.id = l.accountId WHERE q(a). */
  function OfAccounts(accounts: seq<Account>, q: Account -> bool): Line -> bool {
    (l: Line) => l.body.key.account < |accounts| && q(accounts[l.body.key.account])
  }

  function IsKind(kind: AccountType): Account -> bool { (a: Account) => a.kind == kind }

  function IsResult(): Account -> bool { (a: Account) => a.kind == Income || a.kind == Expense }

  function IsCash(): Account -> bool { (a: Account) => a.isCash }

  datatype ProfitAndLoss = ProfitAndLoss(totalIncome: int, totalExpense: int, netProfit: int)

  /** Two groups, each possibly missing from the result set. */
  function ProfitAndLossFor(db: Db, from: Date, to: Date): ProfitAndLoss {
    var rows := Filter(Filter(db.lines, InRange(db.entries, from, to)), OfAccounts(db.accounts, IsResult()));
    var income := Filter(rows, OfAccounts(db.accounts, IsKind(Income)));
    var expense := Filter(rows, OfAccounts(db.accounts, IsKind(Expense)));
    var totalIncome := if income == [] then 0 else Sum(income, Credit(Every())) - Sum(income, Debit(Every()));
    var totalExpense := if expense == [] then 0 else Sum(expense, Debit(Every())) - Sum(expense, Credit(Every()));
    ProfitAndLoss(totalIncome, totalExpense, totalIncome - totalExpense)
  }

  datatype CashFlow = CashFlow(totalInflow: int, totalOutflow: int, netCashFlow: int)

  function CashFlowFor(db: Db, from: Date, to: Date): CashFlow {
    var rows := Filter(Filter(db.lines, InRange(db.entries, from, to)), OfAccounts(db.accounts, IsCash()));
    var inflow, outflow := Sum(rows, Debit(Every())), Sum(rows, Credit(Every()));
    CashFlow(inflow, outflow, inflow - outflow)
  }

  // ---------- Counterparty balances, account movements ----------

  function OfCounterparty(counterparty: nat, account: nat): Line -> bool {
    (l: Line) => l.body.key.counterparty == Some(counterparty) && l.body.key.account == account
  }

  /** The (counterparty, account) group of the receivables and payables report. */
  function CounterpartyBalance(db: Db, asOf: Date, counterparty: nat, account: nat): int {
    var rows := Filter(Filter(db.lines, UpTo(db.entries, asOf)), OfCounterparty(counterparty, account));
    Sum(rows, Debit(Every())) - Sum(rows, Credit(Every()))
  }

  function UpTo(entries: seq<Entry>, asOf: Date): Line -> bool {
    (l: Line) => l.entry < |entries| && entries[l.entry].date.Until(asOf)
  }

  datatype Movement = Movement(entry: nat, date: CalendarDate, debit: int, credit: int)

  function AsMovement(entries: seq<Entry>): Line -> Movement {
    (l: Line) => Movement(l.entry, if l.entry < |entries| then entries[l.entry].date else CalendarDate(1, 1, 1),
                          l.body.debit, l.body.credit)
  }

  /** Both date bounds are optional. */
  function OfAccountWithin(entries: seq<Entry>, account: nat, from: Option<Date>, to: Option<Date>): Line -> bool {
    (l: Line) =>
      && l.body.key.account == account && l.entry < |entries|
      && (from.Some? ==> from.value.Until(entries[l.entry].date))
      && (to.Some? ==> entries[l.entry].date.Until(to.value))
  }

  /** Inserts keeping the order by date; rows of one date stay in table order. */
  function InsertByDate(rows: seq<Movement>, m: Movement): seq<Movement> {
    if rows == [] || rows[|rows| - 1].date.Until(m.date) then rows + [m]
    else InsertByDate(rows[..|rows| - 1], m) + [rows[|rows| - 1]]
  }

  function SortByDate(rows: seq<Movement>): seq<Movement> {
    if rows == [] then [] else InsertByDate(SortByDate(rows[..|rows| - 1]), rows[|rows| - 1])
  }

  function AccountMovements(db: Db, account: nat, from: Option<Date>, to: Option<Date>): seq<Movement> {
    SortByDate(Map(Filter(db.lines, OfAccountWithin(db.entries, account, from, to)), AsMovement(db.entries)))
  }

  // ---------- Grouping keys ----------

  function AccountKey(): Line -> Option<int> { (l: Line) => Some(l.body.key.account) }

  function EntryKey(): Line -> Option<int> { (l: Line) => Some(l.entry) }

  function CounterpartyKey(): Line -> Option<int> {
    (l: Line) => if l.body.key.counterparty.Some? then Some(l.body.key.counterparty.value) else None
  }

  function InIds(ids: set<nat>): Line -> bool { (l: Line) => l.entry in ids }

  // ---------- Balance of any set of entries ----------

  lemma InEntryNet(db: Db, e: nat)
    requires LedgerInv(db) && e < |db.entries|
    ensures GroupTotal(db.lines, EntryKey(), Net(Every()))(e) == 0
  {
    SumFilter(db.lines, InEntry(e), Net(Every()), InGroup(EntryKey(), e, Net(Every())));
    assert Balanced(LinesOf(db.lines, e));
  }

  function InSet(ids: set<nat>): int -> bool { (e: int) => e in ids }

  /** Whole entries always net to zero, whatever set of entries is picked. */
  lemma EntriesNetToZero(db: Db, ids: set<nat>)
    requires LedgerInv(db) && forall e :: e in ids ==> e < |db.entries|
    ensures Sum(db.lines, When(InIds(ids), Net(Every()))) == 0
  {
    var keys := Filter(Indices(|db.entries|), InSet(ids));
    FilterDistinct(Indices(|db.entries|), InSet(ids));
    forall e ensures e in keys <==> e in ids {
      InFilter(Indices(|db.entries|), InSet(ids), e);
    }
    SumByGroups(db.lines, EntryKey(), keys, Net(Every()));
    forall e | e in keys ensures GroupTotal(db.lines, EntryKey(), Net(Every()))(e) == 0 {
      InEntryNet(db, e);
    }
    SumZero(keys, GroupTotal(db.lines, EntryKey(), Net(Every())));
    SumEqual(db.lines, InGroups(EntryKey(), keys, Net(Every())), When(InIds(ids), Net(Every())));
  }

  lemma {:induction false} FilterDistinct<T>(xs: seq<T>, p: T -> bool)
    requires Distinct(xs)
    ensures Distinct(Filter(xs, p))
  {
    if xs != [] {
      var init := xs[..|xs| - 1];
      FilterDistinct(init, p);
      assert xs[|xs| - 1] !in init;
      forall y ensures y in Filter(init, p) ==> y in init {
        InFilter(init, p, y);
      }
    }
  }

  // ---------- Trial balance against itself ----------

  function DebitColumn(): BalanceRow -> int { (r: BalanceRow) => r.debitTurnover }

  function CreditColumn(): BalanceRow -> int { (r: BalanceRow) => r.creditTurnover }

  /** A row's turnover is the account's group total over the lines in range. */
  lemma RowTurnover(db: Db, from: Date, to: Date, account: nat, f: Line -> int)
    ensures Sum(Filter(db.lines, Joined(account, EntryIds(db.entries, from, to))), f)
            == GroupTotal(db.lines, AccountKey(), When(InIds(EntryIds(db.entries, from, to)), f))(account)
  {
    SumFilter(db.lines, Joined(account, EntryIds(db.entries, from, to)), f,
              InGroup(AccountKey(), account, When(InIds(EntryIds(db.entries, from, to)), f)));
  }

  /** Summing any account-selected turnover over the rows is summing it over the lines. */
  lemma RowsAddUp(db: Db, from: Date, to: Date, keys: seq<int>, f: Line -> int)
    requires Distinct(keys)
    ensures var ids := EntryIds(db.entries, from, to);
      Sum(keys, GroupTotal(db.lines, AccountKey(), When(InIds(ids), f)))
      == Sum(db.lines, InGroups(AccountKey(), keys, When(InIds(ids), f)))
  {
    SumByGroups(db.lines, AccountKey(), keys, When(InIds(EntryIds(db.entries, from, to)), f));
  }

  lemma {:induction false} SumOverIndices<T>(rows: seq<T>, f: T -> int, g: int -> int)
    requires forall i :: 0 <= i < |rows| ==> f(rows[i]) == g(i)
    ensures Sum(rows, f) == Sum(Indices(|rows|), g)
  {
    if rows != [] {
      SumOverIndices(rows[..|rows| - 1], f, g);
      SumSnoc(Indices(|rows| - 1), |rows| - 1, g);
    }
  }

  lemma AllLinesHaveRows(db: Db, from: Date, to: Date, f: Line -> int)
    requires LinesInv(db)
    ensures var ids := EntryIds(db.entries, from, to);
      Sum(Indices(|db.accounts|), GroupTotal(db.lines, AccountKey(), When(InIds(ids), f)))
      == Sum(db.lines, When(InIds(ids), f))
  {
    var ids := EntryIds(db.entries, from, to);
    RowsAddUp(db, from, to, Indices(|db.accounts|), f);
    SumEqual(db.lines, InGroups(AccountKey(), Indices(|db.accounts|), When(InIds(ids), f)), When(InIds(ids), f));
  }

  /** Over all accounts and any range, debit turnover equals credit turnover. */
  lemma TurnoversAgree(db: Db, from: Date, to: Date)
    requires LedgerInv(db)
    ensures Sum(TrialBalance(db, from, to), DebitColumn()) == Sum(TrialBalance(db, from, to), CreditColumn())
  {
    var rows := TrialBalance(db, from, to);
    var ids := EntryIds(db.entries, from, to);
    forall a | 0 <= a < |rows|
      ensures rows[a].debitTurnover == GroupTotal(db.lines, AccountKey(), When(InIds(ids), Debit(Every())))(a)
      ensures rows[a].creditTurnover == GroupTotal(db.lines, AccountKey(), When(InIds(ids), Credit(Every())))(a)
    {
      assert rows[a] == TrialRow(db, from, to, a);
      RowTurnover(db, from, to, a, Debit(Every()));
      RowTurnover(db, from, to, a, Credit(Every()));
    }
    SumOverIndices(rows, DebitColumn(),
                   GroupTotal(db.lines, AccountKey(), When(InIds(ids), Debit(Every()))));
    SumOverIndices(rows, CreditColumn(),
                   GroupTotal(db.lines, AccountKey(), When(InIds(ids), Credit(Every()))));
    AllLinesHaveRows(db, from, to, Debit(Every()));
    AllLinesHaveRows(db, from, to, Credit(Every()));
    SumMinus(db.lines, When(InIds(ids), Debit(Every())), When(InIds(ids), Credit(Every())), When(InIds(ids), Net(Every())));
    EntriesNetToZero(db, ids);
  }

  // ---------- Reports against the trial balance ----------

  function NetColumn(): BalanceRow -> int { (r: BalanceRow) => r.debitTurnover - r.creditTurnover }

  /** A column of the rows whose account satisfies q. */
  function RowOf(accounts: seq<Account>, q: Account -> bool, column: BalanceRow -> int): BalanceRow -> int {
    (r: BalanceRow) => if r.account < |accounts| && q(accounts[r.account]) then column(r) else 0
  }

  /** Sum over two and three filters as one CASE WHEN. */
  lemma SumFilter2(xs: seq<Line>, p: Line -> bool, q: Line -> bool, f: Line -> int)
    ensures Sum(Filter(Filter(xs, p), q), f) == Sum(xs, When(p, When(q, f)))
  {
    SumFilter(Filter(xs, p), q, f, When(q, f));
    SumFilter(xs, p, When(q, f), When(p, When(q, f)));
  }

  lemma SumFilter3(xs: seq<Line>, p: Line -> bool, q: Line -> bool, r: Line -> bool, f: Line -> int)
    ensures Sum(Filter(Filter(Filter(xs, p), q), r), f) == Sum(xs, When(p, When(q, When(r, f))))
  {
    SumFilter2(Filter(xs, p), q, r, f);
    SumFilter(xs, p, When(q, When(r, f)), When(p, When(q, When(r, f))));
  }

  /** Debit minus credit over any rows is the net over them. */
  lemma NetOfRows(rows: seq<Line>)
    ensures Sum(rows, Debit(Every())) - Sum(rows, Credit(Every())) == Sum(rows, Net(Every()))
  {
    SumMinus(rows, Debit(Every()), Credit(Every()), Net(Every()));
  }

  /** The column shows, for an account, the sum of f over the account's lines in range. */
  predicate Shows(db: Db, from: Date, to: Date, a: nat, column: BalanceRow -> int, f: Line -> int)
    requires a < |db.accounts|
  {
    column(TrialRow(db, from, to, a)) == Sum(Filter(db.lines, Joined(a, EntryIds(db.entries, from, to))), f)
  }

  lemma RowIsGroup(db: Db, from: Date, to: Date, q: Account -> bool, a: nat, column: BalanceRow -> int, f: Line -> int)
    requires a < |db.accounts| && Shows(db, from, to, a, column, f)
    ensures var ids := EntryIds(db.entries, from, to);
      RowOf(db.accounts, q, column)(TrialRow(db, from, to, a))
      == GroupTotal(db.lines, AccountKey(), When(InIds(ids), When(OfAccounts(db.accounts, q), f)))(a)
  {
    var ids := EntryIds(db.entries, from, to);
    var picked := When(InIds(ids), When(OfAccounts(db.accounts, q), f));
    RowTurnover(db, from, to, a, f);
    if q(db.accounts[a]) {
      SumEqual(db.lines, InGroup(AccountKey(), a, When(InIds(ids), f)), InGroup(AccountKey(), a, picked));
    } else {
      SumZero(db.lines, InGroup(AccountKey(), a, picked));
    }
  }

  /** A column of the trial balance, restricted to some accounts, totals the lines of those accounts in range. */
  lemma ColumnOfAccounts(db: Db, from: Date, to: Date, q: Account -> bool, column: BalanceRow -> int, f: Line -> int)
    requires LinesInv(db) && forall a: nat :: a < |db.accounts| ==> Shows(db, from, to, a, column, f)
    ensures Sum(TrialBalance(db, from, to), RowOf(db.accounts, q, column))
            == Sum(db.lines, When(InIds(EntryIds(db.entries, from, to)), When(OfAccounts(db.accounts, q), f)))
  {
    var ids := EntryIds(db.entries, from, to);
    var rows := TrialBalance(db, from, to);
    var picked := When(OfAccounts(db.accounts, q), f);
    forall a | 0 <= a < |rows|
      ensures RowOf(db.accounts, q, column)(rows[a]) == GroupTotal(db.lines, AccountKey(), When(InIds(ids), picked))(a)
    {
      RowIsGroup(db, from, to, q, a, column, f);
      assert rows[a] == TrialRow(db, from, to, a);
    }
    SumOverIndices(rows, RowOf(db.accounts, q, column), GroupTotal(db.lines, AccountKey(), When(InIds(ids), picked)));
    AllLinesHaveRows(db, from, to, picked);
  }

  lemma NetOfAccounts(db: Db, from: Date, to: Date, q: Account -> bool)
    requires LinesInv(db)
    ensures Sum(TrialBalance(db, from, to), RowOf(db.accounts, q, NetColumn()))
            == Sum(db.lines, When(InIds(EntryIds(db.entries, from, to)), When(OfAccounts(db.accounts, q), Net(Every()))))
  {
    forall a: nat | a < |db.accounts| ensures Shows(db, from, to, a, NetColumn(), Net(Every())) {
      NetOfRows(Filter(db.lines, Joined(a, EntryIds(db.entries, from, to))));
    }
    ColumnOfAccounts(db, from, to, q, NetColumn(), Net(Every()));
  }

  /** Sum of the balance column over the accounts of one kind. */
  function BalanceTotal(accounts: seq<Account>, rows: seq<BalanceRow>, kind: AccountType): int {
    Sum(rows, BalanceOfKind(accounts, kind))
  }

  function BalanceOfKind(accounts: seq<Account>, kind: AccountType): BalanceRow -> int {
    (r: BalanceRow) => if r.account < |accounts| && accounts[r.account].kind == kind then r.balance else 0
  }

  lemma BalanceTotalIsNet(db: Db, from: Date, to: Date, kind: AccountType)
    ensures BalanceTotal(db.accounts, TrialBalance(db, from, to), kind)
            == (if kind.IsDebitNormal() then 1 else -1) * Sum(TrialBalance(db, from, to), RowOf(db.accounts, IsKind(kind), NetColumn()))
  {
    var rows := TrialBalance(db, from, to);
    if kind.IsDebitNormal() {
      SumEqual(rows, BalanceOfKind(db.accounts, kind), RowOf(db.accounts, IsKind(kind), NetColumn()));
    } else {
      var zero := (r: BalanceRow) => 0;
      SumPlus(rows, BalanceOfKind(db.accounts, kind), RowOf(db.accounts, IsKind(kind), NetColumn()), zero);
      SumZero(rows, zero);
    }
  }

  /** The five kinds partition the lines in range, which net to zero. */
  lemma KindsNetToZero(db: Db, ids: set<nat>)
    requires LedgerInv(db) && forall e :: e in ids ==> e < |db.entries|
    ensures KindNet(db, ids, Asset) + KindNet(db, ids, Liability) + KindNet(db, ids, Equity)
            + KindNet(db, ids, Income) + KindNet(db, ids, Expense) == 0
  {
    var f := (k: AccountType) => When(InIds(ids), When(OfAccounts(db.accounts, IsKind(k)), Net(Every())));
    var al := (l: Line) => f(Asset)(l) + f(Liability)(l);
    var ale := (l: Line) => al(l) + f(Equity)(l);
    var alei := (l: Line) => ale(l) + f(Income)(l);
    SumPlus(db.lines, f(Asset), f(Liability), al);
    SumPlus(db.lines, al, f(Equity), ale);
    SumPlus(db.lines, ale, f(Income), alei);
    SumPlus(db.lines, alei, f(Expense), When(InIds(ids), Net(Every())));
    EntriesNetToZero(db, ids);
  }

  function KindNet(db: Db, ids: set<nat>, kind: AccountType): int {
    Sum(db.lines, When(InIds(ids), When(OfAccounts(db.accounts, IsKind(kind)), Net(Every()))))
  }

  /** One group of the profit and loss query, a missing group counting zero. */
  lemma ResultGroup(db: Db, from: Date, to: Date, kind: AccountType)
    requires kind.Income? || kind.Expense?
    ensures var rows := Filter(Filter(Filter(db.lines, InRange(db.entries, from, to)),
                                      OfAccounts(db.accounts, IsResult())), OfAccounts(db.accounts, IsKind(kind)));
      && Sum(rows, Debit(Every())) - Sum(rows, Credit(Every())) == KindNet(db, EntryIds(db.entries, from, to), kind)
      && (rows == [] ==> KindNet(db, EntryIds(db.entries, from, to), kind) == 0)
  {
    var inRange := InRange(db.entries, from, to);
    var result, ofKind := OfAccounts(db.accounts, IsResult()), OfAccounts(db.accounts, IsKind(kind));
    var rows := Filter(Filter(Filter(db.lines, inRange), result), ofKind);
    SumFilter3(db.lines, inRange, result, ofKind, Net(Every()));
    SumEqual(db.lines, When(inRange, When(result, When(ofKind, Net(Every())))),
             When(InIds(EntryIds(db.entries, from, to)), When(ofKind, Net(Every()))));
    NetOfRows(rows);
  }

  /** Net profit is what the balance sheet accounts of the trial balance show for the same range. */
  lemma ProfitMatchesTrialBalance(db: Db, from: Date, to: Date)
    requires LedgerInv(db)
    ensures var rows := TrialBalance(db, from, to);
      ProfitAndLossFor(db, from, to).netProfit
      == BalanceTotal(db.accounts, rows, Asset)
         - BalanceTotal(db.accounts, rows, Liability) - BalanceTotal(db.accounts, rows, Equity)
    ensures ProfitAndLossFor(db, from, to).totalIncome == BalanceTotal(db.accounts, TrialBalance(db, from, to), Income)
    ensures ProfitAndLossFor(db, from, to).totalExpense == BalanceTotal(db.accounts, TrialBalance(db, from, to), Expense)
  {
    ResultGroup(db, from, to, Income);
    ResultGroup(db, from, to, Expense);
    KindTotal(db, from, to, Asset);
    KindTotal(db, from, to, Liability);
    KindTotal(db, from, to, Equity);
    KindTotal(db, from, to, Income);
    KindTotal(db, from, to, Expense);
    KindsNetToZero(db, EntryIds(db.entries, from, to));
  }

  lemma KindTotal(db: Db, from: Date, to: Date, kind: AccountType)
    requires LinesInv(db)
    ensures BalanceTotal(db.accounts, TrialBalance(db, from, to), kind)
            == if kind.IsDebitNormal() then KindNet(db, EntryIds(db.entries, from, to), kind)
               else -KindNet(db, EntryIds(db.entries, from, to), kind)
  {
    BalanceTotalIsNet(db, from, to, kind);
    NetOfAccounts(db, from, to, IsKind(kind));
  }

  /** One total of the cash flow query. */
  lemma CashTotal(db: Db, from: Date, to: Date, column: BalanceRow -> int, f: Line -> int)
    requires LinesInv(db) && forall a: nat :: a < |db.accounts| ==> Shows(db, from, to, a, column, f)
    ensures Sum(Filter(Filter(db.lines, InRange(db.entries, from, to)), OfAccounts(db.accounts, IsCash())), f)
            == Sum(TrialBalance(db, from, to), RowOf(db.accounts, IsCash(), column))
  {
    var inRange, cash := InRange(db.entries, from, to), OfAccounts(db.accounts, IsCash());
    SumFilter2(db.lines, inRange, cash, f);
    SumEqual(db.lines, When(inRange, When(cash, f)), When(InIds(EntryIds(db.entries, from, to)), When(cash, f)));
    ColumnOfAccounts(db, from, to, IsCash(), column, f);
  }

  /** Inflow and outflow are the debit and credit turnover of the cash accounts in the trial balance. */
  lemma CashFlowMatchesTrialBalance(db: Db, from: Date, to: Date)
    requires LinesInv(db)
    ensures var rows, flow := TrialBalance(db, from, to), CashFlowFor(db, from, to);
      && flow.totalInflow == Sum(rows, RowOf(db.accounts, IsCash(), DebitColumn()))
      && flow.totalOutflow == Sum(rows, RowOf(db.accounts, IsCash(), CreditColumn()))
      && flow.netCashFlow == Sum(rows, RowOf(db.accounts, IsCash(), NetColumn()))
  {
    CashTotal(db, from, to, DebitColumn(), Debit(Every()));
    CashTotal(db, from, to, CreditColumn(), Credit(Every()));
    SumMinus(TrialBalance(db, from, to), RowOf(db.accounts, IsCash(), DebitColumn()),
             RowOf(db.accounts, IsCash(), CreditColumn()), RowOf(db.accounts, IsCash(), NetColumn()));
  }

  // ---------- Ranges ----------

  /** Turnovers up to a day and from the next day on add up to the turnover over both ranges. */
  lemma AdjacentRangesAdd(db: Db, from: Date, mid: Date, to: Date, account: nat)
    requires account < |db.accounts|
    requires from.Until(mid) && NextDay(mid).Until(to)
    ensures var first, second := TrialRow(db, from, mid, account), TrialRow(db, NextDay(mid), to, account);
      TrialRow(db, from, to, account)
      == BalanceRow(account, first.debitTurnover + second.debitTurnover,
                    first.creditTurnover + second.creditTurnover, first.balance + second.balance)
  {
    RangeSplit(db, from, mid, to, account, Debit(Every()));
    RangeSplit(db, from, mid, to, account, Credit(Every()));
  }

  lemma RangeSplit(db: Db, from: Date, mid: Date, to: Date, account: nat, f: Line -> int)
    requires from.Until(mid) && NextDay(mid).Until(to)
    ensures Sum(Filter(db.lines, Joined(account, EntryIds(db.entries, from, to))), f)
            == Sum(Filter(db.lines, Joined(account, EntryIds(db.entries, from, mid))), f)
               + Sum(Filter(db.lines, Joined(account, EntryIds(db.entries, NextDay(mid), to))), f)
  {
    var a, b, c := EntryIds(db.entries, from, mid), EntryIds(db.entries, NextDay(mid), to), EntryIds(db.entries, from, to);
    forall e ensures e in c <==> e in a || e in b
      ensures !(e in a && e in b)
    {
      if 0 <= e < |db.entries| {
        NextDayAdjacent(mid, db.entries[e].date);
      }
    }
    SumFilter(db.lines, Joined(account, a), f, When(Joined(account, a), f));
    SumFilter(db.lines, Joined(account, b), f, When(Joined(account, b), f));
    SumFilter(db.lines, Joined(account, c), f, When(Joined(account, c), f));
    SumPlus(db.lines, When(Joined(account, a), f), When(Joined(account, b), f), When(Joined(account, c), f));
  }

  // ---------- Counterparties ----------

  function WithoutCounterparty(account: nat): Line -> bool {
    (l: Line) => l.body.key.account == account && l.body.key.counterparty.None?
  }

  /** The account's lines as of a date. */
  function PickedOf(db: Db, asOf: Date, account: nat): Line -> int {
    When(UpTo(db.entries, asOf), When(OfAccount(account), Net(Every())))
  }

  lemma CounterpartyGroup(db: Db, asOf: Date, account: nat, c: nat)
    ensures Sum(db.lines, InGroup(CounterpartyKey(), c as int, PickedOf(db, asOf, account)))
            == CounterpartyBalance(db, asOf, c, account)
  {
    NetOfRows(Filter(Filter(db.lines, UpTo(db.entries, asOf)), OfCounterparty(c, account)));
    SumFilter2(db.lines, UpTo(db.entries, asOf), OfCounterparty(c, account), Net(Every()));
    SumEqual(db.lines, InGroup(CounterpartyKey(), c as int, PickedOf(db, asOf, account)),
             When(UpTo(db.entries, asOf), When(OfCounterparty(c, account), Net(Every()))));
  }

  lemma AccountTotal(db: Db, asOf: Date, account: nat)
    requires LinesInv(db) && account < |db.accounts|
    ensures var row := AccountBalances(db, asOf)[account];
      row.debitTurnover - row.creditTurnover == Sum(db.lines, PickedOf(db, asOf, account))
  {
    var ids := EntryIds(db.entries, CalendarDate(1, 1, 1), asOf);
    NetOfRows(Filter(db.lines, Joined(account, ids)));
    SumFilter(db.lines, Joined(account, ids), Net(Every()), PickedOf(db, asOf, account));
  }

  function BalanceWith(db: Db, asOf: Date, account: nat): int -> int {
    (c: int) => if c >= 0 then CounterpartyBalance(db, asOf, c, account) else 0
  }

  /** An account's balance as of a date is what its counterparties hold plus the lines that name none. */
  lemma CounterpartiesAddUp(db: Db, asOf: Date, account: nat, counterparties: seq<int>)
    requires LinesInv(db) && account < |db.accounts|
    requires Distinct(counterparties) && (forall c :: c in counterparties ==> c >= 0)
    requires forall l :: l in db.lines && l.body.key.counterparty.Some? ==> l.body.key.counterparty.value in counterparties
    ensures var row := AccountBalances(db, asOf)[account];
      row.debitTurnover - row.creditTurnover
      == Sum(counterparties, BalanceWith(db, asOf, account))
         + Sum(db.lines, When(UpTo(db.entries, asOf), When(WithoutCounterparty(account), Net(Every()))))
  {
    var picked := PickedOf(db, asOf, account);
    forall c: int | c in counterparties
      ensures GroupTotal(db.lines, CounterpartyKey(), picked)(c) == BalanceWith(db, asOf, account)(c)
    {
      CounterpartyGroup(db, asOf, account, c);
    }
    SumByGroups(db.lines, CounterpartyKey(), counterparties, picked);
    SumEqual(counterparties, GroupTotal(db.lines, CounterpartyKey(), picked), BalanceWith(db, asOf, account));
    SumPlus(db.lines, InGroups(CounterpartyKey(), counterparties, picked),
            When(UpTo(db.entries, asOf), When(WithoutCounterparty(account), Net(Every()))), picked);
    AccountTotal(db, asOf, account);
  }

  // ---------- Movements ----------

  predicate SortedByDate(rows: seq<Movement>) {
    forall i, j :: 0 <= i < j < |rows| ==> rows[i].date.Until(rows[j].date)
  }

  lemma {:induction false} InsertSum(rows: seq<Movement>, m: Movement, f: Movement -> int)
    ensures Sum(InsertByDate(rows, m), f) == Sum(rows, f) + f(m)
  {
    if rows == [] || rows[|rows| - 1].date.Until(m.date) {
      SumSnoc(rows, m, f);
    } else {
      InsertSum(rows[..|rows| - 1], m, f);
      SumSnoc(InsertByDate(rows[..|rows| - 1], m), rows[|rows| - 1], f);
    }
  }

  lemma {:induction false} InsertPermutes(rows: seq<Movement>, m: Movement)
    ensures multiset(InsertByDate(rows, m)) == multiset(rows) + multiset{m}
  {
    if !(rows == [] || rows[|rows| - 1].date.Until(m.date)) {
      InsertPermutes(rows[..|rows| - 1], m);
      assert rows == rows[..|rows| - 1] + [rows[|rows| - 1]];
    }
  }

  /** Nothing inserted or already there is later than a bound that bounds both. */
  lemma InsertBounded(rows: seq<Movement>, m: Movement, last: CalendarDate)
    requires forall i :: 0 <= i < |rows| ==> rows[i].date.Until(last)
    requires m.date.Until(last)
    ensures forall i :: 0 <= i < |InsertByDate(rows, m)| ==> InsertByDate(rows, m)[i].date.Until(last)
  {
    InsertPermutes(rows, m);
    forall i | 0 <= i < |InsertByDate(rows, m)| ensures InsertByDate(rows, m)[i].date.Until(last) {
      assert InsertByDate(rows, m)[i] in multiset(rows) + multiset{m};
    }
  }

  lemma {:induction false} InsertSorted(rows: seq<Movement>, m: Movement)
    requires SortedByDate(rows)
    ensures SortedByDate(InsertByDate(rows, m))
  {
    if !(rows == [] || rows[|rows| - 1].date.Until(m.date)) {
      InsertSorted(rows[..|rows| - 1], m);
      InsertBounded(rows[..|rows| - 1], m, rows[|rows| - 1].date);
    }
  }

  lemma {:induction false} SortSum(rows: seq<Movement>, f: Movement -> int)
    ensures Sum(SortByDate(rows), f) == Sum(rows, f)
  {
    if rows != [] {
      SortSum(rows[..|rows| - 1], f);
      InsertSum(SortByDate(rows[..|rows| - 1]), rows[|rows| - 1], f);
    }
  }

  /** Sorting keeps exactly the rows. */
  lemma {:induction false} SortPermutes(rows: seq<Movement>)
    ensures SortedByDate(SortByDate(rows))
    ensures multiset(SortByDate(rows)) == multiset(rows)
  {
    if rows != [] {
      SortPermutes(rows[..|rows| - 1]);
      InsertSorted(SortByDate(rows[..|rows| - 1]), rows[|rows| - 1]);
      InsertPermutes(SortByDate(rows[..|rows| - 1]), rows[|rows| - 1]);
      assert rows == rows[..|rows| - 1] + [rows[|rows| - 1]];
    }
  }

  /** The movements of an account over a range come sorted by date and total its turnovers. */
  lemma MovementsMatchTrialBalance(db: Db, from: Date, to: Date, account: nat)
    requires account < |db.accounts|
    ensures var rows := AccountMovements(db, account, Some(from), Some(to));
      && SortedByDate(rows)
      && Sum(rows, (m: Movement) => m.debit) == TrialRow(db, from, to, account).debitTurnover
      && Sum(rows, (m: Movement) => m.credit) == TrialRow(db, from, to, account).creditTurnover
  {
    var picked := OfAccountWithin(db.entries, account, Some(from), Some(to));
    var lines := Filter(db.lines, picked);
    var rows := Map(lines, AsMovement(db.entries));
    SortPermutes(rows);
    SortSum(rows, (m: Movement) => m.debit);
    SortSum(rows, (m: Movement) => m.credit);
    SumMap(lines, AsMovement(db.entries), (m: Movement) => m.debit, Debit(Every()));
    SumMap(lines, AsMovement(db.entries), (m: Movement) => m.credit, Credit(Every()));
    FilterEqual(db.lines, picked, Joined(account, EntryIds(db.entries, from, to)));
  }

  /** A missing lower bound is the beginning of time; a missing upper bound any date no entry exceeds. */
  lemma OpenEndedMovements(db: Db, from: Option<Date>, to: Option<Date>, last: Date, account: nat)
    requires forall e :: 0 <= e < |db.entries| ==> db.entries[e].date.Until(last)
    ensures AccountMovements(db, account, None, to) == AccountMovements(db, account, Some(CalendarDate(1, 1, 1)), to)
    ensures AccountMovements(db, account, from, None) == AccountMovements(db, account, from, Some(last))
  {
    FilterEqual(db.lines, OfAccountWithin(db.entries, account, None, to),
                OfAccountWithin(db.entries, account, Some(CalendarDate(1, 1, 1)), to));
    FilterEqual(db.lines, OfAccountWithin(db.entries, account, from, None),
                OfAccountWithin(db.entries, account, from, Some(last)));
  }

  lemma InMapped<S, T>(xs: seq<S>, f: S -> T, y: T)
    ensures y in Map(xs, f) <==> exists x :: x in xs && f(x) == y
  {
    if x :| x in xs && f(x) == y {
      var i :| 0 <= i < |xs| && xs[i] == x;
      assert Map(xs, f)[i] == y;
    }
    if y in Map(xs, f) {
      var i :| 0 <= i < |xs| && Map(xs, f)[i] == y;
      assert xs[i] in xs && f(xs[i]) == y;
    }
  }

  /** The row of a line in the range: its entry, the entry's date, its own amounts. */
  predicate IsMovementOf(db: Db, l: Line, account: nat, from: Date, to: Date, m: Movement) {
    && l.body.key.account == account && l.entry < |db.entries|
    && from.Until(db.entries[l.entry].date) && db.entries[l.entry].date.Until(to)
    && m == Movement(l.entry, db.entries[l.entry].date, l.body.debit, l.body.credit)
  }

  /** The movements of an account are the rows of its lines in the range, and no others. */
  lemma MovementsAreTheLines(db: Db, account: nat, from: Date, to: Date, m: Movement)
    ensures m in AccountMovements(db, account, Some(from), Some(to)) <==>
            exists l :: l in db.lines && IsMovementOf(db, l, account, from, to, m)
  {
    var picked := OfAccountWithin(db.entries, account, Some(from), Some(to));
    var lines := Filter(db.lines, picked);
    var rows := Map(lines, AsMovement(db.entries));
    SortPermutes(rows);
    assert m in SortByDate(rows) <==> m in multiset(rows);
    InMapped(lines, AsMovement(db.entries), m);
    forall l: Line
      ensures (l in lines && AsMovement(db.entries)(l) == m) <==> (l in db.lines && IsMovementOf(db, l, account, from, to, m))
    {
      InFilter(db.lines, picked, l);
    }
  }

  // ---------- A month ----------

  /** The trial balance over a month is determined by the lines dated in it. */
  lemma MonthTurnover(db: Db, year: int, month: int, account: nat)
    requires 1 <= year && 1 <= month <= 12 && account < |db.accounts|
    ensures var row := TrialRow(db, MonthStart(year, month), MonthEnd(year, month), account);
      && row.debitTurnover == Sum(Erp.MonthLines(db, year, month), Debit(OnAccount(account)))
      && row.creditTurnover == Sum(Erp.MonthLines(db, year, month), Credit(OnAccount(account)))
  {
    var joined := Joined(account, EntryIds(db.entries, MonthStart(year, month), MonthEnd(year, month)));
    var dated := Erp.DatedIn(db.entries, year, month);
    SumFilter(db.lines, joined, Debit(Every()), When(joined, Debit(Every())));
    SumFilter(db.lines, joined, Credit(Every()), When(joined, Credit(Every())));
    SumFilter(db.lines, dated, Debit(OnAccount(account)), When(joined, Debit(Every())));
    SumFilter(db.lines, dated, Credit(OnAccount(account)), When(joined, Credit(Every())));
  }

  /** While a month is not open, every account's turnover over its dates stays as it was. */
  lemma ClosedMonthTurnover(db: Db, commands: seq<Erp.Command>, year: int, month: int, account: nat)
    requires Erp.Inv(db) && 1 <= year && 1 <= month <= 12 && account < |db.accounts|
    requires forall k :: 0 <= k < |commands| ==> !MonthOpen(Erp.Run(db, commands[..k]), year, month)
    ensures var after := Erp.Run(db, commands);
      && account < |after.accounts|
      && TrialRow(after, MonthStart(year, month), MonthEnd(year, month), account).debitTurnover
         == TrialRow(db, MonthStart(year, month), MonthEnd(year, month), account).debitTurnover
      && TrialRow(after, MonthStart(year, month), MonthEnd(year, month), account).creditTurnover
         == TrialRow(db, MonthStart(year, month), MonthEnd(year, month), account).creditTurnover
  {
    Erp.ClosedMonthIsStable(db, commands, year, month);
    Erp.AccountsOnlyGrow(db, commands);
    MonthTurnover(db, year, month, account);
    MonthTurnover(Erp.Run(db, commands), year, month, account);
  }
}
