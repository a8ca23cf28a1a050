/** Budgets: plans that freeze on approval, and actuals read from the ledger through the posting period. */
module Budgets {
  import opened Folds
  import opened Tables
  import opened Posting
  import opened Reports
  import Erp

  datatype BudgetStatus = Draft | Approved | Closed {
    predicate Allows(next: BudgetStatus) {
      match this
      case Draft => next.Approved?
      case Approved => next.Closed?
      case Closed => false
    }
  }

  datatype BudgetLine = BudgetLine(
    account: nat, department: Option<nat>, costCenter: Option<nat>, project: Option<nat>, planned: int)

  datatype Budget = Budget(period: nat, status: BudgetStatus, lines: seq<BudgetLine>)

  datatype CostCenter = CostCenter(department: Option<nat>)

  // ---------- Plans ----------

  datatype BudgetTx = Saved(budgets: seq<Budget>, id: nat) | Refused(error: Error) {
    function Reply(): Reply { if Saved? then Success(id) else Failure(error) }
  }

  function AfterBudget(budgets: seq<Budget>, tx: BudgetTx): seq<Budget> {
    if tx.Saved? then tx.budgets else budgets
  }

  predicate AccountsKnown(db: Db, lines: seq<BudgetLine>) {
    forall i :: 0 <= i < |lines| ==> lines[i].account < |db.accounts|
  }

  function CreateBudget(db: Db, budgets: seq<Budget>, period: nat, lines: seq<BudgetLine>): BudgetTx {
    if period >= |db.periods| then Refused(NotFound)
    else if !AccountsKnown(db, lines) then Refused(NotFound)
    else Saved(budgets + [Budget(period, BudgetStatus.Draft, lines)], |budgets|)
  }

  function UpdateBudget(
    db: Db, budgets: seq<Budget>, id: nat, period: Option<nat>, lines: Option<seq<BudgetLine>>): BudgetTx
  {
    if id >= |budgets| then Refused(NotFound)
    else if !budgets[id].status.Draft? then Refused(Conflict)
    else if period.Some? && period.value >= |db.periods| then Refused(ConstraintViolation)
    else if lines.Some? && !AccountsKnown(db, lines.value) then Refused(NotFound)
    else
      Saved(budgets[id := budgets[id].(
        period := if period.Some? then period.value else budgets[id].period,
        lines := if lines.Some? then lines.value else budgets[id].lines)], id)
  }

  function MoveBudget(budgets: seq<Budget>, id: nat, next: BudgetStatus): BudgetTx {
    if id >= |budgets| then Refused(NotFound)
    else if !budgets[id].status.Allows(next) then Refused(Conflict)
    else Saved(budgets[id := budgets[id].(status := next)], id)
  }

  // ---------- Actuals ----------

  /** The WHERE clause of the actuals query: the entry's period row, the account and the line's dimensions. */
  function Matches(db: Db, centers: seq<CostCenter>, line: BudgetLine, year: int, month: int): Line -> bool {
    (l: Line) =>
      && l.body.key.account == line.account
      && l.entry < |db.entries| && db.entries[l.entry].period < |db.periods|
      && db.periods[db.entries[l.entry].period].year == year
      && db.periods[db.entries[l.entry].period].month == month
      && (if line.costCenter.Some? then l.body.key.costCenter == line.costCenter
          else if line.department.Some? then InDepartment(centers, line.department.value, l.body.key.costCenter)
          else true)
      && (line.project.Some? ==> l.body.key.project == line.project)
  }

  predicate InDepartment(centers: seq<CostCenter>, department: nat, center: Option<nat>) {
    center.Some? && center.value < |centers| && centers[center.value].department == Some(department)
  }

  function ActualForLine(
    db: Db, centers: seq<CostCenter>, line: BudgetLine, year: int, month: int, kind: AccountType): int
  {
    var rows := Filter(db.lines, Matches(db, centers, line, year, month));
    var debit, credit := Sum(rows, Debit(Every())), Sum(rows, Credit(Every()));
    if kind.IsDebitNormal() then debit - credit else credit - debit
  }

  datatype Execution = Execution(account: nat, planned: int, actual: int, deviation: int)

  function ExecutionRow(db: Db, centers: seq<CostCenter>, line: BudgetLine, period: Period): Execution
    requires line.account < |db.accounts|
  {
    var actual := ActualForLine(db, centers, line, period.year, period.month, db.accounts[line.account].kind);
    Execution(line.account, line.planned, actual, actual - line.planned)
  }

  class BudgetsService {
    const store: Store
    const centers: seq<CostCenter>
    var budgets: seq<Budget>

    constructor (store: Store, centers: seq<CostCenter>)
      ensures this.store == store && this.centers == centers && budgets == []
    {
      this.store := store;
      this.centers := centers;
      budgets := [];
    }

    method Create(period: nat, lines: seq<BudgetLine>) returns (reply: Reply)
      modifies this
      ensures budgets == AfterBudget(old(budgets), CreateBudget(store.db, old(budgets), period, lines))
      ensures reply == CreateBudget(store.db, old(budgets), period, lines).Reply()
    {
      if period >= |store.db.periods| {
        return Failure(NotFound);
      }
      var begun := budgets;
      var id := |budgets|;
      budgets := budgets + [Budget(period, BudgetStatus.Draft, [])];
      var replaced := ReplaceLines(id, lines);
      if !replaced {
        budgets := begun;
        return Failure(NotFound);
      }
      reply := Success(id);
    }

    /** Checks every account, then swaps the lines. */
    method ReplaceLines(id: nat, lines: seq<BudgetLine>) returns (ok: bool)
      requires id < |budgets|
      modifies this
      ensures ok <==> AccountsKnown(store.db, lines)
      ensures budgets == if ok then old(budgets)[id := old(budgets)[id].(lines := lines)] else old(budgets)
    {
      for i := 0 to |lines|
        invariant budgets == old(budgets)
        invariant AccountsKnown(store.db, lines[..i])
      {
        if lines[i].account >= |store.db.accounts| {
          return false;
        }
      }
      assert lines[..|lines|] == lines;
      budgets := budgets[id := budgets[id].(lines := lines)];
      ok := true;
    }

    method Update(id: nat, period: Option<nat>, lines: Option<seq<BudgetLine>>) returns (reply: Reply)
      modifies this
      ensures budgets == AfterBudget(old(budgets), UpdateBudget(store.db, old(budgets), id, period, lines))
      ensures reply == UpdateBudget(store.db, old(budgets), id, period, lines).Reply()
    {
      if id >= |budgets| {
        return Failure(NotFound);
      }
      if !budgets[id].status.Draft? {
        return Failure(Conflict);
      }
      var begun := budgets;
      if period.Some? {
        if period.value >= |store.db.periods| {
          return Failure(ConstraintViolation);
        }
        budgets := budgets[id := budgets[id].(period := period.value)];
      }
      if lines.Some? {
        var replaced := ReplaceLines(id, lines.value);
        if !replaced {
          budgets := begun;
          return Failure(NotFound);
        }
      }
      reply := Success(id);
    }

    method Transition(id: nat, next: BudgetStatus) returns (reply: Reply)
      modifies this
      ensures budgets == AfterBudget(old(budgets), MoveBudget(old(budgets), id, next))
      ensures reply == MoveBudget(old(budgets), id, next).Reply()
    {
      if id >= |budgets| {
        return Failure(NotFound);
      }
      if !budgets[id].status.Allows(next) {
        return Failure(Conflict);
      }
      budgets := budgets[id := budgets[id].(status := next)];
      reply := Success(id);
    }

    /** One row per budget line, in line order; fails if the budget, its period or an account is missing. */
    method GetExecution(id: nat) returns (rows: seq<Execution>, ok: bool)
      ensures ok <==> id < |budgets| && budgets[id].period < |store.db.periods| && AccountsKnown(store.db, budgets[id].lines)
      ensures ok ==> |rows| == |budgets[id].lines|
      ensures ok ==> forall i :: 0 <= i < |rows| ==>
                budgets[id].lines[i].account < |store.db.accounts|
                && rows[i] == ExecutionRow(store.db, centers, budgets[id].lines[i], store.db.periods[budgets[id].period])
                && rows[i].planned == budgets[id].lines[i].planned && rows[i].deviation == rows[i].actual - rows[i].planned
    {
      rows := [];
      if id >= |budgets| || budgets[id].period >= |store.db.periods| {
        return rows, false;
      }
      var period := store.db.periods[budgets[id].period];
      var lines := budgets[id].lines;
      for i := 0 to |lines|
        invariant |rows| == i
        invariant AccountsKnown(store.db, lines[..i])
        invariant forall k :: 0 <= k < i ==>
          lines[k].account < |store.db.accounts| && rows[k] == ExecutionRow(store.db, centers, lines[k], period)
      {
        if lines[i].account >= |store.db.accounts| {
          return [], false;
        }
        var kind := store.db.accounts[lines[i].account].kind;
        var actual := ActualForLine(store.db, centers, lines[i], period.year, period.month, kind);
        rows := rows + [Execution(lines[i].account, lines[i].planned, actual, actual - lines[i].planned)];
      }
      assert lines[..|lines|] == lines;
      ok := true;
    }
  }

  // ---------- Plans freeze ----------

  datatype BudgetCommand =
    | Create(period: nat, lines: seq<BudgetLine>)
    | Update(id: nat, newPeriod: Option<nat>, newLines: Option<seq<BudgetLine>>)
    | Move(id: nat, next: BudgetStatus)

  function BudgetStep(db: Db, budgets: seq<Budget>, c: BudgetCommand): seq<Budget> {
    match c
    case Create(period, lines) => AfterBudget(budgets, CreateBudget(db, budgets, period, lines))
    case Update(id, period, lines) => AfterBudget(budgets, UpdateBudget(db, budgets, id, period, lines))
    case Move(id, next) => AfterBudget(budgets, MoveBudget(budgets, id, next))
  }

  function BudgetRun(db: Db, budgets: seq<Budget>, commands: seq<BudgetCommand>): seq<Budget> {
    if commands == [] then budgets
    else BudgetStep(db, BudgetRun(db, budgets, commands[..|commands| - 1]), commands[|commands| - 1])
  }

  /** Once approved, a budget's period and lines never change again, and it never returns to DRAFT. */
  lemma {:induction false} ApprovedPlanIsFrozen(db: Db, budgets: seq<Budget>, commands: seq<BudgetCommand>, id: nat)
    requires id < |budgets| && !budgets[id].status.Draft?
    ensures var after := BudgetRun(db, budgets, commands);
      && id < |after| && !after[id].status.Draft?
      && after[id].period == budgets[id].period && after[id].lines == budgets[id].lines
  {
    if commands != [] {
      ApprovedPlanIsFrozen(db, budgets, commands[..|commands| - 1], id);
    }
  }

  // ---------- Actuals against the trial balance ----------

  predicate NoDimensions(line: BudgetLine) {
    line.costCenter.None? && line.department.None? && line.project.None?
  }

  /** Through the period or through the calendar: the same lines, hence the same balance. */
  lemma ActualMatchesTrialBalance(db: Db, centers: seq<CostCenter>, line: BudgetLine, year: int, month: int)
    requires LedgerInv(db) && line.account < |db.accounts| && NoDimensions(line)
    requires 1 <= year && 1 <= month <= 12
    ensures ActualForLine(db, centers, line, year, month, db.accounts[line.account].kind)
            == TrialRow(db, MonthStart(year, month), MonthEnd(year, month), line.account).balance
  {
    FilterEqual(db.lines, Matches(db, centers, line, year, month),
                Joined(line.account, EntryIds(db.entries, MonthStart(year, month), MonthEnd(year, month))));
  }

  /** The cost centers of a department. */
  function CentersOf(centers: seq<CostCenter>, department: nat): seq<int> {
    Filter(Indices(|centers|), IsCenterOf(centers, department))
  }

  function IsCenterOf(centers: seq<CostCenter>, department: nat): int -> bool {
    (c: int) => 0 <= c < |centers| && centers[c].department == Some(department)
  }

  function CenterKey(): Line -> Option<int> {
    (l: Line) => if l.body.key.costCenter.Some? then Some(l.body.key.costCenter.value) else None
  }

  /** The same budget line, planned for one cost center. */
  function CenterActual(
    db: Db, centers: seq<CostCenter>, line: BudgetLine, year: int, month: int, kind: AccountType): int -> int
  {
    (c: int) =>
      if c < 0 then 0 else ActualForLine(db, centers, line.(costCenter := Some(c)), year, month, kind)
  }

  lemma ActualAsNet(db: Db, centers: seq<CostCenter>, line: BudgetLine, year: int, month: int, kind: AccountType)
    ensures ActualForLine(db, centers, line, year, month, kind)
            == Sum(db.lines, When(Matches(db, centers, line, year, month), Signed(kind)))
  {
    var rows := Filter(db.lines, Matches(db, centers, line, year, month));
    if kind.IsDebitNormal() {
      SumMinus(rows, Debit(Every()), Credit(Every()), Signed(kind));
    } else {
      SumMinus(rows, Credit(Every()), Debit(Every()), Signed(kind));
    }
    SumFilter(db.lines, Matches(db, centers, line, year, month), Signed(kind),
              When(Matches(db, centers, line, year, month), Signed(kind)));
  }

  function Signed(kind: AccountType): Line -> int {
    (l: Line) => if kind.IsDebitNormal() then l.body.debit - l.body.credit else l.body.credit - l.body.debit
  }

  /** A department line's actual is the sum of the actuals of the department's cost centers. */
  lemma DepartmentRollsUp(
    db: Db, centers: seq<CostCenter>, line: BudgetLine, year: int, month: int, kind: AccountType)
    requires line.department.Some? && line.costCenter.None?
    ensures ActualForLine(db, centers, line, year, month, kind)
            == Sum(CentersOf(centers, line.department.value), CenterActual(db, centers, line, year, month, kind))
  {
    var department := line.department.value;
    var keys := CentersOf(centers, department);
    var plain := line.(department := None);
    var f := When(Matches(db, centers, plain, year, month), Signed(kind));
    FilterDistinct(Indices(|centers|), IsCenterOf(centers, department));
    forall c ensures c in keys <==> IsCenterOf(centers, department)(c) {
      InFilter(Indices(|centers|), IsCenterOf(centers, department), c);
    }
    forall c | c in keys
      ensures CenterActual(db, centers, line, year, month, kind)(c) == GroupTotal(db.lines, CenterKey(), f)(c)
    {
      var one := line.(costCenter := Some(c));
      ActualAsNet(db, centers, one, year, month, kind);
      SumEqual(db.lines, When(Matches(db, centers, one, year, month), Signed(kind)), InGroup(CenterKey(), c, f));
    }
    SumEqual(keys, CenterActual(db, centers, line, year, month, kind), GroupTotal(db.lines, CenterKey(), f));
    SumByGroups(db.lines, CenterKey(), keys, f);
    ActualAsNet(db, centers, line, year, month, kind);
    SumEqual(db.lines, InGroups(CenterKey(), keys, f), When(Matches(db, centers, line, year, month), Signed(kind)));
  }

  // ---------- Projects ----------

  function ProjectKey(): Line -> Option<int> {
    (l: Line) => if l.body.key.project.Some? then Some(l.body.key.project.value) else None
  }

  /** The same budget line, planned for one project. */
  function ProjectActual(
    db: Db, centers: seq<CostCenter>, line: BudgetLine, year: int, month: int, kind: AccountType): int -> int
  {
    (p: int) =>
      if p < 0 then 0 else ActualForLine(db, centers, line.(project := Some(p)), year, month, kind)
  }

  function WithoutProject(): Line -> bool { (l: Line) => l.body.key.project.None? }

  /** A line without a project has the actuals of all projects, plus what names none. */
  lemma ProjectsRollUp(
    db: Db, centers: seq<CostCenter>, line: BudgetLine, year: int, month: int, kind: AccountType, projects: seq<int>)
    requires line.project.None? && Distinct(projects) && (forall p :: p in projects ==> p >= 0)
    requires forall l :: l in db.lines && l.body.key.project.Some? ==> l.body.key.project.value in projects
    ensures ActualForLine(db, centers, line, year, month, kind)
            == Sum(projects, ProjectActual(db, centers, line, year, month, kind))
               + Sum(Filter(Filter(db.lines, Matches(db, centers, line, year, month)), WithoutProject()), Signed(kind))
  {
    var matches := Matches(db, centers, line, year, month);
    var f := When(matches, Signed(kind));
    forall p: int | p in projects
      ensures ProjectActual(db, centers, line, year, month, kind)(p) == GroupTotal(db.lines, ProjectKey(), f)(p)
    {
      var one := line.(project := Some(p));
      ActualAsNet(db, centers, one, year, month, kind);
      SumEqual(db.lines, When(Matches(db, centers, one, year, month), Signed(kind)), InGroup(ProjectKey(), p, f));
    }
    SumEqual(projects, ProjectActual(db, centers, line, year, month, kind), GroupTotal(db.lines, ProjectKey(), f));
    SumByGroups(db.lines, ProjectKey(), projects, f);
    SumFilter2(db.lines, matches, WithoutProject(), Signed(kind));
    SumPlus(db.lines, InGroups(ProjectKey(), projects, f), When(matches, When(WithoutProject(), Signed(kind))), f);
    ActualAsNet(db, centers, line, year, month, kind);
  }

  // ---------- One budget call ----------

  function WithBudgetStatus(budgets: seq<Budget>, id: nat, status: BudgetStatus): BudgetTx
    requires id < |budgets|
  {
    Saved(budgets[id := budgets[id].(status := status)], id)
  }

  /** DRAFT is approved and APPROVED is closed; there is no other move. */
  lemma BudgetMoves(budgets: seq<Budget>, id: nat)
    requires id < |budgets|
    ensures var status := budgets[id].status;
      && MoveBudget(budgets, id, BudgetStatus.Draft) == Refused(Conflict)
      && MoveBudget(budgets, id, BudgetStatus.Approved)
         == (if status.Draft? then WithBudgetStatus(budgets, id, BudgetStatus.Approved) else Refused(Conflict))
      && MoveBudget(budgets, id, BudgetStatus.Closed)
         == (if status.Approved? then WithBudgetStatus(budgets, id, BudgetStatus.Closed) else Refused(Conflict))
  {
  }

  /** A budget is edited exactly while it is a DRAFT, onto periods and accounts that exist. */
  lemma BudgetEdit(db: Db, budgets: seq<Budget>, id: nat, period: Option<nat>, lines: Option<seq<BudgetLine>>)
    requires id < |budgets|
    ensures var b, tx := budgets[id], UpdateBudget(db, budgets, id, period, lines);
      && (tx.Saved? <==>
            && b.status.Draft? && (period.Some? ==> period.value < |db.periods|)
            && (lines.Some? ==> forall l :: l in lines.value ==> l.account < |db.accounts|))
      && (tx.Saved? ==>
            && |tx.budgets| == |budgets| && (forall k :: 0 <= k < |budgets| && k != id ==> tx.budgets[k] == budgets[k])
            && tx.budgets[id].status.Draft?
            && tx.budgets[id].period == (if period.Some? then period.value else b.period)
            && tx.budgets[id].lines == (if lines.Some? then lines.value else b.lines))
      && (tx.Refused? ==> tx.error == if !b.status.Draft? then Conflict
                                      else if period.Some? && period.value >= |db.periods| then ConstraintViolation
                                      else NotFound)
  {
  }

  lemma MissingBudget(
      db: Db, budgets: seq<Budget>, id: nat, next: BudgetStatus, period: Option<nat>, lines: Option<seq<BudgetLine>>)
    requires id >= |budgets|
    ensures MoveBudget(budgets, id, next) == UpdateBudget(db, budgets, id, period, lines) == Refused(NotFound)
  {
  }

  /** A new budget is a DRAFT of an existing period with the given lines, all on existing accounts. */
  lemma BudgetCreation(db: Db, budgets: seq<Budget>, period: nat, lines: seq<BudgetLine>)
    ensures var tx := CreateBudget(db, budgets, period, lines);
      && (tx.Saved? <==> period < |db.periods| && forall l :: l in lines ==> l.account < |db.accounts|)
      && (tx.Saved? ==> tx == Saved(budgets + [Budget(period, BudgetStatus.Draft, lines)], |budgets|))
      && (tx.Refused? ==> tx == Refused(NotFound))
  {
  }
}
