/**
 * Which account the payment of an expense request is booked against. The account is read before the
 * request row is locked, so it is the request's own for sure only if nothing can change in between.
 */
module CounterAccount {
  import opened Folds
  import opened Tables
  import opened PaymentProtocol
  import Payments
  import Posting
  import Runs

  /** The commit books the payment against the account its request names by then. */
  predicate PaysOwnAccount(end: State, t: nat, r: nat)
    requires Enabled(end, Action.Commit(t))
  {
    var id, db := end.clients[t].phase.id, Step(end, Action.Commit(t)).db;
    id in db.payments && r in db.requests && db.payments[id].counterAccount == db.requests[r].expenseAccount
  }

  /** Whatever happens after the read, and whoever else acts, a commit books the right account. */
  ghost predicate Safe(s: State, t: nat, r: nat) {
    forall actions :: Enabled(Run(Step(s, ReadRequest(t)), actions), Action.Commit(t)) ==>
      PaysOwnAccount(Run(Step(s, ReadRequest(t)), actions), t, r)
  }

  /** A request that can still be moved to another account and then be approved. */
  predicate StillOpen(status: RequestStatus) { status.Draft? || status.Submitted? || status.Rejected? }

  // ---------- When the read is safe ----------

  /** The account was read from a request that is not open any more; since then neither has changed. */
  predicate ReadClosed(s: State, t: nat, r: nat, account: nat) {
    && AtPhase(s, t) && s.clients[t].order.request == Some(r)
    && r in s.db.requests && s.db.requests[r].expenseAccount == account && !StillOpen(s.db.requests[r].status)
    && var p := s.clients[t].phase;
       && (p.Resolved? || p.HoldsPayment() ==> p.counterAccount == account)
       && (p.HoldsRequest() ==> p.row.expenseAccount == account)
       && (p.Resolved? || p.HoldsPayment() || p.Recovering? || p.Finished?)
  }

  /** What a commit does to the requests: at most the locked row changes, and not its account. */
  lemma CommitKeepsAccounts(db: Committed, c: Client, r: nat)
    requires c.Ready() && ClientOk(db, c) && r in db.requests && !StillOpen(db.requests[r].status)
    ensures var db' := Publish(db, c);
      && r in db'.requests && db'.requests[r].expenseAccount == db.requests[r].expenseAccount
      && !StillOpen(db'.requests[r].status)
  {
  }

  lemma OwnCommitKeepsReadClosed(s: State, a: Action, r: nat, account: nat)
    requires Enabled(s, a) && a.Commit? && ReadClosed(s, a.t, r, account) && ClientOk(s.db, s.clients[a.t])
    ensures ReadClosed(Step(s, a), a.t, r, account)
  {
    CommitKeepsAccounts(s.db, s.clients[a.t], r);
  }

  lemma OwnStepKeepsReadClosed(s: State, a: Action, r: nat, account: nat)
    requires Enabled(s, a) && !a.CreateRequest? && !a.UpdateRequest? && !a.Commit? && !a.CommitDecision?
    requires ReadClosed(s, a.t, r, account)
    ensures ReadClosed(Step(s, a), a.t, r, account)
  {
  }

  lemma OtherCommitKeepsReadClosed(s: State, a: Action, t: nat, r: nat, account: nat)
    requires Enabled(s, a) && a.Commit? && ClientOk(s.db, s.clients[a.t]) && ReadClosed(s, t, r, account) && a.t != t
    ensures ReadClosed(Step(s, a), t, r, account)
  {
    CommitKeepsAccounts(s.db, s.clients[a.t], r);
  }

  lemma DecisionKeepsReadClosed(s: State, a: Action, t: nat, r: nat, account: nat)
    requires Enabled(s, a) && a.CommitDecision? && ClientOk(s.db, s.clients[a.t]) && ReadClosed(s, t, r, account)
    ensures ReadClosed(Step(s, a), t, r, account)
  {
  }

  lemma OtherStepKeepsReadClosed(s: State, a: Action, t: nat, r: nat, account: nat)
    requires Enabled(s, a) && ReadClosed(s, t, r, account)
    requires a.CreateRequest? || a.UpdateRequest? || (a.t != t && !a.Commit? && !a.CommitDecision?)
    ensures ReadClosed(Step(s, a), t, r, account)
  {
    if !a.CreateRequest? && !a.UpdateRequest? {
      assert Step(s, a).db == s.db;
    }
  }

  lemma StepKeepsReadClosed(s: State, a: Action, t: nat, r: nat, account: nat)
    requires Inv(s) && ReadClosed(s, t, r, account)
    ensures ReadClosed(Step(s, a), t, r, account)
  {
    if Enabled(s, a) {
      if a.Commit? {
        assert ClientOk(s.db, s.clients[a.t]);
        if a.t == t {
          OwnCommitKeepsReadClosed(s, a, r, account);
        } else {
          OtherCommitKeepsReadClosed(s, a, t, r, account);
        }
      } else if a.CommitDecision? {
        assert ClientOk(s.db, s.clients[a.t]);
        DecisionKeepsReadClosed(s, a, t, r, account);
      } else if a.CreateRequest? || a.UpdateRequest? || a.t != t {
        OtherStepKeepsReadClosed(s, a, t, r, account);
      } else {
        OwnStepKeepsReadClosed(s, a, r, account);
      }
    }
  }

  lemma {:induction false} RunKeepsReadClosed(s: State, actions: seq<Action>, t: nat, r: nat, account: nat)
    requires Inv(s) && ReadClosed(s, t, r, account)
    ensures Inv(Run(s, actions)) && ReadClosed(Run(s, actions), t, r, account)
  {
    if actions != [] {
      var before := Run(s, actions[..|actions| - 1]);
      RunKeepsReadClosed(s, actions[..|actions| - 1], t, r, account);
      StepKeeps(before, actions[|actions| - 1]);
      StepKeepsReadClosed(before, actions[|actions| - 1], t, r, account);
    }
  }

  /** The payer reads the account of this request next. */
  ghost predicate AboutToRead(s: State, t: nat, r: nat) {
    Inv(s) && AtPhase(s, t) && s.clients[t].phase.Begun? && s.clients[t].order.request == Some(r)
  }

  lemma ClosedIsSafe(s: State, t: nat, r: nat, actions: seq<Action>)
    requires AboutToRead(s, t, r) && r in s.db.requests && !StillOpen(s.db.requests[r].status)
    requires Enabled(Run(Step(s, ReadRequest(t)), actions), Action.Commit(t))
    ensures PaysOwnAccount(Run(Step(s, ReadRequest(t)), actions), t, r)
  {
    StepKeeps(s, ReadRequest(t));
    RunKeepsReadClosed(Step(s, ReadRequest(t)), actions, t, r, s.db.requests[r].expenseAccount);
    CommitsClosed(Run(Step(s, ReadRequest(t)), actions), t, r, s.db.requests[r].expenseAccount);
  }

  lemma CommitsClosed(end: State, t: nat, r: nat, account: nat)
    requires ReadClosed(end, t, r, account) && Enabled(end, Action.Commit(t))
    ensures PaysOwnAccount(end, t, r)
  {
  }

  // ---------- When nothing is ever committed ----------

  /** The payer cannot commit any more: its key is taken, its amount is refused, or it was refused. */
  predicate Hopeless(s: State, t: nat) {
    && AtPhase(s, t)
    && var c := s.clients[t];
       || c.phase.Finished? || c.phase.Recovering?
       || (KeyUsed(s.db, c.order.key) && c.phase.Resolved?)
       || (c.order.amount <= 0 && (c.phase.Resolved? || c.phase.Inserted?))
  }

  lemma PositiveAmount(order: Payments.PaymentOrder, account: nat, rate: int)
    ensures Posting.ValidLines(LinesToPost(order, account, rate)) <==> order.amount > 0
  {
    var p := Payments.PendingRow(order, account);
    var lines := LinesToPost(order, account, rate);
    assert lines[..1] == [lines[0]];
    SumOne(lines[0], Posting.DebitOf());
    SumOne(lines[0], Posting.CreditOf());
  }

  lemma KeyStaysUsed(s: State, a: Action, key: string)
    requires Inv(s) && KeyUsed(s.db, key)
    ensures KeyUsed(Step(s, a).db, key)
  {
    var id :| id in s.db.payments && s.db.payments[id].key == key;
    StepKeepsPayment(s, a, id);
    assert id in Step(s, a).db.payments && Step(s, a).db.payments[id].key == key;
  }

  lemma OwnStepKeepsHopeless(s: State, a: Action)
    requires !a.CreateRequest? && !a.UpdateRequest? && Enabled(s, a) && Hopeless(s, a.t)
    ensures AtPhase(Step(s, a), a.t) && Step(s, a).clients[a.t].order == s.clients[a.t].order && Step(s, a).db == s.db
    ensures Hopeless(Step(s, a), a.t)
  {
    if a.Post? {
      PositiveAmount(s.clients[a.t].order, s.clients[a.t].phase.counterAccount, a.rate);
    }
  }

  lemma OtherStepKeepsClient(s: State, a: Action, t: nat)
    requires Enabled(s, a) && t in s.clients && (a.CreateRequest? || a.UpdateRequest? || a.t != t)
    ensures t in Step(s, a).clients && Step(s, a).clients[t] == s.clients[t]
  {
  }

  lemma StepKeepsHopeless(s: State, a: Action, t: nat)
    requires Inv(s) && Hopeless(s, t)
    ensures Hopeless(Step(s, a), t)
  {
    if Enabled(s, a) {
      if a.CreateRequest? || a.UpdateRequest? || a.t != t {
        OtherStepKeepsClient(s, a, t);
        if KeyUsed(s.db, s.clients[t].order.key) {
          KeyStaysUsed(s, a, s.clients[t].order.key);
        }
      } else {
        OwnStepKeepsHopeless(s, a);
      }
    }
  }

  lemma {:induction false} RunKeepsHopeless(s: State, actions: seq<Action>, t: nat)
    requires Inv(s) && Hopeless(s, t)
    ensures Inv(Run(s, actions)) && Hopeless(Run(s, actions), t)
  {
    if actions != [] {
      var before := Run(s, actions[..|actions| - 1]);
      RunKeepsHopeless(s, actions[..|actions| - 1], t);
      StepKeeps(before, actions[|actions| - 1]);
      StepKeepsHopeless(before, actions[|actions| - 1], t);
    }
  }

  lemma HopelessIsSafe(s: State, t: nat, r: nat, actions: seq<Action>)
    requires AboutToRead(s, t, r)
    requires r !in s.db.requests || KeyUsed(s.db, s.clients[t].order.key) || s.clients[t].order.amount <= 0
    ensures !Enabled(Run(Step(s, ReadRequest(t)), actions), Action.Commit(t))
  {
    hide Inv;
    StepKeeps(s, ReadRequest(t));
    RunKeepsHopeless(Step(s, ReadRequest(t)), actions, t);
  }

  // ---------- Otherwise a continuation books another account ----------

  ghost predicate Reaches(s: State, end: State) { exists actions :: Run(s, actions) == end }

  lemma ReachesItself(s: State)
    ensures Reaches(s, s)
  {
    assert Run(s, []) == s;
  }

  lemma ReachesFurther(s: State, mid: State, end: State)
    requires Reaches(s, mid) && Reaches(mid, end)
    ensures Reaches(s, end)
  {
    var a :| Run(s, a) == mid;
    var b :| Run(mid, b) == end;
    Runs.RunConcat(Step, s, a, b);
    assert Run(s, a + b) == end;
  }

  lemma ReachesNext(s: State, mid: State, a: Action)
    requires Reaches(s, mid)
    ensures Reaches(s, Step(mid, a))
  {
    assert [a][..0] == [];
    assert Run(mid, [a]) == Step(Run(mid, []), a);
    ReachesFurther(s, mid, Step(mid, a));
  }

  lemma {:induction false} FreshNumber(used: set<nat>) returns (n: nat)
    ensures forall m :: m in used ==> m < n
    decreases |used|
  {
    n := 0;
    if used != {} {
      var m :| m in used;
      var below := FreshNumber(used - {m});
      n := if m < below then below else m + 1;
      forall k | k in used ensures k < n {
        assert k == m || k in used - {m};
      }
    }
  }

  /** The payer is in this phase, the request's row is this, and nobody else holds the key or the request. */
  ghost predicate Quiet(s: State, t: nat, order: Payments.PaymentOrder, phase: Phase, r: nat, row: ExpenseRequest) {
    && Inv(s) && t in s.clients && s.clients[t] == Payer(order, phase) && order.request == Some(r)
    && r in s.db.requests && s.db.requests[r] == row && !KeyUsed(s.db, order.key)
    && forall u :: u in s.clients && u != t ==> Aside(s.clients[u], order.key, r)
  }

  predicate Aside(c: Client, key: string, r: nat) {
    (c.HoldsPayment() ==> c.order.key != key) && c.Lock() != Some(r)
  }

  /** Aborting whoever holds the key, and whoever holds the request, leaves the payer alone with them. */
  lemma Undisturbed(s: State, t: nat, order: Payments.PaymentOrder, account: nat, r: nat) returns (end: State)
    requires Inv(s) && t in s.clients && s.clients[t] == Payer(order, Resolved(account)) && order.request == Some(r)
    requires r in s.db.requests && !KeyUsed(s.db, order.key)
    ensures Reaches(s, end) && Quiet(end, t, order, Resolved(account), r, s.db.requests[r])
  {
    ReachesItself(s);
    var mid := FreeKey(s, t, order, account);
    end := FreeRequest(s, mid, t, order, account, r);
  }

  lemma AbortFreesKey(s: State, u: nat)
    requires ClientsOk(s) && u in s.clients && s.clients[u].HoldsPayment()
    ensures Enabled(s, Abort(u)) && Step(s, Abort(u)) == Move(s, u, s.clients[u].Abandoned())
    ensures !KeyHeld(Step(s, Abort(u)), s.clients[u].order.key)
  {
    forall v | v in s.clients && v != u ensures !(s.clients[v].HoldsPayment() && s.clients[v].order.key == s.clients[u].order.key) {
      assert Apart(s.clients[u], s.clients[v]);
    }
  }

  lemma AbortFreesRequest(s: State, u: nat, r: nat)
    requires ClientsOk(s) && u in s.clients && s.clients[u].Lock() == Some(r)
    ensures Enabled(s, Abort(u)) && Step(s, Abort(u)) == Move(s, u, s.clients[u].Abandoned())
    ensures !Locked(Step(s, Abort(u)), r)
  {
    forall v | v in s.clients && v != u ensures s.clients[v].Lock() != Some(r) {
      assert Apart(s.clients[u], s.clients[v]);
    }
  }

  lemma FreeKey(s: State, t: nat, order: Payments.PaymentOrder, account: nat) returns (mid: State)
    requires Inv(s) && t in s.clients && s.clients[t] == Payer(order, Resolved(account))
    ensures Reaches(s, mid) && Inv(mid) && mid.db == s.db && t in mid.clients && mid.clients[t] == s.clients[t]
    ensures !KeyHeld(mid, order.key)
  {
    ReachesItself(s);
    mid := s;
    if KeyHeld(s, order.key) {
      var u :| u in s.clients && s.clients[u].HoldsPayment() && s.clients[u].order.key == order.key;
      AbortFreesKey(s, u);
      StepKeeps(s, Abort(u));
      ReachesNext(s, s, Abort(u));
      mid := Step(s, Abort(u));
    }
  }

  lemma FreeRequest(s: State, mid: State, t: nat, order: Payments.PaymentOrder, account: nat, r: nat) returns (end: State)
    requires Reaches(s, mid) && Inv(mid) && t in mid.clients && mid.clients[t] == Payer(order, Resolved(account))
    requires order.request == Some(r) && r in mid.db.requests && !KeyUsed(mid.db, order.key) && !KeyHeld(mid, order.key)
    ensures Reaches(s, end) && Quiet(end, t, order, Resolved(account), r, mid.db.requests[r])
  {
    end := mid;
    if Locked(mid, r) {
      var u :| u in mid.clients && mid.clients[u].Lock() == Some(r);
      AbortFreesRequest(mid, u, r);
      StepKeeps(mid, Abort(u));
      ReachesNext(s, mid, Abort(u));
      end := Step(mid, Abort(u));
      AbandonedHoldsNothing(mid.clients[u]);
    }
    assert !Locked(end, r) && !KeyHeld(end, order.key);
    NobodyElse(end, t, order, account, r);
  }

  lemma AbandonedHoldsNothing(c: Client)
    ensures HoldsNothing(c.Abandoned())
  {
  }

  lemma NobodyElse(s: State, t: nat, order: Payments.PaymentOrder, account: nat, r: nat)
    requires !Locked(s, r) && !KeyHeld(s, order.key)
    ensures forall u :: u in s.clients && u != t ==> Aside(s.clients[u], order.key, r)
  {
  }

  lemma DecidingSteps(s: State, u: nat, r: nat, row: ExpenseRequest, decision: Payments.RequestDecision, actor: nat)
    requires u !in s.clients && r in s.db.requests && s.db.requests[r] == row && MayDecide(row, decision, actor)
    requires !Locked(s, r)
    ensures var asked := Step(s, Ask(u, r, decision, actor));
      var locked := Step(asked, LockDecision(u));
      Step(locked, CommitDecision(u))
      == State(WithRequest(s.db, r, row.(status := decision.Next())), s.clients[u := Decider(r, decision, actor, Done)])
  {
    var asked := Step(s, Ask(u, r, decision, actor));
    assert !Locked(asked, r);
    var locked := Step(asked, LockDecision(u));
    assert locked.clients[u] == Decider(r, decision, actor, Holding(row));
    assert locked.clients[u := Decider(r, decision, actor, Done)] == s.clients[u := Decider(r, decision, actor, Done)];
  }

  /** Someone new decides about the request, while the payer only waits. */
  lemma Deciding(
      s: State, t: nat, order: Payments.PaymentOrder, account: nat, r: nat, row: ExpenseRequest,
      decision: Payments.RequestDecision, actor: nat)
    returns (end: State)
    requires Quiet(s, t, order, Resolved(account), r, row) && MayDecide(row, decision, actor)
    ensures Reaches(s, end) && Quiet(end, t, order, Resolved(account), r, row.(status := decision.Next()))
  {
    hide Inv;
    var u := FreshNumber(s.clients.Keys);
    assert u !in s.clients;
    var asked := Step(s, Ask(u, r, decision, actor));
    var locked := Step(asked, LockDecision(u));
    end := Step(locked, CommitDecision(u));
    StepKeeps(s, Ask(u, r, decision, actor));
    StepKeeps(asked, LockDecision(u));
    StepKeeps(locked, CommitDecision(u));
    ReachesItself(s);
    ReachesNext(s, s, Ask(u, r, decision, actor));
    ReachesNext(s, asked, LockDecision(u));
    ReachesNext(s, locked, CommitDecision(u));
    DecidingSteps(s, u, r, row, decision, actor);
  }

  /** The owner edits the request, while the payer only waits. */
  lemma Editing(
      s: State, t: nat, order: Payments.PaymentOrder, account: nat, r: nat, row: ExpenseRequest,
      patch: Payments.RequestPatch)
    returns (end: State)
    requires Quiet(s, t, order, Resolved(account), r, row) && row.status.Editable()
    ensures Reaches(s, end) && Quiet(end, t, order, Resolved(account), r, Payments.PatchedRequest(row, patch))
  {
    end := Step(s, UpdateRequest(r, patch, row.requestedBy));
    StepKeeps(s, UpdateRequest(r, patch, row.requestedBy));
    ReachesItself(s);
    ReachesNext(s, s, UpdateRequest(r, patch, row.requestedBy));
  }

  /** An open request can be moved to any account and be approved. */
  lemma MovedAndApproved(
      s: State, t: nat, order: Payments.PaymentOrder, account: nat, r: nat, row: ExpenseRequest, other: nat)
    returns (end: State, approved: ExpenseRequest)
    requires Quiet(s, t, order, Resolved(account), r, row) && StillOpen(row.status)
    ensures Reaches(s, end) && Quiet(end, t, order, Resolved(account), r, approved)
    ensures approved.status.Approved? && approved.expenseAccount == other
  {
    hide Inv;
    var mid, current := s, row;
    ReachesItself(s);
    if row.status.Submitted? {
      mid := Deciding(s, t, order, account, r, row, Payments.RequestDecision.Reject, 0);
      current := row.(status := RequestStatus.Rejected);
    }
    var patch := Payments.RequestPatch(Some(other), None, None);
    var edited := Editing(mid, t, order, account, r, current, patch);
    var draft := Payments.PatchedRequest(current, patch);
    var submitted := Deciding(edited, t, order, account, r, draft, Payments.RequestDecision.Submit, draft.requestedBy);
    var waiting := draft.(status := RequestStatus.Submitted);
    end := Deciding(submitted, t, order, account, r, waiting, Payments.RequestDecision.Approve, 0);
    approved := waiting.(status := RequestStatus.Approved);
    ReachesFurther(s, mid, edited);
    ReachesFurther(s, edited, submitted);
    ReachesFurther(s, submitted, end);
  }

  // The rest of the payment, step by step, with nobody in the way.

  lemma FreshId(s: State) returns (id: nat)
    ensures FreshPayment(s, id)
  {
    var held := set u | u in s.clients && s.clients[u].HoldsPayment() :: s.clients[u].phase.id;
    id := FreshNumber(s.db.payments.Keys + held);
    forall u | u in s.clients && s.clients[u].HoldsPayment() ensures s.clients[u].phase.id != id {
      assert s.clients[u].phase.id in held;
    }
  }

  lemma FreshEntryId(s: State) returns (e: nat)
    ensures FreshEntry(s, e)
  {
    var held := set u | u in s.clients && s.clients[u].HoldsEntry() :: s.clients[u].phase.entry;
    e := FreshNumber(s.db.entries.Keys + held);
    forall u | u in s.clients && s.clients[u].HoldsEntry() ensures s.clients[u].phase.entry != e {
      assert s.clients[u].phase.entry in held;
    }
  }

  lemma InsertQuiet(s: State, t: nat, order: Payments.PaymentOrder, account: nat, r: nat, row: ExpenseRequest)
    returns (end: State, id: nat)
    requires Quiet(s, t, order, Resolved(account), r, row)
    ensures Reaches(s, end) && Quiet(end, t, order, Inserted(id, account), r, row)
  {
    hide Inv;
    id := FreshId(s);
    end := Step(s, Insert(t, id));
    StepKeeps(s, Insert(t, id));
    ReachesItself(s);
    ReachesNext(s, s, Insert(t, id));
  }

  lemma PostQuiet(s: State, t: nat, order: Payments.PaymentOrder, id: nat, account: nat, r: nat, row: ExpenseRequest)
    returns (end: State, e: nat)
    requires Quiet(s, t, order, Inserted(id, account), r, row) && order.amount > 0
    ensures Reaches(s, end) && Quiet(end, t, order, Phase.Posted(id, account, e, 1_000_000), r, row)
  {
    hide Inv;
    hide LinesToPost;
    hide Posting.ValidLines;
    e := FreshEntryId(s);
    PositiveAmount(order, account, 1_000_000);
    end := Step(s, Action.Post(t, e, 1_000_000));
    StepKeeps(s, Action.Post(t, e, 1_000_000));
    ReachesItself(s);
    ReachesNext(s, s, Action.Post(t, e, 1_000_000));
  }

  lemma SettleQuiet(
      s: State, t: nat, order: Payments.PaymentOrder, id: nat, account: nat, e: nat, rate: int, r: nat, row: ExpenseRequest)
    returns (end: State)
    requires Quiet(s, t, order, Phase.Posted(id, account, e, rate), r, row) && row.status.Approved?
    ensures Reaches(s, end)
    ensures Quiet(end, t, order, Phase.Accounted(id, account, e, rate, AccountedRow(PaidRow(row, id), e)), r, row)
  {
    hide Inv;
    assert !Locked(s, r);
    var paid := Step(s, LockRequest(t));
    assert paid.clients[t] == Payer(order, Phase.Paid(id, account, e, rate, PaidRow(row, id)));
    end := Step(paid, Flip(t));
    StepKeeps(s, LockRequest(t));
    StepKeeps(paid, Flip(t));
    ReachesItself(s);
    ReachesNext(s, s, LockRequest(t));
    ReachesNext(s, paid, Flip(t));
  }

  lemma PaidUp(s: State, t: nat, order: Payments.PaymentOrder, account: nat, r: nat, row: ExpenseRequest)
    returns (end: State, id: nat, e: nat)
    requires Quiet(s, t, order, Resolved(account), r, row) && row.status.Approved? && order.amount > 0
    ensures Reaches(s, end)
    ensures Quiet(end, t, order, Phase.Accounted(id, account, e, 1_000_000, AccountedRow(PaidRow(row, id), e)), r, row)
  {
    var inserted, posted;
    inserted, id := InsertQuiet(s, t, order, account, r, row);
    posted, e := PostQuiet(inserted, t, order, id, account, r, row);
    end := SettleQuiet(posted, t, order, id, account, e, 1_000_000, r, row);
    ReachesFurther(s, inserted, posted);
    ReachesFurther(s, posted, end);
  }

  /** The commit books the payment against one account while its request names another. */
  predicate PaysInstead(end: State, t: nat, r: nat, booked: nat, named: nat)
    requires Enabled(end, Action.Commit(t))
  {
    var id, db := end.clients[t].phase.id, Step(end, Action.Commit(t)).db;
    && id in db.payments && r in db.requests && db.payments[id].request == Some(r)
    && db.payments[id].counterAccount == booked && db.requests[r].expenseAccount == named
  }

  lemma CommitsStale(
      end: State, t: nat, order: Payments.PaymentOrder, id: nat, account: nat, e: nat, rate: int, r: nat, row: ExpenseRequest)
    requires Quiet(end, t, order, Phase.Accounted(id, account, e, rate, AccountedRow(PaidRow(row, id), e)), r, row)
    ensures Enabled(end, Action.Commit(t)) && PaysInstead(end, t, r, account, row.expenseAccount)
  {
  }

  /**
   * An open request, a free key and a positive amount: for every account some continuation moves the request
   * there and then books its payment against the account it had at the read.
   */
  lemma OpenGoesStale(s: State, t: nat, r: nat, other: nat) returns (actions: seq<Action>)
    requires AboutToRead(s, t, r) && r in s.db.requests && StillOpen(s.db.requests[r].status)
    requires !KeyUsed(s.db, s.clients[t].order.key) && s.clients[t].order.amount > 0
    ensures var end := Run(Step(s, ReadRequest(t)), actions);
      Enabled(end, Action.Commit(t)) && PaysInstead(end, t, r, s.db.requests[r].expenseAccount, other)
  {
    var order, account := s.clients[t].order, s.db.requests[r].expenseAccount;
    var read := Step(s, ReadRequest(t));
    StepKeeps(s, ReadRequest(t));
    var alone := Undisturbed(read, t, order, account, r);
    var moved, approved := MovedAndApproved(alone, t, order, account, r, s.db.requests[r], other);
    var end, id, e := PaidUp(moved, t, order, account, r, approved);
    ReachesFurther(read, alone, moved);
    ReachesFurther(read, moved, end);
    actions :| Run(read, actions) == end;
    CommitsStale(end, t, order, id, account, e, 1_000_000, r, approved);
  }

  /**
   * Exactly when the account read now is the request's own at every later commit: the request is gone, or is
   * APPROVED, CANCELLED or ACCOUNTED by now, or this payment cannot be committed at all, because its key is taken
   * or its amount is not positive.
   */
  lemma SafeExactlyWhen(s: State, t: nat, r: nat)
    requires AboutToRead(s, t, r)
    ensures Safe(s, t, r) <==>
      || r !in s.db.requests || !StillOpen(s.db.requests[r].status)
      || KeyUsed(s.db, s.clients[t].order.key) || s.clients[t].order.amount <= 0
  {
    if r !in s.db.requests || KeyUsed(s.db, s.clients[t].order.key) || s.clients[t].order.amount <= 0 {
      forall actions ensures !Enabled(Run(Step(s, ReadRequest(t)), actions), Action.Commit(t)) {
        HopelessIsSafe(s, t, r, actions);
      }
    } else if !StillOpen(s.db.requests[r].status) {
      forall actions | Enabled(Run(Step(s, ReadRequest(t)), actions), Action.Commit(t))
        ensures PaysOwnAccount(Run(Step(s, ReadRequest(t)), actions), t, r)
      {
        ClosedIsSafe(s, t, r, actions);
      }
    } else {
      var account := s.db.requests[r].expenseAccount;
      var actions := OpenGoesStale(s, t, r, account + 1);
      assert !PaysOwnAccount(Run(Step(s, ReadRequest(t)), actions), t, r);
    }
  }

  // ---------- The account always was the request's ----------

  /** At some moment of the run the request named this account. */
  predicate WasNamed(actions: seq<Action>, r: nat, account: nat) {
    exists k :: 0 <= k <= |actions| && NamedAt(Run(Initial(), actions[..k]), r, account)
  }

  predicate NamedAt(s: State, r: nat, account: nat) {
    r in s.db.requests && s.db.requests[r].expenseAccount == account
  }

  lemma StillNamed(actions: seq<Action>, a: Action, r: nat, account: nat)
    requires WasNamed(actions, r, account)
    ensures WasNamed(actions + [a], r, account)
  {
    var k :| 0 <= k <= |actions| && NamedAt(Run(Initial(), actions[..k]), r, account);
    assert (actions + [a])[..k] == actions[..k];
  }

  lemma NamedNow(actions: seq<Action>, a: Action, r: nat, account: nat)
    requires NamedAt(Run(Initial(), actions), r, account)
    ensures WasNamed(actions + [a], r, account)
  {
    assert (actions + [a])[..|actions|] == actions;
  }

  /** A payer that has read an account, or a committed payment: of which request, and which account. */
  predicate Relies(c: Client, r: nat, account: nat) {
    c.Payer? && c.order.request == Some(r) && (c.phase.Resolved? || c.phase.HoldsPayment()) && c.phase.counterAccount == account
  }

  predicate Booked(db: Committed, id: nat, r: nat, account: nat) {
    id in db.payments && db.payments[id].request == Some(r) && db.payments[id].counterAccount == account
  }

  ghost predicate AllNamed(actions: seq<Action>) {
    var s := Run(Initial(), actions);
    && (forall t, r, account :: t in s.clients && Relies(s.clients[t], r, account) ==> WasNamed(actions, r, account))
    && (forall id, r, account :: Booked(s.db, id, r, account) ==> WasNamed(actions, r, account))
  }

  lemma StepRelies(s: State, a: Action, t: nat, r: nat, account: nat)
    requires t in Step(s, a).clients && Relies(Step(s, a).clients[t], r, account)
    ensures (t in s.clients && Relies(s.clients[t], r, account)) || NamedAt(s, r, account)
  {
  }

  lemma StepBooks(s: State, a: Action, id: nat, r: nat, account: nat)
    requires Booked(Step(s, a).db, id, r, account)
    ensures Booked(s.db, id, r, account) || exists t :: t in s.clients && Relies(s.clients[t], r, account)
  {
    if !(Enabled(s, a) && a.Commit?) {
      OnlyCommitsAddPayments(s, a);
    } else if !Booked(s.db, id, r, account) {
      assert Relies(s.clients[a.t], r, account);
    }
  }

  lemma {:induction false} AlwaysNamed(actions: seq<Action>)
    ensures AllNamed(actions)
  {
    if actions != [] {
      var before, a := actions[..|actions| - 1], actions[|actions| - 1];
      AlwaysNamed(before);
      assert before + [a] == actions;
      var s := Run(Initial(), before);
      assert Run(Initial(), actions) == Step(s, a);
      forall t, r, account | t in Step(s, a).clients && Relies(Step(s, a).clients[t], r, account)
        ensures WasNamed(actions, r, account)
      {
        StepRelies(s, a, t, r, account);
        if NamedAt(s, r, account) {
          NamedNow(before, a, r, account);
        } else {
          StillNamed(before, a, r, account);
        }
      }
      forall id, r, account | Booked(Step(s, a).db, id, r, account)
        ensures WasNamed(actions, r, account)
      {
        StepBooks(s, a, id, r, account);
        StillNamed(before, a, r, account);
      }
    }
  }

  /** Whatever the interleaving, a payment is booked against an account its request named at some earlier moment. */
  lemma AccountWasTheRequests(actions: seq<Action>, id: nat, r: nat)
    requires id in Run(Initial(), actions).db.payments && Run(Initial(), actions).db.payments[id].request == Some(r)
    ensures WasNamed(actions, r, Run(Initial(), actions).db.payments[id].counterAccount)
  {
    AlwaysNamed(actions);
    assert Booked(Run(Initial(), actions).db, id, r, Run(Initial(), actions).db.payments[id].counterAccount);
  }
}
