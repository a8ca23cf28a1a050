/**
 * Concurrent payments, step by step. Any number of callers run `execute` next to
 * request decisions; every transaction may abort at any step. Rows a transaction has
 * written stay in the caller's phase until it commits, so nobody else sees them.
 *
 * The unique index: an insert waits while another open transaction holds the same key,
 * fails if a committed row has it, and otherwise goes through. Row locks are held to
 * the end of the transaction, and taking one re-reads the latest committed row.
 */
module PaymentProtocol {
  import opened Folds
  import opened Tables
  import opened Posting
  import Payments
  import Runs

  // ---------- Committed tables ----------

  /** A journal entry that names a payment as its source, with its lines. */
  datatype EntryRow = EntryRow(payment: nat, lines: seq<Line>)

  datatype Committed = Committed(
    payments: map<nat, Payment>, entries: map<nat, EntryRow>, requests: map<nat, ExpenseRequest>)

  predicate KeyUsed(db: Committed, key: string) {
    exists id :: id in db.payments && db.payments[id].key == key
  }

  // ---------- Callers ----------

  datatype Outcome = Returned(payment: nat) | Refused | Aborted | Rethrown

  datatype Phase =
    | Called
    | Checked
    | Begun
    | Resolved(counterAccount: nat)
    | Inserted(id: nat, counterAccount: nat)
    | Posted(id: nat, counterAccount: nat, entry: nat, rate: int)
    | Paid(id: nat, counterAccount: nat, entry: nat, rate: int, row: ExpenseRequest)
    | Accounted(id: nat, counterAccount: nat, entry: nat, rate: int, row: ExpenseRequest)
    | Recovering
    | Finished(outcome: Outcome)
  {
    predicate HoldsPayment() { Inserted? || Posted? || Paid? || Accounted? }

    predicate HoldsEntry() { Posted? || Paid? || Accounted? }

    predicate HoldsRequest() { Paid? || Accounted? }
  }

  datatype Stage = Waiting | Holding(row: ExpenseRequest) | Done

  datatype Client =
    | Payer(order: Payments.PaymentOrder, phase: Phase)
    | Decider(request: nat, decision: Payments.RequestDecision, actor: nat, stage: Stage)
  {
    /** The transaction has inserted its payment row and not ended yet. */
    predicate HoldsPayment() { Payer? && phase.HoldsPayment() }

    predicate HoldsEntry() { Payer? && phase.HoldsEntry() }

    function Lock(): Option<nat> {
      if Payer? && phase.HoldsRequest() then order.request
      else if Decider? && stage.Holding? then Some(request)
      else None
    }

    predicate InTransaction() {
      if Payer? then phase.Begun? || phase.Resolved? || phase.HoldsPayment() else stage.Holding?
    }

    function Abandoned(): Client {
      if Payer? then this.(phase := Finished(Aborted)) else this.(stage := Done)
    }

    /** Nothing is left to do but commit. */
    predicate Ready() {
      Payer? && (phase.Accounted? || (phase.Posted? && order.request.None?))
    }
  }

  datatype State = State(db: Committed, clients: map<nat, Client>)

  function Initial(): State { State(Committed(map[], map[], map[]), map[]) }

  predicate Locked(s: State, request: nat) {
    exists t :: t in s.clients && s.clients[t].Lock() == Some(request)
  }

  predicate KeyHeld(s: State, key: string) {
    exists t :: t in s.clients && s.clients[t].HoldsPayment() && s.clients[t].order.key == key
  }

  predicate FreshPayment(s: State, id: nat) {
    id !in s.db.payments && forall t :: t in s.clients && s.clients[t].HoldsPayment() ==> s.clients[t].phase.id != id
  }

  predicate FreshEntry(s: State, e: nat) {
    e !in s.db.entries && forall t :: t in s.clients && s.clients[t].HoldsEntry() ==> s.clients[t].phase.entry != e
  }

  // ---------- Steps ----------

  /**
   * Every source of nondeterminism is in the action: who moves, fresh ids, which row a lookup returns, the
   * exchange rate. A missing rate, a closed month or an unusable account is an abort.
   */
  datatype Action =
    | Call(t: nat, order: Payments.PaymentOrder)
    | PreCheck(t: nat, found: Option<nat>)
    | Begin(t: nat)
    | ReadRequest(t: nat)
    | Insert(t: nat, id: nat)
    | Post(t: nat, entry: nat, rate: int)
    | LockRequest(t: nat)
    | Flip(t: nat)
    | Commit(t: nat)
    | Abort(t: nat)
    | Recover(t: nat, found: Option<nat>)
    | Ask(t: nat, request: nat, decision: Payments.RequestDecision, actor: nat)
    | LockDecision(t: nat)
    | CommitDecision(t: nat)
    | CreateRequest(request: nat, draft: Payments.RequestDraft, actor: nat)
    | UpdateRequest(request: nat, patch: Payments.RequestPatch, actor: nat)

  predicate AtPhase(s: State, t: nat) { t in s.clients && s.clients[t].Payer? }

  /** A lookup by key: some committed row with it, or none when there is none. */
  predicate LookupResult(db: Committed, key: string, found: Option<nat>) {
    if found.Some? then found.value in db.payments && db.payments[found.value].key == key else !KeyUsed(db, key)
  }

  predicate MayDecide(row: ExpenseRequest, decision: Payments.RequestDecision, actor: nat) {
    row.status.Allows(decision.Next()) && (decision.OwnerOnly() ==> row.requestedBy == actor)
  }

  predicate MayEdit(row: ExpenseRequest, actor: nat) { row.requestedBy == actor && row.status.Editable() }

  predicate Enabled(s: State, a: Action) {
    match a
    case Call(t, _) => t !in s.clients
    case PreCheck(t, found) =>
      AtPhase(s, t) && s.clients[t].phase.Called? && LookupResult(s.db, s.clients[t].order.key, found)
    case Begin(t) => AtPhase(s, t) && s.clients[t].phase.Checked?
    case ReadRequest(t) => AtPhase(s, t) && s.clients[t].phase.Begun?
    case Insert(t, id) =>
      AtPhase(s, t) && s.clients[t].phase.Resolved? && !KeyHeld(s, s.clients[t].order.key) && FreshPayment(s, id)
    case Post(t, e, _) => AtPhase(s, t) && s.clients[t].phase.Inserted? && FreshEntry(s, e)
    case LockRequest(t) =>
      && AtPhase(s, t) && s.clients[t].phase.Posted? && s.clients[t].order.request.Some?
      && !Locked(s, s.clients[t].order.request.value)
    case Flip(t) => AtPhase(s, t) && s.clients[t].phase.Paid?
    case Commit(t) => t in s.clients && s.clients[t].Ready()
    case Abort(t) => t in s.clients && s.clients[t].InTransaction()
    case Recover(t, found) =>
      AtPhase(s, t) && s.clients[t].phase.Recovering? && LookupResult(s.db, s.clients[t].order.key, found)
    case Ask(t, _, _, _) => t !in s.clients
    case LockDecision(t) =>
      t in s.clients && s.clients[t].Decider? && s.clients[t].stage.Waiting? && !Locked(s, s.clients[t].request)
    case CommitDecision(t) => t in s.clients && s.clients[t].Decider? && s.clients[t].stage.Holding?
    case CreateRequest(r, _, _) => r !in s.db.requests
    case UpdateRequest(r, _, actor) => r in s.db.requests && MayEdit(s.db.requests[r], actor) && !Locked(s, r)
  }

  function Move(s: State, t: nat, c: Client): State { s.(clients := s.clients[t := c]) }

  function To(s: State, t: nat, phase: Phase): State
    requires AtPhase(s, t)
  {
    Move(s, t, s.clients[t].(phase := phase))
  }

  function PaidRow(row: ExpenseRequest, id: nat): ExpenseRequest {
    row.(status := RequestStatus.Paid, payment := Some(id))
  }

  function AccountedRow(row: ExpenseRequest, entry: nat): ExpenseRequest {
    row.(status := RequestStatus.Accounted, entry := Some(entry))
  }

  /** The lines handed to the posting service. */
  function LinesToPost(order: Payments.PaymentOrder, counterAccount: nat, rate: int): seq<PostingLine> {
    Payments.PaymentPostings(Payments.PendingRow(order, counterAccount), rate)
  }

  function PaymentRow(order: Payments.PaymentOrder, counterAccount: nat, rate: int, entry: nat): Payment {
    Payments.ExecutedRow(Payments.PendingRow(order, counterAccount), rate, entry)
  }

  /** The rows of a payment as it is committed, beside the row of its request. */
  function WithPayment(db: Committed, id: nat, row: Payment, e: nat, entry: EntryRow): Committed {
    db.(payments := db.payments[id := row], entries := db.entries[e := entry])
  }

  function WithRequest(db: Committed, r: nat, row: ExpenseRequest): Committed { db.(requests := db.requests[r := row]) }

  /** The rows a payer's transaction publishes when it commits. */
  function Publish(db: Committed, c: Client): Committed
    requires c.Ready()
  {
    var p := c.phase;
    var paid := WithPayment(db, p.id, PaymentRow(c.order, p.counterAccount, p.rate, p.entry), p.entry,
                            EntryRow(p.id, Map(LinesToPost(c.order, p.counterAccount, p.rate), Stored(p.entry))));
    if p.Accounted? && c.order.request.Some? then WithRequest(paid, c.order.request.value, p.row) else paid
  }

  /** A disabled action leaves the state as it is. */
  function Step(s: State, a: Action): State {
    if !Enabled(s, a) then s
    else
      match a
      case Call(t, order) => Move(s, t, Payer(order, Called))
      case PreCheck(t, found) => To(s, t, if found.Some? then Finished(Returned(found.value)) else Checked)
      case Begin(t) =>
        var order := s.clients[t].order;
        To(s, t, if order.request.None? && order.counterAccount.None? then Finished(Refused) else Begun)
      case ReadRequest(t) =>
        var order := s.clients[t].order;
        if order.request.Some? then
          if order.request.value in s.db.requests
          then To(s, t, Resolved(s.db.requests[order.request.value].expenseAccount))
          else To(s, t, Finished(Refused))
        else if order.counterAccount.Some? then To(s, t, Resolved(order.counterAccount.value))
        else To(s, t, Finished(Aborted))
      case Insert(t, id) =>
        if KeyUsed(s.db, s.clients[t].order.key) then To(s, t, Recovering)
        else To(s, t, Inserted(id, s.clients[t].phase.counterAccount))
      case Post(t, e, rate) =>
        var p := s.clients[t].phase;
        if ValidLines(LinesToPost(s.clients[t].order, p.counterAccount, rate))
        then To(s, t, Phase.Posted(p.id, p.counterAccount, e, rate))
        else To(s, t, Finished(Refused))
      case LockRequest(t) =>
        var p, r := s.clients[t].phase, s.clients[t].order.request.value;
        if r in s.db.requests && s.db.requests[r].status.Approved?
        then To(s, t, Phase.Paid(p.id, p.counterAccount, p.entry, p.rate, PaidRow(s.db.requests[r], p.id)))
        else To(s, t, Finished(Refused))
      case Flip(t) =>
        var p := s.clients[t].phase;
        To(s, t, Phase.Accounted(p.id, p.counterAccount, p.entry, p.rate, AccountedRow(p.row, p.entry)))
      case Commit(t) =>
        var c := s.clients[t];
        State(Publish(s.db, c), s.clients[t := c.(phase := Finished(Returned(c.phase.id)))])
      case Abort(t) => Move(s, t, s.clients[t].Abandoned())
      case Recover(t, found) => To(s, t, Finished(if found.Some? then Returned(found.value) else Rethrown))
      case Ask(t, r, decision, actor) => Move(s, t, Decider(r, decision, actor, Waiting))
      case LockDecision(t) =>
        var c := s.clients[t];
        if c.request in s.db.requests && MayDecide(s.db.requests[c.request], c.decision, c.actor)
        then Move(s, t, c.(stage := Holding(s.db.requests[c.request])))
        else Move(s, t, c.(stage := Done))
      case CommitDecision(t) =>
        var c := s.clients[t];
        State(WithRequest(s.db, c.request, c.stage.row.(status := c.decision.Next())), s.clients[t := c.(stage := Done)])
      case CreateRequest(r, draft, actor) => s.(db := WithRequest(s.db, r, Payments.DraftRequest(draft, actor)))
      case UpdateRequest(r, patch, _) =>
        s.(db := WithRequest(s.db, r, Payments.PatchedRequest(s.db.requests[r], patch)))
  }

  /** Any interleaving is a sequence of actions. */
  function Run(s: State, actions: seq<Action>): State { Runs.Run(Step, s, actions) }

  // ---------- The invariant ----------

  /** A payment is EXECUTED, its entry names it, and the entry's lines are what it posts at its rate. */
  predicate PaymentOk(db: Committed, id: nat)
    requires id in db.payments
  {
    var row := db.payments[id];
    && row.status.Executed? && row.entry.Some? && row.entry.value in db.entries
    && ValidLines(Payments.PaymentPostings(row, row.rate))
    && db.entries[row.entry.value] == EntryRow(id, Map(Payments.PaymentPostings(row, row.rate), Stored(row.entry.value)))
  }

  /** An entry names a payment that knows it. */
  predicate EntryNamed(db: Committed, e: nat)
    requires e in db.entries
  {
    db.entries[e].payment in db.payments && db.payments[db.entries[e].payment].entry == Some(e)
  }

  ghost predicate PaymentRowsOk(db: Committed) {
    && (forall id :: id in db.payments ==> PaymentOk(db, id))
    && (forall e :: e in db.entries ==> EntryNamed(db, e))
    && (forall i, j :: i in db.payments && j in db.payments && db.payments[i].key == db.payments[j].key ==> i == j)
  }

  predicate RequestOk(db: Committed, r: nat)
    requires r in db.requests
  {
    var row := db.requests[r];
    && !row.status.Paid?
    && (row.status.Accounted? <==> row.payment.Some?)
    && (row.payment.None? ==> row.entry.None?)
    && (row.payment.Some? ==>
          && row.payment.value in db.payments
          && db.payments[row.payment.value].request == Some(r)
          && db.payments[row.payment.value].entry == row.entry)
  }

  ghost predicate RequestRowsOk(db: Committed) {
    && (forall r :: r in db.requests ==> RequestOk(db, r))
    && (forall id :: id in db.payments && db.payments[id].request.Some? ==>
          && db.payments[id].request.value in db.requests
          && db.requests[db.payments[id].request.value].payment == Some(id))
  }

  ghost predicate DbOk(db: Committed) { PaymentRowsOk(db) && RequestRowsOk(db) }

  /** The account an order without a request is booked against is the one it names. */
  predicate OwnAccount(order: Payments.PaymentOrder, counterAccount: nat) {
    order.request.None? ==> order.counterAccount == Some(counterAccount)
  }

  /** The request row is the committed one, APPROVED, with the payer's changes on top. */
  predicate HoldsApproved(db: Committed, c: Client)
    requires c.Payer? && c.phase.HoldsRequest()
  {
    var p := c.phase;
    && c.order.request.Some? && c.order.request.value in db.requests
    && db.requests[c.order.request.value].status.Approved?
    && var paid := PaidRow(db.requests[c.order.request.value], p.id);
       p.row == if p.Paid? then paid else AccountedRow(paid, p.entry)
  }

  ghost predicate PayerOk(db: Committed, c: Client)
    requires c.Payer?
  {
    && (c.HoldsPayment() ==> !KeyUsed(db, c.order.key) && c.phase.id !in db.payments)
    && (c.HoldsEntry() ==>
          c.phase.entry !in db.entries && ValidLines(LinesToPost(c.order, c.phase.counterAccount, c.phase.rate)))
    && (c.phase.Resolved? || c.HoldsPayment() ==> OwnAccount(c.order, c.phase.counterAccount))
    && (c.phase.HoldsRequest() ==> HoldsApproved(db, c))
    && (c.phase.Recovering? ==> KeyUsed(db, c.order.key))
    && (c.phase.Finished? ==>
          match c.phase.outcome
          case Returned(id) => id in db.payments && db.payments[id].key == c.order.key
          case outcome => !outcome.Rethrown?)
  }

  predicate DeciderOk(db: Committed, c: Client)
    requires c.Decider?
  {
    c.stage.Holding? ==>
      && c.request in db.requests && db.requests[c.request] == c.stage.row
      && MayDecide(c.stage.row, c.decision, c.actor)
  }

  /** What a caller's phase says about the committed tables. */
  ghost predicate ClientOk(db: Committed, c: Client) { if c.Payer? then PayerOk(db, c) else DeciderOk(db, c) }

  /** Two open transactions never hold the same key, the same new row or the same lock. */
  predicate Apart(c: Client, d: Client) {
    && (c.HoldsPayment() && d.HoldsPayment() ==> c.order.key != d.order.key && c.phase.id != d.phase.id)
    && (c.HoldsEntry() && d.HoldsEntry() ==> c.phase.entry != d.phase.entry)
    && (c.Lock().Some? ==> c.Lock() != d.Lock())
  }

  ghost predicate ClientsOk(s: State) {
    && (forall t :: t in s.clients ==> ClientOk(s.db, s.clients[t]))
    && (forall t, u :: t in s.clients && u in s.clients && t != u ==> Apart(s.clients[t], s.clients[u]))
  }

  ghost predicate Inv(s: State) { DbOk(s.db) && ClientsOk(s) }

  // ---------- Steps inside a transaction ----------

  /** A client whose move only gives things up stays apart from the others. */
  predicate HoldsLess(c': Client, c: Client) {
    && (c'.HoldsPayment() ==> c.HoldsPayment() && c'.order == c.order && c'.phase.id == c.phase.id)
    && (c'.HoldsEntry() ==> c.HoldsEntry() && c'.phase.entry == c.phase.entry)
    && (c'.Lock().Some? ==> c'.Lock() == c.Lock())
  }

  lemma LocalMove(s: State, t: nat, c: Client)
    requires Inv(s) && ClientOk(s.db, c)
    requires forall u :: u in s.clients && u != t ==> Apart(c, s.clients[u]) && Apart(s.clients[u], c)
    ensures Inv(Move(s, t, c))
  {
  }

  lemma LocalRelease(s: State, t: nat, c: Client)
    requires Inv(s) && t in s.clients && ClientOk(s.db, c) && HoldsLess(c, s.clients[t])
    ensures Inv(Move(s, t, c))
  {
    forall u | u in s.clients && u != t ensures Apart(c, s.clients[u]) && Apart(s.clients[u], c) {
      assert Apart(s.clients[t], s.clients[u]) && Apart(s.clients[u], s.clients[t]);
    }
    LocalMove(s, t, c);
  }

  predicate ReadOnlyStep(a: Action) {
    a.Call? || a.PreCheck? || a.Begin? || a.ReadRequest? || a.Flip? || a.Abort? || a.Recover? || a.Ask?
  }

  lemma NewClientOk(s: State, a: Action)
    requires Enabled(s, a) && (a.Call? || a.Ask?)
    ensures Step(s, a) == Move(s, a.t, Step(s, a).clients[a.t]) && ClientOk(s.db, Step(s, a).clients[a.t])
    ensures a.t !in s.clients && HoldsNothing(Step(s, a).clients[a.t])
  {
  }

  lemma ReadOnlyClient(s: State, a: Action)
    requires Enabled(s, a) && ReadOnlyStep(a) && !a.Call? && !a.Ask? && ClientOk(s.db, s.clients[a.t])
    ensures Step(s, a) == Move(s, a.t, Step(s, a).clients[a.t]) && ClientOk(s.db, Step(s, a).clients[a.t])
    ensures a.t in s.clients && HoldsLess(Step(s, a).clients[a.t], s.clients[a.t])
  {
    hide ValidLines;
    hide LinesToPost;
  }

  predicate HoldsNothing(c: Client) { !c.HoldsPayment() && !c.HoldsEntry() && c.Lock().None? }

  lemma ReadOnlyKeeps(s: State, a: Action)
    requires Inv(s) && Enabled(s, a) && ReadOnlyStep(a)
    ensures Inv(Step(s, a))
  {
    var c := Step(s, a).clients[a.t];
    if a.Call? || a.Ask? {
      NewClientOk(s, a);
      LocalMove(s, a.t, c);
    } else {
      assert ClientOk(s.db, s.clients[a.t]);
      ReadOnlyClient(s, a);
      LocalRelease(s, a.t, c);
    }
  }

  lemma InsertedClient(s: State, a: Action)
    requires Enabled(s, a) && a.Insert? && ClientOk(s.db, s.clients[a.t])
    ensures Step(s, a) == Move(s, a.t, Step(s, a).clients[a.t]) && ClientOk(s.db, Step(s, a).clients[a.t])
    ensures Step(s, a).clients[a.t].Payer? && Step(s, a).clients[a.t].order == s.clients[a.t].order
    ensures Step(s, a).clients[a.t].phase.Recovering? || Step(s, a).clients[a.t].phase == Inserted(a.id, s.clients[a.t].phase.counterAccount)
  {
  }

  lemma InsertKeeps(s: State, a: Action)
    requires Inv(s) && Enabled(s, a) && a.Insert?
    ensures Inv(Step(s, a))
  {
    var c := Step(s, a).clients[a.t];
    assert ClientOk(s.db, s.clients[a.t]);
    InsertedClient(s, a);
    forall u | u in s.clients && u != a.t ensures Apart(c, s.clients[u]) && Apart(s.clients[u], c) {
      assert !(s.clients[u].HoldsPayment() && s.clients[u].order.key == s.clients[a.t].order.key);
    }
    LocalMove(s, a.t, c);
  }

  lemma PostKeeps(s: State, a: Action)
    requires Inv(s) && Enabled(s, a) && a.Post?
    ensures Inv(Step(s, a))
  {
    var c := Step(s, a).clients[a.t];
    assert ClientOk(s.db, s.clients[a.t]);
    forall u | u in s.clients && u != a.t ensures Apart(c, s.clients[u]) && Apart(s.clients[u], c) {
      assert Apart(s.clients[a.t], s.clients[u]);
    }
    LocalMove(s, a.t, c);
  }

  lemma LockKeeps(s: State, a: Action)
    requires Inv(s) && Enabled(s, a) && (a.LockRequest? || a.LockDecision?)
    ensures Inv(Step(s, a))
  {
    var c := Step(s, a).clients[a.t];
    assert ClientOk(s.db, s.clients[a.t]);
    forall u | u in s.clients && u != a.t ensures Apart(c, s.clients[u]) && Apart(s.clients[u], c) {
      assert Apart(s.clients[a.t], s.clients[u]);
      var wanted := if a.LockRequest? then s.clients[a.t].order.request.value else s.clients[a.t].request;
      assert s.clients[u].Lock() != Some(wanted);
    }
    LocalMove(s, a.t, c);
  }

  // ---------- Commits ----------

  /** A new payment under an unused key, with its entry. */
  predicate NewPayment(db: Committed, id: nat, row: Payment, e: nat, entry: EntryRow) {
    && id !in db.payments && e !in db.entries && !KeyUsed(db, row.key)
    && row.status.Executed? && row.entry == Some(e) && ValidLines(Payments.PaymentPostings(row, row.rate))
    && entry == EntryRow(id, Map(Payments.PaymentPostings(row, row.rate), Stored(e)))
  }

  lemma OtherPaymentKept(db: Committed, id: nat, row: Payment, e: nat, entry: EntryRow, i: nat)
    requires PaymentRowsOk(db) && NewPayment(db, id, row, e, entry) && i in db.payments
    ensures PaymentOk(WithPayment(db, id, row, e, entry), i) && db.payments[i].key != row.key
  {
    assert PaymentOk(db, i);
    assert KeyUsed(db, db.payments[i].key);
  }

  lemma OtherEntryKept(db: Committed, id: nat, row: Payment, e: nat, entry: EntryRow, f: nat)
    requires PaymentRowsOk(db) && NewPayment(db, id, row, e, entry) && f in db.entries
    ensures EntryNamed(WithPayment(db, id, row, e, entry), f)
  {
    assert EntryNamed(db, f);
  }

  lemma NewPaymentOk(db: Committed, id: nat, row: Payment, e: nat, entry: EntryRow)
    requires NewPayment(db, id, row, e, entry)
    ensures PaymentOk(WithPayment(db, id, row, e, entry), id) && EntryNamed(WithPayment(db, id, row, e, entry), e)
  {
  }

  lemma PaymentKeepsPayments(db: Committed, id: nat, row: Payment, e: nat, entry: EntryRow)
    requires PaymentRowsOk(db) && NewPayment(db, id, row, e, entry)
    ensures PaymentRowsOk(WithPayment(db, id, row, e, entry))
  {
    var db' := WithPayment(db, id, row, e, entry);
    NewPaymentOk(db, id, row, e, entry);
    forall i | i in db.payments ensures PaymentOk(db', i) && db.payments[i].key != row.key {
      OtherPaymentKept(db, id, row, e, entry, i);
    }
    forall f | f in db.entries ensures EntryNamed(db', f) {
      OtherEntryKept(db, id, row, e, entry, f);
    }
  }

  lemma PaymentKeepsRequests(db: Committed, id: nat, row: Payment, e: nat, entry: EntryRow)
    requires RequestRowsOk(db) && NewPayment(db, id, row, e, entry) && row.request.None?
    ensures RequestRowsOk(WithPayment(db, id, row, e, entry))
  {
    var db' := WithPayment(db, id, row, e, entry);
    forall r | r in db'.requests ensures RequestOk(db', r) {
      assert RequestOk(db, r);
    }
  }

  lemma SettlementKeepsRequest(
      db: Committed, id: nat, row: Payment, e: nat, entry: EntryRow, r: nat, settled: ExpenseRequest, k: nat)
    requires RequestRowsOk(db) && NewPayment(db, id, row, e, entry) && row.request == Some(r)
    requires r in db.requests && db.requests[r].status.Approved? && k in db.requests
    requires settled == AccountedRow(PaidRow(db.requests[r], id), e)
    ensures RequestOk(WithRequest(WithPayment(db, id, row, e, entry), r, settled), k)
  {
    assert RequestOk(db, k);
  }

  lemma SettlementKeepsRequests(db: Committed, id: nat, row: Payment, e: nat, entry: EntryRow, r: nat, settled: ExpenseRequest)
    requires RequestRowsOk(db) && NewPayment(db, id, row, e, entry) && row.request == Some(r)
    requires r in db.requests && db.requests[r].status.Approved?
    requires settled == AccountedRow(PaidRow(db.requests[r], id), e)
    ensures RequestRowsOk(WithRequest(WithPayment(db, id, row, e, entry), r, settled))
  {
    var db' := WithRequest(WithPayment(db, id, row, e, entry), r, settled);
    assert RequestOk(db, r);
    forall k | k in db'.requests ensures RequestOk(db', k) {
      SettlementKeepsRequest(db, id, row, e, entry, r, settled, k);
    }
  }

  /** The payment a ready transaction is about to publish. */
  lemma ReadyPayment(db: Committed, c: Client)
    requires ClientOk(db, c) && c.Ready()
    ensures var p := c.phase;
      && NewPayment(db, p.id, PaymentRow(c.order, p.counterAccount, p.rate, p.entry), p.entry,
                    EntryRow(p.id, Map(LinesToPost(c.order, p.counterAccount, p.rate), Stored(p.entry))))
      && PaymentRow(c.order, p.counterAccount, p.rate, p.entry).key == c.order.key
      && PaymentRow(c.order, p.counterAccount, p.rate, p.entry).request == c.order.request
  {
    var p := c.phase;
    var row := PaymentRow(c.order, p.counterAccount, p.rate, p.entry);
    assert Payments.PaymentPostings(row, row.rate) == LinesToPost(c.order, p.counterAccount, p.rate);
  }

  lemma PublishKeepsDb(db: Committed, c: Client)
    requires DbOk(db) && ClientOk(db, c) && c.Ready()
    ensures DbOk(Publish(db, c))
  {
    var p := c.phase;
    var row := PaymentRow(c.order, p.counterAccount, p.rate, p.entry);
    var entry := EntryRow(p.id, Map(LinesToPost(c.order, p.counterAccount, p.rate), Stored(p.entry)));
    ReadyPayment(db, c);
    PaymentKeepsPayments(db, p.id, row, p.entry, entry);
    if c.order.request.None? {
      PaymentKeepsRequests(db, p.id, row, p.entry, entry);
    } else {
      SettlementKeepsRequests(db, p.id, row, p.entry, entry, c.order.request.value, p.row);
      PaymentsOnly(WithPayment(db, p.id, row, p.entry, entry), c.order.request.value, p.row);
    }
  }

  lemma PaymentsOnly(db: Committed, r: nat, row: ExpenseRequest)
    requires PaymentRowsOk(db)
    ensures PaymentRowsOk(WithRequest(db, r, row))
  {
    var db' := WithRequest(db, r, row);
    forall i | i in db'.payments ensures PaymentOk(db', i) {
      assert PaymentOk(db, i);
    }
    forall e | e in db'.entries ensures EntryNamed(db', e) {
      assert EntryNamed(db, e);
    }
  }

  /** Who holds another key, other rows and another lock does not notice a new payment. */
  lemma OthersAfterPayment(db: Committed, id: nat, row: Payment, e: nat, entry: EntryRow, d: Client)
    requires NewPayment(db, id, row, e, entry) && ClientOk(db, d)
    requires d.HoldsPayment() ==> d.order.key != row.key && d.phase.id != id
    requires d.HoldsEntry() ==> d.phase.entry != e
    ensures ClientOk(WithPayment(db, id, row, e, entry), d)
  {
    var db' := WithPayment(db, id, row, e, entry);
    if d.Payer? && KeyUsed(db, d.order.key) {
      var i :| i in db.payments && db.payments[i].key == d.order.key;
      assert i in db'.payments && db'.payments[i].key == d.order.key;
    }
  }

  /** Who does not lock the request does not notice that its row is replaced. */
  lemma OthersAfterRewrite(db: Committed, r: nat, row: ExpenseRequest, c: Client)
    requires ClientOk(db, c) && c.Lock() != Some(r)
    ensures ClientOk(WithRequest(db, r, row), c)
  {
    if c.Payer? {
      assert KeyUsed(WithRequest(db, r, row), c.order.key) <==> KeyUsed(db, c.order.key);
    }
  }

  lemma OthersAfterPublish(db: Committed, c: Client, d: Client)
    requires ClientOk(db, c) && ClientOk(db, d) && c.Ready() && Apart(c, d)
    ensures ClientOk(Publish(db, c), d)
  {
    var p := c.phase;
    var row := PaymentRow(c.order, p.counterAccount, p.rate, p.entry);
    var entry := EntryRow(p.id, Map(LinesToPost(c.order, p.counterAccount, p.rate), Stored(p.entry)));
    ReadyPayment(db, c);
    OthersAfterPayment(db, p.id, row, p.entry, entry, d);
    if p.Accounted? && c.order.request.Some? {
      OthersAfterRewrite(WithPayment(db, p.id, row, p.entry, entry), c.order.request.value, p.row, d);
    }
  }

  /** The client itself, once it has its answer. */
  lemma AfterOwnPublish(db: Committed, c: Client)
    requires ClientOk(db, c) && c.Ready()
    ensures ClientOk(Publish(db, c), c.(phase := Finished(Returned(c.phase.id))))
  {
    ReadyPayment(db, c);
  }

  /** A client that lets go of everything stays apart from all others. */
  lemma ReleasedApart(clients: map<nat, Client>, t: nat, c: Client)
    requires HoldsNothing(c) && t in clients
    requires forall u, v :: u in clients && v in clients && u != v ==> Apart(clients[u], clients[v])
    ensures forall u, v :: u in clients && v in clients && u != v ==>
              Apart(clients[t := c][u], clients[t := c][v])
  {
    forall u, v | u in clients && v in clients && u != v ensures Apart(clients[t := c][u], clients[t := c][v]) {
      assert Apart(clients[u], clients[v]);
    }
  }

  lemma OthersAfterCommit(s: State, t: nat)
    requires ClientsOk(s) && t in s.clients && s.clients[t].Ready()
    ensures forall u :: u in s.clients && u != t ==> ClientOk(Publish(s.db, s.clients[t]), s.clients[u])
  {
    forall u | u in s.clients && u != t ensures ClientOk(Publish(s.db, s.clients[t]), s.clients[u]) {
      assert Apart(s.clients[t], s.clients[u]);
      OthersAfterPublish(s.db, s.clients[t], s.clients[u]);
    }
  }

  lemma CommitKeeps(s: State, a: Action)
    requires Inv(s) && Enabled(s, a) && a.Commit?
    ensures Inv(Step(s, a))
  {
    hide DbOk;
    hide ClientOk;
    hide Publish;
    hide Apart;
    var c := s.clients[a.t];
    var s' := Step(s, a);
    PublishKeepsDb(s.db, c);
    AfterOwnPublish(s.db, c);
    OthersAfterCommit(s, a.t);
    ReleasedApart(s.clients, a.t, c.(phase := Finished(Returned(c.phase.id))));
  }

  /** A committed request row may be replaced while it is not settled. */
  lemma RequestRewrite(db: Committed, r: nat, row: ExpenseRequest)
    requires DbOk(db)
    requires r in db.requests ==> row.payment == db.requests[r].payment && row.entry == db.requests[r].entry
    requires r !in db.requests ==> row.payment.None? && row.entry.None?
    requires !row.status.Paid? && !row.status.Accounted?
    requires r in db.requests ==> !db.requests[r].status.Accounted?
    ensures DbOk(WithRequest(db, r, row))
  {
    var db' := WithRequest(db, r, row);
    PaymentsOnly(db, r, row);
    forall k | k in db'.requests ensures RequestOk(db', k) {
      if k in db.requests {
        assert RequestOk(db, k);
      }
    }
  }

  lemma DecisionKeeps(s: State, a: Action)
    requires Inv(s) && Enabled(s, a) && a.CommitDecision?
    ensures Inv(Step(s, a))
  {
    var c := s.clients[a.t];
    assert ClientOk(s.db, c);
    var row := c.stage.row.(status := c.decision.Next());
    var s' := Step(s, a);
    DecidedRow(s.db, c);
    RequestRewrite(s.db, c.request, row);
    forall u | u in s.clients && u != a.t ensures ClientOk(s'.db, s.clients[u]) {
      assert Apart(c, s.clients[u]);
      OthersAfterRewrite(s.db, c.request, row, s.clients[u]);
    }
    ReleasedApart(s.clients, a.t, c.(stage := Done));
  }

  /** A decision leads to no settled status, and from none. */
  lemma DecidedRow(db: Committed, c: Client)
    requires c.Decider? && c.stage.Holding? && ClientOk(db, c)
    ensures c.request in db.requests && c.stage.row == db.requests[c.request]
    ensures !c.stage.row.status.Accounted? && !c.decision.Next().Paid? && !c.decision.Next().Accounted?
  {
  }

  lemma RequestEditKeeps(s: State, a: Action)
    requires Inv(s) && Enabled(s, a) && (a.CreateRequest? || a.UpdateRequest?)
    ensures Inv(Step(s, a))
  {
    var row := if a.CreateRequest? then Payments.DraftRequest(a.draft, a.actor)
               else Payments.PatchedRequest(s.db.requests[a.request], a.patch);
    RequestRewrite(s.db, a.request, row);
    forall u | u in s.clients ensures ClientOk(WithRequest(s.db, a.request, row), s.clients[u]) {
      NotLocking(s, a, u);
      OthersAfterRewrite(s.db, a.request, row, s.clients[u]);
    }
  }

  lemma NotLocking(s: State, a: Action, u: nat)
    requires ClientsOk(s) && Enabled(s, a) && (a.CreateRequest? || a.UpdateRequest?) && u in s.clients
    ensures s.clients[u].Lock() != Some(a.request)
  {
    assert ClientOk(s.db, s.clients[u]);
  }

  lemma StepKeeps(s: State, a: Action)
    requires Inv(s)
    ensures Inv(Step(s, a))
  {
    if Enabled(s, a) {
      if ReadOnlyStep(a) {
        ReadOnlyKeeps(s, a);
      } else if a.Insert? {
        InsertKeeps(s, a);
      } else if a.Post? {
        PostKeeps(s, a);
      } else if a.LockRequest? || a.LockDecision? {
        LockKeeps(s, a);
      } else if a.Commit? {
        CommitKeeps(s, a);
      } else if a.CommitDecision? {
        DecisionKeeps(s, a);
      } else {
        RequestEditKeeps(s, a);
      }
    }
  }

  /** Every interleaving keeps the invariant. */
  lemma RunKeeps(s: State, actions: seq<Action>)
    requires Inv(s)
    ensures Inv(Run(s, actions))
  {
    forall t, a | Inv(t) ensures Inv(Step(t, a)) {
      StepKeeps(t, a);
    }
    Runs.Keeps(Step, Inv, s, actions);
  }

  lemma Reachable(actions: seq<Action>)
    ensures Inv(Run(Initial(), actions))
  {
    RunKeeps(Initial(), actions);
  }

  // ---------- Results ----------

  /**
   * At most one committed payment per key; each is EXECUTED and named by exactly its own
   * journal entry; no payment entry exists without its committed payment.
   */
  lemma AtMostOncePerKey(actions: seq<Action>)
    ensures var db := Run(Initial(), actions).db;
      && (forall i, j :: i in db.payments && j in db.payments && db.payments[i].key == db.payments[j].key ==> i == j)
      && (forall i :: i in db.payments ==> db.payments[i].status.Executed? && db.payments[i].entry.Some?)
      && (forall e :: e in db.entries ==> db.entries[e].payment in db.payments)
      && (forall i, e :: i in db.payments ==>
            ((e in db.entries && db.entries[e].payment == i) <==> db.payments[i].entry == Some(e)))
  {
    Reachable(actions);
    var db := Run(Initial(), actions).db;
    forall i | i in db.payments
      ensures db.payments[i].status.Executed? && db.payments[i].entry.Some?
      ensures db.payments[i].entry.value in db.entries && db.entries[db.payments[i].entry.value].payment == i
    {
      assert PaymentOk(db, i);
    }
    forall e | e in db.entries ensures EntryNamed(db, e) {
    }
  }

  /**
   * Whatever the interleaving, a payment's entry is good, and nets for every selection of keys to what the payment
   * says, at the amount converted with its rate.
   */
  lemma EntrySaysThePayment(actions: seq<Action>, e: nat, p: LineKey -> bool)
    requires e in Run(Initial(), actions).db.entries
    ensures var db := Run(Initial(), actions).db;
      && db.entries[e].payment in db.payments
      && GoodLines(db.entries[e].lines)
      && Sum(db.entries[e].lines, Net(p)) == Payments.PaymentNet(db.payments[db.entries[e].payment], p)
  {
    Reachable(actions);
    var db := Run(Initial(), actions).db;
    assert EntryNamed(db, e);
    var row := db.payments[db.entries[e].payment];
    assert PaymentOk(db, db.entries[e].payment);
    var lines := Payments.PaymentPostings(row, row.rate);
    Payments.PaymentPostingsMeaning(row, row.rate, e, p);
    StoredLinesGood(lines, e);
    StoredNet(lines, e, p);
  }

  predicate Answered(s: State, t: nat) {
    AtPhase(s, t) && s.clients[t].phase.Finished? && s.clients[t].phase.outcome.Returned?
  }

  /** Whoever got an answer for a key got the same committed payment of that key. */
  lemma SameAnswerForEveryone(actions: seq<Action>, t: nat, u: nat)
    requires var s := Run(Initial(), actions);
      Answered(s, t) && Answered(s, u) && s.clients[t].order.key == s.clients[u].order.key
    ensures var s := Run(Initial(), actions);
      && s.clients[t].phase.outcome == s.clients[u].phase.outcome
      && s.clients[t].phase.outcome.payment in s.db.payments
      && s.db.payments[s.clients[t].phase.outcome.payment].key == s.clients[t].order.key
  {
    Reachable(actions);
    var s := Run(Initial(), actions);
    assert ClientOk(s.db, s.clients[t]) && ClientOk(s.db, s.clients[u]);
  }

  /** After a unique violation the winner's row is there: the lookup never comes back empty. */
  lemma WinnerAlwaysFound(actions: seq<Action>, t: nat)
    requires AtPhase(Run(Initial(), actions), t)
    ensures var s := Run(Initial(), actions);
      && !Enabled(s, Recover(t, None))
      && (s.clients[t].phase.Recovering? ==> exists id :: id in s.db.payments && Enabled(s, Recover(t, Some(id))))
      && s.clients[t].phase != Finished(Rethrown)
  {
    Reachable(actions);
    var s := Run(Initial(), actions);
    assert ClientOk(s.db, s.clients[t]);
    if s.clients[t].phase.Recovering? {
      var id :| id in s.db.payments && s.db.payments[id].key == s.clients[t].order.key;
      assert Enabled(s, Recover(t, Some(id)));
    }
  }

  /** A caller whose key is used is answered with its payment, at the pre-check as after a lost race. */
  lemma UsedKeyIsAnswered(actions: seq<Action>, a: Action)
    requires (a.PreCheck? || a.Recover?) && Enabled(Run(Initial(), actions), a)
    requires KeyUsed(Run(Initial(), actions).db, Run(Initial(), actions).clients[a.t].order.key)
    ensures var s := Run(Initial(), actions);
      && a.found.Some? && a.found.value in s.db.payments
      && s.db.payments[a.found.value].key == s.clients[a.t].order.key
      && Step(s, a) == s.(clients := s.clients[a.t := s.clients[a.t].(phase := Finished(Returned(a.found.value)))])
  {
  }

  predicate Names(db: Committed, id: nat, request: nat) {
    id in db.payments && db.payments[id].request == Some(request)
  }

  /**
   * A request is ACCOUNTED exactly when a committed payment names it, then exactly one does and the
   * request points back at it and its entry; PAID is never visible; a CANCELLED request is never paid.
   */
  lemma RequestSettledOnce(actions: seq<Action>, r: nat)
    requires r in Run(Initial(), actions).db.requests
    ensures var db := Run(Initial(), actions).db;
      var row := db.requests[r];
      && !row.status.Paid?
      && (row.status.Accounted? <==> exists id :: Names(db, id, r))
      && (forall i, j :: Names(db, i, r) && Names(db, j, r) ==> i == j)
      && (forall id :: Names(db, id, r) ==> row.payment == Some(id) && row.entry == db.payments[id].entry)
      && (row.status.Cancelled? ==> forall id :: !Names(db, id, r))
  {
    Reachable(actions);
    var db := Run(Initial(), actions).db;
    assert RequestOk(db, r);
    if db.requests[r].status.Accounted? {
      assert Names(db, db.requests[r].payment.value, r);
    }
  }

  lemma PublishKeepsPayment(db: Committed, c: Client, id: nat)
    requires ClientOk(db, c) && c.Ready() && id in db.payments
    ensures id in Publish(db, c).payments && Publish(db, c).payments[id] == db.payments[id]
  {
  }

  lemma StepKeepsPayment(s: State, a: Action, id: nat)
    requires Inv(s) && id in s.db.payments
    ensures id in Step(s, a).db.payments && Step(s, a).db.payments[id] == s.db.payments[id]
  {
    if Enabled(s, a) && a.Commit? {
      assert ClientOk(s.db, s.clients[a.t]);
      PublishKeepsPayment(s.db, s.clients[a.t], id);
    } else {
      OnlyCommitsAddPayments(s, a);
    }
  }

  lemma OnlyCommitsAddPayments(s: State, a: Action)
    requires !Enabled(s, a) || !a.Commit?
    ensures Step(s, a).db.payments == s.db.payments
  {
  }

  lemma {:induction false} PaymentsArePermanent(s: State, actions: seq<Action>, id: nat)
    requires Inv(s) && id in s.db.payments
    ensures Inv(Run(s, actions))
    ensures id in Run(s, actions).db.payments && Run(s, actions).db.payments[id] == s.db.payments[id]
  {
    if actions != [] {
      PaymentsArePermanent(s, actions[..|actions| - 1], id);
      StepKeeps(Run(s, actions[..|actions| - 1]), actions[|actions| - 1]);
      StepKeepsPayment(Run(s, actions[..|actions| - 1]), actions[|actions| - 1], id);
    }
  }

  // ---------- Refinement of the atomic specification ----------

  /** The calls as if each ran alone; a request's account is a parameter, as it is read before the lock. */
  datatype Atomic =
    | Nothing
    | Pay(order: Payments.PaymentOrder, account: nat, id: nat, entry: nat, rate: int)
    | Decide(request: nat, decision: Payments.RequestDecision, actor: nat)
    | Create(request: nat, draft: Payments.RequestDraft, actor: nat)
    | Update(request: nat, patch: Payments.RequestPatch, actor: nat)

  predicate MayPay(db: Committed, order: Payments.PaymentOrder, account: nat, id: nat, entry: nat, rate: int) {
    && !KeyUsed(db, order.key) && id !in db.payments && entry !in db.entries
    && OwnAccount(order, account) && ValidLines(LinesToPost(order, account, rate))
    && (order.request.Some? ==>
          order.request.value in db.requests && db.requests[order.request.value].status.Approved?)
  }

  function PaidAtomically(db: Committed, order: Payments.PaymentOrder, account: nat, id: nat, entry: nat, rate: int): Committed {
    var paid := WithPayment(db, id, PaymentRow(order, account, rate, entry), entry,
                            EntryRow(id, Map(LinesToPost(order, account, rate), Stored(entry))));
    if order.request.None? || order.request.value !in db.requests then paid
    else
      var r := order.request.value;
      WithRequest(paid, r, db.requests[r].(status := RequestStatus.Accounted, payment := Some(id), entry := Some(entry)))
  }

  /** The new tables, or None when the call is refused. */
  function Apply(db: Committed, x: Atomic): Option<Committed> {
    match x
    case Nothing => Some(db)
    case Pay(order, account, id, entry, rate) =>
      if MayPay(db, order, account, id, entry, rate) then Some(PaidAtomically(db, order, account, id, entry, rate))
      else None
    case Decide(r, decision, actor) =>
      if r in db.requests && MayDecide(db.requests[r], decision, actor)
      then Some(WithRequest(db, r, db.requests[r].(status := decision.Next()))) else None
    case Create(r, draft, actor) =>
      if r !in db.requests then Some(WithRequest(db, r, Payments.DraftRequest(draft, actor))) else None
    case Update(r, patch, actor) =>
      if r in db.requests && MayEdit(db.requests[r], actor)
      then Some(WithRequest(db, r, Payments.PatchedRequest(db.requests[r], patch))) else None
  }

  /** The atomic call that a step makes visible; Nothing for all steps but commits and unlocked edits. */
  function Visible(s: State, a: Action): Atomic {
    if !Enabled(s, a) then Nothing
    else
      match a
      case Commit(t) =>
        var c := s.clients[t];
        Pay(c.order, c.phase.counterAccount, c.phase.id, c.phase.entry, c.phase.rate)
      case CommitDecision(t) =>
        var c := s.clients[t];
        Decide(c.request, c.decision, c.actor)
      case CreateRequest(r, draft, actor) => Create(r, draft, actor)
      case UpdateRequest(r, patch, actor) => Update(r, patch, actor)
      case _ => Nothing
  }

  lemma PublishIsAtomic(db: Committed, c: Client)
    requires ClientOk(db, c) && c.Ready()
    ensures var p := c.phase;
      && MayPay(db, c.order, p.counterAccount, p.id, p.entry, p.rate)
      && Publish(db, c) == PaidAtomically(db, c.order, p.counterAccount, p.id, p.entry, p.rate)
  {
  }

  lemma OnlyCommitsShow(s: State, a: Action)
    requires !a.Commit? && !a.CommitDecision?
    ensures Apply(s.db, Visible(s, a)) == Some(Step(s, a).db)
  {
  }

  /** Each step changes the committed tables as one accepted atomic call does, or not at all. */
  lemma StepRefinesAtomic(s: State, a: Action)
    requires Inv(s)
    ensures Apply(s.db, Visible(s, a)) == Some(Step(s, a).db)
  {
    if !a.Commit? && !a.CommitDecision? {
      OnlyCommitsShow(s, a);
    } else if Enabled(s, a) {
      assert ClientOk(s.db, s.clients[a.t]);
      if a.Commit? {
        PublishIsAtomic(s.db, s.clients[a.t]);
      }
    }
  }

  function DbOf(): State -> Committed { (s: State) => s.db }

  /** Every interleaving commits the same tables as its calls run one after another in commit order. */
  lemma Serializable(s: State, actions: seq<Action>)
    requires Inv(s)
    ensures Runs.SerialRun(Apply, s.db, Runs.Calls(Step, Visible, s, actions)) == Some(Run(s, actions).db)
  {
    forall t, a | Inv(t) ensures Inv(Step(t, a)) && Apply(DbOf()(t), Visible(t, a)) == Some(DbOf()(Step(t, a))) {
      StepKeeps(t, a);
      StepRefinesAtomic(t, a);
    }
    Runs.Serializes(Step, Visible, DbOf(), Apply, Inv, s, actions);
  }
}
