/**
 * Expense requests and payments as transactions. The step-by-step interleaving of
 * concurrent payments is in PaymentProtocol; here a call runs alone.
 */
module Payments {
  import opened Folds
  import opened Tables
  import opened ExchangeRates
  import opened Posting
  import Decimal

  // ---------- Expense requests ----------

  datatype RequestDraft = RequestDraft(expenseAccount: nat, amount: int, currency: string)

  datatype RequestPatch = RequestPatch(expenseAccount: Option<nat>, amount: Option<int>, currency: Option<string>)

  datatype RequestDecision = Submit | Approve | Reject | Cancel {
    function Next(): RequestStatus {
      match this
      case Submit => RequestStatus.Submitted
      case Approve => RequestStatus.Approved
      case Reject => RequestStatus.Rejected
      case Cancel => RequestStatus.Cancelled
    }

    predicate OwnerOnly() { Submit? || Cancel? }
  }

  function DraftRequest(draft: RequestDraft, actor: nat): ExpenseRequest {
    ExpenseRequest(actor, draft.expenseAccount, draft.amount, draft.currency, RequestStatus.Draft, None, None)
  }

  function CreateRequest(db: Db, draft: RequestDraft, actor: nat): Tx {
    Commit(db.(requests := db.requests + [DraftRequest(draft, actor)]), |db.requests|)
  }

  /** An edited request is a draft again. */
  function PatchedRequest(r: ExpenseRequest, patch: RequestPatch): ExpenseRequest {
    r.(expenseAccount := if patch.expenseAccount.Some? then patch.expenseAccount.value else r.expenseAccount,
       amount := if patch.amount.Some? then patch.amount.value else r.amount,
       currency := if patch.currency.Some? then patch.currency.value else r.currency,
       status := RequestStatus.Draft)
  }

  function UpdateRequest(db: Db, id: nat, patch: RequestPatch, actor: nat): Tx {
    if id >= |db.requests| then Rollback(NotFound)
    else
      var r := db.requests[id];
      if r.requestedBy != actor then Rollback(Forbidden)
      else if !r.status.Editable() then Rollback(Conflict)
      else Commit(db.(requests := db.requests[id := PatchedRequest(r, patch)]), id)
  }

  function DecideRequest(db: Db, id: nat, decision: RequestDecision, actor: nat): Tx {
    if id >= |db.requests| then Rollback(NotFound)
    else
      var r := db.requests[id];
      if !r.status.Allows(decision.Next()) then Rollback(Conflict)
      else if decision.OwnerOnly() && r.requestedBy != actor then Rollback(Forbidden)
      else Commit(db.(requests := db.requests[id := r.(status := decision.Next())]), id)
  }

  function MarkPaid(db: Db, id: nat, payment: nat): Tx {
    if id >= |db.requests| then Rollback(NotFound)
    else if !db.requests[id].status.Approved? then Rollback(Conflict)
    else Commit(db.(requests := db.requests[id := db.requests[id].(status := RequestStatus.Paid, payment := Some(payment))]), id)
  }

  function MarkAccounted(db: Db, id: nat, entry: nat): Tx {
    if id >= |db.requests| then Rollback(NotFound)
    else Commit(db.(requests := db.requests[id := db.requests[id].(status := RequestStatus.Accounted, entry := Some(entry))]), id)
  }

  class ExpenseRequestsService {
    const store: Store

    constructor (store: Store)
      ensures this.store == store
    {
      this.store := store;
    }

    method Create(draft: RequestDraft, actor: nat) returns (reply: Reply)
      modifies store
      ensures store.db == After(old(store.db), CreateRequest(old(store.db), draft, actor))
      ensures reply == CreateRequest(old(store.db), draft, actor).Reply()
    {
      var id := |store.db.requests|;
      var row := ExpenseRequest(
        actor, draft.expenseAccount, draft.amount, draft.currency, RequestStatus.Draft, None, None);
      store.db := store.db.(requests := store.db.requests + [row]);
      reply := Success(id);
    }

    method Update(id: nat, patch: RequestPatch, actor: nat) returns (reply: Reply)
      modifies store
      ensures store.db == After(old(store.db), UpdateRequest(old(store.db), id, patch, actor))
      ensures reply == UpdateRequest(old(store.db), id, patch, actor).Reply()
    {
      if id >= |store.db.requests| {
        return Failure(NotFound);
      }
      var request := store.db.requests[id];
      if request.requestedBy != actor {
        return Failure(Forbidden);
      }
      if !request.status.Editable() {
        return Failure(Conflict);
      }
      var wasRejected := request.status.Rejected?;
      if patch.expenseAccount.Some? {
        request := request.(expenseAccount := patch.expenseAccount.value);
      }
      if patch.amount.Some? {
        request := request.(amount := patch.amount.value);
      }
      if patch.currency.Some? {
        request := request.(currency := patch.currency.value);
      }
      if wasRejected {
        request := request.(status := RequestStatus.Draft);
      }
      store.db := store.db.(requests := store.db.requests[id := request]);
      reply := Success(id);
    }

    method Transition(id: nat, decision: RequestDecision, actor: nat) returns (reply: Reply)
      modifies store
      ensures store.db == After(old(store.db), DecideRequest(old(store.db), id, decision, actor))
      ensures reply == DecideRequest(old(store.db), id, decision, actor).Reply()
    {
      if id >= |store.db.requests| {
        return Failure(NotFound);
      }
      var request := store.db.requests[id];
      if !request.status.Allows(decision.Next()) {
        return Failure(Conflict);
      }
      if decision.OwnerOnly() && request.requestedBy != actor {
        return Failure(Forbidden);
      }
      request := request.(status := decision.Next());
      store.db := store.db.(requests := store.db.requests[id := request]);
      reply := Success(id);
    }

    /** Called inside a payment's transaction. */
    method Paid(id: nat, payment: nat) returns (reply: Reply)
      modifies store
      ensures store.db == After(old(store.db), MarkPaid(old(store.db), id, payment))
      ensures reply == MarkPaid(old(store.db), id, payment).Reply()
    {
      if id >= |store.db.requests| {
        return Failure(NotFound);
      }
      var request := store.db.requests[id];
      if !request.status.Approved? {
        return Failure(Conflict);
      }
      request := request.(status := RequestStatus.Paid, payment := Some(payment));
      store.db := store.db.(requests := store.db.requests[id := request]);
      reply := Success(id);
    }

    method Accounted(id: nat, entry: nat) returns (reply: Reply)
      modifies store
      ensures store.db == After(old(store.db), MarkAccounted(old(store.db), id, entry))
      ensures reply == MarkAccounted(old(store.db), id, entry).Reply()
    {
      if id >= |store.db.requests| {
        return Failure(NotFound);
      }
      var request := store.db.requests[id].(status := RequestStatus.Accounted, entry := Some(entry));
      store.db := store.db.(requests := store.db.requests[id := request]);
      reply := Success(id);
    }
  }

  // ---------- Payments ----------

  datatype PaymentOrder = PaymentOrder(
    key: string, direction: Direction, request: Option<nat>, cashAccount: nat, counterAccount: Option<nat>,
    counterparty: Option<nat>, contract: Option<nat>, amount: int, currency: string, date: Date)

  /** Position of the payment with this idempotency key, or |payments|. */
  function FindKey(payments: seq<Payment>, key: string): (i: nat)
    ensures i <= |payments|
    ensures i < |payments| ==> payments[i].key == key
    ensures i == |payments| ==> forall k :: 0 <= k < |payments| ==> payments[k].key != key
  {
    if payments == [] then 0
    else
      var last := |payments| - 1;
      var i := FindKey(payments[..last], key);
      if i < last then i else if payments[last].key == key then last else |payments|
  }

  function PendingRow(order: PaymentOrder, counterAccount: nat): Payment {
    Payment(order.key, order.direction, order.request, order.cashAccount, counterAccount, order.counterparty,
            order.contract, order.amount, order.currency, 1_000_000, 0, order.date, Pending, None)
  }

  /** The row once its entry has been posted at a rate. */
  function ExecutedRow(pending: Payment, rate: int, entry: nat): Payment {
    pending.(status := Executed, rate := rate, baseAmount := Decimal.Convert(pending.amount, rate), entry := Some(entry))
  }

  function CashKey(p: Payment): LineKey {
    LineKey(p.cashAccount, p.currency, p.counterparty, p.contract, None, None)
  }

  function CounterKey(p: Payment): LineKey {
    LineKey(p.counterAccount, p.currency, p.counterparty, p.contract, None, None)
  }

  /** Outgoing money debits the counter account and credits cash; incoming the other way round. */
  function PaymentPostings(p: Payment, rate: int): seq<PostingLine> {
    [PostingLine(if p.direction.Outgoing? then CounterKey(p) else CashKey(p), p.amount, 0, rate),
     PostingLine(if p.direction.Outgoing? then CashKey(p) else CounterKey(p), 0, p.amount, rate)]
  }

  function Settle(db: Db, order: PaymentOrder, payment: nat, entry: nat): Tx {
    if order.request.None? then Commit(db, payment)
    else
      match MarkPaid(db, order.request.value, payment)
      case Rollback(error) => Rollback(error)
      case Commit(db1, _) =>
        match MarkAccounted(db1, order.request.value, entry)
        case Rollback(error) => Rollback(error)
        case Commit(db2, _) => Commit(db2, payment)
  }

  /** The transaction after the key has been found unused. */
  function ExecuteNew(db: Db, order: PaymentOrder, counterAccount: nat): Tx {
    var id := |db.payments|;
    var row := PendingRow(order, counterAccount);
    var inserted := db.(payments := db.payments + [row]);
    var rate := GetRate(db.baseCurrency, db.rates, order.currency, order.date);
    if rate.None? then Rollback(NotFound)
    else
      match PostEntry(inserted, order.date, FromPayment(id), PaymentPostings(row, rate.value))
      case Rollback(error) => Rollback(error)
      case Commit(db1, entry) =>
        Settle(db1.(payments := db1.payments[id := ExecutedRow(row, rate.value, entry)]), order, id, entry)
  }

  function Execute(db: Db, order: PaymentOrder): Tx {
    var existing := FindKey(db.payments, order.key);
    if existing < |db.payments| then Commit(db, existing)
    else if order.request.Some? then
      if order.request.value >= |db.requests| then Rollback(NotFound)
      else ExecuteNew(db, order, db.requests[order.request.value].expenseAccount)
    else if order.counterAccount.Some? then ExecuteNew(db, order, order.counterAccount.value)
    else Rollback(BadRequest)
  }

  class PaymentsService {
    const store: Store
    const posting: PostingService
    const requests: ExpenseRequestsService

    constructor (store: Store, posting: PostingService, requests: ExpenseRequestsService)
      requires posting.store == store && requests.store == store
      ensures this.store == store && this.posting == posting && this.requests == requests
    {
      this.store := store;
      this.posting := posting;
      this.requests := requests;
    }

    method ExecutePayment(order: PaymentOrder) returns (reply: Reply)
      requires posting.store == store && requests.store == store
      modifies store
      ensures store.db == After(old(store.db), Execute(old(store.db), order))
      ensures reply == Execute(old(store.db), order).Reply()
    {
      var existing := FindKey(store.db.payments, order.key);
      if existing < |store.db.payments| {
        return Success(existing);
      }
      if order.request.None? && order.counterAccount.None? {
        return Failure(BadRequest);
      }
      var begun := store.db;
      reply := RunTransaction(order);
      if reply.Failure? {
        store.db := begun;
      }
    }

    /** The body of the transaction; on failure the caller restores the tables. */
    method RunTransaction(order: PaymentOrder) returns (reply: Reply)
      requires posting.store == store && requests.store == store
      requires FindKey(store.db.payments, order.key) == |store.db.payments|
      requires order.request.Some? || order.counterAccount.Some?
      modifies store
      ensures reply == Execute(old(store.db), order).Reply()
      ensures reply.Success? ==> store.db == Execute(old(store.db), order).db
    {
      var counterAccount: nat;
      if order.request.Some? {
        if order.request.value >= |store.db.requests| {
          return Failure(NotFound);
        }
        counterAccount := store.db.requests[order.request.value].expenseAccount;
      } else {
        counterAccount := order.counterAccount.value;
      }
      var id := |store.db.payments|;
      var payment := PendingRow(order, counterAccount);
      store.db := store.db.(payments := store.db.payments + [payment]);
      var rate := GetRate(store.db.baseCurrency, store.db.rates, order.currency, order.date);
      if rate.None? {
        return Failure(NotFound);
      }
      var baseAmount := Decimal.Convert(order.amount, rate.value);
      var entry := posting.Post(order.date, FromPayment(id), PaymentPostings(payment, rate.value));
      if entry.Failure? {
        return entry;
      }
      payment := payment.(status := Executed);
      payment := payment.(rate := rate.value, baseAmount := baseAmount, entry := Some(entry.id));
      store.db := store.db.(payments := store.db.payments[id := payment]);
      if order.request.Some? {
        var paid := requests.Paid(order.request.value, id);
        if paid.Failure? {
          return paid;
        }
        var accounted := requests.Accounted(order.request.value, entry.id);
        if accounted.Failure? {
          return accounted;
        }
      }
      reply := Success(id);
    }
  }

  // ---------- What a payment posts ----------

  /** Debit minus credit that an executed payment contributes to a selection of keys. */
  function PaymentNet(p: Payment, select: LineKey -> bool): int {
    var cash := if select(LineKey(p.cashAccount, p.currency, p.counterparty, p.contract, None, None)) then p.amount else 0;
    var counter :=
      if select(LineKey(p.counterAccount, p.currency, p.counterparty, p.contract, None, None)) then p.amount else 0;
    if p.direction.Incoming? then cash - counter else counter - cash
  }

  lemma PaymentPostingsMeaning(p: Payment, rate: int, id: nat, select: LineKey -> bool)
    ensures Sum(PaymentPostings(p, rate), NetOf(select)) == PaymentNet(p, select)
    ensures Sum(Map(PaymentPostings(p, rate), Stored(id)), BaseNet(Every())) == 0
  {
    var lines := PaymentPostings(p, rate);
    assert lines[..1] == [lines[0]];
    SumOne(lines[0], NetOf(select));
    var stored := Map(lines, Stored(id));
    assert stored == [Stored(id)(lines[0]), Stored(id)(lines[1])];
    assert stored[..1] == [stored[0]];
    SumOne(stored[0], BaseNet(Every()));
  }
}
