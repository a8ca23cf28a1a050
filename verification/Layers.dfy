/**
 * The sequential services and the two protocols tell one story: seen through the protocol's tables,
 * every service call is one of the atomic calls that the interleaved runs are serialized into.
 */
module Layers {
  import opened Folds
  import opened Tables
  import opened Erp
  import Posting
  import ExchangeRates
  import Documents
  import Payments
  import PaymentProtocol
  import DocumentProtocol
  import Runs

  // ---------- Tables by identifier ----------

  /** The rows by position. */
  function Table<S>(rows: seq<S>): map<nat, S> { map i: nat | i < |rows| :: rows[i] }

  lemma TableAppend<S>(rows: seq<S>, row: S)
    ensures Table(rows + [row]) == Table(rows)[|rows| := row]
  {
  }

  lemma TableUpdate<S>(rows: seq<S>, i: nat, row: S)
    requires i < |rows|
    ensures Table(rows[i := row]) == Table(rows)[i := row]
  {
  }

  // ---------- Payments and requests ----------

  function PaymentEntry(entries: seq<Entry>, lines: seq<Line>, e: nat): PaymentProtocol.EntryRow
    requires e < |entries| && entries[e].source.FromPayment?
  {
    PaymentProtocol.EntryRow(entries[e].source.payment, Posting.LinesOf(lines, e))
  }

  function PaymentEntries(entries: seq<Entry>, lines: seq<Line>): map<nat, PaymentProtocol.EntryRow> {
    map e: nat | e < |entries| && entries[e].source.FromPayment? :: PaymentEntry(entries, lines, e)
  }

  function PaymentTables(db: Db): PaymentProtocol.Committed {
    PaymentProtocol.Committed(Table(db.payments), PaymentEntries(db.entries, db.lines), Table(db.requests))
  }

  /** The protocol's name for a call; refused calls and calls on other tables do nothing there. */
  function PaymentCall(db: Db, c: Command): PaymentProtocol.Atomic {
    if Perform(db, c).Rollback? then PaymentProtocol.Nothing
    else
      match c
      case CreateRequest(draft, actor) => PaymentProtocol.Create(|db.requests|, draft, actor)
      case UpdateRequest(id, patch, actor) => PaymentProtocol.Update(id, patch, actor)
      case DecideRequest(id, decision, actor) => PaymentProtocol.Decide(id, decision, actor)
      case ExecutePayment(order) =>
        if Payments.FindKey(db.payments, order.key) < |db.payments| then PaymentProtocol.Nothing
        else PaymentProtocol.Pay(order, CounterOf(db, order), |db.payments|, |db.entries|, RateOf(db, order.currency, order.date))
      case _ => PaymentProtocol.Nothing
  }

  /** The rate that posting at this date uses. */
  function RateOf(db: Db, currency: string, date: Date): int {
    var rate := ExchangeRates.GetRate(db.baseCurrency, db.rates, currency, date);
    if rate.Some? then rate.value else 0
  }

  ghost predicate PaymentCallRefines(db: Db, c: Command) {
    PaymentProtocol.Apply(PaymentTables(db), PaymentCall(db, c)) == Some(PaymentTables(Step(db, c)))
  }

  /** The entries and lines that are there stay, and new entries are of documents. */
  predicate SamePayments(db: Db, db': Db) {
    && db'.payments == db.payments && db'.requests == db.requests
    && |db.entries| <= |db'.entries|
    && (forall e :: 0 <= e < |db.entries| ==>
          db'.entries[e].source == db.entries[e].source && Posting.LinesOf(db'.lines, e) == Posting.LinesOf(db.lines, e))
    && (forall e :: |db.entries| <= e < |db'.entries| ==> db'.entries[e].source.FromDocument?)
  }

  lemma SamePaymentTables(db: Db, db': Db)
    requires SamePayments(db, db')
    ensures PaymentTables(db') == PaymentTables(db)
  {
    forall e: nat | e < |db.entries| && db.entries[e].source.FromPayment?
      ensures PaymentEntry(db'.entries, db'.lines, e) == PaymentEntry(db.entries, db.lines, e)
    {
    }
    assert PaymentEntries(db'.entries, db'.lines) == PaymentEntries(db.entries, db.lines);
  }

  lemma PostKeepsPayments(db: Db, id: nat)
    requires Inv(db) && Documents.PostDocument(db, id).Commit?
    ensures SamePayments(db, Documents.PostDocument(db, id).db)
  {
    var rate := PostDocumentShape(db, id);
  }

  lemma ReverseKeepsPayments(db: Db, id: nat, actor: nat, today: Date)
    requires Inv(db) && Documents.ReverseDocument(db, id, actor, today).Commit?
    ensures SamePayments(db, Documents.ReverseDocument(db, id, actor, today).db)
  {
    ReverseDocumentShape(db, id, actor, today);
  }

  lemma DocumentCallsKeepPayments(db: Db, c: Command)
    requires Inv(db) && Perform(db, c).Commit?
    requires !c.CreateRequest? && !c.UpdateRequest? && !c.DecideRequest? && !c.ExecutePayment?
    ensures SamePayments(db, Step(db, c))
  {
    if SetupCommand(c) {
      SetupKeepsInv(db, c);
    } else if c.PostDocument? {
      PostKeepsPayments(db, c.id);
    } else if c.ReverseDocument? {
      ReverseKeepsPayments(db, c.id, c.actor, c.today);
    } else {
      PaperworkKeeps(db, c, Posting.Every());
    }
  }

  lemma OnePaymentEntryMore(db: Db, db': Db, payment: nat, lines: seq<PostingLine>)
    requires Posts(db, db', FromPayment(payment), lines)
    ensures PaymentEntries(db'.entries, db'.lines)
            == PaymentEntries(db.entries, db.lines)[
                 |db.entries| := PaymentProtocol.EntryRow(payment, Map(lines, Posting.Stored(|db.entries|)))]
  {
    forall e: nat | e < |db.entries| && db.entries[e].source.FromPayment?
      ensures PaymentEntry(db'.entries, db'.lines, e) == PaymentEntry(db.entries, db.lines, e)
    {
    }
  }

  /** The row that the sequential service stores is the one that the protocol publishes. */
  lemma ExecutedRowIs(db: Db, order: Payments.PaymentOrder) returns (row: Payment)
    requires Inv(db) && Payments.Execute(db, order).Commit?
    requires Payments.FindKey(db.payments, order.key) == |db.payments|
    ensures row == PaymentProtocol.PaymentRow(
                     order, CounterOf(db, order), RateOf(db, order.currency, order.date), |db.entries|)
    ensures var db' := Payments.Execute(db, order).db;
      && db'.payments == db.payments + [row]
      && Posts(db, db', FromPayment(|db.payments|),
               PaymentProtocol.LinesToPost(order, CounterOf(db, order), RateOf(db, order.currency, order.date)))
      && Posting.ValidLines(PaymentProtocol.LinesToPost(order, CounterOf(db, order), RateOf(db, order.currency, order.date)))
      && (order.request.Some? ==>
            order.request.value < |db.requests| && db.requests[order.request.value].status.Approved?)
      && db'.requests == if order.request.None? then db.requests
                         else db.requests[order.request.value := db.requests[order.request.value].(
                           status := RequestStatus.Accounted, payment := Some(|db.payments|), entry := Some(|db.entries|))]
  {
    row := ExecuteLedger(db, order);
    ExecutedAtRate(db, order);
    assert Payments.PaymentPostings(row, row.rate)
        == PaymentProtocol.LinesToPost(order, CounterOf(db, order), RateOf(db, order.currency, order.date));
  }

  lemma ExecutedAtRate(db: Db, order: Payments.PaymentOrder)
    requires Payments.Execute(db, order).Commit? && Payments.FindKey(db.payments, order.key) == |db.payments|
    ensures |Payments.Execute(db, order).db.payments| == |db.payments| + 1
    ensures Payments.Execute(db, order).db.payments[|db.payments|]
            == PaymentProtocol.PaymentRow(
                 order, CounterOf(db, order), RateOf(db, order.currency, order.date), |db.entries|)
    ensures Posting.ValidLines(PaymentProtocol.LinesToPost(
              order, CounterOf(db, order), RateOf(db, order.currency, order.date)))
  {
    var row, rate := ExecuteShape(db, order);
  }

  lemma OrderHasAccount(db: Db, order: Payments.PaymentOrder)
    requires Payments.Execute(db, order).Commit? && Payments.FindKey(db.payments, order.key) == |db.payments|
    ensures PaymentProtocol.OwnAccount(order, CounterOf(db, order))
  {
  }

  lemma NoSuchKey(db: Db, key: string)
    requires Payments.FindKey(db.payments, key) == |db.payments|
    ensures !PaymentProtocol.KeyUsed(PaymentTables(db), key)
  {
  }

  lemma ExecuteIsPay(db: Db, order: Payments.PaymentOrder)
    requires Inv(db) && Payments.Execute(db, order).Commit?
    requires Payments.FindKey(db.payments, order.key) == |db.payments|
    ensures PaymentProtocol.Apply(
              PaymentTables(db),
              PaymentProtocol.Pay(order, CounterOf(db, order), |db.payments|, |db.entries|,
                                  RateOf(db, order.currency, order.date)))
            == Some(PaymentTables(Payments.Execute(db, order).db))
  {
    var account, rate, n := CounterOf(db, order), RateOf(db, order.currency, order.date), |db.entries|;
    var db' := Payments.Execute(db, order).db;
    var row := ExecutedRowIs(db, order);
    NoSuchKey(db, order.key);
    OrderHasAccount(db, order);
    assert PaymentProtocol.MayPay(PaymentTables(db), order, account, |db.payments|, n, rate);
    TableAppend(db.payments, row);
    OnePaymentEntryMore(db, db', |db.payments|, PaymentProtocol.LinesToPost(order, account, rate));
    if order.request.Some? {
      TableUpdate(db.requests, order.request.value, db'.requests[order.request.value]);
    }
    assert PaymentProtocol.PaidAtomically(PaymentTables(db), order, account, |db.payments|, n, rate) == PaymentTables(db');
  }

  lemma RequestCallsRefine(db: Db, c: Command)
    requires (c.CreateRequest? || c.UpdateRequest? || c.DecideRequest?) && Perform(db, c).Commit?
    ensures PaymentCallRefines(db, c)
  {
    var next := Step(db, c);
    if c.CreateRequest? {
      TableAppend(db.requests, next.requests[|db.requests|]);
    } else {
      TableUpdate(db.requests, c.id, next.requests[c.id]);
    }
  }

  /** Each service call is the protocol's atomic call, accepted and with the same effect. */
  lemma PaymentCallsRefine(db: Db, c: Command)
    requires Inv(db)
    ensures PaymentProtocol.Apply(PaymentTables(db), PaymentCall(db, c)) == Some(PaymentTables(Step(db, c)))
  {
    if Perform(db, c).Commit? {
      if c.CreateRequest? || c.UpdateRequest? || c.DecideRequest? {
        RequestCallsRefine(db, c);
      } else if !c.ExecutePayment? {
        DocumentCallsKeepPayments(db, c);
        SamePaymentTables(db, Step(db, c));
      } else if Payments.FindKey(db.payments, c.order.key) == |db.payments| {
        ExecuteIsPay(db, c.order);
      }
    }
  }

  function PaymentCalls(db: Db, commands: seq<Command>): seq<PaymentProtocol.Atomic> {
    if commands == [] then []
    else
      PaymentCalls(db, commands[..|commands| - 1])
      + [PaymentCall(Run(db, commands[..|commands| - 1]), commands[|commands| - 1])]
  }

  /** Every run of the services is a serial run of the payment protocol's atomic calls. */
  lemma {:induction false} RunsAreSerialPayments(base: string, commands: seq<Command>)
    ensures Runs.SerialRun(PaymentProtocol.Apply, PaymentProtocol.Initial().db, PaymentCalls(EmptyDb(base), commands))
            == Some(PaymentTables(Run(EmptyDb(base), commands)))
  {
    if commands == [] {
      assert PaymentTables(EmptyDb(base)) == PaymentProtocol.Initial().db;
    } else {
      var before := commands[..|commands| - 1];
      RunsAreSerialPayments(base, before);
      RunKeeps(base, before, Posting.Every());
      PaymentCallsRefine(Run(EmptyDb(base), before), commands[|commands| - 1]);
      var calls := PaymentCalls(EmptyDb(base), commands);
      assert calls[..|calls| - 1] == PaymentCalls(EmptyDb(base), before);
    }
  }

  // ---------- Documents ----------

  /** A document's own entry is its posting; any other entry that names it is a reversal. */
  function KindOf(documents: seq<Document>, document: nat, e: nat): DocumentProtocol.Kind {
    if document < |documents| && documents[document].entry == Some(e)
    then DocumentProtocol.Original else DocumentProtocol.Reversal
  }

  function DocumentEntry(entries: seq<Entry>, lines: seq<Line>, documents: seq<Document>, e: nat): DocumentProtocol.EntryRow
    requires e < |entries| && entries[e].source.FromDocument?
  {
    var d := entries[e].source.document;
    DocumentProtocol.EntryRow(d, KindOf(documents, d, e), entries[e].status, Posting.LinesOf(lines, e))
  }

  function DocumentEntries(entries: seq<Entry>, lines: seq<Line>, documents: seq<Document>): map<nat, DocumentProtocol.EntryRow> {
    map e: nat | e < |entries| && entries[e].source.FromDocument? :: DocumentEntry(entries, lines, documents, e)
  }

  function DocumentTables(db: Db): DocumentProtocol.Committed {
    DocumentProtocol.Committed(Table(db.documents), DocumentEntries(db.entries, db.lines, db.documents))
  }

  function DocumentCall(db: Db, c: Command): DocumentProtocol.Atomic {
    if Perform(db, c).Rollback? then DocumentProtocol.Nothing
    else
      match c
      case CreateDocument(draft, actor) => DocumentProtocol.Created(|db.documents|, draft, actor)
      case UpdateDocument(id, patch, actor) => DocumentProtocol.Edited(id, patch, actor)
      case DecideDocument(id, decision, actor) => DocumentProtocol.Decided(id, decision, actor)
      case PostDocument(id) =>
        var d := db.documents[id];
        DocumentProtocol.Atomic.Posted(id, |db.entries|, RateOf(db, d.currency, d.date))
      case ReverseDocument(id, actor, today) => DocumentProtocol.Undone(id, |db.entries|, |db.documents|, actor, today)
      case _ => DocumentProtocol.Nothing
  }

  ghost predicate DocumentCallRefines(db: Db, c: Command) {
    DocumentProtocol.Apply(DocumentTables(db), DocumentCall(db, c)) == Some(DocumentTables(Step(db, c)))
  }

  /** Every document keeps its entry, and a new one has none: the rows of the entries stay. */
  lemma SameDocumentEntries(entries: seq<Entry>, lines: seq<Line>, before: seq<Document>, after: seq<Document>)
    requires |before| <= |after|
    requires forall d :: 0 <= d < |before| ==> after[d].entry == before[d].entry
    requires forall d :: |before| <= d < |after| ==> after[d].entry.None?
    ensures DocumentEntries(entries, lines, after) == DocumentEntries(entries, lines, before)
  {
    forall d, e: nat ensures KindOf(after, d, e) == KindOf(before, d, e) {
    }
  }

  lemma CreateRefines(db: Db, c: Command)
    requires c.CreateDocument? && Perform(db, c).Commit?
    ensures DocumentCallRefines(db, c)
  {
    var next := Documents.CreateDocument(db, c.draft, c.actor).db;
    SameDocumentEntries(db.entries, db.lines, db.documents, next.documents);
    TableAppend(db.documents, next.documents[|db.documents|]);
  }

  /** Editing and deciding keep a document's entry, whatever they do to its status. */
  lemma DocumentRowChanged(db: Db, db': Db, id: nat, row: Document)
    requires id < |db.documents| && db'.entries == db.entries && db'.lines == db.lines
    requires db'.documents == db.documents[id := row] && row.entry == db.documents[id].entry
    ensures DocumentTables(db') == DocumentTables(db).(docs := DocumentTables(db).docs[id := row])
  {
    SameDocumentEntries(db.entries, db.lines, db.documents, db'.documents);
    TableUpdate(db.documents, id, row);
  }

  lemma UpdateRefines(db: Db, id: nat, patch: Documents.Patch, actor: nat)
    requires Documents.UpdateDocument(db, id, patch, actor).Commit?
    ensures DocumentProtocol.Apply(DocumentTables(db), DocumentProtocol.Edited(id, patch, actor))
            == Some(DocumentTables(Documents.UpdateDocument(db, id, patch, actor).db))
  {
    DocumentRowChanged(db, Documents.UpdateDocument(db, id, patch, actor).db, id,
                       Documents.PatchedRow(db.documents[id], patch).value);
  }

  lemma DecideRefines(db: Db, id: nat, decision: Documents.Decision, actor: nat)
    requires Documents.Decide(db, id, decision, actor).Commit?
    ensures DocumentProtocol.Apply(DocumentTables(db), DocumentProtocol.Decided(id, decision, actor))
            == Some(DocumentTables(Documents.Decide(db, id, decision, actor).db))
  {
    DocumentRowChanged(db, Documents.Decide(db, id, decision, actor).db, id,
                       db.documents[id].(status := decision.Next()));
  }

  lemma EntryKept(db: Db, db': Db, d: nat, e: nat)
    requires e < |db.entries| && e < |db'.entries| && db.entries[e].source == FromDocument(d)
    requires db'.entries[e].source == db.entries[e].source && db'.entries[e].status == db.entries[e].status
    requires Posting.LinesOf(db'.lines, e) == Posting.LinesOf(db.lines, e)
    requires KindOf(db'.documents, d, e) == KindOf(db.documents, d, e)
    ensures DocumentEntry(db'.entries, db'.lines, db'.documents, e) == DocumentEntry(db.entries, db.lines, db.documents, e)
  {
  }

  /** The new entry of a posted document, beside those that were there. */
  lemma OneOriginalMore(db: Db, db': Db, id: nat, lines: seq<PostingLine>)
    requires id < |db.documents| && db.documents[id].entry.None? && Posts(db, db', FromDocument(id), lines)
    requires forall e :: 0 <= e < |db.entries| ==> db'.entries[e].status == db.entries[e].status
    requires db'.documents == db.documents[id := DocumentProtocol.PostedRow(db.documents[id], |db.entries|)]
    ensures DocumentEntries(db'.entries, db'.lines, db'.documents)
            == DocumentEntries(db.entries, db.lines, db.documents)[
                 |db.entries| := DocumentProtocol.OriginalEntry(id, |db.entries|, lines)]
  {
    forall e: nat | e < |db.entries| && db.entries[e].source.FromDocument?
      ensures DocumentEntry(db'.entries, db'.lines, db'.documents, e)
              == DocumentEntry(db.entries, db.lines, db.documents, e)
    {
      EntryKept(db, db', db.entries[e].source.document, e);
    }
  }

  lemma PostShape(db: Db, id: nat)
    requires Inv(db) && Documents.PostDocument(db, id).Commit?
    ensures var d, db' := db.documents[id], Documents.PostDocument(db, id).db;
      var lines := Documents.Postings(d, RateOf(db, d.currency, d.date));
      && Posts(db, db', FromDocument(id), lines) && Posting.ValidLines(lines)
      && d.status.Approved? && d.entry.None?
      && db'.documents == db.documents[id := DocumentProtocol.PostedRow(d, |db.entries|)]
      && (forall e :: 0 <= e < |db.entries| ==> db'.entries[e].status == db.entries[e].status)
  {
    var rate := PostDocumentShape(db, id);
  }

  /** The protocol's posting of a row, from the shape of the tables alone. */
  lemma PostApplied(
      db: DocumentProtocol.Committed, db': DocumentProtocol.Committed, id: nat, n: nat, rate: int, lines: seq<PostingLine>)
    requires id in db.docs && db.docs[id].status.Approved? && n !in db.entries
    requires lines == Documents.Postings(db.docs[id], rate) && Posting.ValidLines(lines)
    requires db'.docs == db.docs[id := DocumentProtocol.PostedRow(db.docs[id], n)]
    requires db'.entries == db.entries[n := DocumentProtocol.OriginalEntry(id, n, lines)]
    ensures DocumentProtocol.Apply(db, DocumentProtocol.Atomic.Posted(id, n, rate)) == Some(db')
  {
  }

  lemma PostRefines(db: Db, id: nat)
    requires Inv(db) && Documents.PostDocument(db, id).Commit?
    ensures var d := db.documents[id];
      DocumentProtocol.Apply(DocumentTables(db),
                             DocumentProtocol.Atomic.Posted(id, |db.entries|, RateOf(db, d.currency, d.date)))
      == Some(DocumentTables(Documents.PostDocument(db, id).db))
  {
    var d, db', n := db.documents[id], Documents.PostDocument(db, id).db, |db.entries|;
    var rate := RateOf(db, d.currency, d.date);
    PostShape(db, id);
    OneOriginalMore(db, db', id, Documents.Postings(d, rate));
    TableUpdate(db.documents, id, DocumentProtocol.PostedRow(d, n));
    PostApplied(DocumentTables(db), DocumentTables(db'), id, n, rate, Documents.Postings(d, rate));
  }

  /** The mirror entry of a reversed document, beside the flipped original and the rest. */
  lemma OneMirrorMore(db: Db, db': Db, id: nat, o: nat, lines: seq<PostingLine>, correction: Document)
    requires id < |db.documents| && db.documents[id].entry == Some(o) && o < |db.entries|
    requires db.entries[o].source == FromDocument(id) && correction.entry.None?
    requires Posts(db, db', FromDocument(id), lines)
    requires db'.entries[o].status.Reversed?
    requires forall e :: 0 <= e < |db.entries| && e != o ==> db'.entries[e].status == db.entries[e].status
    requires db'.documents == db.documents[id := DocumentProtocol.ReversedRow(db.documents[id])] + [correction]
    ensures var before := DocumentEntries(db.entries, db.lines, db.documents);
      && o in before
      && DocumentEntries(db'.entries, db'.lines, db'.documents)
         == before[o := before[o].(status := EntryStatus.Reversed)]
                  [|db.entries| := DocumentProtocol.EntryRow(id, DocumentProtocol.Reversal, EntryStatus.Posted,
                                                            Map(lines, Posting.Stored(|db.entries|)))]
  {
    hide DocumentEntry;
    forall e: nat | e < |db.entries| && e != o && db.entries[e].source.FromDocument?
      ensures DocumentEntry(db'.entries, db'.lines, db'.documents, e)
              == DocumentEntry(db.entries, db.lines, db.documents, e)
    {
      EntryKept(db, db', db.entries[e].source.document, e);
    }
    FlippedEntry(db, db', id, o);
    AddedEntry(db, db', id, lines);
  }

  lemma AddedEntry(db: Db, db': Db, id: nat, lines: seq<PostingLine>)
    requires Posts(db, db', FromDocument(id), lines)
    requires id < |db'.documents| && db'.documents[id].entry != Some(|db.entries|)
    ensures DocumentEntry(db'.entries, db'.lines, db'.documents, |db.entries|)
            == DocumentProtocol.EntryRow(id, DocumentProtocol.Reversal, EntryStatus.Posted,
                                         Map(lines, Posting.Stored(|db.entries|)))
  {
  }

  lemma FlippedEntry(db: Db, db': Db, id: nat, o: nat)
    requires o < |db.entries| && o < |db'.entries| && db.entries[o].source == db'.entries[o].source == FromDocument(id)
    requires Posting.LinesOf(db'.lines, o) == Posting.LinesOf(db.lines, o) && db'.entries[o].status.Reversed?
    requires KindOf(db'.documents, id, o) == KindOf(db.documents, id, o)
    ensures DocumentEntry(db'.entries, db'.lines, db'.documents, o)
            == DocumentEntry(db.entries, db.lines, db.documents, o).(status := EntryStatus.Reversed)
  {
  }

  /** The mirror lines were accepted when they were posted. */
  lemma MirrorAccepted(db: Db, id: nat, actor: nat, today: Date)
    requires Documents.ReverseDocument(db, id, actor, today).Commit?
    requires id < |db.documents| && db.documents[id].entry.Some? && db.documents[id].entry.value < |db.entries|
    ensures Posting.ValidLines(Map(Posting.LinesOf(db.lines, db.documents[id].entry.value), Posting.Mirror()))
  {
  }

  lemma ReverseShape(db: Db, id: nat, actor: nat, today: Date)
    requires Inv(db) && Documents.ReverseDocument(db, id, actor, today).Commit?
    ensures var d, db' := db.documents[id], Documents.ReverseDocument(db, id, actor, today).db;
      && d.status.Posted? && d.entry.Some? && d.entry.value < |db.entries|
      && var o := d.entry.value;
         var lines := Map(Posting.LinesOf(db.lines, o), Posting.Mirror());
         && db.entries[o].source == FromDocument(id) && db.entries[o].status.Posted?
         && Posts(db, db', FromDocument(id), lines) && Posting.ValidLines(lines)
         && db'.entries[o].status.Reversed?
         && (forall e :: 0 <= e < |db.entries| && e != o ==> db'.entries[e].status == db.entries[e].status)
         && db'.documents == db.documents[id := DocumentProtocol.ReversedRow(d)]
                             + [Documents.CorrectionRow(d, id, actor, today)]
  {
    assert id < |db.documents|;
    hide Documents.ReverseDocument;
    hide Posting.ValidLines;
    ReverseDocumentShape(db, id, actor, today);
    MirrorAccepted(db, id, actor, today);
    assert DocumentOk(db, id);
  }

  /** The mirror entry under the protocol's tables. */
  function MirrorEntry(db: Db, id: nat, o: nat): DocumentProtocol.EntryRow {
    DocumentProtocol.EntryRow(id, DocumentProtocol.Reversal, EntryStatus.Posted,
                              Posting.MirrorLines(Posting.LinesOf(db.lines, o), |db.entries|))
  }

  /** Flipping one row and adding another commute. */
  lemma FlipThenAdd<V>(m: map<nat, V>, o: nat, flipped: V, n: nat, added: V)
    requires o != n
    ensures m[o := flipped][n := added] == m[n := added][o := flipped]
  {
  }

  lemma ReverseAddsMirror(db: Db, id: nat, actor: nat, today: Date)
    requires Inv(db) && Documents.ReverseDocument(db, id, actor, today).Commit?
    ensures var d, db', n := db.documents[id], Documents.ReverseDocument(db, id, actor, today).db, |db.entries|;
      && d.entry.Some?
      && DocumentProtocol.AddsMirror(DocumentTables(db), DocumentTables(db'), id, DocumentProtocol.ReversedRow(d),
                                     d.entry.value, n, MirrorEntry(db, id, d.entry.value), |db.documents|,
                                     Documents.CorrectionRow(d, id, actor, today))
  {
    ReverseShape(db, id, actor, today);
    ReversedTables(db, Documents.ReverseDocument(db, id, actor, today).db, id, db.documents[id].entry.value,
                   Documents.CorrectionRow(db.documents[id], id, actor, today));
  }

  lemma ReversedTables(db: Db, db': Db, id: nat, o: nat, correction: Document)
    requires id < |db.documents| && db.documents[id].status.Posted? && db.documents[id].entry == Some(o) && o < |db.entries|
    requires db.entries[o].source == FromDocument(id)
    requires correction.status.Posted? && correction.entry.None? && correction.correctionOf == Some(id)
    requires Posts(db, db', FromDocument(id), Map(Posting.LinesOf(db.lines, o), Posting.Mirror()))
    requires db'.entries[o].status.Reversed?
    requires forall e :: 0 <= e < |db.entries| && e != o ==> db'.entries[e].status == db.entries[e].status
    requires db'.documents == db.documents[id := DocumentProtocol.ReversedRow(db.documents[id])] + [correction]
    ensures DocumentProtocol.AddsMirror(
              DocumentTables(db), DocumentTables(db'), id, DocumentProtocol.ReversedRow(db.documents[id]), o,
              |db.entries|, MirrorEntry(db, id, o), |db.documents|, correction)
  {
    var row, n := DocumentProtocol.ReversedRow(db.documents[id]), |db.entries|;
    var before := DocumentEntries(db.entries, db.lines, db.documents);
    OneMirrorMore(db, db', id, o, Map(Posting.LinesOf(db.lines, o), Posting.Mirror()), correction);
    TableUpdate(db.documents, id, row);
    TableAppend(db.documents[id := row], correction);
    FlipThenAdd(before, o, before[o].(status := EntryStatus.Reversed), n, MirrorEntry(db, id, o));
  }

  lemma ReverseRefines(db: Db, id: nat, actor: nat, today: Date)
    requires Inv(db) && Documents.ReverseDocument(db, id, actor, today).Commit?
    ensures DocumentProtocol.Apply(DocumentTables(db),
                                   DocumentProtocol.Undone(id, |db.entries|, |db.documents|, actor, today))
            == Some(DocumentTables(Documents.ReverseDocument(db, id, actor, today).db))
  {
    assert id < |db.documents|;
    hide Documents.ReverseDocument;
    hide Posting.ValidLines;
    hide Inv;
    var d, db' := db.documents[id], Documents.ReverseDocument(db, id, actor, today).db;
    ReverseShape(db, id, actor, today);
    ReverseAddsMirror(db, id, actor, today);
    DocumentProtocol.UndoShape(DocumentTables(db), DocumentTables(db'), id, DocumentProtocol.ReversedRow(d),
                               d.entry.value, |db.entries|, MirrorEntry(db, id, d.entry.value), |db.documents|,
                               actor, today);
  }

  /** The entries and lines that are there stay, and new entries are of payments. */
  predicate SameDocuments(db: Db, db': Db) {
    && db'.documents == db.documents
    && |db.entries| <= |db'.entries|
    && (forall e :: 0 <= e < |db.entries| ==>
          db'.entries[e] == db.entries[e] && Posting.LinesOf(db'.lines, e) == Posting.LinesOf(db.lines, e))
    && (forall e :: |db.entries| <= e < |db'.entries| ==> db'.entries[e].source.FromPayment?)
  }

  lemma SameDocumentTables(db: Db, db': Db)
    requires SameDocuments(db, db')
    ensures DocumentTables(db') == DocumentTables(db)
  {
    forall e: nat | e < |db.entries| && db.entries[e].source.FromDocument?
      ensures DocumentEntry(db'.entries, db'.lines, db'.documents, e)
              == DocumentEntry(db.entries, db.lines, db.documents, e)
    {
    }
  }

  lemma ExecuteKeepsDocuments(db: Db, order: Payments.PaymentOrder)
    requires Inv(db) && Payments.Execute(db, order).Commit?
    ensures SameDocuments(db, Payments.Execute(db, order).db)
  {
    if Payments.FindKey(db.payments, order.key) == |db.payments| {
      var row := ExecuteLedger(db, order);
    }
  }

  lemma OtherCallsKeepDocuments(db: Db, c: Command)
    requires Inv(db) && DocumentCall(db, c) == DocumentProtocol.Nothing
    ensures DocumentTables(Step(db, c)) == DocumentTables(db)
  {
    if Perform(db, c).Commit? {
      if SetupCommand(c) {
        SetupKeepsInv(db, c);
      } else if c.ExecutePayment? {
        ExecuteKeepsDocuments(db, c.order);
      } else {
        RequestStepKeeps(db, c);
      }
      SameDocumentTables(db, Step(db, c));
    }
  }

  /** Each service call is the document protocol's atomic call, accepted and with the same effect. */
  lemma DocumentCallsRefine(db: Db, c: Command)
    requires Inv(db)
    ensures DocumentProtocol.Apply(DocumentTables(db), DocumentCall(db, c)) == Some(DocumentTables(Step(db, c)))
  {
    if DocumentCall(db, c).Nothing? {
      OtherCallsKeepDocuments(db, c);
    } else if c.PostDocument? {
      PostRefines(db, c.id);
    } else if c.ReverseDocument? {
      ReverseRefines(db, c.id, c.actor, c.today);
    } else if c.CreateDocument? {
      CreateRefines(db, c);
    } else if c.UpdateDocument? {
      UpdateRefines(db, c.id, c.patch, c.actor);
    } else {
      DecideRefines(db, c.id, c.decision, c.actor);
    }
  }

  function DocumentCalls(db: Db, commands: seq<Command>): seq<DocumentProtocol.Atomic> {
    if commands == [] then []
    else
      DocumentCalls(db, commands[..|commands| - 1])
      + [DocumentCall(Run(db, commands[..|commands| - 1]), commands[|commands| - 1])]
  }

  /** Every run of the services is a serial run of the document protocol's atomic calls. */
  lemma {:induction false} RunsAreSerialDocuments(base: string, commands: seq<Command>)
    ensures Runs.SerialRun(DocumentProtocol.Apply, DocumentProtocol.Initial().db, DocumentCalls(EmptyDb(base), commands))
            == Some(DocumentTables(Run(EmptyDb(base), commands)))
  {
    if commands == [] {
      assert DocumentTables(EmptyDb(base)) == DocumentProtocol.Initial().db;
    } else {
      var before := commands[..|commands| - 1];
      RunsAreSerialDocuments(base, before);
      RunKeeps(base, before, Posting.Every());
      DocumentCallsRefine(Run(EmptyDb(base), before), commands[|commands| - 1]);
      var calls := DocumentCalls(EmptyDb(base), commands);
      assert calls[..|calls| - 1] == DocumentCalls(EmptyDb(base), before);
    }
  }
}
