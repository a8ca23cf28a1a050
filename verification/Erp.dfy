/**
 * The accounting core as one machine: every service call is an atomic step on the
 * database. The invariant and the theorems below hold after any run of calls.
 */
module Erp {
  import opened Folds
  import opened Tables
  import opened ExchangeRates
  import opened Posting
  import Documents
  import Payments
  import Decimal

  datatype Command =
    | CreateAccount(code: string, kind: AccountType, isCash: bool)
    | DeactivateAccount(id: nat)
    | CreatePeriod(year: int, month: int)
    | MovePeriod(id: nat, next: PeriodStatus)
    | ReopenPeriod(id: nat)
    | SetRate(currency: string, rateDate: Date, rate: int)
    | CreateDocument(draft: Documents.Draft, actor: nat)
    | UpdateDocument(id: nat, patch: Documents.Patch, actor: nat)
    | DecideDocument(id: nat, decision: Documents.Decision, actor: nat)
    | PostDocument(id: nat)
    | ReverseDocument(id: nat, actor: nat, today: Date)
    | CreateRequest(requestDraft: Payments.RequestDraft, actor: nat)
    | UpdateRequest(id: nat, requestPatch: Payments.RequestPatch, actor: nat)
    | DecideRequest(id: nat, requestDecision: Payments.RequestDecision, actor: nat)
    | ExecutePayment(order: Payments.PaymentOrder)

  function AddAccount(db: Db, code: string, kind: AccountType, isCash: bool): Tx {
    if exists i :: 0 <= i < |db.accounts| && db.accounts[i].code == code then Rollback(Conflict)
    else Commit(db.(accounts := db.accounts + [Account(code, kind, isCash, true)]), |db.accounts|)
  }

  function Deactivate(db: Db, id: nat): Tx {
    if id >= |db.accounts| then Rollback(NotFound)
    else Commit(db.(accounts := db.accounts[id := db.accounts[id].(isActive := false)]), id)
  }

  function Perform(db: Db, c: Command): Tx {
    match c
    case CreateAccount(code, kind, isCash) => AddAccount(db, code, kind, isCash)
    case DeactivateAccount(id) => Deactivate(db, id)
    case CreatePeriod(year, month) => Posting.CreatePeriod(db, year, month)
    case MovePeriod(id, next) => Posting.MovePeriod(db, id, next)
    case ReopenPeriod(id) => Posting.ReopenPeriod(db, id)
    case SetRate(currency, date, rate) => ExchangeRates.SetRate(db, currency, date, rate)
    case CreateDocument(draft, actor) => Documents.CreateDocument(db, draft, actor)
    case UpdateDocument(id, patch, actor) => Documents.UpdateDocument(db, id, patch, actor)
    case DecideDocument(id, decision, actor) => Documents.Decide(db, id, decision, actor)
    case PostDocument(id) => Documents.PostDocument(db, id)
    case ReverseDocument(id, actor, today) => Documents.ReverseDocument(db, id, actor, today)
    case CreateRequest(draft, actor) => Payments.CreateRequest(db, draft, actor)
    case UpdateRequest(id, patch, actor) => Payments.UpdateRequest(db, id, patch, actor)
    case DecideRequest(id, decision, actor) => Payments.DecideRequest(db, id, decision, actor)
    case ExecutePayment(order) => Payments.Execute(db, order)
  }

  function Step(db: Db, c: Command): Db { After(db, Perform(db, c)) }

  function Run(db: Db, commands: seq<Command>): Db {
    if commands == [] then db
    else Step(Run(db, commands[..|commands| - 1]), commands[|commands| - 1])
  }

  // ---------- The invariant ----------

  /** The entry's lines are what the document posts, at one rate. */
  ghost predicate IsPostingOf(db: Db, e: nat, d: Document) {
    var lines := LinesOf(db.lines, e);
    lines != [] && lines == Map(Documents.Postings(d, lines[0].body.rate), Stored(e))
  }

  ghost predicate DocumentOk(db: Db, id: nat)
    requires id < |db.documents|
  {
    var d := db.documents[id];
    && (d.entry.Some? ==>
          && d.correctionOf.None? && (d.status.Posted? || d.status.Reversed?)
          && d.entry.value < |db.entries|
          && db.entries[d.entry.value].source == FromDocument(id)
          && (db.entries[d.entry.value].status.Posted? <==> d.status.Posted?)
          && IsPostingOf(db, d.entry.value, d))
    && (d.entry.None? && (d.status.Posted? || d.status.Reversed?) ==> d.correctionOf.Some?)
    && (d.correctionOf.Some? ==> d.status.Posted? && d.entry.None?)
    && (d.correctionOf.None? ==> d.amountTotal == Sum(d.lines, Documents.AmountOf()))
  }

  ghost predicate DocumentsInv(db: Db) {
    forall id :: 0 <= id < |db.documents| ==> DocumentOk(db, id)
  }

  ghost predicate PaymentOk(db: Db, id: nat)
    requires id < |db.payments|
  {
    var p := db.payments[id];
    && p.status.Executed? && p.entry.Some? && p.entry.value < |db.entries|
    && db.entries[p.entry.value].source == FromPayment(id)
    && db.entries[p.entry.value].status.Posted?
    && LinesOf(db.lines, p.entry.value) == Map(Payments.PaymentPostings(p, p.rate), Stored(p.entry.value))
    && p.baseAmount == Decimal.Convert(p.amount, p.rate)
    && (p.request.Some? ==> p.request.value < |db.requests| && db.requests[p.request.value].payment == Some(id))
  }

  ghost predicate PaymentsInv(db: Db) {
    && (forall id :: 0 <= id < |db.payments| ==> PaymentOk(db, id))
    && (forall i, j :: 0 <= i < j < |db.payments| ==> db.payments[i].key != db.payments[j].key)
  }

  ghost predicate RequestOk(db: Db, id: nat)
    requires id < |db.requests|
  {
    var r := db.requests[id];
    && !r.status.Paid?
    && (r.status.Accounted? <==> r.payment.Some?)
    && (r.payment.Some? ==>
          && r.payment.value < |db.payments|
          && db.payments[r.payment.value].request == Some(id)
          && db.payments[r.payment.value].entry == r.entry)
    && (r.payment.None? ==> r.entry.None?)
  }

  ghost predicate RequestsInv(db: Db) {
    forall id :: 0 <= id < |db.requests| ==> RequestOk(db, id)
  }

  function IsFrom(source: Source): Entry -> int { (e: Entry) => if e.source == source then 1 else 0 }

  /** Number of journal entries that name this source. */
  function EntriesFrom(db: Db, source: Source): int { Sum(db.entries, IsFrom(source)) }

  function ExpectedEntries(d: Document): int {
    if d.entry.None? then 0 else if d.status.Posted? then 1 else 2
  }

  ghost predicate SourcesInv(db: Db) {
    && (forall id :: 0 <= id < |db.documents| ==> EntriesFrom(db, FromDocument(id)) == ExpectedEntries(db.documents[id]))
    && (forall id :: 0 <= id < |db.payments| ==> EntriesFrom(db, FromPayment(id)) == 1)
    && (forall e :: 0 <= e < |db.entries| ==> SourceExists(db, db.entries[e].source))
  }

  predicate SourceExists(db: Db, s: Source) {
    match s
    case FromDocument(id) => id < |db.documents|
    case FromPayment(id) => id < |db.payments|
  }

  ghost predicate Inv(db: Db) {
    LedgerInv(db) && DocumentsInv(db) && PaymentsInv(db) && RequestsInv(db) && SourcesInv(db)
  }

  // ---------- Conservation ----------

  /** A document counts while it is POSTED and has an entry; reversed and correction documents count zero. */
  function DocumentEffect(p: LineKey -> bool): Document -> int {
    (d: Document) => if d.status.Posted? && d.entry.Some? then Documents.DocumentNet(d, p) else 0
  }

  function PaymentEffect(p: LineKey -> bool): Payment -> int {
    (x: Payment) => if x.status.Executed? then Payments.PaymentNet(x, p) else 0
  }

  ghost predicate Conserved(db: Db, p: LineKey -> bool) {
    Sum(db.lines, Net(p)) == Sum(db.documents, DocumentEffect(p)) + Sum(db.payments, PaymentEffect(p))
  }

  // ---------- Steps that do not touch the ledger ----------

  /** The ledger, documents, payments and requests stay; accounts, periods and rates may only grow or change status. */
  ghost predicate SameBooks(db: Db, db': Db) {
    && db'.entries == db.entries && db'.lines == db.lines && db'.documents == db.documents
    && db'.payments == db.payments && db'.requests == db.requests
    && |db.accounts| <= |db'.accounts|
    && |db.periods| <= |db'.periods|
    && (forall i :: 0 <= i < |db.periods| ==>
          db'.periods[i].year == db.periods[i].year && db'.periods[i].month == db.periods[i].month)
  }

  lemma SameBooksInv(db: Db, db': Db)
    requires Inv(db) && SameBooks(db, db') && PeriodsInv(db')
    ensures Inv(db')
  {
    assert LinesInv(db') && EntriesInv(db');
    forall id | 0 <= id < |db'.documents| ensures DocumentOk(db', id) {
      assert DocumentOk(db, id);
    }
    forall id | 0 <= id < |db'.payments| ensures PaymentOk(db', id) {
      assert PaymentOk(db, id);
    }
    forall id | 0 <= id < |db'.requests| ensures RequestOk(db', id) {
      assert RequestOk(db, id);
    }
    SameSourcesInv(db, db');
  }

  predicate SetupCommand(c: Command) {
    c.CreateAccount? || c.DeactivateAccount? || c.CreatePeriod? || c.MovePeriod? || c.ReopenPeriod? || c.SetRate?
  }

  lemma SetupKeepsInv(db: Db, c: Command)
    requires Inv(db) && SetupCommand(c)
    ensures SameBooks(db, Step(db, c))
    ensures Inv(Step(db, c))
  {
    SameBooksInv(db, Step(db, c));
  }

  // ---------- Document rows ----------

  /** Only the document row at id differs, or one row is new. */
  ghost predicate OnlyDocuments(db: Db, db': Db) {
    db' == db.(documents := db'.documents)
  }

  lemma DocumentRowInv(db: Db, db': Db)
    requires Inv(db) && OnlyDocuments(db, db')
    requires |db.documents| <= |db'.documents|
    requires forall id :: 0 <= id < |db'.documents| ==>
      && DocumentOk(db', id)
      && ExpectedEntries(db'.documents[id]) == (if id < |db.documents| then ExpectedEntries(db.documents[id]) else 0)
    ensures Inv(db')
  {
    assert LedgerInv(db');
    forall id | 0 <= id < |db'.payments| ensures PaymentOk(db', id) {
      assert PaymentOk(db, id);
    }
    forall id | 0 <= id < |db'.requests| ensures RequestOk(db', id) {
      assert RequestOk(db, id);
    }
    forall id | 0 <= id < |db'.documents|
      ensures EntriesFrom(db', FromDocument(id)) == ExpectedEntries(db'.documents[id])
    {
      if id < |db.documents| {
        assert EntriesFrom(db, FromDocument(id)) == ExpectedEntries(db.documents[id]);
      } else {
        NoEntriesFrom(db, FromDocument(id));
      }
    }
    forall id | 0 <= id < |db'.payments| ensures EntriesFrom(db', FromPayment(id)) == 1 {
      assert EntriesFrom(db, FromPayment(id)) == 1;
    }
    forall e | 0 <= e < |db'.entries| ensures SourceExists(db', db'.entries[e].source) {
      assert SourceExists(db, db.entries[e].source);
    }
  }

  lemma NoEntriesFrom(db: Db, s: Source)
    requires SourcesInv(db) && !SourceExists(db, s)
    ensures EntriesFrom(db, s) == 0
  {
    SumZero(db.entries, IsFrom(s));
  }

  /** Documents are added as drafts, or edited and decided while they have no entry. */
  ghost predicate DocumentEdited(db: Db, db': Db, id: nat, row: Document) {
    && OnlyDocuments(db, db')
    && row.entry.None? && !row.status.Posted? && !row.status.Reversed? && row.correctionOf.None?
    && row.amountTotal == Sum(row.lines, Documents.AmountOf())
    && if id < |db.documents| then
         db'.documents == db.documents[id := row] && db.documents[id].entry.None?
       else id == |db.documents| && db'.documents == db.documents + [row]
  }

  lemma PaperworkEdits(db: Db, c: Command) returns (id: nat, row: Document)
    requires DocumentsInv(db) && (c.CreateDocument? || c.UpdateDocument? || c.DecideDocument?) && Perform(db, c).Commit?
    ensures DocumentEdited(db, Step(db, c), id, row)
  {
    id := if c.CreateDocument? then |db.documents| else c.id;
    row := Step(db, c).documents[id];
    assert id < |db.documents| ==> DocumentOk(db, id);
  }

  lemma DocumentEditedInv(db: Db, db': Db, id: nat, row: Document)
    requires Inv(db) && DocumentEdited(db, db', id, row)
    ensures Inv(db')
  {
    var n := |db.documents|;
    assert DocumentOk(db', id);
    forall k | 0 <= k < |db'.documents|
      ensures DocumentOk(db', k)
      ensures ExpectedEntries(db'.documents[k]) == if k < n then ExpectedEntries(db.documents[k]) else 0
    {
      if k != id {
        assert DocumentOk(db, k);
      }
    }
    DocumentRowInv(db, db');
  }

  lemma DocumentEditedConserves(db: Db, db': Db, id: nat, row: Document, p: LineKey -> bool)
    requires Conserved(db, p) && DocumentEdited(db, db', id, row)
    ensures Conserved(db', p)
  {
    if id < |db.documents| {
      SumUpdate(db.documents, id, row, DocumentEffect(p));
    } else {
      SumSnoc(db.documents, row, DocumentEffect(p));
    }
  }

  /** Creating, editing and deciding: rows without an entry before and after, so effects stay zero. */
  lemma PaperworkKeeps(db: Db, c: Command, p: LineKey -> bool)
    requires Inv(db) && (c.CreateDocument? || c.UpdateDocument? || c.DecideDocument?)
    ensures Inv(Step(db, c))
    ensures Conserved(db, p) ==> Conserved(Step(db, c), p)
    ensures OnlyDocuments(db, Step(db, c))
  {
    if Perform(db, c).Commit? {
      var id, row := PaperworkEdits(db, c);
      DocumentEditedInv(db, Step(db, c), id, row);
      if Conserved(db, p) {
        DocumentEditedConserves(db, Step(db, c), id, row, p);
      }
    }
  }

  // ---------- One more entry ----------

  /** What every posting leaves as it was, for the entry at e. */
  lemma OtherDocumentsOk(db: Db, db': Db, changed: nat)
    requires DocumentsInv(db)
    requires |db.entries| <= |db'.entries| && |db.documents| <= |db'.documents|
    requires forall e :: 0 <= e < |db.entries| ==>
      && LinesOf(db'.lines, e) == LinesOf(db.lines, e)
      && db'.entries[e].source == db.entries[e].source
      && (db'.entries[e].status == db.entries[e].status || db.entries[e].source == FromDocument(changed))
    requires forall k :: 0 <= k < |db.documents| && k != changed ==> db'.documents[k] == db.documents[k]
    ensures forall k :: 0 <= k < |db.documents| && k != changed ==> DocumentOk(db', k)
  {
    forall k | 0 <= k < |db.documents| && k != changed ensures DocumentOk(db', k) {
      assert DocumentOk(db, k);
    }
  }

  lemma OtherPaymentsOk(db: Db, db': Db)
    requires PaymentsInv(db)
    requires |db.entries| <= |db'.entries| && |db.payments| <= |db'.payments|
    requires forall e :: 0 <= e < |db.entries| ==>
      && LinesOf(db'.lines, e) == LinesOf(db.lines, e)
      && db'.entries[e].source == db.entries[e].source
      && (db'.entries[e].status == db.entries[e].status || db.entries[e].source.FromDocument?)
    requires forall k :: 0 <= k < |db.payments| ==> db'.payments[k] == db.payments[k]
    requires |db.requests| == |db'.requests|
    requires forall k :: 0 <= k < |db.requests| && db.requests[k].payment.Some? ==> db'.requests[k] == db.requests[k]
    ensures forall k :: 0 <= k < |db.payments| ==> PaymentOk(db', k)
  {
    forall k | 0 <= k < |db.payments| ensures PaymentOk(db', k) {
      assert PaymentOk(db, k);
    }
  }

  lemma OtherRequestsOk(db: Db, db': Db)
    requires RequestsInv(db) && db'.requests == db.requests && db'.payments == db.payments
    ensures RequestsInv(db')
  {
    forall k | 0 <= k < |db'.requests| ensures RequestOk(db', k) {
      assert RequestOk(db, k);
    }
  }

  lemma OneMoreEntry(db: Db, e: Entry, s: Source)
    ensures Sum(db.entries + [e], IsFrom(s)) == EntriesFrom(db, s) + (if e.source == s then 1 else 0)
  {
    SumSnoc(db.entries, e, IsFrom(s));
  }

  /** db' has one more entry with the given posted lines; older entries keep their lines and sources. */
  ghost predicate Posts(db: Db, db': Db, source: Source, lines: seq<PostingLine>) {
    var n := |db.entries|;
    && |db'.entries| == n + 1
    && db'.entries[n].source == source && db'.entries[n].status.Posted?
    && db'.lines == db.lines + Map(lines, Stored(n))
    && LinesOf(db'.lines, n) == Map(lines, Stored(n))
    && (forall e :: 0 <= e < n ==>
          LinesOf(db'.lines, e) == LinesOf(db.lines, e) && db'.entries[e].source == db.entries[e].source)
  }

  lemma PostsNet(db: Db, db': Db, source: Source, lines: seq<PostingLine>, p: LineKey -> bool)
    requires Posts(db, db', source, lines)
    ensures Sum(db'.lines, Net(p)) == Sum(db.lines, Net(p)) + Sum(lines, NetOf(p))
  {
    SumConcat(db.lines, Map(lines, Stored(|db.entries|)), Net(p));
    StoredNet(lines, |db.entries|, p);
  }

  /** What posting a document does to the ledger, whatever the other tables hold. */
  lemma PostDocumentLedger(db: Db, id: nat) returns (rate: int)
    requires LedgerInv(db) && Documents.PostDocument(db, id).Commit?
    ensures var d, n, db' := db.documents[id], |db.entries|, Documents.PostDocument(db, id).db;
      && Posts(db, db', FromDocument(id), Documents.Postings(d, rate))
      && db' == db.(entries := db.entries + [db'.entries[n]], lines := db'.lines,
                    documents := db.documents[id := d.(status := DocumentStatus.Posted, entry := Some(n))])
      && d.status.Approved? && ValidLines(Documents.Postings(d, rate))
  {
    var d := db.documents[id];
    rate := GetRate(db.baseCurrency, db.rates, d.currency, d.date).value;
    PostAppends(db, d.date, FromDocument(id), Documents.Postings(d, rate));
  }

  lemma PostDocumentKeepsLedger(db: Db, id: nat)
    requires LedgerInv(db) && Documents.PostDocument(db, id).Commit?
    ensures LedgerInv(Documents.PostDocument(db, id).db)
  {
    var d := db.documents[id];
    var rate := GetRate(db.baseCurrency, db.rates, d.currency, d.date).value;
    var lines := Documents.Postings(d, rate);
    Documents.PostingsBaseBalanced(Documents.HeaderOf(d), d.lines, rate, |db.entries|);
    PostKeepsInv(db, d.date, FromDocument(id), lines);
    StatusKeepsLedger(PostEntry(db, d.date, FromDocument(id), lines).db, Documents.PostDocument(db, id).db);
  }

  lemma PostDocumentShape(db: Db, id: nat) returns (rate: int)
    requires Inv(db)
    requires Documents.PostDocument(db, id).Commit?
    ensures var d, n, db' := db.documents[id], |db.entries|, Documents.PostDocument(db, id).db;
      && Posts(db, db', FromDocument(id), Documents.Postings(d, rate))
      && db' == db.(entries := db.entries + [db'.entries[n]], lines := db'.lines,
                    documents := db.documents[id := d.(status := DocumentStatus.Posted, entry := Some(n))])
      && d.status.Approved? && d.entry.None? && d.correctionOf.None?
      && ValidLines(Documents.Postings(d, rate))
      && LedgerInv(db')
  {
    rate := PostDocumentLedger(db, id);
    PostDocumentKeepsLedger(db, id);
    assert DocumentOk(db, id);
  }

  lemma PostedDocumentOk(db: Db, db': Db, id: nat, rate: int)
    requires id < |db.documents| && DocumentOk(db, id) && db.documents[id].correctionOf.None?
    requires Posts(db, db', FromDocument(id), Documents.Postings(db.documents[id], rate))
    requires ValidLines(Documents.Postings(db.documents[id], rate))
    requires db'.documents == db.documents[id := db.documents[id].(
                                status := DocumentStatus.Posted, entry := Some(|db.entries|))]
    ensures DocumentOk(db', id)
  {
    var d, n := db.documents[id], |db.entries|;
    var stored := LinesOf(db'.lines, n);
    var lines := Documents.Postings(d, rate);
    assert Documents.Postings(db'.documents[id], rate) == lines;
    assert stored[0].body == lines[0];
    Documents.PostingsRate(d, rate);
  }

  lemma PostDocumentInv(db: Db, id: nat)
    requires Inv(db)
    requires Documents.PostDocument(db, id).Commit?
    ensures Inv(Documents.PostDocument(db, id).db)
  {
    var rate := PostDocumentShape(db, id);
    PostedRowsInv(db, Documents.PostDocument(db, id).db, id, rate);
  }

  /** The invariant on the rows, from the shape of a posting alone. */
  lemma PostedRowsInv(db: Db, db': Db, id: nat, rate: int)
    requires Inv(db) && LedgerInv(db') && id < |db.documents|
    requires db.documents[id].entry.None? && db.documents[id].correctionOf.None?
    requires ValidLines(Documents.Postings(db.documents[id], rate))
    requires Posts(db, db', FromDocument(id), Documents.Postings(db.documents[id], rate))
    requires db' == db.(entries := db.entries + [db'.entries[|db.entries|]], lines := db'.lines,
                        documents := db.documents[id := db.documents[id].(
                          status := DocumentStatus.Posted, entry := Some(|db.entries|))])
    ensures Inv(db')
  {
    assert DocumentOk(db, id);
    PostedDocumentOk(db, db', id, rate);
    OtherDocumentsOk(db, db', id);
    OtherPaymentsOk(db, db');
    OtherRequestsOk(db, db');
    PostingSources(db, db', id);
  }

  lemma PostingSources(db: Db, db': Db, id: nat)
    requires SourcesInv(db)
    requires id < |db.documents| && db.documents[id].entry.None?
    requires |db'.entries| == |db.entries| + 1 && db'.payments == db.payments
    requires db'.entries == db.entries + [db'.entries[|db.entries|]]
    requires db'.entries[|db.entries|].source == FromDocument(id)
    requires |db'.documents| == |db.documents|
    requires db'.documents[id].entry.Some? && db'.documents[id].status.Posted?
    requires forall k :: 0 <= k < |db.documents| && k != id ==> db'.documents[k] == db.documents[k]
    ensures SourcesInv(db')
  {
    var last := db'.entries[|db.entries|];
    forall k | 0 <= k < |db'.documents|
      ensures EntriesFrom(db', FromDocument(k)) == ExpectedEntries(db'.documents[k])
    {
      OneMoreEntry(db, last, FromDocument(k));
      assert EntriesFrom(db, FromDocument(k)) == ExpectedEntries(db.documents[k]);
    }
    forall k | 0 <= k < |db'.payments| ensures EntriesFrom(db', FromPayment(k)) == 1 {
      OneMoreEntry(db, last, FromPayment(k));
      assert EntriesFrom(db, FromPayment(k)) == 1;
    }
    forall e | 0 <= e < |db'.entries| ensures SourceExists(db', db'.entries[e].source) {
      if e < |db.entries| {
        assert SourceExists(db, db.entries[e].source);
      }
    }
  }

  lemma PostDocumentConserves(db: Db, id: nat, p: LineKey -> bool)
    requires Inv(db) && Conserved(db, p)
    requires Documents.PostDocument(db, id).Commit?
    ensures Conserved(Documents.PostDocument(db, id).db, p)
  {
    var rate := PostDocumentShape(db, id);
    var d, n, db' := db.documents[id], |db.entries|, Documents.PostDocument(db, id).db;
    var d' := d.(status := DocumentStatus.Posted, entry := Some(n));
    PostsNet(db, db', FromDocument(id), Documents.Postings(d, rate), p);
    Documents.PostingsMeaning(d, rate, p);
    SumUpdate(db.documents, id, d', DocumentEffect(p));
    assert Documents.DocumentNet(d', p) == Documents.DocumentNet(d, p);
  }

  /** What reversing a document does to the ledger, whatever the other tables hold. */
  lemma ReverseDocumentLedger(db: Db, id: nat, actor: nat, today: Date)
    requires LedgerInv(db) && Documents.ReverseDocument(db, id, actor, today).Commit?
    ensures var d, n, db' := db.documents[id], |db.entries|, Documents.ReverseDocument(db, id, actor, today).db;
      && d.status.Posted? && d.entry.Some? && d.entry.value < n
      && Posts(db, db', db.entries[d.entry.value].source, Map(LinesOf(db.lines, d.entry.value), Mirror()))
      && db' == db.(
           entries := (db.entries + [db'.entries[n]])[
             d.entry.value := db.entries[d.entry.value].(status := EntryStatus.Reversed)],
           lines := db'.lines,
           documents := db.documents[id := d.(status := DocumentStatus.Reversed)]
                        + [Documents.CorrectionRow(d, id, actor, today)])
  {
    var o := db.documents[id].entry.value;
    PostAppends(db, today, db.entries[o].source, Map(LinesOf(db.lines, o), Mirror()));
  }

  lemma ReverseDocumentKeepsLedger(db: Db, id: nat, actor: nat, today: Date)
    requires LedgerInv(db) && Documents.ReverseDocument(db, id, actor, today).Commit?
    ensures LedgerInv(Documents.ReverseDocument(db, id, actor, today).db)
  {
    var o := db.documents[id].entry.value;
    var original := LinesOf(db.lines, o);
    LinesOfFaithful(db, o);
    assert Balanced(original);
    MirrorCancels(original, |db.entries|, Every());
    PostKeepsInv(db, today, db.entries[o].source, Map(original, Mirror()));
    StatusKeepsLedger(PostEntry(db, today, db.entries[o].source, Map(original, Mirror())).db,
                      Documents.ReverseDocument(db, id, actor, today).db);
  }

  lemma ReverseDocumentShape(db: Db, id: nat, actor: nat, today: Date)
    requires Inv(db)
    requires Documents.ReverseDocument(db, id, actor, today).Commit?
    ensures var d, n, db' := db.documents[id], |db.entries|, Documents.ReverseDocument(db, id, actor, today).db;
      && d.status.Posted? && d.entry.Some? && d.entry.value < n && d.correctionOf.None?
      && Posts(db, db', FromDocument(id), Map(LinesOf(db.lines, d.entry.value), Mirror()))
      && db' == db.(
           entries := (db.entries + [db'.entries[n]])[
             d.entry.value := db.entries[d.entry.value].(status := EntryStatus.Reversed)],
           lines := db'.lines,
           documents := db.documents[id := d.(status := DocumentStatus.Reversed)]
                        + [Documents.CorrectionRow(d, id, actor, today)])
      && LedgerInv(db')
  {
    ReverseDocumentLedger(db, id, actor, today);
    ReverseDocumentKeepsLedger(db, id, actor, today);
    assert DocumentOk(db, id);
  }

  /** The ledger invariant says nothing about the status of entries or about documents. */
  lemma StatusKeepsLedger(db: Db, db': Db)
    requires LedgerInv(db)
    requires db'.lines == db.lines && db'.accounts == db.accounts && db'.periods == db.periods
    requires |db'.entries| == |db.entries|
    requires forall e :: 0 <= e < |db.entries| ==>
      db'.entries[e].period == db.entries[e].period && db'.entries[e].date == db.entries[e].date
    ensures LedgerInv(db')
  {
  }

  lemma ReversedDocumentOk(db: Db, db': Db, id: nat, correction: Document)
    requires id < |db.documents| && DocumentOk(db, id)
    requires db.documents[id].status.Posted? && db.documents[id].entry.Some?
    requires |db.entries| <= |db'.entries|
    requires var o := db.documents[id].entry.value;
      && LinesOf(db'.lines, o) == LinesOf(db.lines, o)
      && db'.entries[o] == db.entries[o].(status := EntryStatus.Reversed)
    requires db'.documents == db.documents[id := db.documents[id].(status := DocumentStatus.Reversed)] + [correction]
    ensures DocumentOk(db', id)
  {
    var d := db.documents[id];
    var rate := LinesOf(db.lines, d.entry.value)[0].body.rate;
    assert Documents.Postings(db'.documents[id], rate) == Documents.Postings(d, rate);
  }

  lemma ReverseDocumentInv(db: Db, id: nat, actor: nat, today: Date)
    requires Inv(db)
    requires Documents.ReverseDocument(db, id, actor, today).Commit?
    ensures Inv(Documents.ReverseDocument(db, id, actor, today).db)
  {
    ReverseDocumentShape(db, id, actor, today);
    var d, n, db' := db.documents[id], |db.entries|, Documents.ReverseDocument(db, id, actor, today).db;
    assert DocumentOk(db, id);
    ReversedRowsInv(db, db', id, Documents.CorrectionRow(d, id, actor, today));
  }

  /** The invariant on the rows, from the shape of a reversal alone. */
  lemma ReversedRowsInv(db: Db, db': Db, id: nat, correction: Document)
    requires Inv(db) && LedgerInv(db') && id < |db.documents|
    requires db.documents[id].status.Posted? && db.documents[id].entry.Some?
    requires db.documents[id].entry.value < |db.entries|
    requires correction.status.Posted? && correction.entry.None? && correction.correctionOf == Some(id)
    requires Posts(db, db', FromDocument(id), Map(LinesOf(db.lines, db.documents[id].entry.value), Mirror()))
    requires var o, n := db.documents[id].entry.value, |db.entries|;
      db' == db.(entries := (db.entries + [db'.entries[n]])[o := db.entries[o].(status := EntryStatus.Reversed)],
                 lines := db'.lines,
                 documents := db.documents[id := db.documents[id].(status := DocumentStatus.Reversed)] + [correction])
    ensures Inv(db')
  {
    var o := db.documents[id].entry.value;
    assert DocumentOk(db, id);
    OtherDocumentsOk(db, db', id);
    ReversedDocumentOk(db, db', id, correction);
    assert DocumentOk(db', |db.documents|);
    OtherPaymentsOk(db, db');
    OtherRequestsOk(db, db');
    ReversalSources(db, db', id, o, db.entries[o].(status := EntryStatus.Reversed));
  }

  /** The entry of a document nets, for every selection of keys, to what the document's lines say. */
  lemma EntryNetsDocument(db: Db, id: nat, p: LineKey -> bool)
    requires Inv(db) && id < |db.documents| && db.documents[id].entry.Some?
    ensures Sum(LinesOf(db.lines, db.documents[id].entry.value), Net(p)) == Documents.DocumentNet(db.documents[id], p)
  {
    assert DocumentOk(db, id);
    var d := db.documents[id];
    var lines := LinesOf(db.lines, d.entry.value);
    StoredNet(Documents.Postings(d, lines[0].body.rate), d.entry.value, p);
    Documents.PostingsMeaning(d, lines[0].body.rate, p);
  }

  lemma MirrorNet(db: Db, e: nat, p: LineKey -> bool)
    requires LinesInv(db)
    ensures Sum(Map(LinesOf(db.lines, e), Mirror()), NetOf(p)) == -Sum(LinesOf(db.lines, e), Net(p))
  {
    LinesOfFaithful(db, e);
    MirrorCancels(LinesOf(db.lines, e), 0, p);
    StoredNet(Map(LinesOf(db.lines, e), Mirror()), 0, p);
  }

  /** Posting a document moves on every account exactly what its lines say. */
  lemma DocumentMovesMoney(db: Db, id: nat, account: nat)
    requires Inv(db)
    requires Documents.PostDocument(db, id).Commit?
    ensures Sum(Documents.PostDocument(db, id).db.lines, Net(OnAccount(account)))
            == Sum(db.lines, Net(OnAccount(account))) + Sum(db.documents[id].lines, Documents.MovesOn(account))
  {
    var rate := PostDocumentShape(db, id);
    var d := db.documents[id];
    PostsNet(db, Documents.PostDocument(db, id).db, FromDocument(id), Documents.Postings(d, rate), OnAccount(account));
    Documents.PostingsMeaning(d, rate, OnAccount(account));
    Documents.NetOnAccount(d, account);
  }

  lemma EntryOnAccount(db: Db, id: nat, account: nat)
    requires Inv(db) && id < |db.documents| && db.documents[id].entry.Some?
    ensures Sum(LinesOf(db.lines, db.documents[id].entry.value), Net(OnAccount(account)))
            == Sum(db.documents[id].lines, Documents.MovesOn(account))
  {
    var d := db.documents[id];
    EntryNetsDocument(db, id, OnAccount(account));
    Documents.NetOnAccount(d, account);
  }

  /** Reversing it takes exactly that back. */
  lemma ReversalTakesBack(db: Db, id: nat, actor: nat, today: Date, account: nat)
    requires Inv(db)
    requires Documents.ReverseDocument(db, id, actor, today).Commit?
    ensures Sum(Documents.ReverseDocument(db, id, actor, today).db.lines, Net(OnAccount(account)))
            == Sum(db.lines, Net(OnAccount(account))) - Sum(db.documents[id].lines, Documents.MovesOn(account))
  {
    ReverseDocumentShape(db, id, actor, today);
    var d := db.documents[id];
    PostsNet(db, Documents.ReverseDocument(db, id, actor, today).db, FromDocument(id),
             Map(LinesOf(db.lines, d.entry.value), Mirror()), OnAccount(account));
    MirrorNet(db, d.entry.value, OnAccount(account));
    EntryOnAccount(db, id, account);
  }

  lemma ReverseDocumentConserves(db: Db, id: nat, actor: nat, today: Date, p: LineKey -> bool)
    requires Inv(db) && Conserved(db, p)
    requires Documents.ReverseDocument(db, id, actor, today).Commit?
    ensures Conserved(Documents.ReverseDocument(db, id, actor, today).db, p)
  {
    ReverseDocumentShape(db, id, actor, today);
    var d := db.documents[id];
    MirrorNet(db, d.entry.value, p);
    EntryNetsDocument(db, id, p);
    ReversedRowsConserve(db, Documents.ReverseDocument(db, id, actor, today).db, id,
                         Map(LinesOf(db.lines, d.entry.value), Mirror()), Documents.CorrectionRow(d, id, actor, today), p);
  }

  /** Conservation from the shape of a reversal whose lines net to the opposite of the document. */
  lemma ReversedRowsConserve(
      db: Db, db': Db, id: nat, lines: seq<PostingLine>, correction: Document, p: LineKey -> bool)
    requires Conserved(db, p) && id < |db.documents| && db.documents[id].status.Posted? && db.documents[id].entry.Some?
    requires Posts(db, db', FromDocument(id), lines) && correction.entry.None?
    requires Sum(lines, NetOf(p)) == -Documents.DocumentNet(db.documents[id], p)
    requires db'.payments == db.payments
    requires db'.documents == db.documents[id := db.documents[id].(status := DocumentStatus.Reversed)] + [correction]
    ensures Conserved(db', p)
  {
    var d' := db.documents[id].(status := DocumentStatus.Reversed);
    PostsNet(db, db', FromDocument(id), lines, p);
    SumUpdate(db.documents, id, d', DocumentEffect(p));
    SumSnoc(db.documents[id := d'], correction, DocumentEffect(p));
  }

  lemma ReversalSources(db: Db, db': Db, id: nat, o: nat, flipped: Entry)
    requires SourcesInv(db)
    requires id < |db.documents| && o < |db.entries| && db.documents[id].entry.Some? && db.documents[id].status.Posted?
    requires |db'.entries| == |db.entries| + 1 && db'.payments == db.payments
    requires flipped == db.entries[o].(status := EntryStatus.Reversed)
    requires db'.entries == (db.entries + [db'.entries[|db.entries|]])[o := flipped]
    requires db'.entries[|db.entries|].source == FromDocument(id)
    requires |db'.documents| == |db.documents| + 1 && db'.documents[|db.documents|].entry.None?
    requires db'.documents[id] == db.documents[id].(status := DocumentStatus.Reversed)
    requires forall k :: 0 <= k < |db.documents| && k != id ==> db'.documents[k] == db.documents[k]
    ensures SourcesInv(db')
  {
    var last := db'.entries[|db.entries|];
    forall s: Source ensures EntriesFrom(db', s) == EntriesFrom(db, s) + (if s == FromDocument(id) then 1 else 0) {
      OneMoreEntry(db, last, s);
      SumUpdate(db.entries + [last], o, flipped, IsFrom(s));
    }
    forall k | 0 <= k < |db'.documents|
      ensures EntriesFrom(db', FromDocument(k)) == ExpectedEntries(db'.documents[k])
    {
      if k < |db.documents| {
        assert EntriesFrom(db, FromDocument(k)) == ExpectedEntries(db.documents[k]);
      } else {
        NoEntriesFrom(db, FromDocument(k));
      }
    }
    forall e | 0 <= e < |db'.entries| ensures SourceExists(db', db'.entries[e].source) {
      if e < |db.entries| {
        assert SourceExists(db, db.entries[e].source);
      }
    }
  }

  // ---------- Payments and requests ----------

  /** The account opposite to cash: the expense account of the request, or the one the order names. */
  function CounterOf(db: Db, order: Payments.PaymentOrder): nat
    requires Payments.Execute(db, order).Commit? && Payments.FindKey(db.payments, order.key) == |db.payments|
  {
    if order.request.Some? then db.requests[order.request.value].expenseAccount else order.counterAccount.value
  }

  /** The row says what the order asked for. */
  predicate Records(row: Payment, order: Payments.PaymentOrder, counterAccount: nat) {
    && row.key == order.key && row.direction == order.direction && row.request == order.request
    && row.cashAccount == order.cashAccount && row.counterAccount == counterAccount
    && row.counterparty == order.counterparty && row.contract == order.contract
    && row.amount == order.amount && row.currency == order.currency && row.date == order.date
  }

  /** The whole effect of a payment that runs to the end. */
  lemma ExecuteShape(db: Db, order: Payments.PaymentOrder) returns (row: Payment, rate: int)
    requires Payments.Execute(db, order).Commit? && Payments.FindKey(db.payments, order.key) == |db.payments|
    ensures var id, e := |db.payments|, |db.entries|;
      var pending := row.(status := Pending, rate := 1_000_000, baseAmount := 0, entry := None);
      var lines := Payments.PaymentPostings(pending, rate);
      var inserted := db.(payments := db.payments + [pending]);
      var tx := PostEntry(inserted, order.date, FromPayment(id), lines);
      && Records(row, order, CounterOf(db, order))
      && row.status.Executed? && row.entry == Some(e) && row.rate == rate
      && row.baseAmount == Decimal.Convert(row.amount, rate)
      && tx.Commit?
      && (order.request.Some? ==> order.request.value < |db.requests| && db.requests[order.request.value].status.Approved?)
      && Payments.Execute(db, order).db == tx.db.(
           payments := db.payments + [row],
           requests := if order.request.None? then db.requests
                       else db.requests[order.request.value := db.requests[order.request.value].(
                         status := RequestStatus.Accounted, payment := Some(id), entry := Some(e))])
  {
    var counter := if order.request.Some? then db.requests[order.request.value].expenseAccount else order.counterAccount.value;
    var pending := Payments.PendingRow(order, counter);
    rate := GetRate(db.baseCurrency, db.rates, order.currency, order.date).value;
    row := pending.(status := Executed, rate := rate,
                    baseAmount := Decimal.Convert(order.amount, rate), entry := Some(|db.entries|));
    assert pending == row.(status := Pending, rate := 1_000_000, baseAmount := 0, entry := None);
    assert (db.payments + [pending])[|db.payments| := row] == db.payments + [row];
  }

  lemma ExecuteLedger(db: Db, order: Payments.PaymentOrder) returns (row: Payment)
    requires Inv(db)
    requires Payments.Execute(db, order).Commit? && Payments.FindKey(db.payments, order.key) == |db.payments|
    ensures var id, n, db' := |db.payments|, |db.entries|, Payments.Execute(db, order).db;
      && Records(row, order, CounterOf(db, order)) && row.status.Executed? && row.entry == Some(n)
      && row.baseAmount == Decimal.Convert(row.amount, row.rate)
      && Posts(db, db', FromPayment(id), Payments.PaymentPostings(row, row.rate))
      && (order.request.Some? ==>
            order.request.value < |db.requests| && db.requests[order.request.value].status.Approved?)
      && db' == db.(entries := db.entries + [db'.entries[n]], lines := db'.lines, payments := db.payments + [row],
           requests := if order.request.None? then db.requests
                       else db.requests[order.request.value := db.requests[order.request.value].(
                         status := RequestStatus.Accounted, payment := Some(id), entry := Some(n))])
      && LedgerInv(db')
  {
    var rate;
    row, rate := ExecuteShape(db, order);
    var pending := row.(status := Pending, rate := 1_000_000, baseAmount := 0, entry := None);
    InsertedPosts(db, order, row, pending);
  }

  /** Posting inside the payment's transaction, where only the payments table has changed. */
  lemma InsertedPosts(db: Db, order: Payments.PaymentOrder, row: Payment, pending: Payment)
    requires LedgerInv(db)
    requires pending == row.(status := Pending, rate := 1_000_000, baseAmount := 0, entry := None)
    requires PostEntry(db.(payments := db.payments + [pending]), order.date, FromPayment(|db.payments|),
                       Payments.PaymentPostings(pending, row.rate)).Commit?
    ensures var db' := PostEntry(db.(payments := db.payments + [pending]), order.date, FromPayment(|db.payments|),
                                 Payments.PaymentPostings(pending, row.rate)).db;
      && Posts(db, db', FromPayment(|db.payments|), Payments.PaymentPostings(row, row.rate))
      && db' == db.(payments := db.payments + [pending], entries := db.entries + [db'.entries[|db.entries|]], lines := db'.lines)
      && LedgerInv(db')
  {
    var lines := Payments.PaymentPostings(pending, row.rate);
    var inserted := db.(payments := db.payments + [pending]);
    assert LedgerInv(inserted);
    Payments.PaymentPostingsMeaning(pending, row.rate, |db.entries|, Every());
    PostKeepsInv(inserted, order.date, FromPayment(|db.payments|), lines);
    PostAppends(inserted, order.date, FromPayment(|db.payments|), lines);
    assert Payments.PaymentPostings(row, row.rate) == lines;
  }

  lemma ExecuteInv(db: Db, order: Payments.PaymentOrder)
    requires Inv(db)
    requires Payments.Execute(db, order).Commit? && Payments.FindKey(db.payments, order.key) == |db.payments|
    ensures Inv(Payments.Execute(db, order).db)
  {
    var row := ExecuteLedger(db, order);
    PaidRowsInv(db, Payments.Execute(db, order).db, row);
  }

  /** The settled request points at the new payment and its entry; settled ones stay as they are. */
  lemma PaidRequestsOk(db: Db, db': Db, row: Payment)
    requires RequestsInv(db) && row.entry == Some(|db.entries|) && db'.payments == db.payments + [row]
    requires row.request.Some? ==>
      row.request.value < |db.requests| && db.requests[row.request.value].status.Approved?
    requires db'.requests == if row.request.None? then db.requests
                             else db.requests[row.request.value := db.requests[row.request.value].(
                               status := RequestStatus.Accounted, payment := Some(|db.payments|),
                               entry := Some(|db.entries|))]
    ensures RequestsInv(db')
    ensures forall k :: 0 <= k < |db.requests| && db.requests[k].payment.Some? ==> db'.requests[k] == db.requests[k]
  {
    forall k | 0 <= k < |db'.requests|
      ensures RequestOk(db', k) && (db.requests[k].payment.Some? ==> db'.requests[k] == db.requests[k])
    {
      assert RequestOk(db, k);
    }
  }

  /** The invariant on the rows, from the shape of a payment alone. */
  lemma PaidRowsInv(db: Db, db': Db, row: Payment)
    requires Inv(db) && LedgerInv(db')
    requires row.status.Executed? && row.entry == Some(|db.entries|)
    requires row.baseAmount == Decimal.Convert(row.amount, row.rate)
    requires Payments.FindKey(db.payments, row.key) == |db.payments|
    requires Posts(db, db', FromPayment(|db.payments|), Payments.PaymentPostings(row, row.rate))
    requires row.request.Some? ==>
      row.request.value < |db.requests| && db.requests[row.request.value].status.Approved?
    requires db' == db.(
      entries := db.entries + [db'.entries[|db.entries|]], lines := db'.lines, payments := db.payments + [row],
      requests := if row.request.None? then db.requests
                  else db.requests[row.request.value := db.requests[row.request.value].(
                    status := RequestStatus.Accounted, payment := Some(|db.payments|), entry := Some(|db.entries|))])
    ensures Inv(db')
  {
    hide Decimal.Convert;
    hide Payments.PaymentPostings;
    hide Sum;
    PaidRequestsOk(db, db', row);
    OtherDocumentsOk(db, db', |db.documents|);
    OtherPaymentsOk(db, db');
    assert PaymentOk(db', |db.payments|);
    PaymentSources(db, db', |db.payments|);
  }

  lemma ExecuteConserves(db: Db, order: Payments.PaymentOrder, p: LineKey -> bool)
    requires Inv(db) && Conserved(db, p)
    requires Payments.Execute(db, order).Commit? && Payments.FindKey(db.payments, order.key) == |db.payments|
    ensures Conserved(Payments.Execute(db, order).db, p)
  {
    var row := ExecuteLedger(db, order);
    PostsNet(db, Payments.Execute(db, order).db, FromPayment(|db.payments|),
             Payments.PaymentPostings(row, row.rate), p);
    Payments.PaymentPostingsMeaning(row, row.rate, 0, p);
    SumSnoc(db.payments, row, PaymentEffect(p));
  }

  /**
   * A new payment moves exactly the ordered amount: into the cash account when incoming and out of it when
   * outgoing, with the opposite on the account of the request, or else on the one the order names.
   */
  lemma PaymentMovesMoney(db: Db, order: Payments.PaymentOrder, account: nat)
    requires Inv(db)
    requires Payments.Execute(db, order).Commit? && Payments.FindKey(db.payments, order.key) == |db.payments|
    ensures var intoCash := if order.direction.Incoming? then order.amount else -order.amount;
      Sum(Payments.Execute(db, order).db.lines, Net(OnAccount(account)))
      == Sum(db.lines, Net(OnAccount(account)))
         + (if account == order.cashAccount then intoCash else 0)
         - (if account == CounterOf(db, order) then intoCash else 0)
  {
    var row := ExecuteLedger(db, order);
    PostsNet(db, Payments.Execute(db, order).db, FromPayment(|db.payments|),
             Payments.PaymentPostings(row, row.rate), OnAccount(account));
    Payments.PaymentPostingsMeaning(row, row.rate, 0, OnAccount(account));
  }

  lemma PaymentSources(db: Db, db': Db, id: nat)
    requires SourcesInv(db) && id == |db.payments| && |db'.payments| == id + 1
    requires |db'.entries| == |db.entries| + 1 && db'.documents == db.documents
    requires db'.entries == db.entries + [db'.entries[|db.entries|]]
    requires db'.entries[|db.entries|].source == FromPayment(id)
    ensures SourcesInv(db')
  {
    var last := db'.entries[|db.entries|];
    forall k | 0 <= k < |db'.documents|
      ensures EntriesFrom(db', FromDocument(k)) == ExpectedEntries(db'.documents[k])
    {
      OneMoreEntry(db, last, FromDocument(k));
      assert EntriesFrom(db, FromDocument(k)) == ExpectedEntries(db.documents[k]);
    }
    forall k | 0 <= k < |db'.payments| ensures EntriesFrom(db', FromPayment(k)) == 1 {
      OneMoreEntry(db, last, FromPayment(k));
      if k < id {
        assert EntriesFrom(db, FromPayment(k)) == 1;
      } else {
        NoEntriesFrom(db, FromPayment(k));
      }
    }
    forall e | 0 <= e < |db'.entries| ensures SourceExists(db', db'.entries[e].source) {
      if e < |db.entries| {
        assert SourceExists(db, db.entries[e].source);
      }
    }
  }

  /** Requests are added as drafts or edited and decided; none is settled and none of the settled ones changes. */
  ghost predicate RequestsEdited(db: Db, db': Db) {
    && db' == db.(requests := db'.requests)
    && |db.requests| <= |db'.requests|
    && (forall k :: 0 <= k < |db.requests| ==>
          && db'.requests[k].payment == db.requests[k].payment && db'.requests[k].entry == db.requests[k].entry
          && (db'.requests[k].status.Accounted? <==> db.requests[k].status.Accounted?)
          && !db'.requests[k].status.Paid?)
    && (forall k :: |db.requests| <= k < |db'.requests| ==>
          db'.requests[k].payment.None? && db'.requests[k].entry.None? && db'.requests[k].status.Draft?)
  }

  lemma RequestCallsEdit(db: Db, c: Command)
    requires RequestsInv(db) && (c.CreateRequest? || c.UpdateRequest? || c.DecideRequest?)
    ensures RequestsEdited(db, Step(db, c))
  {
    var db' := Step(db, c);
    forall k | 0 <= k < |db.requests|
      ensures db'.requests[k].payment == db.requests[k].payment && db'.requests[k].entry == db.requests[k].entry
      ensures db'.requests[k].status.Accounted? <==> db.requests[k].status.Accounted?
      ensures !db'.requests[k].status.Paid?
    {
      assert RequestOk(db, k);
    }
  }

  lemma RequestsEditedInv(db: Db, db': Db)
    requires Inv(db) && RequestsEdited(db, db')
    ensures Inv(db')
  {
    forall k | 0 <= k < |db'.requests| ensures RequestOk(db', k) {
      if k < |db.requests| {
        assert RequestOk(db, k);
      }
    }
    assert LedgerInv(db');
    forall k | 0 <= k < |db'.documents| ensures DocumentOk(db', k) {
      assert DocumentOk(db, k);
    }
    forall k | 0 <= k < |db'.payments| ensures PaymentOk(db', k) {
      assert PaymentOk(db, k);
    }
    SameSourcesInv(db, db');
  }

  lemma SameSourcesInv(db: Db, db': Db)
    requires SourcesInv(db) && db'.entries == db.entries && db'.payments == db.payments && db'.documents == db.documents
    ensures SourcesInv(db')
  {
    forall k | 0 <= k < |db'.documents|
      ensures EntriesFrom(db', FromDocument(k)) == ExpectedEntries(db'.documents[k])
    {
      assert EntriesFrom(db, FromDocument(k)) == ExpectedEntries(db.documents[k]);
    }
    forall k | 0 <= k < |db'.payments| ensures EntriesFrom(db', FromPayment(k)) == 1 {
      assert EntriesFrom(db, FromPayment(k)) == 1;
    }
  }

  lemma RequestStepKeeps(db: Db, c: Command)
    requires Inv(db) && (c.CreateRequest? || c.UpdateRequest? || c.DecideRequest?)
    ensures Inv(Step(db, c))
    ensures Step(db, c) == db.(requests := Step(db, c).requests)
  {
    RequestCallsEdit(db, c);
    RequestsEditedInv(db, Step(db, c));
  }

  // ---------- Tables that only setup commands write ----------

  predicate SameSetup(db: Db, db': Db) {
    db'.accounts == db.accounts && db'.periods == db.periods && db'.rates == db.rates && db'.baseCurrency == db.baseCurrency
  }

  lemma PostKeepsSetup(db: Db, id: nat)
    ensures SameSetup(db, After(db, Documents.PostDocument(db, id)))
  {
  }

  lemma ReverseKeepsSetup(db: Db, id: nat, actor: nat, today: Date)
    ensures SameSetup(db, After(db, Documents.ReverseDocument(db, id, actor, today)))
  {
  }

  lemma ExecuteKeepsSetup(db: Db, order: Payments.PaymentOrder)
    ensures SameSetup(db, After(db, Payments.Execute(db, order)))
  {
  }

  lemma PaperKeepsSetup(db: Db, c: Command)
    requires c.CreateDocument? || c.UpdateDocument? || c.DecideDocument?
    ensures SameSetup(db, Step(db, c)) && Step(db, c).lines == db.lines
  {
  }

  lemma RequestKeepsSetup(db: Db, c: Command)
    requires c.CreateRequest? || c.UpdateRequest? || c.DecideRequest?
    ensures SameSetup(db, Step(db, c)) && Step(db, c).lines == db.lines
  {
  }

  lemma OthersKeepSetup(db: Db, c: Command)
    requires !SetupCommand(c)
    ensures SameSetup(db, Step(db, c))
  {
    if c.PostDocument? {
      PostKeepsSetup(db, c.id);
    } else if c.ReverseDocument? {
      ReverseKeepsSetup(db, c.id, c.actor, c.today);
    } else if c.ExecutePayment? {
      ExecuteKeepsSetup(db, c.order);
    } else if c.CreateDocument? || c.UpdateDocument? || c.DecideDocument? {
      PaperKeepsSetup(db, c);
    } else {
      RequestKeepsSetup(db, c);
    }
  }

  lemma SetupKeepsLedger(db: Db, c: Command)
    requires SetupCommand(c)
    ensures Step(db, c).lines == db.lines && Step(db, c).entries == db.entries
    ensures Step(db, c).documents == db.documents && Step(db, c).payments == db.payments
    ensures !c.SetRate? ==> Step(db, c).rates == db.rates
    ensures !c.CreateAccount? && !c.DeactivateAccount? ==> Step(db, c).accounts == db.accounts
    ensures |db.accounts| <= |Step(db, c).accounts| && Step(db, c).baseCurrency == db.baseCurrency
  {
  }

  // ---------- Every step, every run ----------

  lemma StepKeeps(db: Db, c: Command, p: LineKey -> bool)
    requires Inv(db)
    ensures Inv(Step(db, c))
    ensures Conserved(db, p) ==> Conserved(Step(db, c), p)
  {
    if Perform(db, c).Commit? {
      if SetupCommand(c) {
        SetupKeepsInv(db, c);
      } else if c.CreateDocument? || c.UpdateDocument? || c.DecideDocument? {
        PaperworkKeeps(db, c, p);
      } else if c.PostDocument? {
        PostDocumentInv(db, c.id);
        if Conserved(db, p) {
          PostDocumentConserves(db, c.id, p);
        }
      } else if c.ReverseDocument? {
        ReverseDocumentInv(db, c.id, c.actor, c.today);
        if Conserved(db, p) {
          ReverseDocumentConserves(db, c.id, c.actor, c.today, p);
        }
      } else if c.ExecutePayment? {
        if Payments.FindKey(db.payments, c.order.key) == |db.payments| {
          ExecuteInv(db, c.order);
          if Conserved(db, p) {
            ExecuteConserves(db, c.order, p);
          }
        }
      } else {
        RequestStepKeeps(db, c);
      }
    }
  }

  /** Every reachable database satisfies the invariant and conserves every selection of ledger keys. */
  lemma {:induction false} RunKeeps(base: string, commands: seq<Command>, p: LineKey -> bool)
    ensures Inv(Run(EmptyDb(base), commands))
    ensures Conserved(Run(EmptyDb(base), commands), p)
  {
    if commands != [] {
      var init := commands[..|commands| - 1];
      RunKeeps(base, init, p);
      StepKeeps(Run(EmptyDb(base), init), commands[|commands| - 1], p);
    }
  }

  // ---------- What every run guarantees ----------

  /** The journal only grows: kept rows keep their content, a status only goes from POSTED to REVERSED. */
  ghost predicate AppendOnly(db: Db, db': Db) {
    && |db.entries| <= |db'.entries|
    && (forall e :: 0 <= e < |db.entries| ==>
          && db'.entries[e].(status := db.entries[e].status) == db.entries[e]
          && (db'.entries[e].status == db.entries[e].status || db'.entries[e].status.Reversed?))
    && db.lines <= db'.lines
    && (forall i :: |db.lines| <= i < |db'.lines| ==> |db.entries| <= db'.lines[i].entry < |db'.entries|)
    && |db.payments| <= |db'.payments|
    && (forall i :: 0 <= i < |db.payments| ==> db'.payments[i] == db.payments[i])
  }

  /** Entries that are new in db' are dated in months open in db. */
  ghost predicate NewEntriesInOpenMonths(db: Db, db': Db) {
    forall e :: |db.entries| <= e < |db'.entries| ==> MonthOpen(db, db'.entries[e].date.year, db'.entries[e].date.month)
  }

  lemma PostEntryAppendOnly(db: Db, date: Date, source: Source, lines: seq<PostingLine>)
    requires LinesInv(db) && PostEntry(db, date, source, lines).Commit?
    ensures AppendOnly(db, PostEntry(db, date, source, lines).db)
    ensures NewEntriesInOpenMonths(db, PostEntry(db, date, source, lines).db)
  {
    PostAppends(db, date, source, lines);
  }

  lemma PostAppendOnly(db: Db, id: nat)
    requires Inv(db) && Documents.PostDocument(db, id).Commit?
    ensures AppendOnly(db, Documents.PostDocument(db, id).db)
    ensures NewEntriesInOpenMonths(db, Documents.PostDocument(db, id).db)
  {
    var d := db.documents[id];
    var rate := GetRate(db.baseCurrency, db.rates, d.currency, d.date).value;
    PostEntryAppendOnly(db, d.date, FromDocument(id), Documents.Postings(d, rate));
  }

  lemma ReverseInOpenMonth(db: Db, id: nat, actor: nat, today: Date)
    requires Inv(db) && Documents.ReverseDocument(db, id, actor, today).Commit?
    ensures NewEntriesInOpenMonths(db, Documents.ReverseDocument(db, id, actor, today).db)
  {
    var e := db.documents[id].entry.value;
    PostAppends(db, today, db.entries[e].source, Map(LinesOf(db.lines, e), Mirror()));
  }

  lemma ReverseAppendOnly(db: Db, id: nat, actor: nat, today: Date)
    requires Inv(db) && Documents.ReverseDocument(db, id, actor, today).Commit?
    ensures AppendOnly(db, Documents.ReverseDocument(db, id, actor, today).db)
  {
    hide Documents.ReverseDocument;
    hide LedgerInv;
    ReverseDocumentShape(db, id, actor, today);
  }

  lemma ExecuteAppendOnly(db: Db, order: Payments.PaymentOrder)
    requires Inv(db) && Payments.Execute(db, order).Commit?
    ensures AppendOnly(db, Payments.Execute(db, order).db)
    ensures NewEntriesInOpenMonths(db, Payments.Execute(db, order).db)
  {
    if Payments.FindKey(db.payments, order.key) == |db.payments| {
      var row, rate := ExecuteShape(db, order);
      var pending := row.(status := Pending, rate := 1_000_000, baseAmount := 0, entry := None);
      var inserted := db.(payments := db.payments + [pending]);
      assert LinesInv(inserted);
      PostEntryAppendOnly(inserted, order.date, FromPayment(|db.payments|), Payments.PaymentPostings(pending, rate));
    }
  }

  /** One step appends at most one entry, dated in a month that is open. */
  lemma StepAppendOnly(db: Db, c: Command)
    requires Inv(db)
    ensures AppendOnly(db, Step(db, c)) && NewEntriesInOpenMonths(db, Step(db, c))
  {
    if Perform(db, c).Commit? {
      if SetupCommand(c) {
        SetupKeepsInv(db, c);
      } else if c.CreateDocument? || c.UpdateDocument? || c.DecideDocument? {
        PaperworkKeeps(db, c, Every());
      } else if c.PostDocument? {
        PostAppendOnly(db, c.id);
      } else if c.ReverseDocument? {
        ReverseAppendOnly(db, c.id, c.actor, c.today);
        ReverseInOpenMonth(db, c.id, c.actor, c.today);
      } else if c.ExecutePayment? {
        ExecuteAppendOnly(db, c.order);
      } else {
        RequestStepKeeps(db, c);
      }
    }
  }

  lemma AppendOnlyChains(a: Db, b: Db, c: Db)
    requires AppendOnly(a, b) && AppendOnly(b, c)
    ensures AppendOnly(a, c)
  {
  }

  lemma {:induction false} RunAppendOnly(db: Db, commands: seq<Command>)
    requires Inv(db)
    ensures Inv(Run(db, commands)) && AppendOnly(db, Run(db, commands))
  {
    if commands != [] {
      var init := commands[..|commands| - 1];
      RunAppendOnly(db, init);
      StepKeeps(Run(db, init), commands[|commands| - 1], Every());
      StepAppendOnly(Run(db, init), commands[|commands| - 1]);
      AppendOnlyChains(db, Run(db, init), Run(db, commands));
    }
  }

  /** The lines dated in a month. */
  function DatedIn(entries: seq<Entry>, year: int, month: int): Line -> bool {
    (l: Line) => l.entry < |entries| && entries[l.entry].date.InMonth(year, month)
  }

  function MonthLines(db: Db, year: int, month: int): seq<Line> {
    Filter(db.lines, DatedIn(db.entries, year, month))
  }

  lemma MonthLinesKept(db: Db, db': Db, year: int, month: int)
    requires AppendOnly(db, db') && LinesInv(db)
    requires forall e :: |db.entries| <= e < |db'.entries| ==> !db'.entries[e].date.InMonth(year, month)
    ensures MonthLines(db', year, month) == MonthLines(db, year, month)
  {
    var added := db'.lines[|db.lines|..];
    assert db'.lines == db.lines + added;
    FilterConcat(db.lines, added, DatedIn(db'.entries, year, month));
    FilterEqual(db.lines, DatedIn(db.entries, year, month), DatedIn(db'.entries, year, month));
    FilterNone(added, DatedIn(db'.entries, year, month));
  }

  lemma ClosedStep(db: Db, c: Command, year: int, month: int)
    requires Inv(db) && !MonthOpen(db, year, month)
    ensures MonthLines(Step(db, c), year, month) == MonthLines(db, year, month)
  {
    var db' := Step(db, c);
    StepAppendOnly(db, c);
    forall e | |db.entries| <= e < |db'.entries| ensures !db'.entries[e].date.InMonth(year, month) {
      assert MonthOpen(db, db'.entries[e].date.year, db'.entries[e].date.month);
    }
    MonthLinesKept(db, db', year, month);
  }

  /**
   * As long as a month is not open, no run of calls changes the lines dated in it,
   * not even reversals of its own entries (those are dated elsewhere or refused).
   */
  lemma {:induction false} ClosedMonthIsStable(db: Db, commands: seq<Command>, year: int, month: int)
    requires Inv(db)
    requires forall k :: 0 <= k < |commands| ==> !MonthOpen(Run(db, commands[..k]), year, month)
    ensures MonthLines(Run(db, commands), year, month) == MonthLines(db, year, month)
  {
    if commands != [] {
      var init := commands[..|commands| - 1];
      forall k | 0 <= k < |init| ensures !MonthOpen(Run(db, init[..k]), year, month) {
        assert init[..k] == commands[..k];
      }
      ClosedMonthIsStable(db, init, year, month);
      RunAppendOnly(db, init);
      ClosedStep(Run(db, init), commands[|commands| - 1], year, month);
    }
  }

  /** Writing an exchange rate changes no line that is already stored, base amounts included. */
  lemma RatesNeverRewriteLines(db: Db, currency: string, date: Date, rate: int, later: seq<Command>)
    requires Inv(db)
    ensures Step(db, SetRate(currency, date, rate)).lines == db.lines
    ensures db.lines <= Run(Step(db, SetRate(currency, date, rate)), later).lines
  {
    SetupKeepsInv(db, SetRate(currency, date, rate));
    RunAppendOnly(Step(db, SetRate(currency, date, rate)), later);
  }

  /** In every reachable state a document's entry balances and debits exactly the document's total. */
  lemma PostedDocumentDebitsItsTotal(base: string, commands: seq<Command>, id: nat)
    requires id < |Run(EmptyDb(base), commands).documents|
    requires Run(EmptyDb(base), commands).documents[id].entry.Some?
    ensures var db := Run(EmptyDb(base), commands);
      var d := db.documents[id];
      && d.entry.value < |db.entries|
      && Sum(LinesOf(db.lines, d.entry.value), Debit(Every())) == d.amountTotal
      && Sum(LinesOf(db.lines, d.entry.value), Credit(Every())) == d.amountTotal
  {
    var db := Run(EmptyDb(base), commands);
    RunKeeps(base, commands, Every());
    assert DocumentOk(db, id);
    var d := db.documents[id];
    var lines := LinesOf(db.lines, d.entry.value);
    var rate := lines[0].body.rate;
    SumMap(Documents.Postings(d, rate), Stored(d.entry.value), Debit(Every()), DebitOf());
    Documents.PostingsMeaning(d, rate, Every());
    SumMinus(lines, Debit(Every()), Credit(Every()), Net(Every()));
    assert Balanced(LinesOf(db.lines, d.entry.value));
  }

  /**
   * In every reachable state a document has one journal entry while POSTED with an entry, two once
   * REVERSED, none otherwise, and the status of its own entry follows its status.
   */
  lemma DocumentEntries(base: string, commands: seq<Command>, id: nat)
    requires id < |Run(EmptyDb(base), commands).documents|
    ensures var db := Run(EmptyDb(base), commands);
      var d := db.documents[id];
      && EntriesFrom(db, FromDocument(id))
         == (if d.status.Posted? && d.correctionOf.None? then 1 else if d.status.Reversed? then 2 else 0)
      && (d.entry.Some? <==> (d.status.Posted? && d.correctionOf.None?) || d.status.Reversed?)
      && (d.entry.Some? ==> d.entry.value < |db.entries|)
      && (d.status.Posted? && d.entry.Some? ==> db.entries[d.entry.value].status.Posted?)
      && (d.status.Reversed? ==> db.entries[d.entry.value].status.Reversed?)
  {
    var db := Run(EmptyDb(base), commands);
    RunKeeps(base, commands, Every());
    assert DocumentOk(db, id);
    assert EntriesFrom(db, FromDocument(id)) == ExpectedEntries(db.documents[id]);
  }

  /** After a successful payment its row carries the key. */
  lemma ExecutedKey(db: Db, order: Payments.PaymentOrder)
    requires Inv(db) && Payments.Execute(db, order).Commit?
    ensures var db', id := Step(db, ExecutePayment(order)), Payments.Execute(db, order).id;
      id < |db'.payments| && db'.payments[id].key == order.key
  {
    if Payments.FindKey(db.payments, order.key) == |db.payments| {
      var row := ExecuteLedger(db, order);
    }
  }

  /** Keys are unique, so a lookup finds the one row that carries the key. */
  lemma LookupByKey(db: Db, id: nat)
    requires PaymentsInv(db) && id < |db.payments|
    ensures Payments.FindKey(db.payments, db.payments[id].key) == id
  {
  }

  /** A key that has been used is answered with the same payment forever after, whatever happens in between. */
  lemma RetryReturnsSamePayment(
    db: Db, order: Payments.PaymentOrder, between: seq<Command>, retry: Payments.PaymentOrder)
    requires Inv(db) && Payments.Execute(db, order).Commit? && retry.key == order.key
    ensures var later := Run(Step(db, ExecutePayment(order)), between);
      Payments.Execute(later, retry) == Commit(later, Payments.Execute(db, order).id)
  {
    StepKeeps(db, ExecutePayment(order), Every());
    ExecutedKey(db, order);
    RunAppendOnly(Step(db, ExecutePayment(order)), between);
    LookupByKey(Run(Step(db, ExecutePayment(order)), between), Payments.Execute(db, order).id);
  }

  lemma StepKeepsAccounts(db: Db, c: Command)
    ensures |db.accounts| <= |Step(db, c).accounts|
  {
    if SetupCommand(c) {
      SetupKeepsLedger(db, c);
    } else {
      OthersKeepSetup(db, c);
    }
  }

  lemma {:induction false} AccountsOnlyGrow(db: Db, commands: seq<Command>)
    ensures |db.accounts| <= |Run(db, commands).accounts|
  {
    if commands != [] {
      AccountsOnlyGrow(db, commands[..|commands| - 1]);
      StepKeepsAccounts(Run(db, commands[..|commands| - 1]), commands[|commands| - 1]);
    }
  }
}
