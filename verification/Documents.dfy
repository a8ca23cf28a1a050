/** Financial documents: drafting, decisions, posting and reversal. Every call is one transaction. */
module Documents {
  import opened Folds
  import opened Tables
  import opened ExchangeRates
  import opened Posting

  datatype Draft = Draft(
    kind: DocumentType, date: Date, counterparty: Option<nat>, contract: Option<nat>, currency: string,
    lines: seq<DocumentLine>)

  /** An update names only the fields it replaces. */
  datatype Patch = Patch(
    kind: Option<DocumentType>, date: Option<Date>, counterparty: Option<nat>, contract: Option<nat>,
    currency: Option<string>, lines: Option<seq<DocumentLine>>)

  datatype Decision = Submit | Approve | Reject | Cancel {
    function Next(): DocumentStatus {
      match this
      case Submit => DocumentStatus.Submitted
      case Approve => DocumentStatus.Approved
      case Reject => DocumentStatus.Rejected
      case Cancel => DocumentStatus.Cancelled
    }
  }

  function AmountOf(): DocumentLine -> int { (l: DocumentLine) => l.amount }

  function Patched<T>(patch: Option<T>, current: T): T { if patch.Some? then patch.value else current }

  function PatchedOption<T>(patch: Option<T>, current: Option<T>): Option<T> { if patch.Some? then patch else current }

  /** The draft that is inserted; none when the lines do not add up to a positive amount. */
  function DraftRow(draft: Draft, actor: nat): Option<Document> {
    var total := Sum(draft.lines, AmountOf());
    if total <= 0 then None
    else
      Some(Document(draft.kind, draft.date, draft.counterparty, draft.contract, draft.currency, total,
                    DocumentStatus.Draft, actor, None, None, draft.lines))
  }

  function CreateDocument(db: Db, draft: Draft, actor: nat): Tx {
    match DraftRow(draft, actor)
    case None => Rollback(BadRequest)
    case Some(row) => Commit(db.(documents := db.documents + [row]), |db.documents|)
  }

  /** An edited row is a draft again; none when new lines do not add up to a positive amount. */
  function PatchedRow(d: Document, patch: Patch): Option<Document> {
    if patch.lines.Some? && Sum(patch.lines.value, AmountOf()) <= 0 then None
    else
      Some(d.(status := DocumentStatus.Draft, kind := Patched(patch.kind, d.kind), date := Patched(patch.date, d.date),
              counterparty := PatchedOption(patch.counterparty, d.counterparty),
              contract := PatchedOption(patch.contract, d.contract),
              currency := Patched(patch.currency, d.currency),
              lines := Patched(patch.lines, d.lines),
              amountTotal := if patch.lines.Some? then Sum(patch.lines.value, AmountOf()) else d.amountTotal))
  }

  function UpdateDocument(db: Db, id: nat, patch: Patch, actor: nat): Tx {
    if id >= |db.documents| then Rollback(NotFound)
    else
      var d := db.documents[id];
      if d.createdBy != actor then Rollback(Forbidden)
      else if !d.status.Editable() then Rollback(Conflict)
      else
        match PatchedRow(d, patch)
        case None => Rollback(BadRequest)
        case Some(row) => Commit(db.(documents := db.documents[id := row]), id)
  }

  function Decide(db: Db, id: nat, decision: Decision, actor: nat): Tx {
    if id >= |db.documents| then Rollback(NotFound)
    else
      var d := db.documents[id];
      if !d.status.Allows(decision.Next()) then Rollback(Conflict)
      else if decision.Submit? && d.createdBy != actor then Rollback(Forbidden)
      else Commit(db.(documents := db.documents[id := d.(status := decision.Next())]), id)
  }

  // ---------- Posting ----------

  /** The document fields every one of its ledger lines carries. */
  datatype Header = Header(currency: string, counterparty: Option<nat>, contract: Option<nat>)

  function HeaderOf(d: Document): Header { Header(d.currency, d.counterparty, d.contract) }

  function DebitKey(h: Header, l: DocumentLine): LineKey {
    LineKey(l.debitAccount, h.currency, h.counterparty, h.contract, l.costCenter, l.project)
  }

  function CreditKey(h: Header, l: DocumentLine): LineKey {
    LineKey(l.creditAccount, h.currency, h.counterparty, h.contract, l.costCenter, l.project)
  }

  /** Each document line becomes a debit and a credit of the same amount. */
  function LinePostings(h: Header, rate: int): DocumentLine -> seq<PostingLine> {
    (l: DocumentLine) => [PostingLine(DebitKey(h, l), l.amount, 0, rate), PostingLine(CreditKey(h, l), 0, l.amount, rate)]
  }

  function Postings(d: Document, rate: int): seq<PostingLine> { FlatMap(d.lines, LinePostings(HeaderOf(d), rate)) }

  function PostDocument(db: Db, id: nat): Tx {
    if id >= |db.documents| then Rollback(NotFound)
    else
      var d := db.documents[id];
      if !d.status.Allows(DocumentStatus.Posted) then Rollback(Conflict)
      else
        var rate := GetRate(db.baseCurrency, db.rates, d.currency, d.date);
        if rate.None? then Rollback(NotFound)
        else
          match PostEntry(db, d.date, FromDocument(id), Postings(d, rate.value))
          case Rollback(error) => Rollback(error)
          case Commit(db1, entry) =>
            Commit(db1.(documents := db1.documents[id := d.(status := DocumentStatus.Posted, entry := Some(entry))]), id)
  }

  /** The sibling document that records a reversal; it is POSTED but has no entry and no lines. */
  function CorrectionRow(d: Document, id: nat, actor: nat, today: Date): Document {
    Document(Correction, today, d.counterparty, d.contract, d.currency, d.amountTotal,
             DocumentStatus.Posted, actor, None, Some(id), [])
  }

  function ReverseDocument(db: Db, id: nat, actor: nat, today: Date): Tx {
    if id >= |db.documents| then Rollback(NotFound)
    else
      var d := db.documents[id];
      if !d.status.Posted? then Rollback(Conflict)
      else if d.entry.None? then Rollback(Conflict)
      else if d.entry.value >= |db.entries| then Rollback(NotFound)
      else
        match ReverseEntry(db, d.entry.value, today)
        case Rollback(error) => Rollback(error)
        case Commit(db1, _) =>
          Commit(db1.(documents :=
            db1.documents[id := d.(status := DocumentStatus.Reversed)] + [CorrectionRow(d, id, actor, today)]), id)
  }

  // ---------- The service ----------

  class DocumentsService {
    const store: Store
    const posting: PostingService

    constructor (store: Store, posting: PostingService)
      requires posting.store == store
      ensures this.store == store && this.posting == posting
    {
      this.store := store;
      this.posting := posting;
    }

    method Create(draft: Draft, actor: nat) returns (reply: Reply)
      modifies store
      ensures store.db == After(old(store.db), CreateDocument(old(store.db), draft, actor))
      ensures reply == CreateDocument(old(store.db), draft, actor).Reply()
    {
      var total := Sum(draft.lines, AmountOf());
      if total <= 0 {
        return Failure(BadRequest);
      }
      var id := |store.db.documents|;
      var row := Document(draft.kind, draft.date, draft.counterparty, draft.contract, draft.currency, total,
                          DocumentStatus.Draft, actor, None, None, []);
      store.db := store.db.(documents := store.db.documents + [row]);
      ReplaceLines(id, draft.lines);
      reply := Success(id);
    }

    /** Deletes a document's lines and inserts the new ones in order. */
    method ReplaceLines(id: nat, lines: seq<DocumentLine>)
      requires id < |store.db.documents|
      modifies store
      ensures store.db == old(store.db).(documents :=
                old(store.db).documents[id := old(store.db).documents[id].(lines := lines)])
    {
      var begun := store.db;
      var document := store.db.documents[id].(lines := []);
      store.db := store.db.(documents := store.db.documents[id := document]);
      for i := 0 to |lines|
        invariant document == begun.documents[id].(lines := lines[..i])
        invariant store.db == begun.(documents := begun.documents[id := document])
      {
        document := document.(lines := document.lines + [lines[i]]);
        assert lines[..i + 1] == lines[..i] + [lines[i]];
        store.db := store.db.(documents := store.db.documents[id := document]);
      }
      assert lines[..|lines|] == lines;
    }

    method Update(id: nat, patch: Patch, actor: nat) returns (reply: Reply)
      modifies store
      ensures store.db == After(old(store.db), UpdateDocument(old(store.db), id, patch, actor))
      ensures reply == UpdateDocument(old(store.db), id, patch, actor).Reply()
    {
      if id >= |store.db.documents| {
        return Failure(NotFound);
      }
      var document := store.db.documents[id];
      if document.createdBy != actor {
        return Failure(Forbidden);
      }
      if !document.status.Editable() {
        return Failure(Conflict);
      }
      if document.status.Rejected? {
        document := document.(status := DocumentStatus.Draft);
      }
      document := document.(
        kind := Patched(patch.kind, document.kind), date := Patched(patch.date, document.date),
        counterparty := PatchedOption(patch.counterparty, document.counterparty),
        contract := PatchedOption(patch.contract, document.contract),
        currency := Patched(patch.currency, document.currency));
      if patch.lines.Some? {
        var total := Sum(patch.lines.value, AmountOf());
        if total <= 0 {
          return Failure(BadRequest);
        }
        document := document.(amountTotal := total);
        ReplaceLines(id, patch.lines.value);
        document := document.(lines := store.db.documents[id].lines);
      }
      store.db := store.db.(documents := store.db.documents[id := document]);
      reply := Success(id);
    }

    /** The status is saved before the side effect runs; a side effect that throws rolls it back. */
    method Transition(id: nat, decision: Decision, actor: nat) returns (reply: Reply)
      modifies store
      ensures store.db == After(old(store.db), Decide(old(store.db), id, decision, actor))
      ensures reply == Decide(old(store.db), id, decision, actor).Reply()
    {
      if id >= |store.db.documents| {
        return Failure(NotFound);
      }
      var begun := store.db;
      var document := store.db.documents[id];
      if !document.status.Allows(decision.Next()) {
        return Failure(Conflict);
      }
      document := document.(status := decision.Next());
      store.db := store.db.(documents := store.db.documents[id := document]);
      if decision.Submit? && document.createdBy != actor {
        store.db := begun;
        return Failure(Forbidden);
      }
      reply := Success(id);
    }

    method Post(id: nat) returns (reply: Reply)
      requires posting.store == store
      modifies store
      ensures store.db == After(old(store.db), PostDocument(old(store.db), id))
      ensures reply == PostDocument(old(store.db), id).Reply()
    {
      if id >= |store.db.documents| {
        return Failure(NotFound);
      }
      var document := store.db.documents[id];
      if !document.status.Allows(DocumentStatus.Posted) {
        return Failure(Conflict);
      }
      var rate := GetRate(store.db.baseCurrency, store.db.rates, document.currency, document.date);
      if rate.None? {
        return Failure(NotFound);
      }
      var entry := posting.Post(document.date, FromDocument(id), Postings(document, rate.value));
      if entry.Failure? {
        return entry;
      }
      document := document.(status := DocumentStatus.Posted, entry := Some(entry.id));
      store.db := store.db.(documents := store.db.documents[id := document]);
      reply := Success(id);
    }

    method Reverse(id: nat, actor: nat, today: Date) returns (reply: Reply)
      requires posting.store == store
      modifies store
      ensures store.db == After(old(store.db), ReverseDocument(old(store.db), id, actor, today))
      ensures reply == ReverseDocument(old(store.db), id, actor, today).Reply()
    {
      if id >= |store.db.documents| {
        return Failure(NotFound);
      }
      var document := store.db.documents[id];
      if !document.status.Posted? {
        return Failure(Conflict);
      }
      if document.entry.None? {
        return Failure(Conflict);
      }
      var original := document.entry.value;
      if original >= |store.db.entries| {
        return Failure(NotFound);
      }
      var mirror := posting.Reverse(original, today);
      if mirror.Failure? {
        return mirror;
      }
      document := document.(status := DocumentStatus.Reversed);
      store.db := store.db.(documents := store.db.documents[id := document]);
      store.db := store.db.(documents := store.db.documents + [CorrectionRow(document, id, actor, today)]);
      reply := Success(id);
    }
  }

  // ---------- What a document posts ----------

  /** Debit minus credit that one document line contributes to a selection of keys. */
  function LineEffect(h: Header, p: LineKey -> bool): DocumentLine -> int {
    (l: DocumentLine) =>
      (if p(LineKey(l.debitAccount, h.currency, h.counterparty, h.contract, l.costCenter, l.project)) then l.amount else 0)
      - (if p(LineKey(l.creditAccount, h.currency, h.counterparty, h.contract, l.costCenter, l.project)) then l.amount else 0)
  }

  function DocumentNet(d: Document, p: LineKey -> bool): int { Sum(d.lines, LineEffect(HeaderOf(d), p)) }

  /** What a document line moves on one account: its amount onto the debit account, off the credit account. */
  function MovesOn(account: nat): DocumentLine -> int {
    (l: DocumentLine) => (if l.debitAccount == account then l.amount else 0)
                         - (if l.creditAccount == account then l.amount else 0)
  }

  lemma NetOnAccount(d: Document, account: nat)
    ensures DocumentNet(d, OnAccount(account)) == Sum(d.lines, MovesOn(account))
  {
    var h := HeaderOf(d);
    forall l | l in d.lines ensures LineEffect(h, OnAccount(account))(l) == MovesOn(account)(l) {
      assert DebitKey(h, l).account == l.debitAccount && CreditKey(h, l).account == l.creditAccount;
    }
    SumEqual(d.lines, LineEffect(h, OnAccount(account)), MovesOn(account));
  }

  lemma SumTwo<T>(x: T, y: T, f: T -> int)
    ensures Sum([x, y], f) == f(x) + f(y)
  {
    assert [x, y][..1] == [x];
    SumOne(x, f);
  }

  /** For every selection of keys the postings net to what the document lines say; debits total the amounts. */
  lemma PostingsMeaning(d: Document, rate: int, p: LineKey -> bool)
    ensures Sum(Postings(d, rate), NetOf(p)) == DocumentNet(d, p)
    ensures Sum(Postings(d, rate), DebitOf()) == Sum(d.lines, AmountOf())
  {
    var h := HeaderOf(d);
    forall l | l in d.lines
      ensures Sum(LinePostings(h, rate)(l), NetOf(p)) == LineEffect(h, p)(l)
      ensures Sum(LinePostings(h, rate)(l), DebitOf()) == AmountOf()(l)
    {
      var dr := PostingLine(DebitKey(h, l), l.amount, 0, rate);
      var cr := PostingLine(CreditKey(h, l), 0, l.amount, rate);
      SumTwo(dr, cr, NetOf(p));
      SumTwo(dr, cr, DebitOf());
    }
    SumFlatMap(d.lines, LinePostings(h, rate), NetOf(p), LineEffect(h, p));
    SumFlatMap(d.lines, LinePostings(h, rate), DebitOf(), AmountOf());
  }

  /** Every line a document posts carries the one rate. */
  lemma PostingsRate(d: Document, rate: int)
    ensures forall i :: 0 <= i < |Postings(d, rate)| ==> Postings(d, rate)[i].rate == rate
  {
    var lines := Postings(d, rate);
    forall i | 0 <= i < |lines| ensures lines[i].rate == rate {
      InFlatMap(d.lines, LinePostings(HeaderOf(d), rate), lines[i]);
    }
  }

  lemma MapPair<S, T>(xs: seq<S>, x: S, y: S, f: S -> T)
    ensures Map(xs + [x, y], f) == Map(xs, f) + [f(x), f(y)]
  {
  }

  /** Both halves of a pair convert to the same base amount, so the entry balances in base currency too. */
  lemma {:induction false} PostingsBaseBalanced(h: Header, lines: seq<DocumentLine>, rate: int, id: nat)
    ensures Sum(Map(FlatMap(lines, LinePostings(h, rate)), Stored(id)), BaseNet(Every())) == 0
  {
    if lines != [] {
      var init, l := lines[..|lines| - 1], lines[|lines| - 1];
      PostingsBaseBalanced(h, init, rate, id);
      var dr := PostingLine(DebitKey(h, l), l.amount, 0, rate);
      var cr := PostingLine(CreditKey(h, l), 0, l.amount, rate);
      var done := FlatMap(init, LinePostings(h, rate));
      assert FlatMap(lines, LinePostings(h, rate)) == done + [dr, cr];
      MapPair(done, dr, cr, Stored(id));
      SumConcat(Map(done, Stored(id)), [Stored(id)(dr), Stored(id)(cr)], BaseNet(Every()));
      SumTwo(Stored(id)(dr), Stored(id)(cr), BaseNet(Every()));
    }
  }
}
