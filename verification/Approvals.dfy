/**
 * Who decides what about documents and expense requests, with every status written out, and what that means over
 * runs: the accepted calls on a row spell out its status, so nothing reaches the ledger unsubmitted or unapproved.
 */
module Approvals {
  import opened Folds
  import opened Tables
  import opened Erp
  import Posting
  import Documents
  import Payments

  // ---------- Documents, one call ----------

  /** Each decision: the statuses it is accepted from, by whom, and the status it leaves; nothing else changes. */
  lemma DocumentDecisions(db: Db, id: nat, actor: nat)
    requires id < |db.documents|
    ensures var d := db.documents[id];
      var submitted := Documents.Decide(db, id, Documents.Decision.Submit, actor);
      var approved := Documents.Decide(db, id, Documents.Decision.Approve, actor);
      var rejected := Documents.Decide(db, id, Documents.Decision.Reject, actor);
      var cancelled := Documents.Decide(db, id, Documents.Decision.Cancel, actor);
      && submitted == (if !d.status.Draft? then Rollback(Conflict) else if d.createdBy != actor then Rollback(Forbidden)
                       else WithStatus(db, id, DocumentStatus.Submitted))
      && approved == (if d.status.Submitted? then WithStatus(db, id, DocumentStatus.Approved) else Rollback(Conflict))
      && rejected == (if d.status.Submitted? then WithStatus(db, id, DocumentStatus.Rejected) else Rollback(Conflict))
      && cancelled == (if d.status.Draft? || d.status.Approved? then WithStatus(db, id, DocumentStatus.Cancelled)
                       else Rollback(Conflict))
  {
  }

  /** The tables with one document's status changed, and no other field of any row. */
  function WithStatus(db: Db, id: nat, status: DocumentStatus): Tx
    requires id < |db.documents|
  {
    Commit(db.(documents := db.documents[id := db.documents[id].(status := status)]), id)
  }

  predicate Replaces<T(==)>(patch: Option<T>, before: T, after: T) {
    after == if patch.Some? then patch.value else before
  }

  predicate ReplacesOption<T(==)>(patch: Option<T>, before: Option<T>, after: Option<T>) {
    if patch.Some? then after == patch else after == before
  }

  /**
   * Only the creator edits, only a DRAFT or REJECTED document and never to a total that is not positive; it is a DRAFT
   * afterwards, with the named fields replaced and every other one kept.
   */
  lemma DocumentEdit(db: Db, id: nat, patch: Documents.Patch, actor: nat)
    requires id < |db.documents|
    ensures var d, tx := db.documents[id], Documents.UpdateDocument(db, id, patch, actor);
      && (tx.Commit? <==> d.createdBy == actor && (d.status.Draft? || d.status.Rejected?)
                          && (patch.lines.Some? ==> Sum(patch.lines.value, Documents.AmountOf()) > 0))
      && (tx.Rollback? ==> tx.error == if d.createdBy != actor then Forbidden
                                       else if !d.status.Draft? && !d.status.Rejected? then Conflict else BadRequest)
      && (tx.Commit? ==> |tx.db.documents| == |db.documents| && tx.db == db.(documents := tx.db.documents)
                         && EditedDocument(patch, d, tx.db.documents[id])
                         && forall k :: 0 <= k < |db.documents| && k != id ==> tx.db.documents[k] == db.documents[k])
  {
  }

  predicate EditedDocument(patch: Documents.Patch, d: Document, d': Document) {
    && d'.status.Draft?
    && Replaces(patch.kind, d.kind, d'.kind) && Replaces(patch.date, d.date, d'.date)
    && ReplacesOption(patch.counterparty, d.counterparty, d'.counterparty)
    && ReplacesOption(patch.contract, d.contract, d'.contract)
    && Replaces(patch.currency, d.currency, d'.currency) && Replaces(patch.lines, d.lines, d'.lines)
    && d'.amountTotal == (if patch.lines.Some? then Sum(d'.lines, Documents.AmountOf()) else d.amountTotal)
    && d'.createdBy == d.createdBy && d'.entry == d.entry && d'.correctionOf == d.correctionOf
  }

  /** A new document is its creator's DRAFT with the given fields, refused unless its total is positive. */
  lemma DocumentCreation(db: Db, draft: Documents.Draft, actor: nat)
    ensures var tx, total := Documents.CreateDocument(db, draft, actor), Sum(draft.lines, Documents.AmountOf());
      && (tx.Commit? <==> total > 0) && (tx.Rollback? ==> tx.error == BadRequest)
      && (tx.Commit? ==>
            && tx.id == |db.documents| && |tx.db.documents| == tx.id + 1
            && tx.db == db.(documents := db.documents + [tx.db.documents[tx.id]])
            && var d := tx.db.documents[tx.id];
               && d.status.Draft? && d.createdBy == actor && d.entry.None? && d.correctionOf.None?
               && d.kind == draft.kind && d.date == draft.date && d.currency == draft.currency
               && d.counterparty == draft.counterparty && d.contract == draft.contract
               && d.lines == draft.lines && d.amountTotal == total)
  {
  }

  // ---------- Expense requests, one call ----------

  function WithRequestStatus(db: Db, id: nat, status: RequestStatus): Tx
    requires id < |db.requests|
  {
    Commit(db.(requests := db.requests[id := db.requests[id].(status := status)]), id)
  }

  /** Only the requester submits and cancels; anyone may approve and reject. */
  lemma RequestDecisions(db: Db, id: nat, actor: nat)
    requires id < |db.requests|
    ensures var r := db.requests[id];
      var submitted := Payments.DecideRequest(db, id, Payments.RequestDecision.Submit, actor);
      var approved := Payments.DecideRequest(db, id, Payments.RequestDecision.Approve, actor);
      var rejected := Payments.DecideRequest(db, id, Payments.RequestDecision.Reject, actor);
      var cancelled := Payments.DecideRequest(db, id, Payments.RequestDecision.Cancel, actor);
      && submitted == (if !r.status.Draft? then Rollback(Conflict) else if r.requestedBy != actor then Rollback(Forbidden)
                       else WithRequestStatus(db, id, RequestStatus.Submitted))
      && approved == (if r.status.Submitted? then WithRequestStatus(db, id, RequestStatus.Approved) else Rollback(Conflict))
      && rejected == (if r.status.Submitted? then WithRequestStatus(db, id, RequestStatus.Rejected) else Rollback(Conflict))
      && cancelled == (if !r.status.Draft? && !r.status.Approved? then Rollback(Conflict)
                       else if r.requestedBy != actor then Rollback(Forbidden)
                       else WithRequestStatus(db, id, RequestStatus.Cancelled))
  {
  }

  /** A new request is its requester's DRAFT with the given account, amount and currency, and unpaid. */
  lemma RequestCreation(db: Db, draft: Payments.RequestDraft, actor: nat)
    ensures var tx := Payments.CreateRequest(db, draft, actor);
      && tx.Commit? && tx.id == |db.requests| && |tx.db.requests| == tx.id + 1
      && tx.db == db.(requests := db.requests + [tx.db.requests[tx.id]])
      && var r := tx.db.requests[tx.id];
         && r.status.Draft? && r.requestedBy == actor && r.payment.None? && r.entry.None?
         && r.expenseAccount == draft.expenseAccount && r.amount == draft.amount && r.currency == draft.currency
  {
  }

  /** Only the requester edits, and only a DRAFT or REJECTED request; it is a DRAFT afterwards. */
  lemma RequestEdit(db: Db, id: nat, patch: Payments.RequestPatch, actor: nat)
    requires id < |db.requests|
    ensures var r, tx := db.requests[id], Payments.UpdateRequest(db, id, patch, actor);
      && (tx.Commit? <==> r.requestedBy == actor && (r.status.Draft? || r.status.Rejected?))
      && (tx.Rollback? ==> tx.error == if r.requestedBy != actor then Forbidden else Conflict)
      && (tx.Commit? ==> |tx.db.requests| == |db.requests| && tx.db == db.(requests := tx.db.requests)
                         && EditedRequest(patch, r, tx.db.requests[id])
                         && forall k :: 0 <= k < |db.requests| && k != id ==> tx.db.requests[k] == db.requests[k])
  {
  }

  predicate EditedRequest(patch: Payments.RequestPatch, r: ExpenseRequest, r': ExpenseRequest) {
    && r'.status.Draft?
    && Replaces(patch.expenseAccount, r.expenseAccount, r'.expenseAccount)
    && Replaces(patch.amount, r.amount, r'.amount) && Replaces(patch.currency, r.currency, r'.currency)
    && r'.requestedBy == r.requestedBy && r'.payment == r.payment && r'.entry == r.entry
  }

  /** A call on a row that does not exist is refused as such. */
  lemma MissingRows(
      db: Db, id: nat, decision: Documents.Decision, patch: Documents.Patch, requestDecision: Payments.RequestDecision,
      requestPatch: Payments.RequestPatch, actor: nat)
    ensures id >= |db.documents| ==>
      Documents.Decide(db, id, decision, actor) == Documents.UpdateDocument(db, id, patch, actor) == Rollback(NotFound)
    ensures id >= |db.requests| ==>
      && Payments.DecideRequest(db, id, requestDecision, actor) == Rollback(NotFound)
      && Payments.UpdateRequest(db, id, requestPatch, actor) == Rollback(NotFound)
  {
  }

  // ---------- The accepted calls on one row ----------

  /** An accepted call on one row; a submission is noted with the row it submits. */
  datatype Event<Row> =
    | Creation
    | Edit
    | Submission(actor: nat, row: Row)
    | Approval
    | Rejection
    | Cancellation
    | Booking
    | Reversal
    | Recording

  /** The history with one more event, if the call was one. */
  function Noted<T>(history: seq<T>, event: Option<T>): seq<T> {
    if event.Some? then history + [event.value] else history
  }

  predicate EndsWith<T(==)>(history: seq<T>, end: seq<T>) {
    |end| <= |history| && history[|history| - |end|..] == end
  }

  lemma Appended<T>(history: seq<T>, end: seq<T>, x: T)
    requires EndsWith(history, end)
    ensures EndsWith(history + [x], end + [x])
  {
    assert (history + [x])[|history| - |end|..] == history[|history| - |end|..] + [x];
  }

  lemma EndsWithLast<T>(history: seq<T>, x: T)
    ensures EndsWith(history + [x], [x])
  {
    assert (history + [x])[|history|..] == [x];
  }

  /** The owner submitted a row like this, and these calls were the only ones since. */
  ghost predicate SubmittedThen<Row(!new)>(
      history: seq<Event<Row>>, owner: nat, like: Row -> bool, since: seq<Event<Row>>)
  {
    exists row :: like(row) && EndsWith(history, [Submission(owner, row)] + since)
  }

  lemma OneMoreCall<Row(!new)>(
      history: seq<Event<Row>>, owner: nat, like: Row -> bool, since: seq<Event<Row>>, like': Row -> bool, x: Event<Row>,
      now: seq<Event<Row>>)
    requires SubmittedThen(history, owner, like, since) && now == since + [x]
    requires forall row :: like(row) ==> like'(row)
    ensures SubmittedThen(history + [x], owner, like', now)
  {
    var row :| like(row) && EndsWith(history, [Submission(owner, row)] + since);
    Appended(history, [Submission(owner, row)] + since, x);
    assert [Submission(owner, row)] + since + [x] == [Submission(owner, row)] + now;
    assert like'(row);
  }

  lemma JustSubmitted<Row(!new)>(history: seq<Event<Row>>, owner: nat, like: Row -> bool, row: Row)
    requires like(row)
    ensures SubmittedThen(history + [Submission(owner, row)], owner, like, [])
  {
    assert (history + [Submission(owner, row)])[|history|..] == [Submission(owner, row)] + [];
  }

  // ---------- Documents over runs ----------

  function DecisionEvent(decision: Documents.Decision, actor: nat, row: Document): Event<Document> {
    match decision
    case Submit => Submission(actor, row)
    case Approve => Approval
    case Reject => Rejection
    case Cancel => Cancellation
  }

  /** What an accepted call does to the document, by the name of the call. */
  function DocumentEventOf(db: Db, c: Command, id: nat): Option<Event<Document>> {
    if Perform(db, c).Rollback? then None
    else
      match c
      case CreateDocument(_, _) => if id == |db.documents| then Some(Creation) else None
      case UpdateDocument(k, _, _) => if k == id then Some(Edit) else None
      case DecideDocument(k, decision, actor) =>
        if k != id || id >= |db.documents| then None
        else Some(DecisionEvent(decision, actor, db.documents[id]))
      case PostDocument(k) => if k == id then Some(Booking) else None
      case ReverseDocument(k, _, _) =>
        if k == id then Some(Reversal) else if id == |db.documents| then Some(Recording) else None
      case _ => None
  }

  function DocumentHistory(base: string, commands: seq<Command>, id: nat): seq<Event<Document>> {
    if commands == [] then []
    else
      var before, c := commands[..|commands| - 1], commands[|commands| - 1];
      Noted(DocumentHistory(base, before, id), DocumentEventOf(Run(EmptyDb(base), before), c, id))
  }

  /** A submitted DRAFT that the document still equals, apart from its status and entry. */
  function LikeDocument(d: Document): Document -> bool {
    (row: Document) => row.status.Draft? && d.(status := row.status, entry := row.entry) == row
  }

  /** The last calls that a status stands for. */
  ghost predicate Explains(history: seq<Event<Document>>, d: Document) {
    var owner, like := d.createdBy, LikeDocument(d);
    match d.status
    case Draft => EndsWith(history, [Creation]) || EndsWith(history, [Edit])
    case Submitted => SubmittedThen(history, owner, like, [])
    case Approved => SubmittedThen(history, owner, like, [Approval])
    case Rejected => SubmittedThen(history, owner, like, [Rejection])
    case Cancelled => EndsWith(history, [Cancellation])
    case Posted =>
      if d.correctionOf.Some? then history == [Recording]
      else SubmittedThen(history, owner, like, [Approval, Booking])
    case Reversed => SubmittedThen(history, owner, like, [Approval, Booking, Reversal])
  }

  /** A call that is no event of the document leaves its row alone. */
  lemma NoEvent(db: Db, c: Command, id: nat)
    requires DocumentEventOf(db, c, id).None?
    ensures id < |Step(db, c).documents| <==> id < |db.documents|
    ensures id < |db.documents| ==> Step(db, c).documents[id] == db.documents[id]
  {
    if SetupCommand(c) {
      SetupKeepsLedger(db, c);
    } else if c.CreateRequest? || c.UpdateRequest? || c.DecideRequest? || c.ExecutePayment? {
      RequestsKeepDocuments(db, c);
    } else if c.PostDocument? {
      PostingElsewhere(db, c, id);
    } else if c.ReverseDocument? {
      ReversalElsewhere(db, c, id);
    } else {
      PaperworkElsewhere(db, c, id);
    }
    hide *;
  }

  lemma PostingElsewhere(db: Db, c: Command, id: nat)
    requires DocumentEventOf(db, c, id).None? && c.PostDocument?
    ensures id < |Step(db, c).documents| <==> id < |db.documents|
    ensures id < |db.documents| ==> Step(db, c).documents[id] == db.documents[id]
  {
  }

  lemma ReversalElsewhere(db: Db, c: Command, id: nat)
    requires DocumentEventOf(db, c, id).None? && c.ReverseDocument?
    ensures id < |Step(db, c).documents| <==> id < |db.documents|
    ensures id < |db.documents| ==> Step(db, c).documents[id] == db.documents[id]
  {
  }

  lemma PaperworkElsewhere(db: Db, c: Command, id: nat)
    requires DocumentEventOf(db, c, id).None? && (c.CreateDocument? || c.UpdateDocument? || c.DecideDocument?)
    ensures id < |Step(db, c).documents| <==> id < |db.documents|
    ensures id < |db.documents| ==> Step(db, c).documents[id] == db.documents[id]
  {
  }

  lemma RequestsKeepDocuments(db: Db, c: Command)
    requires c.CreateRequest? || c.UpdateRequest? || c.DecideRequest? || c.ExecutePayment?
    ensures Step(db, c).documents == db.documents
  {
  }

  /** A decision made on a row with this history. */
  lemma DecisionTold(d: Document, decision: Documents.Decision, actor: nat, history: seq<Event<Document>>)
    requires Explains(history, d) && d.status.Allows(decision.Next()) && (decision.Submit? ==> d.createdBy == actor)
    ensures Explains(history + [DecisionEvent(decision, actor, d)], d.(status := decision.Next()))
  {
    hide SubmittedThen;
    hide EndsWith;
    var d' := d.(status := decision.Next());
    match decision {
      case Submit => JustSubmitted(history, d.createdBy, LikeDocument(d'), d);
      case Approve => OneMoreCall(history, d.createdBy, LikeDocument(d), [], LikeDocument(d'), Approval, [Approval]);
      case Reject => OneMoreCall(history, d.createdBy, LikeDocument(d), [], LikeDocument(d'), Rejection, [Rejection]);
      case Cancel => EndsWithLast(history, Cancellation);
    }
  }

  lemma PostingTold(d: Document, e: nat, history: seq<Event<Document>>)
    requires Explains(history, d) && d.status.Approved? && d.correctionOf.None?
    ensures Explains(history + [Booking], d.(status := DocumentStatus.Posted, entry := Some(e)))
  {
    hide SubmittedThen;
    hide EndsWith;
    var d' := d.(status := DocumentStatus.Posted, entry := Some(e));
    OneMoreCall(history, d.createdBy, LikeDocument(d), [Approval], LikeDocument(d'), Booking, [Approval, Booking]);
  }

  lemma ReversalTold(d: Document, history: seq<Event<Document>>)
    requires Explains(history, d) && d.status.Posted? && d.correctionOf.None?
    ensures Explains(history + [Reversal], d.(status := DocumentStatus.Reversed))
  {
    hide SubmittedThen;
    hide EndsWith;
    var d' := d.(status := DocumentStatus.Reversed);
    OneMoreCall(history, d.createdBy, LikeDocument(d), [Approval, Booking], LikeDocument(d'), Reversal,
                [Approval, Booking, Reversal]);
  }

  lemma RecordingTold(d: Document, id: nat, actor: nat, today: Date)
    ensures Explains([Recording], Documents.CorrectionRow(d, id, actor, today))
  {
  }

  lemma DecisionExplained(db: Db, c: Command, history: seq<Event<Document>>)
    requires c.DecideDocument? && Perform(db, c).Commit? && Explains(history, db.documents[c.id])
    ensures c.id < |Step(db, c).documents|
    ensures Explains(history + [DocumentEventOf(db, c, c.id).value], Step(db, c).documents[c.id])
  {
    DecidedRow(db, c);
    DecisionTold(db.documents[c.id], c.decision, c.actor, history);
    hide *;
  }

  lemma DecidedRow(db: Db, c: Command)
    requires c.DecideDocument? && Perform(db, c).Commit?
    ensures c.id < |db.documents|
    ensures var d := db.documents[c.id];
      && d.status.Allows(c.decision.Next()) && (c.decision.Submit? ==> d.createdBy == c.actor)
      && DocumentEventOf(db, c, c.id) == Some(DecisionEvent(c.decision, c.actor, d))
      && c.id < |Step(db, c).documents| && Step(db, c).documents[c.id] == d.(status := c.decision.Next())
  {
  }

  lemma PostingExplained(db: Db, c: Command, history: seq<Event<Document>>)
    requires Inv(db) && c.PostDocument? && Perform(db, c).Commit? && Explains(history, db.documents[c.id])
    ensures c.id < |Step(db, c).documents| && Explains(history + [Booking], Step(db, c).documents[c.id])
  {
    hide Explains;
    var rate := PostDocumentShape(db, c.id);
    PostingTold(db.documents[c.id], |db.entries|, history);
  }

  lemma ReversedRows(db: Db, c: Command)
    requires Inv(db) && c.ReverseDocument? && Perform(db, c).Commit?
    ensures c.id < |db.documents| && db.documents[c.id].status.Posted? && db.documents[c.id].correctionOf.None?
    ensures Step(db, c).documents == db.documents[c.id := db.documents[c.id].(status := DocumentStatus.Reversed)]
                                     + [Documents.CorrectionRow(db.documents[c.id], c.id, c.actor, c.today)]
  {
    ReverseDocumentShape(db, c.id, c.actor, c.today);
  }

  lemma ReversalEvents(db: Db, c: Command, id: nat)
    requires c.ReverseDocument? && Perform(db, c).Commit?
    ensures DocumentEventOf(db, c, id) == if c.id == id then Some(Reversal)
                                          else if id == |db.documents| then Some(Recording) else None
  {
    hide Perform;
  }

  lemma ReversalsExplained(db: Db, c: Command, id: nat, history: seq<Event<Document>>)
    requires Inv(db) && c.ReverseDocument? && Perform(db, c).Commit? && DocumentEventOf(db, c, id).Some?
    requires if id < |db.documents| then Explains(history, db.documents[id]) else history == []
    ensures id < |Step(db, c).documents|
    ensures Explains(history + [DocumentEventOf(db, c, id).value], Step(db, c).documents[id])
  {
    hide *;
    ReversedRows(db, c);
    ReversalEvents(db, c, id);
    if c.id == id {
      ReversalTold(db.documents[id], history);
    } else {
      RecordingTold(db.documents[c.id], c.id, c.actor, c.today);
      assert history + [Recording] == [Recording];
    }
  }

  lemma EventExplained(db: Db, c: Command, id: nat, history: seq<Event<Document>>)
    requires Inv(db) && DocumentEventOf(db, c, id).Some?
    requires if id < |db.documents| then Explains(history, db.documents[id]) else history == []
    ensures id < |Step(db, c).documents|
    ensures Explains(history + [DocumentEventOf(db, c, id).value], Step(db, c).documents[id])
  {
    hide Explains;
    hide Step;
    hide Inv;
    if c.DecideDocument? {
      DecisionExplained(db, c, history);
    } else if c.PostDocument? {
      PostingExplained(db, c, history);
    } else if c.ReverseDocument? {
      ReversalsExplained(db, c, id, history);
    } else {
      DraftExplained(db, c, id, history);
    }
  }

  lemma DraftExplained(db: Db, c: Command, id: nat, history: seq<Event<Document>>)
    requires DocumentEventOf(db, c, id).Some? && (c.CreateDocument? || c.UpdateDocument?)
    ensures id < |Step(db, c).documents|
    ensures Explains(history + [DocumentEventOf(db, c, id).value], Step(db, c).documents[id])
  {
    EndsWithLast(history, DocumentEventOf(db, c, id).value);
  }

  /** The history explains the document's row, and is empty as long as there is none. */
  ghost predicate Told(db: Db, id: nat, history: seq<Event<Document>>) {
    if id < |db.documents| then Explains(history, db.documents[id]) else history == []
  }

  lemma CallTold(db: Db, c: Command, id: nat, history: seq<Event<Document>>)
    requires Inv(db) && Told(db, id, history)
    ensures Told(Step(db, c), id, Noted(history, DocumentEventOf(db, c, id)))
  {
    hide Explains;
    hide Inv;
    hide Step;
    hide DocumentEventOf;
    if DocumentEventOf(db, c, id).None? {
      NoEvent(db, c, id);
    } else {
      EventExplained(db, c, id, history);
    }
  }

  /** In every reachable state the accepted calls on a document end as its status says. */
  lemma {:induction false} StatusTellsHistory(base: string, commands: seq<Command>, id: nat)
    ensures Told(Run(EmptyDb(base), commands), id, DocumentHistory(base, commands, id))
  {
    hide Told;
    hide Inv;
    hide Conserved;
    hide Step;
    hide DocumentEventOf;
    hide Noted;
    if commands == [] {
      NothingTold(base, id);
    } else {
      var before, c := commands[..|commands| - 1], commands[|commands| - 1];
      StatusTellsHistory(base, before, id);
      RunKeeps(base, before, Posting.Every());
      CallTold(Run(EmptyDb(base), before), c, id, DocumentHistory(base, before, id));
    }
  }

  lemma NothingTold(base: string, id: nat)
    ensures Told(EmptyDb(base), id, [])
  {
  }

  /**
   * Nothing reaches the ledger unapproved: a document with an entry was submitted by its creator, then approved, then
   * posted, with no edit and no other decision in between, and it still says what was submitted.
   */
  lemma PostedWasApproved(base: string, commands: seq<Command>, id: nat) returns (row: Document)
    requires id < |Run(EmptyDb(base), commands).documents|
    requires Run(EmptyDb(base), commands).documents[id].entry.Some?
    ensures var d, history := Run(EmptyDb(base), commands).documents[id], DocumentHistory(base, commands, id);
      && (d.status.Posted? || d.status.Reversed?)
      && EndsWith(history, [Submission(d.createdBy, row), Approval, Booking]
                           + (if d.status.Reversed? then [Reversal] else []))
      && row.status.Draft?
      && d.kind == row.kind && d.date == row.date && d.currency == row.currency
      && d.counterparty == row.counterparty && d.contract == row.contract
      && d.lines == row.lines && d.amountTotal == row.amountTotal && d.createdBy == row.createdBy
  {
    var db, history := Run(EmptyDb(base), commands), DocumentHistory(base, commands, id);
    var d := db.documents[id];
    StatusTellsHistory(base, commands, id);
    DocumentEntries(base, commands, id);
    hide Run;
    hide EntriesFrom;
    var since := if d.status.Reversed? then [Approval, Booking, Reversal] else [Approval, Booking];
    assert SubmittedThen(history, d.createdBy, LikeDocument(d), since);
    row :| LikeDocument(d)(row) && EndsWith(history, [Submission(d.createdBy, row)] + since);
    assert [Submission(d.createdBy, row)] + since
        == [Submission(d.createdBy, row), Approval, Booking] + (if d.status.Reversed? then [Reversal] else []);
  }

  // ---------- Expense requests over runs ----------

  function RequestDecisionEvent(decision: Payments.RequestDecision, actor: nat, row: ExpenseRequest): Event<ExpenseRequest> {
    match decision
    case Submit => Submission(actor, row)
    case Approve => Approval
    case Reject => Rejection
    case Cancel => Cancellation
  }

  /** What an accepted call does to the request; a payment with a used key does nothing. */
  function RequestEventOf(db: Db, c: Command, id: nat): Option<Event<ExpenseRequest>> {
    if Perform(db, c).Rollback? then None
    else
      match c
      case CreateRequest(_, _) => if id == |db.requests| then Some(Creation) else None
      case UpdateRequest(k, _, _) => if k == id then Some(Edit) else None
      case DecideRequest(k, decision, actor) =>
        if k != id || id >= |db.requests| then None
        else Some(RequestDecisionEvent(decision, actor, db.requests[id]))
      case ExecutePayment(order) =>
        if order.request == Some(id) && Payments.FindKey(db.payments, order.key) == |db.payments| then Some(Booking)
        else None
      case _ => None
  }

  function RequestHistory(base: string, commands: seq<Command>, id: nat): seq<Event<ExpenseRequest>> {
    if commands == [] then []
    else
      var before, c := commands[..|commands| - 1], commands[|commands| - 1];
      Noted(RequestHistory(base, before, id), RequestEventOf(Run(EmptyDb(base), before), c, id))
  }

  /** A submitted DRAFT that the request still equals, apart from its status, payment and entry. */
  function LikeRequest(r: ExpenseRequest): ExpenseRequest -> bool {
    (row: ExpenseRequest) =>
      row.status.Draft? && r.(status := row.status, payment := row.payment, entry := row.entry) == row
  }

  ghost predicate RequestExplained(history: seq<Event<ExpenseRequest>>, r: ExpenseRequest) {
    var owner, like := r.requestedBy, LikeRequest(r);
    match r.status
    case Draft => EndsWith(history, [Creation]) || EndsWith(history, [Edit])
    case Submitted => SubmittedThen(history, owner, like, [])
    case Approved => SubmittedThen(history, owner, like, [Approval])
    case Rejected => SubmittedThen(history, owner, like, [Rejection])
    case Paid => false
    case Accounted => SubmittedThen(history, owner, like, [Approval, Booking])
    case Cancelled => EndsWith(history, [Cancellation])
  }

  lemma NoRequestEvent(db: Db, c: Command, id: nat)
    requires RequestEventOf(db, c, id).None?
    ensures id < |Step(db, c).requests| <==> id < |db.requests|
    ensures id < |db.requests| ==> Step(db, c).requests[id] == db.requests[id]
  {
    if !c.CreateRequest? && !c.UpdateRequest? && !c.DecideRequest? && !c.ExecutePayment? {
      OthersKeepRequests(db, c);
      hide Step;
      hide Perform;
    }
  }

  lemma OthersKeepRequests(db: Db, c: Command)
    requires !c.CreateRequest? && !c.UpdateRequest? && !c.DecideRequest? && !c.ExecutePayment?
    ensures Step(db, c).requests == db.requests
  {
  }

  lemma RequestDecisionTold(
      r: ExpenseRequest, decision: Payments.RequestDecision, actor: nat, history: seq<Event<ExpenseRequest>>)
    requires RequestExplained(history, r) && r.status.Allows(decision.Next())
    requires decision.Submit? ==> r.requestedBy == actor
    ensures RequestExplained(history + [RequestDecisionEvent(decision, actor, r)], r.(status := decision.Next()))
  {
    hide SubmittedThen;
    hide EndsWith;
    var r' := r.(status := decision.Next());
    match decision {
      case Submit => JustSubmitted(history, r.requestedBy, LikeRequest(r'), r);
      case Approve => OneMoreCall(history, r.requestedBy, LikeRequest(r), [], LikeRequest(r'), Approval, [Approval]);
      case Reject => OneMoreCall(history, r.requestedBy, LikeRequest(r), [], LikeRequest(r'), Rejection, [Rejection]);
      case Cancel => EndsWithLast(history, Cancellation);
    }
  }

  lemma PaymentTold(r: ExpenseRequest, payment: nat, e: nat, history: seq<Event<ExpenseRequest>>)
    requires RequestExplained(history, r) && r.status.Approved?
    ensures RequestExplained(history + [Booking],
                             r.(status := RequestStatus.Accounted, payment := Some(payment), entry := Some(e)))
  {
    hide SubmittedThen;
    hide EndsWith;
    var r' := r.(status := RequestStatus.Accounted, payment := Some(payment), entry := Some(e));
    OneMoreCall(history, r.requestedBy, LikeRequest(r), [Approval], LikeRequest(r'), Booking, [Approval, Booking]);
  }

  lemma RequestDecisionExplained(db: Db, c: Command, history: seq<Event<ExpenseRequest>>)
    requires c.DecideRequest? && Perform(db, c).Commit? && RequestExplained(history, db.requests[c.id])
    ensures c.id < |Step(db, c).requests|
    ensures RequestExplained(history + [RequestEventOf(db, c, c.id).value], Step(db, c).requests[c.id])
  {
    DecidedRequest(db, c);
    RequestDecisionTold(db.requests[c.id], c.requestDecision, c.actor, history);
    hide *;
  }

  lemma DecidedRequest(db: Db, c: Command)
    requires c.DecideRequest? && Perform(db, c).Commit?
    ensures c.id < |db.requests|
    ensures var r := db.requests[c.id];
      && r.status.Allows(c.requestDecision.Next()) && (c.requestDecision.Submit? ==> r.requestedBy == c.actor)
      && RequestEventOf(db, c, c.id) == Some(RequestDecisionEvent(c.requestDecision, c.actor, r))
      && c.id < |Step(db, c).requests| && Step(db, c).requests[c.id] == r.(status := c.requestDecision.Next())
  {
  }

  lemma RequestDraftExplained(db: Db, c: Command, id: nat, history: seq<Event<ExpenseRequest>>)
    requires RequestEventOf(db, c, id).Some? && (c.CreateRequest? || c.UpdateRequest?)
    ensures id < |Step(db, c).requests|
    ensures RequestExplained(history + [RequestEventOf(db, c, id).value], Step(db, c).requests[id])
  {
    EndsWithLast(history, RequestEventOf(db, c, id).value);
  }

  lemma PaymentExplained(db: Db, c: Command, id: nat, history: seq<Event<ExpenseRequest>>)
    requires Inv(db) && c.ExecutePayment? && RequestEventOf(db, c, id).Some?
    requires id < |db.requests| ==> RequestExplained(history, db.requests[id])
    ensures id < |Step(db, c).requests| && RequestExplained(history + [Booking], Step(db, c).requests[id])
  {
    hide RequestExplained;
    var row := ExecuteLedger(db, c.order);
    PaymentTold(db.requests[id], |db.payments|, |db.entries|, history);
  }

  ghost predicate RequestTold(db: Db, id: nat, history: seq<Event<ExpenseRequest>>) {
    if id < |db.requests| then RequestExplained(history, db.requests[id]) else history == []
  }

  lemma RequestCallTold(db: Db, c: Command, id: nat, history: seq<Event<ExpenseRequest>>)
    requires Inv(db) && RequestTold(db, id, history)
    ensures RequestTold(Step(db, c), id, Noted(history, RequestEventOf(db, c, id)))
  {
    hide RequestExplained;
    hide Inv;
    hide Step;
    if RequestEventOf(db, c, id).None? {
      NoRequestEvent(db, c, id);
    } else if c.DecideRequest? {
      RequestDecisionExplained(db, c, history);
    } else if c.ExecutePayment? {
      PaymentExplained(db, c, id, history);
    } else {
      RequestDraftExplained(db, c, id, history);
    }
  }

  lemma {:induction false} RequestStatusTellsHistory(base: string, commands: seq<Command>, id: nat)
    ensures RequestTold(Run(EmptyDb(base), commands), id, RequestHistory(base, commands, id))
  {
    hide RequestTold;
    hide Inv;
    hide Conserved;
    hide Step;
    hide RequestEventOf;
    hide Noted;
    if commands == [] {
      NoRequestTold(base, id);
    } else {
      var before, c := commands[..|commands| - 1], commands[|commands| - 1];
      RequestStatusTellsHistory(base, before, id);
      RunKeeps(base, before, Posting.Every());
      RequestCallTold(Run(EmptyDb(base), before), c, id, RequestHistory(base, before, id));
    }
  }

  lemma NoRequestTold(base: string, id: nat)
    ensures RequestTold(EmptyDb(base), id, [])
  {
  }

  /**
   * No request is paid unapproved: an ACCOUNTED request was submitted by its requester, then approved, then paid once,
   * with no edit and no other decision in between, and it still names the account and amount that were submitted.
   */
  lemma PaidWasApproved(base: string, commands: seq<Command>, id: nat) returns (row: ExpenseRequest)
    requires id < |Run(EmptyDb(base), commands).requests|
    requires Run(EmptyDb(base), commands).requests[id].payment.Some?
    ensures var r, history := Run(EmptyDb(base), commands).requests[id], RequestHistory(base, commands, id);
      && EndsWith(history, [Submission(r.requestedBy, row), Approval, Booking]) && row.status.Draft?
      && r.expenseAccount == row.expenseAccount && r.amount == row.amount && r.currency == row.currency
      && r.requestedBy == row.requestedBy
  {
    var db, history := Run(EmptyDb(base), commands), RequestHistory(base, commands, id);
    var r := db.requests[id];
    RequestStatusTellsHistory(base, commands, id);
    RunKeeps(base, commands, Posting.Every());
    assert RequestOk(db, id);
    hide Run;
    hide Inv;
    hide Conserved;
    row :| LikeRequest(r)(row) && EndsWith(history, [Submission(r.requestedBy, row)] + [Approval, Booking]);
    assert [Submission(r.requestedBy, row)] + [Approval, Booking] == [Submission(r.requestedBy, row), Approval, Booking];
  }
}
