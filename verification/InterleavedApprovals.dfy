/**
 * The same in every interleaving: the committed steps on a document or on an expense request spell out its status,
 * so no schedule and no abort lets an unapproved document into the ledger or pays an unapproved request.
 */
module InterleavedApprovals {
  import opened Folds
  import opened Tables
  import opened Approvals
  import Documents
  import Payments
  import DP = DocumentProtocol
  import PP = PaymentProtocol

  // ---------- The checks made under the lock ----------

  /** What the freshly locked document row is checked for, operation by operation, with the statuses written out. */
  lemma DocumentChecks(row: Document, patch: Documents.Patch, actor: nat, today: Date)
    ensures DP.Decide(Documents.Submit, actor).Accepts(row) <==> row.status.Draft? && row.createdBy == actor
    ensures DP.Decide(Documents.Approve, actor).Accepts(row) <==> row.status.Submitted?
    ensures DP.Decide(Documents.Reject, actor).Accepts(row) <==> row.status.Submitted?
    ensures DP.Decide(Documents.Cancel, actor).Accepts(row) <==> row.status.Draft? || row.status.Approved?
    ensures DP.Operation.Post.Accepts(row) <==> row.status.Approved?
    ensures DP.Reverse(actor, today).Accepts(row) <==> row.status.Posted? && row.entry.Some?
    ensures DP.MayEdit(row, patch, actor) <==>
      && row.createdBy == actor && (row.status.Draft? || row.status.Rejected?)
      && (patch.lines.Some? ==> Sum(patch.lines.value, Documents.AmountOf()) > 0)
  {
  }

  lemma RequestChecks(row: ExpenseRequest, actor: nat)
    ensures PP.MayDecide(row, Payments.Submit, actor) <==> row.status.Draft? && row.requestedBy == actor
    ensures PP.MayDecide(row, Payments.Approve, actor) <==> row.status.Submitted?
    ensures PP.MayDecide(row, Payments.Reject, actor) <==> row.status.Submitted?
    ensures PP.MayDecide(row, Payments.Cancel, actor) <==>
      (row.status.Draft? || row.status.Approved?) && row.requestedBy == actor
    ensures PP.MayEdit(row, actor) <==> row.requestedBy == actor && (row.status.Draft? || row.status.Rejected?)
  {
  }

  // ---------- Documents ----------

  /** What a step commits to the document, by the operation of the client that commits. */
  function DocumentStep(s: DP.State, a: DP.Action, d: nat): Option<Event<Document>> {
    if !DP.Enabled(s, a) then None
    else
      match a
      case Create(k, _, _) => if k == d then Some(Creation) else None
      case Update(k, _, _) => if k == d then Some(Edit) else None
      case Commit(t) => CommitEvent(s.clients[t], d)
      case _ => None
  }

  function CommitEvent(c: DP.Client, d: nat): Option<Event<Document>>
    requires c.Ready()
  {
    match c.operation
    case Decide(decision, actor) => if c.document == d then Some(DecisionEvent(decision, actor, c.phase.row)) else None
    case Post => if c.document == d then Some(Booking) else None
    case Reverse(_, _) =>
      if c.document == d then Some(Reversal) else if c.phase.correction == d then Some(Recording) else None
  }

  function DocumentSteps(actions: seq<DP.Action>, d: nat): seq<Event<Document>> {
    if actions == [] then []
    else
      var before, a := actions[..|actions| - 1], actions[|actions| - 1];
      Noted(DocumentSteps(before, d), DocumentStep(DP.Run(DP.Initial(), before), a, d))
  }

  /** The history explains the committed row, and is empty as long as there is none. */
  ghost predicate Told(db: DP.Committed, d: nat, history: seq<Event<Document>>) {
    if d in db.docs then Explains(history, db.docs[d]) else history == []
  }

  lemma NoDocumentEvent(s: DP.State, a: DP.Action, d: nat)
    requires DocumentStep(s, a, d).None?
    ensures d in DP.Step(s, a).db.docs <==> d in s.db.docs
    ensures d in s.db.docs ==> DP.Step(s, a).db.docs[d] == s.db.docs[d]
  {
    if a.Commit? && DP.Enabled(s, a) {
      CommitsElsewhere(s.db, s.clients[a.t], d);
      hide DP.Publish;
    } else {
      hide DP.LinesToPost;
      hide DP.OriginalLive;
    }
  }

  lemma CommitsElsewhere(db: DP.Committed, c: DP.Client, d: nat)
    requires c.Ready() && c.document != d && (c.operation.Reverse? ==> c.phase.correction != d)
    ensures d in DP.Publish(db, c).docs <==> d in db.docs
    ensures d in db.docs ==> DP.Publish(db, c).docs[d] == db.docs[d]
  {
  }

  /** The row of the document that a client commits. */
  lemma CommittedRow(db: DP.Committed, c: DP.Client)
    requires DP.ClientOk(db, c) && c.Ready()
    ensures c.document in db.docs && db.docs[c.document] == c.phase.row && c.operation.Accepts(c.phase.row)
    ensures c.document in DP.Publish(db, c).docs
    ensures DP.Publish(db, c).docs[c.document] ==
      match c.operation
      case Decide(decision, _) => c.phase.row.(status := decision.Next())
      case Post => DP.PostedRow(c.phase.row, c.phase.entry)
      case Reverse(_, _) => DP.ReversedRow(c.phase.row)
    ensures c.operation.Reverse? ==>
      && c.phase.correction !in db.docs && c.phase.correction in DP.Publish(db, c).docs
      && DP.Publish(db, c).docs[c.phase.correction]
         == Documents.CorrectionRow(c.phase.row, c.document, c.operation.actor, c.operation.today)
  {
  }

  lemma CommitTold(db: DP.Committed, c: DP.Client, d: nat, history: seq<Event<Document>>)
    requires DP.ClientOk(db, c) && c.Ready() && DP.RowOk(c.phase.row)
    requires CommitEvent(c, d).Some? && Told(db, d, history)
    ensures Told(DP.Publish(db, c), d, history + [CommitEvent(c, d).value])
  {
    CommittedRow(db, c);
    hide DP.Publish;
    hide DP.ClientOk;
    hide Documents.CorrectionRow;
    hide Explains;
    if c.document != d {
      RecordingTold(c.phase.row, c.document, c.operation.actor, c.operation.today);
    } else if c.operation.Decide? {
      DecisionTold(c.phase.row, c.operation.decision, c.operation.actor, history);
    } else if c.operation.Post? {
      PostingTold(c.phase.row, c.phase.entry, history);
    } else {
      ReversalTold(c.phase.row, history);
    }
  }

  lemma CommitStepTold(s: DP.State, a: DP.Action, d: nat, history: seq<Event<Document>>)
    requires DP.DbOk(s.db) && DP.ClientsOk(s) && a.Commit? && DocumentStep(s, a, d).Some? && Told(s.db, d, history)
    ensures Told(DP.Step(s, a).db, d, history + [DocumentStep(s, a, d).value])
  {
    var c := s.clients[a.t];
    assert DP.ClientOk(s.db, c);
    assert DP.RowOk(s.db.docs[c.document]);
    CommitTold(s.db, c, d, history);
    hide DP.Publish;
    hide Told;
    hide CommitEvent;
  }

  lemma DraftTold(s: DP.State, a: DP.Action, d: nat, history: seq<Event<Document>>)
    requires DocumentStep(s, a, d).Some? && (a.Create? || a.Update?)
    ensures Told(DP.Step(s, a).db, d, history + [DocumentStep(s, a, d).value])
  {
    EndsWithLast(history, DocumentStep(s, a, d).value);
  }

  lemma {:induction false} StepsTellStatus(actions: seq<DP.Action>, d: nat)
    ensures Told(DP.Run(DP.Initial(), actions).db, d, DocumentSteps(actions, d))
  {
    if actions != [] {
      var before, a := actions[..|actions| - 1], actions[|actions| - 1];
      var s, history := DP.Run(DP.Initial(), before), DocumentSteps(before, d);
      StepsTellStatus(before, d);
      DP.RunKeeps(before);
      hide DP.Step;
      hide DP.DbOk;
      hide DP.ClientsOk;
      hide Explains;
      if DocumentStep(s, a, d).None? {
        NoDocumentEvent(s, a, d);
      } else if a.Commit? {
        CommitStepTold(s, a, d, history);
      } else {
        DraftTold(s, a, d, history);
      }
    }
  }

  lemma RowsAlwaysOk(actions: seq<DP.Action>, d: nat)
    requires d in DP.Run(DP.Initial(), actions).db.docs
    ensures DP.RowOk(DP.Run(DP.Initial(), actions).db.docs[d])
  {
    DP.RunKeeps(actions);
  }

  /**
   * Whatever the interleaving, a document with an entry was submitted by its creator, then approved, then posted, with
   * no committed edit and no other committed decision in between, and it still says what was submitted.
   */
  lemma PostedWasApproved(actions: seq<DP.Action>, d: nat) returns (row: Document)
    requires d in DP.Run(DP.Initial(), actions).db.docs && DP.Run(DP.Initial(), actions).db.docs[d].entry.Some?
    ensures var now, history := DP.Run(DP.Initial(), actions).db.docs[d], DocumentSteps(actions, d);
      && EndsWith(history, [Submission(now.createdBy, row), Approval, Booking]
                           + (if now.status.Reversed? then [Reversal] else []))
      && row.status.Draft?
      && now.kind == row.kind && now.date == row.date && now.currency == row.currency
      && now.counterparty == row.counterparty && now.contract == row.contract
      && now.lines == row.lines && now.amountTotal == row.amountTotal && now.createdBy == row.createdBy
  {
    var db, history := DP.Run(DP.Initial(), actions).db, DocumentSteps(actions, d);
    var now := db.docs[d];
    StepsTellStatus(actions, d);
    RowsAlwaysOk(actions, d);
    hide DP.Run;
    var since := if now.status.Reversed? then [Approval, Booking, Reversal] else [Approval, Booking];
    assert SubmittedThen(history, now.createdBy, LikeDocument(now), since);
    row :| LikeDocument(now)(row) && EndsWith(history, [Submission(now.createdBy, row)] + since);
    assert [Submission(now.createdBy, row)] + since
        == [Submission(now.createdBy, row), Approval, Booking] + (if now.status.Reversed? then [Reversal] else []);
  }

  // ---------- Expense requests ----------

  function RequestStep(s: PP.State, a: PP.Action, r: nat): Option<Event<ExpenseRequest>> {
    if !PP.Enabled(s, a) then None
    else
      match a
      case CreateRequest(k, _, _) => if k == r then Some(Creation) else None
      case UpdateRequest(k, _, _) => if k == r then Some(Edit) else None
      case CommitDecision(t) =>
        var c := s.clients[t];
        if c.request == r then Some(RequestDecisionEvent(c.decision, c.actor, c.stage.row)) else None
      case Commit(t) => if s.clients[t].order.request == Some(r) then Some(Booking) else None
      case _ => None
  }

  function RequestSteps(actions: seq<PP.Action>, r: nat): seq<Event<ExpenseRequest>> {
    if actions == [] then []
    else
      var before, a := actions[..|actions| - 1], actions[|actions| - 1];
      Noted(RequestSteps(before, r), RequestStep(PP.Run(PP.Initial(), before), a, r))
  }

  ghost predicate RequestTold(db: PP.Committed, r: nat, history: seq<Event<ExpenseRequest>>) {
    if r in db.requests then RequestExplained(history, db.requests[r]) else history == []
  }

  lemma NoRequestStep(s: PP.State, a: PP.Action, r: nat)
    requires PP.Inv(s) && RequestStep(s, a, r).None?
    ensures r in PP.Step(s, a).db.requests <==> r in s.db.requests
    ensures r in s.db.requests ==> PP.Step(s, a).db.requests[r] == s.db.requests[r]
  {
    if a.Commit? && PP.Enabled(s, a) {
      assert PP.ClientOk(s.db, s.clients[a.t]);
    }
  }

  lemma CommitPaymentTold(s: PP.State, a: PP.Action, r: nat, history: seq<Event<ExpenseRequest>>)
    requires PP.Inv(s) && a.Commit? && RequestStep(s, a, r).Some? && RequestTold(s.db, r, history)
    ensures RequestTold(PP.Step(s, a).db, r, history + [Booking])
  {
    var c := s.clients[a.t];
    assert PP.ClientOk(s.db, c);
    hide RequestExplained;
    PaymentTold(s.db.requests[r], c.phase.id, c.phase.entry, history);
  }

  lemma RequestStepTold(s: PP.State, a: PP.Action, r: nat, history: seq<Event<ExpenseRequest>>)
    requires PP.Inv(s) && !a.Commit? && RequestStep(s, a, r).Some? && RequestTold(s.db, r, history)
    ensures RequestTold(PP.Step(s, a).db, r, history + [RequestStep(s, a, r).value])
  {
    if a.CommitDecision? {
      var c := s.clients[a.t];
      assert PP.ClientOk(s.db, c);
      RequestDecisionTold(c.stage.row, c.decision, c.actor, history);
    } else {
      EndsWithLast(history, RequestStep(s, a, r).value);
    }
  }

  lemma {:induction false} StepsTellRequestStatus(actions: seq<PP.Action>, r: nat)
    ensures RequestTold(PP.Run(PP.Initial(), actions).db, r, RequestSteps(actions, r))
  {
    if actions != [] {
      var before, a := actions[..|actions| - 1], actions[|actions| - 1];
      var s, history := PP.Run(PP.Initial(), before), RequestSteps(before, r);
      StepsTellRequestStatus(before, r);
      PP.Reachable(before);
      hide PP.Step;
      hide PP.DbOk;
      hide PP.ClientsOk;
      hide RequestExplained;
      if RequestStep(s, a, r).None? {
        NoRequestStep(s, a, r);
      } else if a.Commit? {
        CommitPaymentTold(s, a, r, history);
      } else {
        RequestStepTold(s, a, r, history);
      }
    }
  }

  lemma RequestsAlwaysOk(actions: seq<PP.Action>, r: nat)
    requires r in PP.Run(PP.Initial(), actions).db.requests
    ensures PP.RequestOk(PP.Run(PP.Initial(), actions).db, r)
  {
    PP.Reachable(actions);
  }

  /**
   * Whatever the interleaving, a request with a payment was submitted by its requester, then approved, then paid once,
   * with no committed edit and no other committed decision in between.
   */
  lemma PaidWasApproved(actions: seq<PP.Action>, r: nat) returns (row: ExpenseRequest)
    requires r in PP.Run(PP.Initial(), actions).db.requests
    requires PP.Run(PP.Initial(), actions).db.requests[r].payment.Some?
    ensures var now, history := PP.Run(PP.Initial(), actions).db.requests[r], RequestSteps(actions, r);
      && EndsWith(history, [Submission(now.requestedBy, row), Approval, Booking]) && row.status.Draft?
      && now.expenseAccount == row.expenseAccount && now.amount == row.amount && now.currency == row.currency
      && now.requestedBy == row.requestedBy
  {
    var db, history := PP.Run(PP.Initial(), actions).db, RequestSteps(actions, r);
    var now := db.requests[r];
    StepsTellRequestStatus(actions, r);
    RequestsAlwaysOk(actions, r);
    hide PP.Run;
    row :| LikeRequest(now)(row) && EndsWith(history, [Submission(now.requestedBy, row)] + [Approval, Booking]);
    assert [Submission(now.requestedBy, row)] + [Approval, Booking]
        == [Submission(now.requestedBy, row), Approval, Booking];
  }
}
