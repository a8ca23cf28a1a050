/**
 * Concurrent document operations. Each locked operation takes the document's row lock,
 * re-reads the row, does its work and commits or aborts; the lock is held to the end.
 * Creating and editing drafts are single unlocked steps that wait for a held lock.
 * Journal entries are stored with their lines.
 */
module DocumentProtocol {
  import opened Folds
  import opened Tables
  import opened Posting
  import Documents
  import Runs

  datatype Kind = Original | Reversal

  datatype EntryRow = EntryRow(document: nat, kind: Kind, status: EntryStatus, lines: seq<Line>)

  datatype Committed = Committed(docs: map<nat, Document>, entries: map<nat, EntryRow>)

  datatype Operation = Decide(decision: Documents.Decision, actor: nat) | Post | Reverse(actor: nat, today: Date) {
    /** The check made on the freshly locked row. */
    predicate Accepts(row: Document) {
      match this
      case Decide(decision, actor) =>
        row.status.Allows(decision.Next()) && (decision.Submit? ==> row.createdBy == actor)
      case Post => row.status.Allows(DocumentStatus.Posted)
      case Reverse(_, _) => row.status.Posted? && row.entry.Some?
    }
  }

  datatype Phase =
    | Waiting
    | Holding(row: Document)
    | Wrote(row: Document, entry: nat, rate: int, lines: seq<PostingLine>)
    | Corrected(row: Document, entry: nat, lines: seq<PostingLine>, correction: nat)
    | Done

  datatype Client = Client(document: nat, operation: Operation, phase: Phase) {
    predicate Locks() { phase.Holding? || phase.Wrote? || phase.Corrected? }

    predicate HoldsEntry() { phase.Wrote? || phase.Corrected? }

    /** Nothing is left to do but commit. */
    predicate Ready() {
      match operation
      case Decide(_, _) => phase.Holding?
      case Post => phase.Wrote?
      case Reverse(_, _) => phase.Corrected?
    }
  }

  datatype State = State(db: Committed, clients: map<nat, Client>)

  function Initial(): State { State(Committed(map[], map[]), map[]) }

  predicate Locked(s: State, d: nat) {
    exists t :: t in s.clients && s.clients[t].Locks() && s.clients[t].document == d
  }

  predicate FreshEntry(s: State, e: nat) {
    e !in s.db.entries && forall t :: t in s.clients && s.clients[t].HoldsEntry() ==> s.clients[t].phase.entry != e
  }

  predicate FreshDocument(s: State, d: nat) {
    && d !in s.db.docs
    && (forall t :: t in s.clients && s.clients[t].phase.Corrected? ==> s.clients[t].phase.correction != d)
  }

  // ---------- Steps ----------

  /** The rate a posting uses comes from outside; a missing rate, closed month or unusable account is an abort. */
  datatype Action =
    | Ask(t: nat, document: nat, operation: Operation)
    | Lock(t: nat)
    | WriteEntry(t: nat, entry: nat, rate: int)
    | WriteCorrection(t: nat, correction: nat)
    | Commit(t: nat)
    | Abort(t: nat)
    | Create(document: nat, draft: Documents.Draft, actor: nat)
    | Update(document: nat, patch: Documents.Patch, actor: nat)

  predicate MayEdit(row: Document, patch: Documents.Patch, actor: nat) {
    row.createdBy == actor && row.status.Editable() && Documents.PatchedRow(row, patch).Some?
  }

  predicate Enabled(s: State, a: Action) {
    match a
    case Ask(t, _, _) => t !in s.clients
    case Lock(t) => t in s.clients && s.clients[t].phase.Waiting? && !Locked(s, s.clients[t].document)
    case WriteEntry(t, e, _) =>
      t in s.clients && s.clients[t].phase.Holding? && !s.clients[t].operation.Decide? && FreshEntry(s, e)
    case WriteCorrection(t, c) =>
      t in s.clients && s.clients[t].phase.Wrote? && s.clients[t].operation.Reverse? && FreshDocument(s, c)
    case Commit(t) => t in s.clients && s.clients[t].Ready()
    case Abort(t) => t in s.clients && s.clients[t].Locks()
    case Create(d, draft, actor) => FreshDocument(s, d) && Documents.DraftRow(draft, actor).Some?
    case Update(d, patch, actor) => d in s.db.docs && MayEdit(s.db.docs[d], patch, actor) && !Locked(s, d)
  }

  function To(s: State, t: nat, phase: Phase): State
    requires t in s.clients
  {
    s.(clients := s.clients[t := s.clients[t].(phase := phase)])
  }

  /** The entry being reversed must still be POSTED when it is read. */
  predicate OriginalLive(db: Committed, row: Document) {
    row.entry.Some? && row.entry.value in db.entries && db.entries[row.entry.value].status.Posted?
  }

  /** The lines handed to the posting service. */
  function LinesToPost(db: Committed, operation: Operation, row: Document, rate: int): seq<PostingLine> {
    if operation.Reverse? && OriginalLive(db, row) then Map(db.entries[row.entry.value].lines, Mirror())
    else Documents.Postings(row, rate)
  }

  function PostedRow(row: Document, entry: nat): Document {
    row.(status := DocumentStatus.Posted, entry := Some(entry))
  }

  function ReversedRow(row: Document): Document { row.(status := DocumentStatus.Reversed) }

  function MarkReversed(entries: map<nat, EntryRow>, original: nat): map<nat, EntryRow> {
    if original in entries
    then entries[original := entries[original].(status := EntryStatus.Reversed)]
    else entries
  }

  function Publish(db: Committed, c: Client): Committed
    requires c.Ready()
  {
    var d := c.document;
    match c.operation
    case Decide(decision, _) => db.(docs := db.docs[d := c.phase.row.(status := decision.Next())])
    case Post =>
      var e := c.phase.entry;
      Committed(db.docs[d := PostedRow(c.phase.row, e)],
                db.entries[e := EntryRow(d, Original, EntryStatus.Posted, Map(c.phase.lines, Stored(e)))])
    case Reverse(actor, today) =>
      var e := c.phase.entry;
      var entries := db.entries[e := EntryRow(d, Reversal, EntryStatus.Posted, Map(c.phase.lines, Stored(e)))];
      Committed(
        db.docs[d := ReversedRow(c.phase.row)]
               [c.phase.correction := Documents.CorrectionRow(c.phase.row, d, actor, today)],
        if c.phase.row.entry.Some? then MarkReversed(entries, c.phase.row.entry.value) else entries)
  }

  /** A disabled action leaves the state as it is. */
  function Step(s: State, a: Action): State {
    if !Enabled(s, a) then s
    else
      match a
      case Ask(t, d, operation) => s.(clients := s.clients[t := Client(d, operation, Waiting)])
      case Lock(t) =>
        var c := s.clients[t];
        if c.document in s.db.docs && c.operation.Accepts(s.db.docs[c.document])
        then To(s, t, Holding(s.db.docs[c.document]))
        else To(s, t, Done)
      case WriteEntry(t, e, rate) =>
        var c := s.clients[t];
        var lines := LinesToPost(s.db, c.operation, c.phase.row, rate);
        if c.operation.Reverse? && !OriginalLive(s.db, c.phase.row) then To(s, t, Done)
        else if !ValidLines(lines) then To(s, t, Done)
        else To(s, t, Wrote(c.phase.row, e, rate, lines))
      case WriteCorrection(t, d) =>
        var p := s.clients[t].phase;
        To(s, t, Corrected(p.row, p.entry, p.lines, d))
      case Commit(t) => State(Publish(s.db, s.clients[t]), s.clients[t := s.clients[t].(phase := Done)])
      case Abort(t) => To(s, t, Done)
      case Create(d, draft, actor) =>
        s.(db := s.db.(docs := s.db.docs[d := Documents.DraftRow(draft, actor).value]))
      case Update(d, patch, actor) =>
        s.(db := s.db.(docs := s.db.docs[d := Documents.PatchedRow(s.db.docs[d], patch).value]))
  }

  function Run(s: State, actions: seq<Action>): State { Runs.Run(Step, s, actions) }

  // ---------- The invariant ----------

  /** A document has an entry from posting on, unless it records a correction. */
  predicate RowOk(row: Document) {
    && (row.entry.Some? <==> (row.status.Posted? && row.correctionOf.None?) || row.status.Reversed?)
    && (row.correctionOf.Some? ==> row.status.Posted?)
    && (row.correctionOf.None? ==> row.amountTotal == Sum(row.lines, Documents.AmountOf()))
  }

  /** The lines are what the document posts, at the rate they carry, stored under the entry's id. */
  predicate PostsLines(row: Document, e: nat, lines: seq<Line>) {
    lines != [] && lines == Map(Documents.Postings(row, lines[0].body.rate), Stored(e))
  }

  /** The document's own entry: it names the document, says what the document says, and shares its fate. */
  predicate OriginalOk(db: Committed, d: nat)
    requires d in db.docs
  {
    var row := db.docs[d];
    row.entry.Some? ==>
      && row.entry.value in db.entries
      && var entry := db.entries[row.entry.value];
         && entry.document == d && entry.kind.Original?
         && (entry.status.Posted? <==> row.status.Posted?)
         && PostsLines(row, row.entry.value, entry.lines)
  }

  /** Entry m is the reversal of the document's own entry, line by line. */
  predicate IsMirror(db: Committed, m: nat, d: nat) {
    && m in db.entries && d in db.docs && db.docs[d].entry.Some? && db.docs[d].entry.value in db.entries
    && db.entries[m] == EntryRow(d, Reversal, EntryStatus.Posted, MirrorLines(db.entries[db.docs[d].entry.value].lines, m))
  }

  ghost predicate MirrorOk(db: Committed, d: nat)
    requires d in db.docs
  {
    db.docs[d].status.Reversed? ==> exists m :: IsMirror(db, m, d)
  }

  ghost predicate DocsOk(db: Committed) {
    && (forall d :: d in db.docs ==> RowOk(db.docs[d]))
    && (forall d :: d in db.docs ==> OriginalOk(db, d))
    && (forall d :: d in db.docs ==> MirrorOk(db, d))
  }

  predicate BothReversalsOfOne(a: EntryRow, b: EntryRow) {
    a.kind.Reversal? && b.kind.Reversal? && a.document == b.document
  }

  /** An entry belongs to a document that knows it. */
  predicate EntryKnown(db: Committed, e: nat)
    requires e in db.entries
  {
    var entry := db.entries[e];
    && entry.document in db.docs
    && (entry.kind.Original? ==> db.docs[entry.document].entry == Some(e))
    && (entry.kind.Reversal? ==> db.docs[entry.document].status.Reversed? && entry.status.Posted?)
  }

  predicate LinesOk(db: Committed) { forall e :: e in db.entries ==> GoodLines(db.entries[e].lines) }

  ghost predicate EntriesOk(db: Committed) {
    && (forall e :: e in db.entries ==> EntryKnown(db, e))
    && OneReversalEach(db)
  }

  predicate OneReversalEach(db: Committed) {
    forall e, f :: e in db.entries && f in db.entries && BothReversalsOfOne(db.entries[e], db.entries[f]) ==> e == f
  }

  ghost predicate DbOk(db: Committed) { DocsOk(db) && EntriesOk(db) && LinesOk(db) }

  ghost predicate ClientOk(db: Committed, c: Client) {
    && (c.Locks() ==>
          c.document in db.docs && db.docs[c.document] == c.phase.row && c.operation.Accepts(c.phase.row))
    && (c.HoldsEntry() ==>
          && c.phase.entry !in db.entries && !c.operation.Decide? && ValidLines(c.phase.lines)
          && (c.operation.Reverse? ==>
                OriginalLive(db, c.phase.row)
                && c.phase.lines == Map(db.entries[c.phase.row.entry.value].lines, Mirror())))
    && (c.phase.Wrote? && c.operation.Post? ==> c.phase.lines == Documents.Postings(c.phase.row, c.phase.rate))
    && (c.phase.Corrected? ==>
          c.operation.Reverse? && c.phase.correction !in db.docs && c.phase.correction != c.document)
  }

  predicate Apart(c: Client, d: Client) {
    && (c.Locks() && d.Locks() ==> c.document != d.document)
    && (c.HoldsEntry() && d.HoldsEntry() ==> c.phase.entry != d.phase.entry)
    && (c.phase.Corrected? && d.phase.Corrected? ==> c.phase.correction != d.phase.correction)
  }

  ghost predicate ClientsOk(s: State) {
    && (forall t :: t in s.clients ==> ClientOk(s.db, s.clients[t]))
    && (forall t, u :: t in s.clients && u in s.clients && t != u ==> Apart(s.clients[t], s.clients[u]))
  }

  ghost predicate Inv(s: State) { DbOk(s.db) && ClientsOk(s) }

  // ---------- Steps inside a transaction ----------

  predicate Silent(a: Action) {
    a.Ask? || a.Lock? || a.WriteEntry? || a.WriteCorrection? || a.Abort?
  }

  lemma SilentClientOk(s: State, a: Action)
    requires Inv(s) && Enabled(s, a) && Silent(a)
    ensures Step(s, a).db == s.db
    ensures a.t in Step(s, a).clients && ClientOk(s.db, Step(s, a).clients[a.t])
  {
    hide DbOk;
    hide ValidLines;
    hide Documents.Postings;
    if a.t in s.clients {
      assert ClientOk(s.db, s.clients[a.t]);
    }
  }

  lemma SilentApart(s: State, a: Action, u: nat)
    requires ClientsOk(s) && Enabled(s, a) && Silent(a) && u in s.clients && u != a.t
    ensures Apart(Step(s, a).clients[a.t], s.clients[u]) && Apart(s.clients[u], Step(s, a).clients[a.t])
  {
    if a.t in s.clients {
      assert Apart(s.clients[a.t], s.clients[u]) && Apart(s.clients[u], s.clients[a.t]);
    }
    if a.Lock? {
      assert !(s.clients[u].Locks() && s.clients[u].document == s.clients[a.t].document);
    }
  }

  lemma SilentKeeps(s: State, a: Action)
    requires Inv(s) && Enabled(s, a) && Silent(a)
    ensures Inv(Step(s, a))
  {
    var s' := Step(s, a);
    SilentClientOk(s, a);
    assert s'.clients == s.clients[a.t := s'.clients[a.t]];
    forall u | u in s.clients && u != a.t
      ensures Apart(s'.clients[a.t], s.clients[u]) && Apart(s.clients[u], s'.clients[a.t])
    {
      SilentApart(s, a, u);
    }
  }

  // ---------- What a commit publishes ----------

  /** A document's lines do not depend on its status or entry. */
  lemma SamePostings(a: Document, b: Document, e: nat, lines: seq<Line>)
    requires Documents.HeaderOf(a) == Documents.HeaderOf(b) && a.lines == b.lines
    ensures PostsLines(a, e, lines) <==> PostsLines(b, e, lines)
  {
    if lines != [] {
      assert Documents.Postings(a, lines[0].body.rate) == Documents.Postings(b, lines[0].body.rate);
    }
  }

  lemma PostedLines(row: Document, e: nat, rate: int)
    requires ValidLines(Documents.Postings(row, rate))
    ensures GoodLines(Map(Documents.Postings(row, rate), Stored(e)))
    ensures PostsLines(row, e, Map(Documents.Postings(row, rate), Stored(e)))
  {
    var lines := Documents.Postings(row, rate);
    Documents.PostingsBaseBalanced(Documents.HeaderOf(row), row.lines, rate, e);
    StoredLinesGood(lines, e);
    Documents.PostingsRate(row, rate);
    assert Map(lines, Stored(e))[0].body == lines[0];
  }

  /** A row that stays, with its entries, stays right. */
  lemma OtherRowKept(db: Committed, db': Committed, k: nat)
    requires DocsOk(db) && k in db.docs && k in db'.docs && db'.docs[k] == db.docs[k]
    requires forall e :: e in db.entries && db.entries[e].document == k ==> e in db'.entries && db'.entries[e] == db.entries[e]
    ensures RowOk(db'.docs[k]) && OriginalOk(db', k) && MirrorOk(db', k)
  {
    assert OriginalOk(db, k) && MirrorOk(db, k);
    if db.docs[k].status.Reversed? {
      var m :| IsMirror(db, m, k);
      assert IsMirror(db', m, k);
    }
  }

  /** An entry stays right if its document still knows it. */
  lemma OtherEntryKept(db: Committed, db': Committed, e: nat)
    requires EntriesOk(db) && e in db.entries && e in db'.entries && db'.entries[e] == db.entries[e]
    requires var d := db.entries[e].document;
      d in db'.docs && (d in db.docs ==> db'.docs[d].entry == db.docs[d].entry && db'.docs[d].status == db.docs[d].status)
    ensures EntryKnown(db', e)
  {
    assert EntryKnown(db, e);
  }

  /** A row without an entry may be added, or take the place of one. */
  lemma RowChangeKeepsDb(db: Committed, db': Committed, d: nat, row: Document)
    requires DbOk(db) && RowOk(row) && row.entry.None? && (d in db.docs ==> db.docs[d].entry.None?)
    requires db' == Committed(db.docs[d := row], db.entries)
    ensures DbOk(db')
  {
    hide EntryKnown;
    hide OriginalOk;
    hide MirrorOk;
    hide GoodLines;
    forall e | e in db.entries ensures db.entries[e].document != d && EntryKnown(db', e) {
      NoEntryOf(db, d, e);
      OtherEntryKept(db, db', e);
    }
    BareRowOk(db', d);
    forall k | k in db'.docs && k != d ensures RowOk(db'.docs[k]) && OriginalOk(db', k) && MirrorOk(db', k) {
      OtherRowKept(db, db', k);
    }
  }

  lemma BareRowOk(db: Committed, d: nat)
    requires d in db.docs && RowOk(db.docs[d]) && db.docs[d].entry.None?
    ensures OriginalOk(db, d) && MirrorOk(db, d)
  {
  }

  /** A document without an entry of its own has no entries at all. */
  lemma NoEntryOf(db: Committed, d: nat, e: nat)
    requires EntriesOk(db) && e in db.entries
    requires d in db.docs ==> db.docs[d].entry.None? && RowOk(db.docs[d])
    ensures db.entries[e].document != d && db.entries[e].document in db.docs
  {
    assert EntryKnown(db, e);
  }

  lemma DecidedRowOk(row: Document, decision: Documents.Decision)
    requires RowOk(row) && row.status.Allows(decision.Next())
    ensures row.entry.None? && RowOk(row.(status := decision.Next()))
  {
  }

  lemma DecideKeepsDb(db: Committed, c: Client)
    requires DbOk(db) && ClientOk(db, c) && c.Ready() && c.operation.Decide?
    ensures DbOk(Publish(db, c))
  {
    var decision := c.operation.decision;
    assert RowOk(db.docs[c.document]);
    DecidedRowOk(c.phase.row, decision);
    RowChangeKeepsDb(db, Publish(db, c), c.document, c.phase.row.(status := decision.Next()));
  }

  /** The tables after a document got its posting entry. */
  predicate AddsOriginal(db: Committed, db': Committed, d: nat, row: Document, e: nat, entry: EntryRow) {
    && d in db.docs && e !in db.entries
    && db' == Committed(db.docs[d := row], db.entries[e := entry])
    && db.docs[d].entry.None? && row.entry == Some(e) && row.status.Posted? && RowOk(row)
    && entry.document == d && entry.kind.Original? && entry.status.Posted?
    && PostsLines(row, e, entry.lines)
  }

  lemma OriginalKeepsDocs(db: Committed, db': Committed, d: nat, row: Document, e: nat, entry: EntryRow)
    requires DocsOk(db) && AddsOriginal(db, db', d, row, e, entry)
    ensures DocsOk(db')
  {
    forall k | k in db'.docs ensures RowOk(db'.docs[k]) && OriginalOk(db', k) && MirrorOk(db', k) {
      if k != d {
        OtherRowKept(db, db', k);
      }
    }
  }

  lemma OriginalKeepsEntries(db: Committed, db': Committed, d: nat, row: Document, e: nat, entry: EntryRow)
    requires EntriesOk(db) && AddsOriginal(db, db', d, row, e, entry) && RowOk(db.docs[d])
    ensures EntriesOk(db')
  {
    forall f | f in db'.entries ensures EntryKnown(db', f) {
      if f != e {
        NoEntryOf(db, d, f);
        assert EntryKnown(db, f);
        OtherEntryKept(db, db', f);
      }
    }
  }

  /** The entry that posting publishes. */
  function OriginalEntry(d: nat, e: nat, lines: seq<PostingLine>): EntryRow {
    EntryRow(d, Original, EntryStatus.Posted, Map(lines, Stored(e)))
  }

  lemma PostShape(db: Committed, c: Client)
    requires DocsOk(db) && ClientOk(db, c) && c.Ready() && c.operation.Post?
    ensures var d, row, e := c.document, c.phase.row, c.phase.entry;
      && AddsOriginal(db, Publish(db, c), d, PostedRow(row, e), e, OriginalEntry(d, e, c.phase.lines))
      && GoodLines(OriginalEntry(d, e, c.phase.lines).lines)
  {
    hide ValidLines;
    hide GoodLines;
    hide Documents.Postings;
    hide PostsLines;
    var e, row := c.phase.entry, c.phase.row;
    assert RowOk(row);
    PostedLines(row, e, c.phase.rate);
    SamePostings(row, PostedRow(row, e), e, OriginalEntry(c.document, e, c.phase.lines).lines);
  }

  lemma PostKeepsDb(db: Committed, c: Client)
    requires DbOk(db) && ClientOk(db, c) && c.Ready() && c.operation.Post?
    ensures DbOk(Publish(db, c))
  {
    var d, row, e := c.document, c.phase.row, c.phase.entry;
    var entry := OriginalEntry(d, e, c.phase.lines);
    assert RowOk(db.docs[d]);
    PostShape(db, c);
    OriginalKeepsDocs(db, Publish(db, c), d, PostedRow(row, e), e, entry);
    OriginalKeepsEntries(db, Publish(db, c), d, PostedRow(row, e), e, entry);
    OneMoreGood(db, Publish(db, c), e, entry);
  }

  lemma OneMoreGood(db: Committed, db': Committed, e: nat, entry: EntryRow)
    requires LinesOk(db) && GoodLines(entry.lines) && db'.entries == db.entries[e := entry]
    ensures LinesOk(db')
  {
  }

  /** The tables after a document was reversed: its row and entry flipped, a mirror entry and a correction added. */
  predicate AddsMirror(
      db: Committed, db': Committed, d: nat, row: Document, o: nat, e: nat, mirror: EntryRow, c: nat, correction: Document)
  {
    && d in db.docs && e !in db.entries && o in db.entries && c !in db.docs && c != d
    && db.docs[d].status.Posted? && db.docs[d].entry == Some(o)
    && row == ReversedRow(db.docs[d])
    && correction.status.Posted? && correction.entry.None? && correction.correctionOf == Some(d)
    && mirror == EntryRow(d, Reversal, EntryStatus.Posted, MirrorLines(db.entries[o].lines, e))
    && db' == Committed(db.docs[d := row][c := correction],
                        db.entries[e := mirror][o := db.entries[o].(status := EntryStatus.Reversed)])
  }

  lemma ReverseShape(db: Committed, c: Client)
    requires DbOk(db) && ClientOk(db, c) && c.Ready() && c.operation.Reverse?
    ensures var d, row, e, o := c.document, c.phase.row, c.phase.entry, c.phase.row.entry.value;
      && o in db.entries && db.entries[o].status.Posted?
      && AddsMirror(db, Publish(db, c), d, ReversedRow(row), o, e,
                    EntryRow(d, Reversal, EntryStatus.Posted, MirrorLines(db.entries[o].lines, e)),
                    c.phase.correction, Documents.CorrectionRow(row, d, c.operation.actor, c.operation.today))
  {
  }

  /** The reversed document: its entry follows its status, and the new entry is the mirror. */
  lemma ReversedDocumentOk(
      db: Committed, db': Committed, d: nat, row: Document, o: nat, e: nat, mirror: EntryRow, c: nat, correction: Document)
    requires DocsOk(db) && AddsMirror(db, db', d, row, o, e, mirror, c, correction)
    ensures RowOk(row) && OriginalOk(db', d) && IsMirror(db', e, d)
  {
    assert RowOk(db.docs[d]) && OriginalOk(db, d);
    SamePostings(db.docs[d], row, o, db.entries[o].lines);
  }

  lemma MirrorKeepsDocs(
      db: Committed, db': Committed, d: nat, row: Document, o: nat, e: nat, mirror: EntryRow, c: nat, correction: Document)
    requires DocsOk(db) && AddsMirror(db, db', d, row, o, e, mirror, c, correction)
    ensures DocsOk(db')
  {
    ReversedDocumentOk(db, db', d, row, o, e, mirror, c, correction);
    assert OriginalOk(db, d) && RowOk(db.docs[d]);
    forall k | k in db'.docs ensures RowOk(db'.docs[k]) && OriginalOk(db', k) && MirrorOk(db', k) {
      if k != d && k != c {
        OtherRowKept(db, db', k);
      }
    }
  }

  lemma MirrorEntryKnown(
      db: Committed, db': Committed, d: nat, row: Document, o: nat, e: nat, mirror: EntryRow, c: nat, correction: Document,
      f: nat)
    requires EntriesOk(db) && AddsMirror(db, db', d, row, o, e, mirror, c, correction) && f in db.entries && f != o
    ensures EntryKnown(db', f)
  {
    NoReversalYet(db, d, f);
    assert EntryKnown(db, f);
    OtherEntryKept(db, db', f);
  }

  lemma MirrorEntriesKnown(
      db: Committed, db': Committed, d: nat, row: Document, o: nat, e: nat, mirror: EntryRow, c: nat, correction: Document)
    requires EntriesOk(db) && AddsMirror(db, db', d, row, o, e, mirror, c, correction) && OriginalOk(db, d)
    ensures forall f :: f in db'.entries ==> EntryKnown(db', f)
  {
    assert EntryKnown(db', o) && EntryKnown(db', e);
    forall f | f in db.entries && f != o ensures EntryKnown(db', f) {
      MirrorEntryKnown(db, db', d, row, o, e, mirror, c, correction, f);
    }
  }

  lemma MirrorLinesOk(
      db: Committed, db': Committed, d: nat, row: Document, o: nat, e: nat, mirror: EntryRow, c: nat, correction: Document)
    requires LinesOk(db) && AddsMirror(db, db', d, row, o, e, mirror, c, correction)
    ensures LinesOk(db')
  {
    MirrorOfGood(db.entries[o].lines, e, Every());
  }

  /** A POSTED document has no reversal entry, and no entry but its own. */
  lemma NoReversalYet(db: Committed, d: nat, f: nat)
    requires EntriesOk(db) && d in db.docs && db.docs[d].status.Posted? && f in db.entries
    ensures db.entries[f].document == d ==> db.entries[f].kind.Original? && db.docs[d].entry == Some(f)
  {
    assert EntryKnown(db, f);
  }

  lemma OneReversalMore(
      db: Committed, db': Committed, d: nat, row: Document, o: nat, e: nat, mirror: EntryRow, c: nat, correction: Document)
    requires EntriesOk(db) && AddsMirror(db, db', d, row, o, e, mirror, c, correction)
    ensures OneReversalEach(db')
  {
    forall f | f in db.entries ensures db.entries[f].document == d ==> db.entries[f].kind.Original? {
      NoReversalYet(db, d, f);
    }
    forall f, g | f in db'.entries && g in db'.entries && BothReversalsOfOne(db'.entries[f], db'.entries[g]) ensures f == g {
      if f in db.entries && g in db.entries {
        assert BothReversalsOfOne(db.entries[f], db.entries[g]);
      }
    }
  }

  lemma MirrorKeepsEntries(
      db: Committed, db': Committed, d: nat, row: Document, o: nat, e: nat, mirror: EntryRow, c: nat, correction: Document)
    requires EntriesOk(db) && AddsMirror(db, db', d, row, o, e, mirror, c, correction) && OriginalOk(db, d)
    ensures EntriesOk(db')
  {
    MirrorEntriesKnown(db, db', d, row, o, e, mirror, c, correction);
    OneReversalMore(db, db', d, row, o, e, mirror, c, correction);
  }

  lemma ReverseKeepsDb(db: Committed, c: Client)
    requires DbOk(db) && ClientOk(db, c) && c.Ready() && c.operation.Reverse?
    ensures DbOk(Publish(db, c))
  {
    var d, o, e := c.document, c.phase.row.entry.value, c.phase.entry;
    ReverseShape(db, c);
    assert OriginalOk(db, d);
    var mirror := EntryRow(d, Reversal, EntryStatus.Posted, MirrorLines(db.entries[o].lines, e));
    var correction := Documents.CorrectionRow(c.phase.row, d, c.operation.actor, c.operation.today);
    MirrorKeepsDocs(db, Publish(db, c), d, ReversedRow(c.phase.row), o, e, mirror, c.phase.correction, correction);
    MirrorKeepsEntries(db, Publish(db, c), d, ReversedRow(c.phase.row), o, e, mirror, c.phase.correction, correction);
    MirrorLinesOk(db, Publish(db, c), d, ReversedRow(c.phase.row), o, e, mirror, c.phase.correction, correction);
  }

  lemma PublishKeepsDb(db: Committed, c: Client)
    requires DbOk(db) && ClientOk(db, c) && c.Ready()
    ensures DbOk(Publish(db, c))
  {
    if c.operation.Decide? {
      DecideKeepsDb(db, c);
    } else if c.operation.Post? {
      PostKeepsDb(db, c);
    } else {
      ReverseKeepsDb(db, c);
    }
  }

  // ---------- What the other clients see of a commit ----------

  /** The new tables leave alone all that a client's facts are about. */
  predicate Unseen(db: Committed, db': Committed, x: Client) {
    && (x.Locks() && x.document in db.docs ==>
          && x.document in db'.docs && db'.docs[x.document] == db.docs[x.document]
          && forall e :: e in db.entries && db.entries[e].document == x.document ==>
               e in db'.entries && db'.entries[e] == db.entries[e])
    && (x.HoldsEntry() && x.phase.entry !in db.entries ==> x.phase.entry !in db'.entries)
    && (x.phase.Corrected? && x.phase.correction !in db.docs ==> x.phase.correction !in db'.docs)
  }

  lemma UnseenKeeps(db: Committed, db': Committed, x: Client)
    requires DocsOk(db) && ClientOk(db, x) && Unseen(db, db', x)
    ensures ClientOk(db', x)
  {
    if x.Locks() {
      assert OriginalOk(db, x.document);
    }
  }

  lemma DecideUnseen(db: Committed, c: Client, x: Client)
    requires ClientOk(db, c) && c.Ready() && c.operation.Decide? && ClientOk(db, x) && Apart(c, x)
    ensures Unseen(db, Publish(db, c), x)
  {
  }

  lemma PostUnseen(db: Committed, c: Client, x: Client)
    requires ClientOk(db, c) && c.Ready() && c.operation.Post? && ClientOk(db, x) && Apart(c, x)
    ensures Unseen(db, Publish(db, c), x)
  {
  }

  lemma MirrorUnseen(
      db: Committed, db': Committed, d: nat, row: Document, o: nat, e: nat, mirror: EntryRow, c: nat, correction: Document,
      x: Client)
    requires DocsOk(db) && AddsMirror(db, db', d, row, o, e, mirror, c, correction) && ClientOk(db, x)
    requires (x.Locks() ==> x.document != d) && (x.HoldsEntry() ==> x.phase.entry != e)
    requires x.phase.Corrected? ==> x.phase.correction != c
    ensures Unseen(db, db', x)
  {
    hide ValidLines;
    hide PostsLines;
    assert OriginalOk(db, d);
  }

  /** Another client's facts survive the commit, because it holds another document, entry and correction. */
  lemma PublishKeepsOthers(db: Committed, c: Client, x: Client)
    requires DbOk(db) && ClientOk(db, c) && c.Ready() && ClientOk(db, x) && Apart(c, x)
    ensures ClientOk(Publish(db, c), x)
  {
    if c.operation.Decide? {
      DecideUnseen(db, c, x);
    } else if c.operation.Post? {
      PostUnseen(db, c, x);
    } else {
      var d, o, e := c.document, c.phase.row.entry.value, c.phase.entry;
      ReverseShape(db, c);
      MirrorUnseen(db, Publish(db, c), d, ReversedRow(c.phase.row), o, e,
                   EntryRow(d, Reversal, EntryStatus.Posted, MirrorLines(db.entries[o].lines, e)),
                   c.phase.correction, Documents.CorrectionRow(c.phase.row, d, c.operation.actor, c.operation.today), x);
    }
    UnseenKeeps(db, Publish(db, c), x);
  }

  lemma CommitKeeps(s: State, a: Action)
    requires Inv(s) && Enabled(s, a) && a.Commit?
    ensures Inv(Step(s, a))
  {
    hide DbOk;
    hide Publish;
    var c := s.clients[a.t];
    var s' := Step(s, a);
    PublishKeepsDb(s.db, c);
    forall u | u in s'.clients ensures ClientOk(s'.db, s'.clients[u]) {
      if u != a.t {
        assert Apart(c, s.clients[u]);
        PublishKeepsOthers(s.db, c, s.clients[u]);
      }
    }
    forall u, v | u in s'.clients && v in s'.clients && u != v ensures Apart(s'.clients[u], s'.clients[v]) {
      assert Apart(s.clients[u], s.clients[v]);
    }
  }

  lemma EditedRowOk(s: State, a: Action)
    requires Inv(s) && Enabled(s, a) && (a.Create? || a.Update?)
    ensures var row := Step(s, a).db.docs[a.document];
      RowOk(row) && row.entry.None? && (a.document in s.db.docs ==> s.db.docs[a.document].entry.None?)
    ensures Step(s, a) == s.(db := s.db.(docs := s.db.docs[a.document := Step(s, a).db.docs[a.document]]))
  {
    if a.Update? {
      assert RowOk(s.db.docs[a.document]);
    }
  }

  lemma EditKeeps(s: State, a: Action)
    requires Inv(s) && Enabled(s, a) && (a.Create? || a.Update?)
    ensures Inv(Step(s, a))
  {
    hide DbOk;
    var s' := Step(s, a);
    EditedRowOk(s, a);
    RowChangeKeepsDb(s.db, s'.db, a.document, s'.db.docs[a.document]);
    forall u | u in s'.clients ensures ClientOk(s'.db, s'.clients[u]) {
      assert ClientOk(s.db, s.clients[u]);
    }
  }

  lemma StepKeeps(s: State, a: Action)
    requires Inv(s)
    ensures Inv(Step(s, a))
  {
    if Enabled(s, a) {
      if Silent(a) {
        SilentKeeps(s, a);
      } else if a.Commit? {
        CommitKeeps(s, a);
      } else {
        EditKeeps(s, a);
      }
    }
  }

  /** Every interleaving keeps the invariant. */
  lemma RunKeeps(actions: seq<Action>)
    ensures Inv(Run(Initial(), actions))
  {
    forall t, a | Inv(t) ensures Inv(Step(t, a)) {
      StepKeeps(t, a);
    }
    Runs.Keeps(Step, Inv, Initial(), actions);
  }

  // ---------- Results ----------

  /** Entry e is of this kind and names the document. */
  predicate Names(db: Committed, e: nat, d: nat, kind: Kind) {
    e in db.entries && db.entries[e].document == d && db.entries[e].kind == kind
  }

  /**
   * Whatever the interleaving, a document has at most one posting entry and at most one reversal
   * entry; it has the first exactly when it is POSTED (not as a correction) or REVERSED, and the
   * second exactly when it is REVERSED.
   */
  lemma AtMostOnePostingAndReversal(actions: seq<Action>, d: nat)
    requires d in Run(Initial(), actions).db.docs
    ensures var db := Run(Initial(), actions).db;
      var row := db.docs[d];
      && (forall e, f, kind :: Names(db, e, d, kind) && Names(db, f, d, kind) ==> e == f)
      && ((exists e :: Names(db, e, d, Original)) <==> (row.status.Posted? && row.correctionOf.None?) || row.status.Reversed?)
      && ((exists e :: Names(db, e, d, Reversal)) <==> row.status.Reversed?)
      && (row.entry.Some? ==> Names(db, row.entry.value, d, Original))
  {
    RunKeeps(actions);
    EntriesPerDocument(Run(Initial(), actions).db, d);
  }

  lemma EntriesPerDocument(db: Committed, d: nat)
    requires DbOk(db) && d in db.docs
    ensures var row := db.docs[d];
      && (forall e, f, kind :: Names(db, e, d, kind) && Names(db, f, d, kind) ==> e == f)
      && ((exists e :: Names(db, e, d, Original)) <==> (row.status.Posted? && row.correctionOf.None?) || row.status.Reversed?)
      && ((exists e :: Names(db, e, d, Reversal)) <==> row.status.Reversed?)
      && (row.entry.Some? ==> Names(db, row.entry.value, d, Original))
  {
    hide LinesOk;
    hide PostsLines;
    hide MirrorLines;
    assert RowOk(db.docs[d]) && OriginalOk(db, d) && MirrorOk(db, d);
    forall e, f, kind | Names(db, e, d, kind) && Names(db, f, d, kind) ensures e == f {
      assert EntryKnown(db, e) && EntryKnown(db, f);
    }
    forall e: nat, kind | Names(db, e, d, kind)
      ensures if kind.Original? then db.docs[d].entry == Some(e) else db.docs[d].status.Reversed?
    {
      assert EntryKnown(db, e);
    }
    if db.docs[d].entry.Some? {
      assert Names(db, db.docs[d].entry.value, d, Original);
    }
    if db.docs[d].status.Reversed? {
      var m :| IsMirror(db, m, d);
      assert Names(db, m, d, Reversal);
    }
  }

  /** Every journal entry of every interleaving is balanced, in raw and in base amounts, and passes validation. */
  lemma EveryEntryBalanced(actions: seq<Action>, e: nat)
    requires e in Run(Initial(), actions).db.entries
    ensures GoodLines(Run(Initial(), actions).db.entries[e].lines)
  {
    RunKeeps(actions);
  }

  /** The posting entry nets, for every selection of keys, to what the document says, and debits its total. */
  lemma OriginalSaysTheDocument(actions: seq<Action>, d: nat, p: LineKey -> bool)
    requires d in Run(Initial(), actions).db.docs && Run(Initial(), actions).db.docs[d].entry.Some?
    ensures var db := Run(Initial(), actions).db;
      var row := db.docs[d];
      && row.entry.value in db.entries
      && var lines := db.entries[row.entry.value].lines;
         Sum(lines, Net(p)) == Documents.DocumentNet(row, p) && Sum(lines, Debit(Every())) == row.amountTotal
  {
    RunKeeps(actions);
    var db := Run(Initial(), actions).db;
    assert RowOk(db.docs[d]) && OriginalOk(db, d);
    OriginalLines(db.docs[d], db.docs[d].entry.value, db.entries[db.docs[d].entry.value].lines, p);
  }

  lemma OriginalLines(row: Document, e: nat, lines: seq<Line>, p: LineKey -> bool)
    requires PostsLines(row, e, lines)
    ensures Sum(lines, Net(p)) == Documents.DocumentNet(row, p)
    ensures Sum(lines, Debit(Every())) == Sum(row.lines, Documents.AmountOf())
  {
    var rate := lines[0].body.rate;
    StoredNet(Documents.Postings(row, rate), e, p);
    Documents.PostingsMeaning(row, rate, p);
    SumMap(Documents.Postings(row, rate), Stored(e), Debit(Every()), DebitOf());
  }

  /** A reversal that holds its lock never fails for its lines: the mirror always passes validation. */
  lemma ReversalNeverInvalid(actions: seq<Action>, t: nat, e: nat, rate: int)
    requires var s := Run(Initial(), actions);
      Enabled(s, WriteEntry(t, e, rate)) && s.clients[t].operation.Reverse?
    ensures var s := Run(Initial(), actions);
      && s.clients[t].phase.row.entry.Some? && s.clients[t].phase.row.entry.value in s.db.entries
      && ValidLines(Map(s.db.entries[s.clients[t].phase.row.entry.value].lines, Mirror()))
      && Step(s, WriteEntry(t, e, rate)).clients[t].phase.Wrote?
  {
    RunKeeps(actions);
    var s := Run(Initial(), actions);
    var c := s.clients[t];
    assert ClientOk(s.db, c);
    assert OriginalOk(s.db, c.document);
    var o := c.phase.row.entry.value;
    MirrorOfGood(s.db.entries[o].lines, e, Every());
  }

  /**
   * Whatever the interleaving, a REVERSED document has its posting and its mirror entry: the mirror is the exact
   * swap, passed validation, and cancels the posting for every selection of keys, in raw and in base amounts.
   */
  lemma ReversalCancelsOriginal(actions: seq<Action>, d: nat, p: LineKey -> bool) returns (o: nat, m: nat)
    requires d in Run(Initial(), actions).db.docs && Run(Initial(), actions).db.docs[d].status.Reversed?
    ensures var db := Run(Initial(), actions).db;
      && Names(db, o, d, Original) && Names(db, m, d, Reversal)
      && (forall e :: e in db.entries && db.entries[e].document == d ==> e == o || e == m)
      && var original, mirror := db.entries[o].lines, db.entries[m].lines;
         && ValidLines(Map(original, Mirror())) && Swapped(original, mirror)
         && Sum(original, Net(p)) + Sum(mirror, Net(p)) == 0
         && Sum(original, BaseNet(p)) + Sum(mirror, BaseNet(p)) == 0
  {
    RunKeeps(actions);
    var db := Run(Initial(), actions).db;
    assert RowOk(db.docs[d]) && OriginalOk(db, d) && MirrorOk(db, d);
    o := db.docs[d].entry.value;
    m :| IsMirror(db, m, d);
    assert EntryKnown(db, o);
    MirrorOfGood(db.entries[o].lines, m, p);
    forall e | e in db.entries && db.entries[e].document == d ensures e == o || e == m {
      assert EntryKnown(db, e);
      assert Names(db, e, d, db.entries[e].kind);
      EntriesPerDocument(db, d);
    }
  }

  // ---------- Refinement of the atomic specification ----------

  /** The operations as if each ran alone. */
  datatype Atomic =
    | Nothing
    | Decided(document: nat, decision: Documents.Decision, actor: nat)
    | Posted(document: nat, entry: nat, rate: int)
    | Undone(document: nat, entry: nat, correction: nat, actor: nat, today: Date)
    | Created(document: nat, draft: Documents.Draft, actor: nat)
    | Edited(document: nat, patch: Documents.Patch, actor: nat)

  function PostAtomically(db: Committed, d: nat, e: nat, rate: int): Option<Committed> {
    if d !in db.docs || !db.docs[d].status.Approved? || e in db.entries then None
    else
      var lines := Documents.Postings(db.docs[d], rate);
      if !ValidLines(lines) then None
      else
        Some(Committed(db.docs[d := PostedRow(db.docs[d], e)],
                       db.entries[e := EntryRow(d, Original, EntryStatus.Posted, Map(lines, Stored(e)))]))
  }

  function UndoAtomically(db: Committed, d: nat, e: nat, c: nat, actor: nat, today: Date): Option<Committed> {
    if d !in db.docs || !db.docs[d].status.Posted? || !OriginalLive(db, db.docs[d]) || e in db.entries || c in db.docs
    then None
    else
      var row := db.docs[d];
      var o := row.entry.value;
      var mirror := EntryRow(d, Reversal, EntryStatus.Posted, MirrorLines(db.entries[o].lines, e));
      if !ValidLines(Map(db.entries[o].lines, Mirror())) then None
      else
        Some(Committed(
          db.docs[d := ReversedRow(row)][c := Documents.CorrectionRow(row, d, actor, today)],
          db.entries[o := db.entries[o].(status := EntryStatus.Reversed)][e := mirror]))
  }

  /** The new tables, or None when the call is refused. */
  function Apply(db: Committed, x: Atomic): Option<Committed> {
    match x
    case Nothing => Some(db)
    case Decided(d, decision, actor) =>
      if d in db.docs && Decide(decision, actor).Accepts(db.docs[d])
      then Some(db.(docs := db.docs[d := db.docs[d].(status := decision.Next())])) else None
    case Posted(d, e, rate) => PostAtomically(db, d, e, rate)
    case Undone(d, e, c, actor, today) => UndoAtomically(db, d, e, c, actor, today)
    case Created(d, draft, actor) =>
      if d !in db.docs && Documents.DraftRow(draft, actor).Some?
      then Some(db.(docs := db.docs[d := Documents.DraftRow(draft, actor).value])) else None
    case Edited(d, patch, actor) =>
      if d in db.docs && MayEdit(db.docs[d], patch, actor)
      then Some(db.(docs := db.docs[d := Documents.PatchedRow(db.docs[d], patch).value])) else None
  }

  /** The atomic call that a commit carries out. */
  function CommitCall(c: Client): Atomic
    requires c.Ready()
  {
    match c.operation
    case Decide(decision, actor) => Decided(c.document, decision, actor)
    case Post => Atomic.Posted(c.document, c.phase.entry, c.phase.rate)
    case Reverse(actor, today) => Undone(c.document, c.phase.entry, c.phase.correction, actor, today)
  }

  /** The atomic call that a step makes visible. */
  function Visible(s: State, a: Action): Atomic {
    if !Enabled(s, a) then Nothing
    else
      match a
      case Commit(t) => CommitCall(s.clients[t])
      case Create(d, draft, actor) => Created(d, draft, actor)
      case Update(d, patch, actor) => Edited(d, patch, actor)
      case _ => Nothing
  }

  lemma UndoShape(
      db: Committed, db': Committed, d: nat, row: Document, o: nat, e: nat, mirror: EntryRow, c: nat, actor: nat, today: Date)
    requires d in db.docs
    requires AddsMirror(db, db', d, row, o, e, mirror, c, Documents.CorrectionRow(db.docs[d], d, actor, today))
    requires db.entries[o].status.Posted? && ValidLines(Map(db.entries[o].lines, Mirror()))
    ensures UndoAtomically(db, d, e, c, actor, today) == Some(db')
  {
    var flipped := db.entries[o].(status := EntryStatus.Reversed);
    assert db.entries[e := mirror][o := flipped] == db.entries[o := flipped][e := mirror];
  }

  lemma ReverseUndoes(db: Committed, c: Client)
    requires DbOk(db) && ClientOk(db, c) && c.Ready() && c.operation.Reverse?
    ensures UndoAtomically(db, c.document, c.phase.entry, c.phase.correction, c.operation.actor, c.operation.today)
            == Some(Publish(db, c))
  {
    var d, o, e := c.document, c.phase.row.entry.value, c.phase.entry;
    ReverseShape(db, c);
    UndoShape(db, Publish(db, c), d, ReversedRow(c.phase.row), o, e,
              EntryRow(d, Reversal, EntryStatus.Posted, MirrorLines(db.entries[o].lines, e)),
              c.phase.correction, c.operation.actor, c.operation.today);
  }

  lemma ReverseIsAtomic(db: Committed, c: Client)
    requires DbOk(db) && ClientOk(db, c) && c.Ready() && c.operation.Reverse?
    ensures Apply(db, CommitCall(c)) == Some(Publish(db, c))
  {
    hide DbOk;
    hide ClientOk;
    hide Publish;
    hide UndoAtomically;
    ReverseUndoes(db, c);
  }

  lemma PostIsAtomic(db: Committed, c: Client)
    requires DocsOk(db) && ClientOk(db, c) && c.Ready() && c.operation.Post?
    ensures Apply(db, CommitCall(c)) == Some(Publish(db, c))
  {
  }

  lemma DecideIsAtomic(db: Committed, c: Client)
    requires ClientOk(db, c) && c.Ready() && c.operation.Decide?
    ensures Apply(db, CommitCall(c)) == Some(Publish(db, c))
  {
  }

  lemma PublishIsAtomic(db: Committed, c: Client)
    requires DbOk(db) && ClientOk(db, c) && c.Ready()
    ensures Apply(db, CommitCall(c)) == Some(Publish(db, c))
  {
    if c.operation.Reverse? {
      ReverseIsAtomic(db, c);
    } else if c.operation.Post? {
      PostIsAtomic(db, c);
    } else {
      DecideIsAtomic(db, c);
    }
  }

  lemma OnlyCommitsShow(s: State, a: Action)
    requires !a.Commit?
    ensures Apply(s.db, Visible(s, a)) == Some(Step(s, a).db)
  {
  }

  /** Each step changes the committed tables as one accepted atomic call does, or not at all. */
  lemma StepRefinesAtomic(s: State, a: Action)
    requires Inv(s)
    ensures Apply(s.db, Visible(s, a)) == Some(Step(s, a).db)
  {
    if !a.Commit? {
      OnlyCommitsShow(s, a);
    } else if Enabled(s, a) {
      assert ClientOk(s.db, s.clients[a.t]);
      PublishIsAtomic(s.db, s.clients[a.t]);
    }
  }

  function DbOf(): State -> Committed { (s: State) => s.db }

  /** Every interleaving commits the same tables as its operations run one after another in commit order. */
  lemma Serializable(actions: seq<Action>)
    ensures Runs.SerialRun(Apply, Initial().db, Runs.Calls(Step, Visible, Initial(), actions))
            == Some(Run(Initial(), actions).db)
  {
    forall t, a | Inv(t) ensures Inv(Step(t, a)) && Apply(DbOf()(t), Visible(t, a)) == Some(DbOf()(Step(t, a))) {
      StepKeeps(t, a);
      StepRefinesAtomic(t, a);
    }
    Runs.Serializes(Step, Visible, DbOf(), Apply, Inv, Initial(), actions);
  }
}
