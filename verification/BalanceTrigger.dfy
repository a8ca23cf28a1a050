/**
 * The database's own balance check: a CHECK constraint on every line and a deferred row
 * trigger that, at commit, re-adds the lines of each entry some changed line belongs to.
 */
module BalanceTrigger {
  import opened Folds
  import opened Tables
  import Posting

  datatype Row = Row(entry: nat, debit: int, credit: int)

  /** journal_entries as id -> status, journal_lines as a bag of rows in insertion order. */
  datatype Database = Database(entries: map<nat, EntryStatus>, lines: seq<Row>)

  /** CHECK (debit >= 0 AND credit >= 0 AND NOT (debit > 0 AND credit > 0)). */
  predicate CheckOk(row: Row) {
    row.debit >= 0 && row.credit >= 0 && !(row.debit > 0 && row.credit > 0)
  }

  function DebitOf(e: nat): Row -> int { (r: Row) => if r.entry == e then r.debit else 0 }

  function CreditOf(e: nat): Row -> int { (r: Row) => if r.entry == e then r.credit else 0 }

  predicate IsBalanced(db: Database, e: nat) {
    Sum(db.lines, DebitOf(e)) == Sum(db.lines, CreditOf(e))
  }

  /** What the invariant asks of the whole table. */
  ghost predicate TableBalanced(db: Database) {
    forall e :: e in db.entries && db.entries[e].Posted? ==> IsBalanced(db, e)
  }

  /** Foreign key: every line belongs to an entry. */
  ghost predicate Referenced(db: Database) {
    forall i :: 0 <= i < |db.lines| ==> db.lines[i].entry in db.entries
  }

  // ---------- Statements ----------

  datatype Statement =
    | InsertEntry(id: nat, status: EntryStatus)
    | SetStatus(id: nat, status: EntryStatus)
    | DeleteEntry(id: nat)
    | InsertLine(row: Row)
    | UpdateLine(position: nat, row: Row)
    | DeleteLine(position: nat)

  /** One queued trigger event: the entry id of the NEW row, or of the OLD row when there is none. */
  datatype Event = Event(newEntry: Option<nat>, oldEntry: Option<nat>) {
    function EntryId(): Option<nat> { if newEntry.Some? then newEntry else oldEntry }
  }

  datatype Session = Session(db: Database, events: seq<Event>, failed: bool)

  function NotOf(id: nat): Row -> bool { (r: Row) => r.entry != id }

  function Is(id: nat): Row -> bool { (r: Row) => r.entry == id }

  function Deleted(): Row -> Event { (r: Row) => Event(None, Some(r.entry)) }

  /** A statement that violates the key, the foreign key or the CHECK fails the transaction. */
  function Execute(s: Session, x: Statement): Session {
    if s.failed then s
    else
      var db := s.db;
      match x
      case InsertEntry(id, status) =>
        if id in db.entries then s.(failed := true)
        else s.(db := db.(entries := db.entries[id := status]))
      case SetStatus(id, status) =>
        if id !in db.entries then s else s.(db := db.(entries := db.entries[id := status]))
      case DeleteEntry(id) =>
        Session(Database(db.entries - {id}, Filter(db.lines, NotOf(id))),
                s.events + Map(Filter(db.lines, Is(id)), Deleted()), false)
      case InsertLine(row) =>
        if !CheckOk(row) || row.entry !in db.entries then s.(failed := true)
        else Session(db.(lines := db.lines + [row]), s.events + [Event(Some(row.entry), None)], false)
      case UpdateLine(k, row) =>
        if k >= |db.lines| then s
        else if !CheckOk(row) || row.entry !in db.entries then s.(failed := true)
        else Session(db.(lines := db.lines[k := row]),
                     s.events + [Event(Some(row.entry), Some(db.lines[k].entry))], false)
      case DeleteLine(k) =>
        if k >= |db.lines| then s
        else Session(db.(lines := db.lines[..k] + db.lines[k + 1..]),
                     s.events + [Event(None, Some(db.lines[k].entry))], false)
  }

  function ExecuteAll(s: Session, statements: seq<Statement>): Session {
    if statements == [] then s
    else Execute(ExecuteAll(s, statements[..|statements| - 1]), statements[|statements| - 1])
  }

  function Started(db: Database): Session { Session(db, [], false) }

  // ---------- The trigger ----------

  /** What one firing of the trigger function decides. */
  predicate FiringPasses(db: Database, event: Event) {
    var id := event.EntryId();
    id.None? || id.value !in db.entries || !db.entries[id.value].Posted? || IsBalanced(db, id.value)
  }

  predicate TriggerPasses(s: Session) {
    forall i :: 0 <= i < |s.events| ==> FiringPasses(s.db, s.events[i])
  }

  /** check_journal_entry_balance(): true when it returns, false when it raises. */
  method CheckJournalEntryBalance(db: Database, event: Event) returns (returned: bool)
    ensures returned <==> FiringPasses(db, event)
  {
    var entryId := event.newEntry;
    if entryId.None? {
      entryId := event.oldEntry;
    }
    if entryId.None? || entryId.value !in db.entries {
      return true;
    }
    var entryStatus := db.entries[entryId.value];
    if !entryStatus.Posted? {
      return true;
    }
    var totalDebit, totalCredit := 0, 0;
    for i := 0 to |db.lines|
      invariant totalDebit == Sum(db.lines[..i], DebitOf(entryId.value))
      invariant totalCredit == Sum(db.lines[..i], CreditOf(entryId.value))
    {
      assert db.lines[..i + 1] == db.lines[..i] + [db.lines[i]];
      SumSnoc(db.lines[..i], db.lines[i], DebitOf(entryId.value));
      SumSnoc(db.lines[..i], db.lines[i], CreditOf(entryId.value));
      if db.lines[i].entry == entryId.value {
        totalDebit, totalCredit := totalDebit + db.lines[i].debit, totalCredit + db.lines[i].credit;
      }
    }
    assert db.lines[..|db.lines|] == db.lines;
    returned := totalDebit == totalCredit;
  }

  /** COMMIT: the queued firings run on the final tables; the first one that raises rolls everything back. */
  method CommitTransaction(start: Database, statements: seq<Statement>) returns (db: Database, committed: bool)
    ensures var s := ExecuteAll(Started(start), statements);
      && (committed <==> !s.failed && TriggerPasses(s))
      && db == if committed then s.db else start
  {
    var s := Started(start);
    for i := 0 to |statements|
      invariant s == ExecuteAll(Started(start), statements[..i])
    {
      assert statements[..i + 1][..i] == statements[..i];
      s := Execute(s, statements[i]);
    }
    assert statements[..|statements|] == statements;
    if s.failed {
      return start, false;
    }
    for i := 0 to |s.events|
      invariant forall k :: 0 <= k < i ==> FiringPasses(s.db, s.events[k])
    {
      var returned := CheckJournalEntryBalance(s.db, s.events[i]);
      if !returned {
        return start, false;
      }
    }
    return s.db, true;
  }

  // ---------- Which entries the trigger looks at, and which it misses ----------

  predicate Touched(s: Session, e: nat) {
    exists i :: 0 <= i < |s.events| && s.events[i].EntryId() == Some(e)
  }

  /** A statement after which an entry could be unbalanced without a firing for it. */
  predicate Escapes(s: Session, x: Statement, e: nat) {
    match x
    case UpdateLine(k, row) => k < |s.db.lines| && s.db.lines[k].entry == e && row.entry != e
    case SetStatus(id, status) => id == e && status.Posted?
    case _ => false
  }

  /** A line was moved out of e, or e was set to POSTED, somewhere in the transaction. */
  predicate Suspect(s: Session, statements: seq<Statement>, e: nat) {
    exists i :: 0 <= i < |statements| && Escapes(ExecuteAll(s, statements[..i]), statements[i], e)
  }

  /** Every POSTED entry that is neither looked at nor suspect is balanced. */
  ghost predicate RestBalanced(start: Session, statements: seq<Statement>) {
    var s := ExecuteAll(start, statements);
    forall e :: e in s.db.entries && s.db.entries[e].Posted? && !Touched(s, e) && !Suspect(start, statements, e) ==>
      IsBalanced(s.db, e)
  }

  lemma LinesWithout(lines: seq<Row>, k: nat, e: nat)
    requires k < |lines| && lines[k].entry != e
    ensures Sum(lines[..k] + lines[k + 1..], DebitOf(e)) == Sum(lines, DebitOf(e))
    ensures Sum(lines[..k] + lines[k + 1..], CreditOf(e)) == Sum(lines, CreditOf(e))
  {
    RemoveOne(lines, k, DebitOf(e));
    RemoveOne(lines, k, CreditOf(e));
  }

  lemma RemoveOne(lines: seq<Row>, k: nat, f: Row -> int)
    requires k < |lines|
    ensures Sum(lines[..k] + lines[k + 1..], f) == Sum(lines, f) - f(lines[k])
  {
    SumSplit(lines, k, f);
    SumConcat(lines[..k], lines[k + 1..], f);
  }

  lemma KeptByCascade(lines: seq<Row>, id: nat, e: nat)
    requires e != id
    ensures Sum(Filter(lines, NotOf(id)), DebitOf(e)) == Sum(lines, DebitOf(e))
    ensures Sum(Filter(lines, NotOf(id)), CreditOf(e)) == Sum(lines, CreditOf(e))
  {
    SumFilter(lines, NotOf(id), DebitOf(e), DebitOf(e));
    SumFilter(lines, NotOf(id), CreditOf(e), CreditOf(e));
  }

  lemma NoLinesNoAmounts(db: Database, e: nat)
    requires Referenced(db) && e !in db.entries
    ensures IsBalanced(db, e)
  {
    SumZero(db.lines, DebitOf(e));
    SumZero(db.lines, CreditOf(e));
  }

  lemma ExecuteKeepsReferences(s: Session, x: Statement)
    requires Referenced(s.db)
    ensures Referenced(Execute(s, x).db)
  {
    if x.DeleteEntry? {
      forall i | 0 <= i < |Filter(s.db.lines, NotOf(x.id))|
        ensures Filter(s.db.lines, NotOf(x.id))[i].entry in s.db.entries - {x.id}
      {
        InFilter(s.db.lines, NotOf(x.id), Filter(s.db.lines, NotOf(x.id))[i]);
      }
    }
  }

  /** A statement that neither fires for e nor lets it escape leaves e's balance alone. */
  lemma UnseenEntryKeepsBalance(s: Session, x: Statement, e: nat)
    requires Referenced(s.db) && !s.failed
    requires !Escapes(s, x, e)
    requires !Touched(Execute(s, x), e)
    requires e in Execute(s, x).db.entries && Execute(s, x).db.entries[e].Posted?
    requires e in s.db.entries && s.db.entries[e].Posted? ==> IsBalanced(s.db, e)
    ensures IsBalanced(Execute(s, x).db, e)
  {
    var s' := Execute(s, x);
    match x
    case InsertEntry(id, status) =>
      if id == e && id !in s.db.entries {
        NoLinesNoAmounts(s.db, e);
      }
    case SetStatus(id, status) =>
    case DeleteEntry(id) =>
      KeptByCascade(s.db.lines, id, e);
    case InsertLine(row) =>
      if s' != s.(failed := true) {
        assert s'.events[|s.events|].EntryId() == Some(row.entry);
        SumSnoc(s.db.lines, row, DebitOf(e));
        SumSnoc(s.db.lines, row, CreditOf(e));
      }
    case UpdateLine(k, row) =>
      if k < |s.db.lines| && s' != s.(failed := true) {
        assert s'.events[|s.events|].EntryId() == Some(row.entry);
        SumUpdate(s.db.lines, k, row, DebitOf(e));
        SumUpdate(s.db.lines, k, row, CreditOf(e));
      }
    case DeleteLine(k) =>
      if k < |s.db.lines| {
        assert s'.events[|s.events|].EntryId() == Some(s.db.lines[k].entry);
        LinesWithout(s.db.lines, k, e);
      }
  }

  lemma EventsGrow(s: Session, x: Statement, e: nat)
    requires Touched(s, e)
    ensures Touched(Execute(s, x), e)
  {
    var i :| 0 <= i < |s.events| && s.events[i].EntryId() == Some(e);
    assert Execute(s, x).events[i] == s.events[i];
  }

  lemma SuspectsGrow(s: Session, statements: seq<Statement>, e: nat)
    requires statements != [] && Suspect(s, statements[..|statements| - 1], e)
    ensures Suspect(s, statements, e)
  {
    var init := statements[..|statements| - 1];
    var i :| 0 <= i < |init| && Escapes(ExecuteAll(s, init[..i]), init[i], e);
    assert statements[..i] == init[..i] && statements[i] == init[i];
  }

  lemma {:induction false} UnseenEntriesStayBalanced(db: Database, statements: seq<Statement>)
    requires TableBalanced(db) && Referenced(db)
    ensures Referenced(ExecuteAll(Started(db), statements).db)
    ensures RestBalanced(Started(db), statements)
  {
    if statements != [] {
      var n := |statements| - 1;
      var init, x := statements[..n], statements[n];
      UnseenEntriesStayBalanced(db, init);
      var s, s' := ExecuteAll(Started(db), init), ExecuteAll(Started(db), statements);
      ExecuteKeepsReferences(s, x);
      if !s.failed {
        forall e | e in s'.db.entries && s'.db.entries[e].Posted? && !Touched(s', e) && !Suspect(Started(db), statements, e)
          ensures IsBalanced(s'.db, e)
        {
          assert !Escapes(s, x, e) by {
            assert Escapes(s, x, e) ==> Suspect(Started(db), statements, e);
          }
          if Suspect(Started(db), init, e) {
            SuspectsGrow(Started(db), statements, e);
          }
          if Touched(s, e) {
            EventsGrow(s, x, e);
          }
          UnseenEntryKeepsBalance(s, x, e);
        }
      } else {
        forall e | e in s'.db.entries && s'.db.entries[e].Posted? && !Touched(s', e) && !Suspect(Started(db), statements, e)
          ensures IsBalanced(s'.db, e)
        {
          if Suspect(Started(db), init, e) {
            SuspectsGrow(Started(db), statements, e);
          }
        }
      }
    }
  }

  // ---------- Main results ----------

  /**
   * For every transaction from a balanced table: at commit the whole table is balanced exactly when
   * the per-row trigger passes and every suspect POSTED entry happens to be balanced.
   */
  lemma TriggerIsWholeTableCheck(db: Database, statements: seq<Statement>)
    requires TableBalanced(db) && Referenced(db)
    ensures var s := ExecuteAll(Started(db), statements);
      TableBalanced(s.db) <==>
        && TriggerPasses(s)
        && forall e :: Suspect(Started(db), statements, e) && e in s.db.entries && s.db.entries[e].Posted? ==>
             IsBalanced(s.db, e)
  {
    UnseenEntriesStayBalanced(db, statements);
    var s := ExecuteAll(Started(db), statements);
    if TriggerPasses(s) {
      forall e | e in s.db.entries && s.db.entries[e].Posted? && Touched(s, e) ensures IsBalanced(s.db, e) {
        var i :| 0 <= i < |s.events| && s.events[i].EntryId() == Some(e);
        assert FiringPasses(s.db, s.events[i]);
      }
    }
  }

  /** Without moved lines and without entries set to POSTED, the trigger is as strong as re-checking the table. */
  lemma TriggerSufficesWithoutMoves(db: Database, statements: seq<Statement>)
    requires TableBalanced(db) && Referenced(db)
    requires forall i :: 0 <= i < |statements| ==>
      && !(statements[i].SetStatus? && statements[i].status.Posted?)
      && (statements[i].UpdateLine? ==>
            var before := ExecuteAll(Started(db), statements[..i]).db.lines;
            statements[i].position < |before| ==> before[statements[i].position].entry == statements[i].row.entry)
    ensures var s := ExecuteAll(Started(db), statements);
      TriggerPasses(s) <==> TableBalanced(s.db)
  {
    TriggerIsWholeTableCheck(db, statements);
    forall e ensures !Suspect(Started(db), statements, e) {
      forall i | 0 <= i < |statements| ensures !Escapes(ExecuteAll(Started(db), statements[..i]), statements[i], e) {
      }
    }
  }

  /** Moving a line from one entry to another is not caught for the entry it leaves. */
  lemma MovedLineEscapes()
    ensures var db := Database(map[1 := EntryStatus.Posted, 2 := EntryStatus.Reversed], [Row(1, 5, 0), Row(1, 0, 5)]);
      var s := ExecuteAll(Started(db), [UpdateLine(0, Row(2, 5, 0))]);
      TableBalanced(db) && Referenced(db) && !s.failed && TriggerPasses(s) && !TableBalanced(s.db)
  {
    var db := Database(map[1 := EntryStatus.Posted, 2 := EntryStatus.Reversed], [Row(1, 5, 0), Row(1, 0, 5)]);
    var s := ExecuteAll(Started(db), [UpdateLine(0, Row(2, 5, 0))]);
    assert [UpdateLine(0, Row(2, 5, 0))][..0] == [];
    assert s.db.lines == [Row(2, 5, 0), Row(1, 0, 5)];
    PairSums(Row(1, 5, 0), Row(1, 0, 5), 1);
    PairSums(Row(2, 5, 0), Row(1, 0, 5), 1);
    assert !IsBalanced(s.db, 1);
    assert s.events == [Event(Some(2), Some(1))];
  }

  /** Setting an unbalanced REVERSED entry to POSTED fires nothing, as the trigger is on lines only. */
  lemma RevivedEntryEscapes()
    ensures var db := Database(map[1 := EntryStatus.Reversed], [Row(1, 5, 0)]);
      var s := ExecuteAll(Started(db), [SetStatus(1, EntryStatus.Posted)]);
      TableBalanced(db) && Referenced(db) && !s.failed && TriggerPasses(s) && !TableBalanced(s.db)
  {
    var db := Database(map[1 := EntryStatus.Reversed], [Row(1, 5, 0)]);
    assert [SetStatus(1, EntryStatus.Posted)][..0] == [];
    SumOne(Row(1, 5, 0), DebitOf(1));
    SumOne(Row(1, 5, 0), CreditOf(1));
    assert !IsBalanced(ExecuteAll(Started(db), [SetStatus(1, EntryStatus.Posted)]).db, 1);
  }

  lemma PairSums(a: Row, b: Row, e: nat)
    ensures Sum([a, b], DebitOf(e)) == DebitOf(e)(a) + DebitOf(e)(b)
    ensures Sum([a, b], CreditOf(e)) == CreditOf(e)(a) + CreditOf(e)(b)
  {
    assert [a, b][..1] == [a];
    SumOne(a, DebitOf(e));
    SumOne(a, CreditOf(e));
  }

  ghost predicate ChecksHold(db: Database) {
    forall i :: 0 <= i < |db.lines| ==> CheckOk(db.lines[i])
  }

  /** No statement, accepted or refused, ever leaves a line that is both a debit and a credit, or negative. */
  lemma {:induction false} ChecksAlwaysHold(db: Database, statements: seq<Statement>)
    requires ChecksHold(db)
    ensures ChecksHold(ExecuteAll(Started(db), statements).db)
  {
    if statements != [] {
      var s, x := ExecuteAll(Started(db), statements[..|statements| - 1]), statements[|statements| - 1];
      ChecksAlwaysHold(db, statements[..|statements| - 1]);
      if x.DeleteEntry? {
        var kept := Filter(s.db.lines, NotOf(x.id));
        forall i | 0 <= i < |kept| ensures CheckOk(kept[i]) {
          InFilter(s.db.lines, NotOf(x.id), kept[i]);
        }
      }
    }
  }

  // ---------- The posting service never trips it ----------

  function InsertOf(id: nat): PostingLine -> Statement {
    (l: PostingLine) => InsertLine(Row(id, l.debit, l.credit))
  }

  /** A one-sided line of an entry that is there is inserted at the end. */
  lemma InsertSucceeds(s: Session, id: nat, l: PostingLine)
    requires !s.failed && id in s.db.entries && l.OneSided()
    ensures var s' := Execute(s, InsertOf(id)(l));
      !s'.failed && s'.db == s.db.(lines := s.db.lines + [Row(id, l.debit, l.credit)])
  {
  }

  /** The rows of a posting, in order. */
  function RowOf(id: nat): PostingLine -> Row { (l: PostingLine) => Row(id, l.debit, l.credit) }

  /** Executing the inserts of a valid posting: nothing fails and the lines are appended. */
  lemma {:induction false} InsertsSucceed(s: Session, id: nat, lines: seq<PostingLine>)
    requires !s.failed && id in s.db.entries
    requires forall i :: 0 <= i < |lines| ==> lines[i].OneSided()
    ensures var s' := ExecuteAll(s, Map(lines, InsertOf(id)));
      !s'.failed && s'.db == s.db.(lines := s.db.lines + Map(lines, RowOf(id)))
  {
    if lines == [] {
      assert s.db.lines + [] == s.db.lines;
    } else {
      var init, l := lines[..|lines| - 1], lines[|lines| - 1];
      InsertsSucceed(s, id, init);
      var statements := Map(lines, InsertOf(id));
      assert statements[..|statements| - 1] == Map(init, InsertOf(id));
      var mid := ExecuteAll(s, Map(init, InsertOf(id)));
      InsertSucceeds(mid, id, l);
      assert Map(lines, RowOf(id)) == Map(init, RowOf(id)) + [RowOf(id)(l)];
      assert mid.db.lines + [RowOf(id)(l)] == s.db.lines + Map(lines, RowOf(id));
    }
  }

  /** The rows of a posting add its debits and credits to its own entry, and nothing to any other. */
  lemma InsertedAmounts(stored: seq<Row>, id: nat, lines: seq<PostingLine>, e: nat)
    ensures var rows := stored + Map(lines, RowOf(id));
      && Sum(rows, DebitOf(e)) == Sum(stored, DebitOf(e)) + (if e == id then Sum(lines, Posting.DebitOf()) else 0)
      && Sum(rows, CreditOf(e)) == Sum(stored, CreditOf(e)) + (if e == id then Sum(lines, Posting.CreditOf()) else 0)
  {
    var added := Map(lines, RowOf(id));
    SumConcat(stored, added, DebitOf(e));
    SumConcat(stored, added, CreditOf(e));
    if e == id {
      SumMap(lines, RowOf(id), DebitOf(e), Posting.DebitOf());
      SumMap(lines, RowOf(id), CreditOf(e), Posting.CreditOf());
    } else {
      SumZero(added, DebitOf(e));
      SumZero(added, CreditOf(e));
    }
  }

  /** Lines the posting service accepts always commit: the CHECK holds and the trigger passes. */
  lemma ValidPostingCommits(db: Database, id: nat, lines: seq<PostingLine>)
    requires TableBalanced(db) && Referenced(db) && id !in db.entries
    requires Posting.ValidLines(lines)
    ensures var begun := Execute(Started(db), InsertEntry(id, EntryStatus.Posted));
      var s := ExecuteAll(begun, Map(lines, InsertOf(id)));
      !s.failed && TableBalanced(s.db) && TriggerPasses(s)
  {
    var begun := Execute(Started(db), InsertEntry(id, EntryStatus.Posted));
    InsertsSucceed(begun, id, lines);
    NoLinesNoAmounts(db, id);
    var s := ExecuteAll(begun, Map(lines, InsertOf(id)));
    forall e | e in s.db.entries && s.db.entries[e].Posted? ensures IsBalanced(s.db, e) {
      InsertedAmounts(db.lines, id, lines, e);
      if e != id {
        assert IsBalanced(db, e);
      }
    }
  }
}
