/**
 * What each source contributes to the ledger, over whole runs: a document or payment accounts for exactly
 * the lines that name it, and the two entries of a reversed document cancel each other.
 */
module Sources {
  import opened Folds
  import opened Tables
  import opened Erp
  import opened Posting
  import Documents
  import Payments

  /** The lines of the entries that name a source. */
  function NamedBy(entries: seq<Entry>, source: Source): Line -> bool {
    (l: Line) => l.entry < |entries| && entries[l.entry].source == source
  }

  /** Debit minus credit of a source's lines on the selected keys. */
  function SourceNet(db: Db, source: Source, p: LineKey -> bool): int {
    Sum(db.lines, When(NamedBy(db.entries, source), Net(p)))
  }

  /** A document's lines net to what it says while it is POSTED, and to nothing before and after; so do payments'. */
  ghost predicate EachConserved(db: Db, p: LineKey -> bool) {
    && (forall id :: 0 <= id < |db.documents| ==>
          SourceNet(db, FromDocument(id), p) == DocumentEffect(p)(db.documents[id]))
    && (forall id :: 0 <= id < |db.payments| ==>
          SourceNet(db, FromPayment(id), p) == Payments.PaymentNet(db.payments[id], p))
  }

  lemma NoEntriesNoNet(db: Db, source: Source, p: LineKey -> bool)
    requires SourcesInv(db) && !SourceExists(db, source)
    ensures SourceNet(db, source, p) == 0
  {
    SumZero(db.lines, When(NamedBy(db.entries, source), Net(p)));
  }

  /** One more entry adds its lines to its own source and to no other. */
  lemma PostingAddsToSource(
      db: Db, db': Db, posted: Source, lines: seq<PostingLine>, source: Source, p: LineKey -> bool)
    requires LinesInv(db) && Posts(db, db', posted, lines)
    ensures SourceNet(db', source, p)
            == SourceNet(db, source, p) + (if source == posted then Sum(lines, NetOf(p)) else 0)
  {
    var n := |db.entries|;
    var stored := Map(lines, Stored(n));
    var f := When(NamedBy(db'.entries, source), Net(p));
    SumConcat(db.lines, stored, f);
    SumEqual(db.lines, f, When(NamedBy(db.entries, source), Net(p)));
    if source == posted {
      SumEqual(stored, f, Net(p));
      StoredNet(lines, n, p);
    } else {
      SumZero(stored, f);
    }
  }

  // ---------- Steps ----------

  lemma SameBooksConserve(db: Db, db': Db, p: LineKey -> bool)
    requires EachConserved(db, p)
    requires db'.entries == db.entries && db'.lines == db.lines && db'.documents == db.documents
    requires db'.payments == db.payments
    ensures EachConserved(db', p)
  {
  }

  lemma EditConserves(db: Db, db': Db, id: nat, row: Document, p: LineKey -> bool)
    requires Inv(db) && EachConserved(db, p) && DocumentEdited(db, db', id, row)
    ensures EachConserved(db', p)
  {
    forall k | 0 <= k < |db'.documents|
      ensures SourceNet(db', FromDocument(k), p) == DocumentEffect(p)(db'.documents[k])
    {
      if k == |db.documents| {
        NoEntriesNoNet(db, FromDocument(k), p);
      } else {
        assert SourceNet(db, FromDocument(k), p) == DocumentEffect(p)(db.documents[k]);
      }
    }
  }

  lemma PostConserves(db: Db, id: nat, p: LineKey -> bool)
    requires Inv(db) && EachConserved(db, p) && Documents.PostDocument(db, id).Commit?
    ensures EachConserved(Documents.PostDocument(db, id).db, p)
  {
    var rate := PostDocumentShape(db, id);
    PostedConserves(db, Documents.PostDocument(db, id).db, id, rate, p);
  }

  lemma PostedConserves(db: Db, db': Db, id: nat, rate: int, p: LineKey -> bool)
    requires LinesInv(db) && EachConserved(db, p) && id < |db.documents| && db.documents[id].entry.None?
    requires Posts(db, db', FromDocument(id), Documents.Postings(db.documents[id], rate))
    requires db'.payments == db.payments
    requires db'.documents == db.documents[id := db.documents[id].(
                                status := DocumentStatus.Posted, entry := Some(|db.entries|))]
    ensures EachConserved(db', p)
  {
    var d := db.documents[id];
    var lines := Documents.Postings(d, rate);
    forall s: Source
      ensures SourceNet(db', s, p)
              == SourceNet(db, s, p) + (if s == FromDocument(id) then Sum(lines, NetOf(p)) else 0)
    {
      PostingAddsToSource(db, db', FromDocument(id), lines, s, p);
    }
    Documents.PostingsMeaning(d, rate, p);
    assert Documents.DocumentNet(db'.documents[id], p) == Documents.DocumentNet(d, p);
    forall k | 0 <= k < |db'.documents|
      ensures SourceNet(db', FromDocument(k), p) == DocumentEffect(p)(db'.documents[k])
    {
      assert SourceNet(db, FromDocument(k), p) == DocumentEffect(p)(db.documents[k]);
    }
    forall k | 0 <= k < |db'.payments|
      ensures SourceNet(db', FromPayment(k), p) == Payments.PaymentNet(db'.payments[k], p)
    {
      assert SourceNet(db, FromPayment(k), p) == Payments.PaymentNet(db.payments[k], p);
    }
  }

  lemma ReverseConserves(db: Db, id: nat, actor: nat, today: Date, p: LineKey -> bool)
    requires Inv(db) && EachConserved(db, p) && Documents.ReverseDocument(db, id, actor, today).Commit?
    ensures EachConserved(Documents.ReverseDocument(db, id, actor, today).db, p)
  {
    ReverseDocumentShape(db, id, actor, today);
    var d := db.documents[id];
    MirrorNet(db, d.entry.value, p);
    EntryNetsDocument(db, id, p);
    NoEntriesNoNet(db, FromDocument(|db.documents|), p);
    ReversedConserves(db, Documents.ReverseDocument(db, id, actor, today).db, id,
                      Map(LinesOf(db.lines, d.entry.value), Mirror()),
                      Documents.CorrectionRow(d, id, actor, today), p);
  }

  lemma ReversedConserves(
      db: Db, db': Db, id: nat, lines: seq<PostingLine>, correction: Document, p: LineKey -> bool)
    requires LinesInv(db) && EachConserved(db, p) && id < |db.documents|
    requires db.documents[id].status.Posted? && db.documents[id].entry.Some?
    requires Posts(db, db', FromDocument(id), lines)
    requires Sum(lines, NetOf(p)) == -Documents.DocumentNet(db.documents[id], p)
    requires SourceNet(db, FromDocument(|db.documents|), p) == 0 && correction.entry.None?
    requires db'.payments == db.payments
    requires db'.documents == db.documents[id := db.documents[id].(status := DocumentStatus.Reversed)] + [correction]
    ensures EachConserved(db', p)
  {
    forall s: Source
      ensures SourceNet(db', s, p)
              == SourceNet(db, s, p) + (if s == FromDocument(id) then Sum(lines, NetOf(p)) else 0)
    {
      PostingAddsToSource(db, db', FromDocument(id), lines, s, p);
    }
    forall k | 0 <= k < |db'.documents|
      ensures SourceNet(db', FromDocument(k), p) == DocumentEffect(p)(db'.documents[k])
    {
      if k < |db.documents| {
        assert SourceNet(db, FromDocument(k), p) == DocumentEffect(p)(db.documents[k]);
      }
    }
    forall k | 0 <= k < |db'.payments|
      ensures SourceNet(db', FromPayment(k), p) == Payments.PaymentNet(db'.payments[k], p)
    {
      assert SourceNet(db, FromPayment(k), p) == Payments.PaymentNet(db.payments[k], p);
    }
  }

  lemma ExecuteConservesEach(db: Db, order: Payments.PaymentOrder, p: LineKey -> bool)
    requires Inv(db) && EachConserved(db, p) && Payments.Execute(db, order).Commit?
    ensures EachConserved(Payments.Execute(db, order).db, p)
  {
    if Payments.FindKey(db.payments, order.key) == |db.payments| {
      var row := ExecuteLedger(db, order);
      NoEntriesNoNet(db, FromPayment(|db.payments|), p);
      PaidConserves(db, Payments.Execute(db, order).db, row, p);
    }
  }

  lemma PaidConserves(db: Db, db': Db, row: Payment, p: LineKey -> bool)
    requires LinesInv(db) && EachConserved(db, p)
    requires Posts(db, db', FromPayment(|db.payments|), Payments.PaymentPostings(row, row.rate))
    requires SourceNet(db, FromPayment(|db.payments|), p) == 0
    requires db'.documents == db.documents && db'.payments == db.payments + [row]
    ensures EachConserved(db', p)
  {
    var id := |db.payments|;
    var lines := Payments.PaymentPostings(row, row.rate);
    forall s: Source
      ensures SourceNet(db', s, p)
              == SourceNet(db, s, p) + (if s == FromPayment(id) then Sum(lines, NetOf(p)) else 0)
    {
      PostingAddsToSource(db, db', FromPayment(id), lines, s, p);
    }
    Payments.PaymentPostingsMeaning(row, row.rate, 0, p);
    forall k | 0 <= k < |db'.documents|
      ensures SourceNet(db', FromDocument(k), p) == DocumentEffect(p)(db'.documents[k])
    {
      assert SourceNet(db, FromDocument(k), p) == DocumentEffect(p)(db.documents[k]);
    }
    forall k | 0 <= k < |db'.payments|
      ensures SourceNet(db', FromPayment(k), p) == Payments.PaymentNet(db'.payments[k], p)
    {
      if k < id {
        assert SourceNet(db, FromPayment(k), p) == Payments.PaymentNet(db.payments[k], p);
      }
    }
  }

  lemma StepConservesEach(db: Db, c: Command, p: LineKey -> bool)
    requires Inv(db) && EachConserved(db, p)
    ensures EachConserved(Step(db, c), p)
  {
    if Perform(db, c).Commit? {
      if c.CreateDocument? || c.UpdateDocument? || c.DecideDocument? {
        var id, row := PaperworkEdits(db, c);
        EditConserves(db, Step(db, c), id, row, p);
      } else if c.PostDocument? {
        PostConserves(db, c.id, p);
      } else if c.ReverseDocument? {
        ReverseConserves(db, c.id, c.actor, c.today, p);
      } else if c.ExecutePayment? {
        ExecuteConservesEach(db, c.order, p);
      } else {
        OthersKeepBooks(db, c);
        SameBooksConserve(db, Step(db, c), p);
      }
    }
  }

  lemma OthersKeepBooks(db: Db, c: Command)
    requires SetupCommand(c) || c.CreateRequest? || c.UpdateRequest? || c.DecideRequest?
    ensures var db' := Step(db, c);
      db'.entries == db.entries && db'.lines == db.lines && db'.documents == db.documents && db'.payments == db.payments
  {
    if SetupCommand(c) {
      SetupKeepsLedger(db, c);
    } else {
      RequestKeepsBooks(db, c);
    }
  }

  lemma RequestKeepsBooks(db: Db, c: Command)
    requires c.CreateRequest? || c.UpdateRequest? || c.DecideRequest?
    ensures var db' := Step(db, c);
      db'.entries == db.entries && db'.lines == db.lines && db'.documents == db.documents && db'.payments == db.payments
  {
  }

  /**
   * In every reachable state and for every selection of keys, the lines that name a document net to what the
   * document says while it is POSTED with an entry and to zero otherwise, and the lines that name a payment net to
   * what the payment moved.
   */
  lemma {:induction false} EachSourceConserved(base: string, commands: seq<Command>, p: LineKey -> bool)
    ensures Inv(Run(EmptyDb(base), commands)) && EachConserved(Run(EmptyDb(base), commands), p)
  {
    if commands != [] {
      var init := commands[..|commands| - 1];
      EachSourceConserved(base, init, p);
      StepKeeps(Run(EmptyDb(base), init), commands[|commands| - 1], p);
      StepConservesEach(Run(EmptyDb(base), init), commands[|commands| - 1], p);
    }
  }

  /** The two entries of a reversed document net to zero for every selection of keys, in every reachable state. */
  lemma ReversedPairNetsToZero(base: string, commands: seq<Command>, id: nat, p: LineKey -> bool)
    requires id < |Run(EmptyDb(base), commands).documents|
    requires Run(EmptyDb(base), commands).documents[id].status.Reversed?
    ensures var db := Run(EmptyDb(base), commands);
      EntriesFrom(db, FromDocument(id)) == 2 && SourceNet(db, FromDocument(id), p) == 0
  {
    EachSourceConserved(base, commands, p);
    var db := Run(EmptyDb(base), commands);
    DocumentEntries(base, commands, id);
    assert SourceNet(db, FromDocument(id), p) == DocumentEffect(p)(db.documents[id]);
  }

  // ---------- The mirror entry ----------

  /** Entry m is the reversal of the document's own entry: every line swapped, nothing else changed. */
  predicate IsMirrorEntry(db: Db, id: nat, m: nat)
    requires id < |db.documents|
  {
    var d := db.documents[id];
    && d.entry.Some? && d.entry.value < |db.entries| && m < |db.entries| && m != d.entry.value
    && db.entries[m].source == FromDocument(id) && db.entries[m].status.Posted?
    && LinesOf(db.lines, m) == MirrorLines(LinesOf(db.lines, d.entry.value), m)
  }

  ghost predicate MirrorsInv(db: Db) {
    forall id :: 0 <= id < |db.documents| && db.documents[id].status.Reversed? ==> exists m :: IsMirrorEntry(db, id, m)
  }

  /** Later entries leave the lines of earlier ones alone. */
  lemma EntryLinesKept(db: Db, db': Db, e: nat)
    requires LinesInv(db) && AppendOnly(db, db') && e < |db.entries|
    ensures LinesOf(db'.lines, e) == LinesOf(db.lines, e)
  {
    var added := db'.lines[|db.lines|..];
    assert db'.lines == db.lines + added;
    FilterConcat(db.lines, added, InEntry(e));
    FilterNone(added, InEntry(e));
  }

  lemma MirrorKept(db: Db, db': Db, id: nat, m: nat)
    requires LinesInv(db) && AppendOnly(db, db') && id < |db.documents| && id < |db'.documents|
    requires IsMirrorEntry(db, id, m) && db'.documents[id] == db.documents[id]
    requires db'.entries[m].status == db.entries[m].status
    ensures IsMirrorEntry(db', id, m)
  {
    EntryLinesKept(db, db', m);
    EntryLinesKept(db, db', db.documents[id].entry.value);
  }

  /** The document's row stays, and so does the status of every entry that names it. */
  predicate Spares(db: Db, db': Db, id: nat)
    requires id < |db.documents|
  {
    && id < |db'.documents| && db'.documents[id] == db.documents[id]
    && |db.entries| <= |db'.entries|
    && forall e :: 0 <= e < |db.entries| && db.entries[e].source == FromDocument(id) ==>
         db'.entries[e].status == db.entries[e].status
  }

  lemma EditSpares(db: Db, db': Db, k: nat, row: Document, id: nat)
    requires DocumentEdited(db, db', k, row) && id < |db.documents| && db.documents[id].entry.Some?
    ensures Spares(db, db', id)
  {
  }

  lemma PostSpares(db: Db, k: nat, id: nat)
    requires Inv(db) && Documents.PostDocument(db, k).Commit?
    requires id < |db.documents| && db.documents[id].status.Reversed?
    ensures Spares(db, Documents.PostDocument(db, k).db, id)
  {
    var rate := PostDocumentShape(db, k);
  }

  lemma FlipSpares(db: Db, db': Db, k: nat, o: nat, entry: Entry, correction: Document, id: nat)
    requires k < |db.documents| && id < |db.documents| && id != k && o < |db.entries|
    requires db.entries[o].source == FromDocument(k)
    requires db'.entries == (db.entries + [entry])[o := db.entries[o].(status := EntryStatus.Reversed)]
    requires db'.documents == db.documents[k := db.documents[k].(status := DocumentStatus.Reversed)] + [correction]
    ensures Spares(db, db', id)
  {
  }

  lemma ReverseSpares(db: Db, k: nat, actor: nat, today: Date, id: nat)
    requires Inv(db) && Documents.ReverseDocument(db, k, actor, today).Commit?
    requires id < |db.documents| && db.documents[id].status.Reversed?
    ensures Spares(db, Documents.ReverseDocument(db, k, actor, today).db, id)
  {
    var d, db' := db.documents[k], Documents.ReverseDocument(db, k, actor, today).db;
    ReverseDocumentShape(db, k, actor, today);
    assert DocumentOk(db, k);
    FlipSpares(db, db', k, d.entry.value, db'.entries[|db.entries|], Documents.CorrectionRow(d, k, actor, today), id);
  }

  lemma ExecuteSpares(db: Db, order: Payments.PaymentOrder, id: nat)
    requires Inv(db) && Payments.Execute(db, order).Commit? && id < |db.documents|
    ensures Spares(db, Payments.Execute(db, order).db, id)
  {
    if Payments.FindKey(db.payments, order.key) == |db.payments| {
      var row := ExecuteLedger(db, order);
    }
  }

  /** Nothing ever happens to a REVERSED document or its entries again. */
  lemma ReversedStays(db: Db, c: Command, id: nat)
    requires Inv(db) && id < |db.documents| && db.documents[id].status.Reversed?
    ensures Spares(db, Step(db, c), id)
  {
    if Perform(db, c).Commit? {
      if c.CreateDocument? || c.UpdateDocument? || c.DecideDocument? {
        var k, row := PaperworkEdits(db, c);
        assert DocumentOk(db, id);
        EditSpares(db, Step(db, c), k, row, id);
      } else if c.PostDocument? {
        PostSpares(db, c.id, id);
      } else if c.ReverseDocument? {
        ReverseSpares(db, c.id, c.actor, c.today, id);
      } else if c.ExecutePayment? {
        ExecuteSpares(db, c.order, id);
      } else {
        OthersKeepBooks(db, c);
      }
    }
  }

  lemma NewMirror(db: Db, id: nat, actor: nat, today: Date)
    requires Inv(db) && Documents.ReverseDocument(db, id, actor, today).Commit?
    ensures id < |Documents.ReverseDocument(db, id, actor, today).db.documents|
    ensures IsMirrorEntry(Documents.ReverseDocument(db, id, actor, today).db, id, |db.entries|)
  {
    ReverseDocumentShape(db, id, actor, today);
  }

  /** Only the reversal of a document makes it REVERSED. */
  predicate NoneReversed(db: Db, db': Db, except: nat) {
    forall k :: 0 <= k < |db'.documents| && k != except && db'.documents[k].status.Reversed? ==>
      k < |db.documents| && db.documents[k].status.Reversed?
  }

  lemma PostReversesNone(db: Db, id: nat)
    requires Inv(db) && Documents.PostDocument(db, id).Commit?
    ensures NoneReversed(db, Documents.PostDocument(db, id).db, |Documents.PostDocument(db, id).db.documents|)
  {
    var rate := PostDocumentShape(db, id);
  }

  lemma ReverseReversesOne(db: Db, id: nat, actor: nat, today: Date)
    requires Inv(db) && Documents.ReverseDocument(db, id, actor, today).Commit?
    ensures NoneReversed(db, Documents.ReverseDocument(db, id, actor, today).db, id)
  {
    ReverseDocumentShape(db, id, actor, today);
  }

  lemma ReversedWas(db: Db, c: Command, id: nat)
    requires Inv(db) && id < |Step(db, c).documents| && Step(db, c).documents[id].status.Reversed?
    requires !(c.ReverseDocument? && c.id == id && Perform(db, c).Commit?)
    ensures id < |db.documents| && db.documents[id].status.Reversed?
  {
    if Perform(db, c).Commit? {
      if c.CreateDocument? || c.UpdateDocument? || c.DecideDocument? {
        var k, row := PaperworkEdits(db, c);
      } else if c.PostDocument? {
        PostReversesNone(db, c.id);
      } else if c.ReverseDocument? {
        ReverseReversesOne(db, c.id, c.actor, c.today);
      } else if c.ExecutePayment? {
        ExecuteKeepsDocuments(db, c.order);
      } else {
        OthersKeepBooks(db, c);
      }
    }
  }

  lemma ExecuteKeepsDocuments(db: Db, order: Payments.PaymentOrder)
    requires Inv(db) && Payments.Execute(db, order).Commit?
    ensures Payments.Execute(db, order).db.documents == db.documents
  {
    if Payments.FindKey(db.payments, order.key) == |db.payments| {
      var row := ExecuteLedger(db, order);
    }
  }

  lemma StepKeepsMirrors(db: Db, c: Command)
    requires Inv(db) && MirrorsInv(db)
    ensures MirrorsInv(Step(db, c))
  {
    var db' := Step(db, c);
    forall id | 0 <= id < |db'.documents| && db'.documents[id].status.Reversed?
      ensures exists m :: IsMirrorEntry(db', id, m)
    {
      if c.ReverseDocument? && c.id == id && Perform(db, c).Commit? {
        NewMirror(db, id, c.actor, c.today);
        assert IsMirrorEntry(db', id, |db.entries|);
      } else {
        ReversedWas(db, c, id);
        ReversedStays(db, c, id);
        StepAppendOnly(db, c);
        var m :| IsMirrorEntry(db, id, m);
        MirrorKept(db, db', id, m);
      }
    }
  }

  lemma {:induction false} MirrorsAlwaysThere(base: string, commands: seq<Command>)
    ensures Inv(Run(EmptyDb(base), commands)) && MirrorsInv(Run(EmptyDb(base), commands))
  {
    if commands != [] {
      var init := commands[..|commands| - 1];
      MirrorsAlwaysThere(base, init);
      StepKeeps(Run(EmptyDb(base), init), commands[|commands| - 1], Every());
      StepKeepsMirrors(Run(EmptyDb(base), init), commands[|commands| - 1]);
    }
  }

  lemma MirrorEntryCancels(db: Db, id: nat, m: nat, p: LineKey -> bool)
    requires LedgerInv(db) && id < |db.documents| && IsMirrorEntry(db, id, m)
    ensures var original, mirror := LinesOf(db.lines, db.documents[id].entry.value), LinesOf(db.lines, m);
      && ValidLines(Map(original, Mirror())) && Swapped(original, mirror)
      && Sum(original, Net(p)) + Sum(mirror, Net(p)) == 0
      && Sum(original, BaseNet(p)) + Sum(mirror, BaseNet(p)) == 0
  {
    var o := db.documents[id].entry.value;
    LinesOfFaithful(db, o);
    assert Balanced(LinesOf(db.lines, o));
    MirrorOfGood(LinesOf(db.lines, o), m, p);
  }

  /**
   * In every reachable state a REVERSED document has a mirror entry: its lines pass validation, carry the
   * original's stored base amounts swapped, and cancel the original for every selection of keys in both amounts.
   */
  lemma ReversalIsExactMirror(base: string, commands: seq<Command>, id: nat, p: LineKey -> bool) returns (m: nat)
    requires id < |Run(EmptyDb(base), commands).documents|
    requires Run(EmptyDb(base), commands).documents[id].status.Reversed?
    ensures IsMirrorEntry(Run(EmptyDb(base), commands), id, m)
    ensures var db := Run(EmptyDb(base), commands);
      var original, mirror := LinesOf(db.lines, db.documents[id].entry.value), LinesOf(db.lines, m);
      && ValidLines(Map(original, Mirror())) && Swapped(original, mirror)
      && Sum(original, Net(p)) + Sum(mirror, Net(p)) == 0
      && Sum(original, BaseNet(p)) + Sum(mirror, BaseNet(p)) == 0
  {
    MirrorsAlwaysThere(base, commands);
    var db := Run(EmptyDb(base), commands);
    m :| IsMirrorEntry(db, id, m);
    MirrorEntryCancels(db, id, m, p);
  }
}
