/**
 * What posting, reversing and paying do to the ledger, said on the fields of the rows alone: when the call
 * is accepted, the date and period of the entry, every field of every line, and what the reports see of it.
 */
module Effects {
  import opened Folds
  import opened Tables
  import opened Posting
  import opened Reports
  import opened Erp
  import ExchangeRates
  import Documents
  import Payments
  import Budgets
  import Decimal

  // ---------- When an entry is accepted ----------

  predicate Usable(db: Db, account: nat) { account < |db.accounts| && db.accounts[account].isActive }

  predicate MonthIsOpen(db: Db, date: Date) {
    exists i :: 0 <= i < |db.periods| && db.periods[i] == Period(date.year, date.month, PeriodStatus.Open)
  }

  /** The base currency needs no rate; another one needs a row for some day up to the date. */
  predicate Rated(db: Db, currency: string, date: Date) {
    || ExchangeRates.Upper(currency) == db.baseCurrency
    || exists k :: 0 <= k < |db.rates|
                   && db.rates[k].currency == ExchangeRates.Upper(currency) && db.rates[k].date.Until(date)
  }

  lemma OpenMonth(db: Db, date: Date)
    requires PeriodsInv(db)
    ensures MonthIsOpen(db, date) <==> MonthOpen(db, date.year, date.month)
  {
    var i := FindPeriod(db.periods, date.year, date.month);
    if MonthIsOpen(db, date) {
      var k :| 0 <= k < |db.periods| && db.periods[k] == Period(date.year, date.month, PeriodStatus.Open);
      assert k == i;
    }
  }

  lemma {:induction false} AllUsable(db: Db, lines: seq<PostingLine>)
    ensures AccountsError(db.accounts, lines).None? <==> forall l :: l in lines ==> Usable(db, l.key.account)
  {
    if lines != [] {
      AllUsable(db, lines[1..]);
      assert lines == [lines[0]] + lines[1..];
    }
  }

  lemma RateFound(db: Db, currency: string, date: Date)
    ensures ExchangeRates.GetRate(db.baseCurrency, db.rates, currency, date).Some? <==> Rated(db, currency, date)
  {
    ExchangeRates.LatestIsBest(db.rates, ExchangeRates.Upper(currency), date);
    if ExchangeRates.Latest(db.rates, ExchangeRates.Upper(currency), date).Some? {
      var best := ExchangeRates.Latest(db.rates, ExchangeRates.Upper(currency), date).value;
      var k :| 0 <= k < |db.rates| && db.rates[k] == best;
      assert db.rates[k].currency == ExchangeRates.Upper(currency) && db.rates[k].date.Until(date);
    }
  }

  lemma EntryAccepted(db: Db, date: Date, source: Source, lines: seq<PostingLine>)
    requires PeriodsInv(db)
    ensures PostEntry(db, date, source, lines).Commit? <==>
            ValidLines(lines) && MonthIsOpen(db, date) && forall l :: l in lines ==> Usable(db, l.key.account)
  {
    OpenMonth(db, date);
    AllUsable(db, lines);
  }

  // ---------- The fields of an entry and its lines ----------

  /** An entry of this source, dated on this day, in the open period of this day's month. */
  predicate Books(db: Db, e: Entry, date: Date, source: Source) {
    && e.date == date && e.source == source && e.status.Posted?
    && e.period < |db.periods|
    && db.periods[e.period] == Period(date.year, date.month, PeriodStatus.Open)
  }

  /** One side of an amount on an account, with the base amount at the line's own rate. */
  predicate Moves(l: Line, entry: nat, account: nat, debit: int, credit: int, rate: int) {
    && l.entry == entry && l.body.key.account == account
    && l.body.debit == debit && l.body.credit == credit && l.body.rate == rate
    && l.baseDebit == Decimal.Convert(debit, rate) && l.baseCredit == Decimal.Convert(credit, rate)
  }

  predicate Names(
      l: Line, currency: string, counterparty: Option<nat>, contract: Option<nat>, costCenter: Option<nat>,
      project: Option<nat>)
  {
    && l.body.key.currency == currency
    && l.body.key.counterparty == counterparty && l.body.key.contract == contract
    && l.body.key.costCenter == costCenter && l.body.key.project == project
  }

  /** What the posting service writes: one entry of the date, and its lines. */
  lemma EntryWritten(db: Db, date: Date, source: Source, lines: seq<PostingLine>)
    requires PostEntry(db, date, source, lines).Commit?
    ensures var n, db' := |db.entries|, PostEntry(db, date, source, lines).db;
      && PostEntry(db, date, source, lines).id == n && |db'.entries| == n + 1
      && Books(db, db'.entries[n], date, source)
      && db' == db.(entries := db.entries + [db'.entries[n]], lines := db.lines + Map(lines, Stored(n)))
  {
    hide ValidLines;
    hide AccountsError;
    hide Decimal.Convert;
  }

  // ---------- Documents: acceptance ----------

  lemma {:induction false} PairAt(h: Documents.Header, rate: int, lines: seq<DocumentLine>, i: nat)
    requires i < |lines|
    ensures var postings := FlatMap(lines, Documents.LinePostings(h, rate));
      && |postings| == 2 * |lines|
      && [postings[2 * i], postings[2 * i + 1]] == Documents.LinePostings(h, rate)(lines[i])
  {
    var init := lines[..|lines| - 1];
    PairsCount(h, rate, init);
    if i < |init| {
      PairAt(h, rate, init, i);
    }
  }

  lemma {:induction false} PairsCount(h: Documents.Header, rate: int, lines: seq<DocumentLine>)
    ensures |FlatMap(lines, Documents.LinePostings(h, rate))| == 2 * |lines|
  {
    if lines != [] {
      PairsCount(h, rate, lines[..|lines| - 1]);
    }
  }

  /** The document's postings are valid exactly when it has lines and each has a positive amount. */
  lemma ValidPostings(d: Document, rate: int)
    ensures ValidLines(Documents.Postings(d, rate)) <==>
            d.lines != [] && forall i :: 0 <= i < |d.lines| ==> d.lines[i].amount > 0
  {
    hide Decimal.Convert;
    var h, postings := Documents.HeaderOf(d), Documents.Postings(d, rate);
    PairsCount(h, rate, d.lines);
    Documents.PostingsMeaning(d, rate, Every());
    EveryNet(postings);
    SumZero(d.lines, Documents.LineEffect(h, Every()));
    if ValidLines(postings) {
      forall i | 0 <= i < |d.lines| ensures d.lines[i].amount > 0 {
        PairAt(h, rate, d.lines, i);
        assert postings[2 * i].OneSided();
      }
    } else if forall i :: 0 <= i < |d.lines| ==> d.lines[i].amount > 0 {
      forall k | 0 <= k < |postings| ensures postings[k].OneSided() {
        PairAt(h, rate, d.lines, k / 2);
      }
    }
  }

  predicate LinesUsable(db: Db, lines: seq<DocumentLine>) {
    forall i :: 0 <= i < |lines| ==> Usable(db, lines[i].debitAccount) && Usable(db, lines[i].creditAccount)
  }

  lemma PostingsUsable(db: Db, d: Document, rate: int)
    ensures (forall l :: l in Documents.Postings(d, rate) ==> Usable(db, l.key.account)) <==> LinesUsable(db, d.lines)
  {
    if forall l :: l in Documents.Postings(d, rate) ==> Usable(db, l.key.account) {
      forall i | 0 <= i < |d.lines|
        ensures Usable(db, d.lines[i].debitAccount) && Usable(db, d.lines[i].creditAccount)
      {
        PairInPostings(d, rate, i);
      }
    }
    if LinesUsable(db, d.lines) {
      forall l | l in Documents.Postings(d, rate) ensures Usable(db, l.key.account) {
        PostingsOnLines(d, rate, l);
      }
    }
  }

  /** Both accounts of a document line are posted to. */
  lemma PairInPostings(d: Document, rate: int, i: nat)
    requires i < |d.lines|
    ensures exists l :: l in Documents.Postings(d, rate) && l.key.account == d.lines[i].debitAccount
    ensures exists l :: l in Documents.Postings(d, rate) && l.key.account == d.lines[i].creditAccount
  {
    var postings := Documents.Postings(d, rate);
    PairAt(Documents.HeaderOf(d), rate, d.lines, i);
    assert postings[2 * i] in postings && postings[2 * i + 1] in postings;
  }

  /** Nothing is posted to other accounts. */
  lemma PostingsOnLines(d: Document, rate: int, l: PostingLine)
    requires l in Documents.Postings(d, rate)
    ensures exists i :: 0 <= i < |d.lines|
                        && (l.key.account == d.lines[i].debitAccount || l.key.account == d.lines[i].creditAccount)
  {
    InFlatMap(d.lines, Documents.LinePostings(Documents.HeaderOf(d), rate), l);
    var x :| x in d.lines && l in Documents.LinePostings(Documents.HeaderOf(d), rate)(x);
    var i :| 0 <= i < |d.lines| && d.lines[i] == x;
  }

  lemma PostingsAccepted(db: Db, d: Document, source: Source, rate: int)
    requires PeriodsInv(db)
    ensures PostEntry(db, d.date, source, Documents.Postings(d, rate)).Commit? <==>
      && d.lines != [] && (forall i :: 0 <= i < |d.lines| ==> d.lines[i].amount > 0)
      && LinesUsable(db, d.lines) && MonthIsOpen(db, d.date)
  {
    ValidPostings(d, rate);
    PostingsUsable(db, d, rate);
    EntryAccepted(db, d.date, source, Documents.Postings(d, rate));
    hide *;
  }

  /**
   * A document is posted exactly when it is APPROVED, has lines, all of positive amount and on active accounts, its
   * currency has a rate by its date, and the month of its date is open.
   */
  lemma PostExactlyWhen(db: Db, id: nat)
    requires PeriodsInv(db)
    ensures Documents.PostDocument(db, id).Commit? <==>
      && id < |db.documents|
      && var d := db.documents[id];
         && d.status.Approved? && d.lines != [] && (forall i :: 0 <= i < |d.lines| ==> d.lines[i].amount > 0)
         && LinesUsable(db, d.lines) && Rated(db, d.currency, d.date) && MonthIsOpen(db, d.date)
  {
    if id < |db.documents| {
      var d := db.documents[id];
      RateFound(db, d.currency, d.date);
      var rate := ExchangeRates.GetRate(db.baseCurrency, db.rates, d.currency, d.date);
      if rate.Some? {
        PostingsAccepted(db, d, FromDocument(id), rate.value);
      }
    }
    hide PostEntry;
    hide LinesUsable;
    hide MonthIsOpen;
    hide Rated;
    hide ExchangeRates.GetRate;
    hide Documents.Postings;
  }

  /** The error of a refused posting says which of its conditions failed. */
  lemma PostRefusal(db: Db, id: nat)
    requires PeriodsInv(db) && Documents.PostDocument(db, id).Rollback?
    ensures var error := Documents.PostDocument(db, id).error;
      if id >= |db.documents| then error == NotFound
      else
        var d := db.documents[id];
        if !d.status.Approved? then error == Conflict
        else if !Rated(db, d.currency, d.date) then error == NotFound
        else if d.lines == [] || exists i :: 0 <= i < |d.lines| && d.lines[i].amount <= 0 then error == BadRequest
        else if !MonthIsOpen(db, d.date) then error == Conflict
        else Blames(db, AccountsOf(d.lines), error)
  {
    if id < |db.documents| {
      var d := db.documents[id];
      RateFound(db, d.currency, d.date);
      OpenMonth(db, d.date);
      var rate := ExchangeRates.GetRate(db.baseCurrency, db.rates, d.currency, d.date);
      if rate.Some? {
        ValidPostings(d, rate.value);
        PostingAccounts(d.lines, Documents.HeaderOf(d), rate.value);
        AccountBlamed(db, Documents.Postings(d, rate.value), AccountsOf(d.lines));
      }
    }
  }

  /** The accounts of the lines in the order in which they are checked: debit before credit, line by line. */
  function AccountsOf(lines: seq<DocumentLine>): seq<nat> {
    if lines == [] then []
    else AccountsOf(lines[..|lines| - 1]) + [lines[|lines| - 1].debitAccount, lines[|lines| - 1].creditAccount]
  }

  /** The error is about the first account that cannot be used: it does not exist, or it is not active. */
  predicate Blames(db: Db, accounts: seq<nat>, error: Error) {
    exists k :: 0 <= k < |accounts| && FirstUnusable(db, accounts, k)
                && error == if accounts[k] < |db.accounts| then Conflict else NotFound
  }

  predicate FirstUnusable(db: Db, accounts: seq<nat>, k: nat)
    requires k < |accounts|
  {
    !Usable(db, accounts[k]) && forall j :: 0 <= j < k ==> Usable(db, accounts[j])
  }

  lemma {:induction false} AccountBlamed(db: Db, lines: seq<PostingLine>, accounts: seq<nat>)
    requires |accounts| == |lines| && forall i :: 0 <= i < |lines| ==> lines[i].key.account == accounts[i]
    ensures AccountsError(db.accounts, lines).Some? ==> Blames(db, accounts, AccountsError(db.accounts, lines).value)
  {
    if lines != [] {
      if !Usable(db, accounts[0]) {
        assert FirstUnusable(db, accounts, 0);
      } else {
        AccountBlamed(db, lines[1..], accounts[1..]);
        if AccountsError(db.accounts, lines).Some? {
          var k :| 0 <= k < |accounts[1..]| && FirstUnusable(db, accounts[1..], k)
            && AccountsError(db.accounts, lines).value == if accounts[1..][k] < |db.accounts| then Conflict else NotFound;
          forall j | 0 <= j < k + 1 ensures Usable(db, accounts[j]) {
            assert j > 0 ==> accounts[j] == accounts[1..][j - 1];
          }
          assert FirstUnusable(db, accounts, k + 1);
        }
      }
    }
  }

  lemma {:induction false} PostingAccounts(lines: seq<DocumentLine>, h: Documents.Header, rate: int)
    ensures var postings, accounts := FlatMap(lines, Documents.LinePostings(h, rate)), AccountsOf(lines);
      |postings| == |accounts| && forall i :: 0 <= i < |postings| ==> postings[i].key.account == accounts[i]
  {
    if lines != [] {
      PostingAccounts(lines[..|lines| - 1], h, rate);
    }
  }

  // ---------- Documents: the entry ----------

  /** Lines 2i and 2i + 1 of the new entry debit and credit the i-th document line, with the document's dimensions. */
  predicate PairBooked(added: seq<Line>, e: nat, d: Document, rate: int, i: nat)
    requires i < |d.lines| && |added| == 2 * |d.lines|
  {
    var l, dr, cr := d.lines[i], added[2 * i], added[2 * i + 1];
    && Moves(dr, e, l.debitAccount, l.amount, 0, rate)
    && Moves(cr, e, l.creditAccount, 0, l.amount, rate)
    && Names(dr, d.currency, d.counterparty, d.contract, l.costCenter, l.project)
    && Names(cr, d.currency, d.counterparty, d.contract, l.costCenter, l.project)
  }

  /** The i-th pair of stored lines of a document's postings. */
  lemma StoredPair(d: Document, rate: int, e: nat, i: nat)
    requires i < |d.lines|
    ensures |Documents.Postings(d, rate)| == 2 * |d.lines|
    ensures PairBooked(Map(Documents.Postings(d, rate), Stored(e)), e, d, rate, i)
  {
    hide Decimal.Convert;
    PairAt(Documents.HeaderOf(d), rate, d.lines, i);
  }

  /** All that a posting writes: one entry on the document's date, its lines, the document's status and entry. */
  lemma PostWrites(db: Db, id: nat)
    requires Documents.PostDocument(db, id).Commit?
    ensures var d, n, db' := db.documents[id], |db.entries|, Documents.PostDocument(db, id).db;
      var rate := ExchangeRates.GetRate(db.baseCurrency, db.rates, d.currency, d.date);
      && rate.Some?
      && |db'.entries| == n + 1 && Books(db, db'.entries[n], d.date, FromDocument(id))
      && db.lines <= db'.lines && |db'.lines[|db.lines|..]| == 2 * |d.lines|
      && (forall i :: 0 <= i < |d.lines| ==> PairBooked(db'.lines[|db.lines|..], n, d, rate.value, i))
      && db' == db.(entries := db.entries + [db'.entries[n]], lines := db'.lines,
                    documents := db.documents[id := d.(status := DocumentStatus.Posted, entry := Some(n))])
  {
    var d, n, db' := db.documents[id], |db.entries|, Documents.PostDocument(db, id).db;
    var rate := ExchangeRates.GetRate(db.baseCurrency, db.rates, d.currency, d.date).value;
    var stored := Map(Documents.Postings(d, rate), Stored(n));
    EntryWritten(db, d.date, FromDocument(id), Documents.Postings(d, rate));
    hide PostEntry;
    hide PairBooked;
    hide Books;
    assert db'.lines == db.lines + stored && db'.lines[|db.lines|..] == stored;
    PairsCount(Documents.HeaderOf(d), rate, d.lines);
    forall i | 0 <= i < |d.lines| ensures PairBooked(stored, n, d, rate, i) {
      StoredPair(d, rate, n, i);
    }
  }

  // ---------- Documents: the reversal ----------

  /** The rate at which a document was posted: the one its entry's lines carry. */
  function PostedRate(db: Db, e: nat): int {
    if LinesOf(db.lines, e) != [] then LinesOf(db.lines, e)[0].body.rate else 0
  }

  lemma OriginalLines(db: Db, id: nat)
    requires Inv(db) && id < |db.documents| && db.documents[id].entry.Some?
    ensures var d, o := db.documents[id], db.documents[id].entry.value;
      && o < |db.entries| && db.entries[o].source == FromDocument(id)
      && (db.entries[o].status.Posted? <==> d.status.Posted?)
      && LinesOf(db.lines, o) == Map(Documents.Postings(d, PostedRate(db, o)), Stored(o))
      && ValidLines(Map(LinesOf(db.lines, o), Mirror()))
  {
    assert DocumentOk(db, id);
    var o := db.documents[id].entry.value;
    LinesOfFaithful(db, o);
    assert Balanced(LinesOf(db.lines, o));
    MirrorValid(LinesOf(db.lines, o));
  }

  lemma MirrorUsable(db: Db, d: Document, rate: int, o: nat)
    ensures (forall l :: l in Map(Map(Documents.Postings(d, rate), Stored(o)), Mirror()) ==> Usable(db, l.key.account))
            <==> LinesUsable(db, d.lines)
  {
    var postings := Documents.Postings(d, rate);
    var mirrored := Map(Map(postings, Stored(o)), Mirror());
    PostingsUsable(db, d, rate);
    assert forall i :: 0 <= i < |postings| ==> mirrored[i].key == postings[i].key;
    if forall l :: l in mirrored ==> Usable(db, l.key.account) {
      forall l | l in postings ensures Usable(db, l.key.account) {
        var i :| 0 <= i < |postings| && postings[i] == l;
        assert mirrored[i] in mirrored;
      }
    }
  }

  lemma MirrorEntryAccepted(db: Db, id: nat, today: Date)
    requires Inv(db) && id < |db.documents| && db.documents[id].entry.Some?
    ensures var o := db.documents[id].entry.value;
      && o < |db.entries| && (db.entries[o].status.Posted? <==> db.documents[id].status.Posted?)
      && (PostEntry(db, today, db.entries[o].source, Map(LinesOf(db.lines, o), Mirror())).Commit? <==>
          LinesUsable(db, db.documents[id].lines) && MonthIsOpen(db, today))
  {
    var d, o := db.documents[id], db.documents[id].entry.value;
    OriginalLines(db, id);
    MirrorUsable(db, d, PostedRate(db, o), o);
    EntryAccepted(db, today, db.entries[o].source, Map(LinesOf(db.lines, o), Mirror()));
    hide PostEntry;
    hide ValidLines;
    hide LinesUsable;
    hide MonthIsOpen;
    hide PostedRate;
    hide Map;
    hide Inv;
  }

  /**
   * A document is reversed exactly when it is POSTED with an entry, the month of the day of the reversal is open,
   * whatever month the document is in, and its accounts are still active.
   */
  lemma ReverseExactlyWhen(db: Db, id: nat, actor: nat, today: Date)
    requires Inv(db)
    ensures Documents.ReverseDocument(db, id, actor, today).Commit? <==>
      && id < |db.documents|
      && var d := db.documents[id];
         d.status.Posted? && d.entry.Some? && LinesUsable(db, d.lines) && MonthIsOpen(db, today)
  {
    if id < |db.documents| && db.documents[id].entry.Some? {
      MirrorEntryAccepted(db, id, today);
    }
    hide PostEntry;
    hide Map;
    hide LinesUsable;
    hide MonthIsOpen;
    hide Inv;
  }

  lemma ReverseRefusal(db: Db, id: nat, actor: nat, today: Date)
    requires Inv(db) && Documents.ReverseDocument(db, id, actor, today).Rollback?
    ensures var error := Documents.ReverseDocument(db, id, actor, today).error;
      if id >= |db.documents| then error == NotFound
      else if !db.documents[id].status.Posted? || db.documents[id].entry.None? then error == Conflict
      else if !MonthIsOpen(db, today) then error == Conflict
      else Blames(db, AccountsOf(db.documents[id].lines), error)
  {
    if id < |db.documents| && db.documents[id].status.Posted? && db.documents[id].entry.Some? {
      OriginalLines(db, id);
      OpenMonth(db, today);
      var d, o := db.documents[id], db.documents[id].entry.value;
      PostingAccounts(d.lines, Documents.HeaderOf(d), PostedRate(db, o));
      AccountBlamed(db, Map(LinesOf(db.lines, o), Mirror()), AccountsOf(d.lines));
    }
  }

  /** Lines 2i and 2i + 1 of the mirror entry take the i-th document line back, with the same dimensions. */
  predicate PairTakenBack(added: seq<Line>, e: nat, d: Document, rate: int, i: nat)
    requires i < |d.lines| && |added| == 2 * |d.lines|
  {
    var l, cr, dr := d.lines[i], added[2 * i], added[2 * i + 1];
    && Moves(cr, e, l.debitAccount, 0, l.amount, rate)
    && Moves(dr, e, l.creditAccount, l.amount, 0, rate)
    && Names(cr, d.currency, d.counterparty, d.contract, l.costCenter, l.project)
    && Names(dr, d.currency, d.counterparty, d.contract, l.costCenter, l.project)
  }

  /** The sibling document: a POSTED correction of today with the original's parties and total, but no lines and no entry. */
  predicate Corrects(c: Document, d: Document, id: nat, actor: nat, today: Date) {
    && c.kind.Correction? && c.status.Posted? && c.correctionOf == Some(id)
    && c.date == today && c.createdBy == actor
    && c.counterparty == d.counterparty && c.contract == d.contract
    && c.currency == d.currency && c.amountTotal == d.amountTotal
    && c.lines == [] && c.entry.None?
  }

  lemma MirroredPair(d: Document, rate: int, o: nat, e: nat, i: nat)
    requires i < |d.lines|
    ensures |Documents.Postings(d, rate)| == 2 * |d.lines|
    ensures PairTakenBack(Map(Map(Map(Documents.Postings(d, rate), Stored(o)), Mirror()), Stored(e)), e, d, rate, i)
  {
    hide Decimal.Convert;
    PairAt(Documents.HeaderOf(d), rate, d.lines, i);
  }

  /** The lines that a reversal appends. */
  lemma ReverseAppends(db: Db, id: nat, actor: nat, today: Date)
    requires Inv(db) && Documents.ReverseDocument(db, id, actor, today).Commit?
    ensures var d, n := db.documents[id], |db.entries|;
      && d.entry.Some?
      && Documents.ReverseDocument(db, id, actor, today).db.lines
         == db.lines + Map(Map(Map(Documents.Postings(d, PostedRate(db, d.entry.value)), Stored(d.entry.value)), Mirror()),
                           Stored(n))
  {
    hide Decimal.Convert;
    OriginalLines(db, id);
  }

  lemma ReverseLines(db: Db, id: nat, actor: nat, today: Date)
    requires Inv(db) && Documents.ReverseDocument(db, id, actor, today).Commit?
    ensures var d, n, db' := db.documents[id], |db.entries|, Documents.ReverseDocument(db, id, actor, today).db;
      && d.entry.Some?
      && db.lines <= db'.lines && |db'.lines[|db.lines|..]| == 2 * |d.lines|
      && forall i :: 0 <= i < |d.lines| ==>
           PairTakenBack(db'.lines[|db.lines|..], n, d, PostedRate(db, d.entry.value), i)
  {
    ReverseAppends(db, id, actor, today);
    var d, n, db' := db.documents[id], |db.entries|, Documents.ReverseDocument(db, id, actor, today).db;
    var o := d.entry.value;
    var rate := PostedRate(db, o);
    hide Documents.ReverseDocument;
    hide Inv;
    hide PairTakenBack;
    var stored := Map(Map(Map(Documents.Postings(d, rate), Stored(o)), Mirror()), Stored(n));
    assert db'.lines[|db.lines|..] == stored;
    PairsCount(Documents.HeaderOf(d), rate, d.lines);
    forall i | 0 <= i < |d.lines| ensures PairTakenBack(stored, n, d, rate, i) {
      MirroredPair(d, rate, o, n, i);
    }
  }

  /** All that a reversal writes besides its lines: the entry of today, two statuses, and the correction. */
  lemma ReverseWrites(db: Db, id: nat, actor: nat, today: Date)
    requires Inv(db) && Documents.ReverseDocument(db, id, actor, today).Commit?
    ensures var d, n, db' := db.documents[id], |db.entries|, Documents.ReverseDocument(db, id, actor, today).db;
      && d.entry.Some? && d.entry.value < n
      && |db'.entries| == n + 1 && Books(db, db'.entries[n], today, FromDocument(id))
      && |db'.documents| == |db.documents| + 1 && Corrects(db'.documents[|db.documents|], d, id, actor, today)
      && db' == db.(
           entries := db.entries[d.entry.value := db.entries[d.entry.value].(status := EntryStatus.Reversed)]
                      + [db'.entries[n]],
           lines := db'.lines,
           documents := db.documents[id := d.(status := DocumentStatus.Reversed)] + [db'.documents[|db.documents|]])
  {
    var o := db.documents[id].entry.value;
    OriginalLines(db, id);
    EntryWritten(db, today, db.entries[o].source, Map(LinesOf(db.lines, o), Mirror()));
    hide PostEntry;
    hide Inv;
    hide Map;
    hide LinesOf;
    hide Books;
    hide PostedRate;
  }

  // ---------- What the reports see of a new entry ----------

  /** The dimensions that a budget line plans for. */
  predicate PlannedFor(
      centers: seq<Budgets.CostCenter>, line: Budgets.BudgetLine, costCenter: Option<nat>, project: Option<nat>)
  {
    && (line.costCenter.Some? ==> costCenter == line.costCenter)
    && (line.costCenter.None? && line.department.Some? ==>
          costCenter.Some? && costCenter.value < |centers| && centers[costCenter.value].department == line.department)
    && (line.project.Some? ==> project == line.project)
  }

  /** Assets and expenses grow by debits, the other kinds of account by credits. */
  function Grown(kind: AccountType, net: int): int { if kind.Asset? || kind.Expense? then net else -net }

  function PlannedNet(centers: seq<Budgets.CostCenter>, line: Budgets.BudgetLine, kind: AccountType): Line -> int {
    (l: Line) =>
      if l.body.key.account == line.account && PlannedFor(centers, line, l.body.key.costCenter, l.body.key.project)
      then Grown(kind, l.body.debit - l.body.credit) else 0
  }

  function PartyNet(counterparty: nat, account: nat): Line -> int {
    (l: Line) =>
      if l.body.key.counterparty == Some(counterparty) && l.body.key.account == account
      then l.body.debit - l.body.credit else 0
  }

  /** The journal grows by one entry of this date and by its lines. */
  ghost predicate Grows(db: Db, db': Db, date: Date, source: Source) {
    var n := |db.entries|;
    && LinesInv(db) && db'.periods == db.periods
    && |db'.entries| == n + 1 && Books(db, db'.entries[n], date, source)
    && (forall e :: 0 <= e < n ==>
          db'.entries[e].period == db.entries[e].period && db'.entries[e].date == db.entries[e].date)
    && |db.lines| <= |db'.lines| && db'.lines[..|db.lines|] == db.lines
    && (forall i :: |db.lines| <= i < |db'.lines| ==> db'.lines[i].entry == n)
  }

  /** An old line counts as before; a new one counts when the date is in the month. */
  lemma LineMatches(
      db: Db, db': Db, date: Date, source: Source, centers: seq<Budgets.CostCenter>, line: Budgets.BudgetLine, year: int,
      month: int, kind: AccountType, i: nat)
    requires Grows(db, db', date, source) && i < |db'.lines|
    ensures var l := db'.lines[i];
      When(Budgets.Matches(db', centers, line, year, month), Budgets.Signed(kind))(l)
      == if i < |db.lines| then When(Budgets.Matches(db, centers, line, year, month), Budgets.Signed(kind))(l)
         else if date.InMonth(year, month) then PlannedNet(centers, line, kind)(l) else 0
  {
    if i < |db.lines| {
      assert db'.lines[i] == db'.lines[..|db.lines|][i] == db.lines[i];
    }
  }

  lemma ActualGrows(
      db: Db, db': Db, date: Date, source: Source, centers: seq<Budgets.CostCenter>, line: Budgets.BudgetLine, year: int,
      month: int, kind: AccountType)
    requires Grows(db, db', date, source)
    ensures Budgets.ActualForLine(db', centers, line, year, month, kind)
            == Budgets.ActualForLine(db, centers, line, year, month, kind)
               + (if date.InMonth(year, month) then Sum(db'.lines[|db.lines|..], PlannedNet(centers, line, kind)) else 0)
  {
    hide Sum;
    hide When;
    hide PlannedNet;
    hide Budgets.ActualForLine;
    hide Budgets.Matches;
    var before := When(Budgets.Matches(db, centers, line, year, month), Budgets.Signed(kind));
    var after := When(Budgets.Matches(db', centers, line, year, month), Budgets.Signed(kind));
    Budgets.ActualAsNet(db, centers, line, year, month, kind);
    Budgets.ActualAsNet(db', centers, line, year, month, kind);
    forall i | 0 <= i < |db'.lines|
      ensures after(db'.lines[i]) == if i < |db.lines| then before(db'.lines[i])
                                     else if date.InMonth(year, month) then PlannedNet(centers, line, kind)(db'.lines[i])
                                     else 0
    {
      LineMatches(db, db', date, source, centers, line, year, month, kind, i);
    }
    SumSplitAt(db.lines, db'.lines, before, after, PlannedNet(centers, line, kind), date.InMonth(year, month));
  }

  /** A sum over rows and added rows, of which the added ones count by g or not at all. */
  lemma SumSplitAt(kept: seq<Line>, all: seq<Line>, f: Line -> int, f': Line -> int, g: Line -> int, counts: bool)
    requires |kept| <= |all| && all[..|kept|] == kept
    requires forall i :: 0 <= i < |all| ==>
      f'(all[i]) == if i < |kept| then f(all[i]) else if counts then g(all[i]) else 0
    ensures Sum(all, f') == Sum(kept, f) + (if counts then Sum(all[|kept|..], g) else 0)
  {
    var added := all[|kept|..];
    assert all == kept + added;
    SumConcat(kept, added, f');
    forall x | x in kept ensures f'(x) == f(x) {
      var i :| 0 <= i < |kept| && kept[i] == x;
      assert all[i] == x;
    }
    forall x | x in added ensures f'(x) == if counts then g(x) else 0 {
      var i :| 0 <= i < |added| && added[i] == x;
      assert all[|kept| + i] == x;
    }
    SumEqual(kept, f', f);
    if counts {
      SumEqual(added, f', g);
    } else {
      SumZero(added, f');
    }
  }

  lemma LineOfParty(db: Db, db': Db, date: Date, source: Source, asOf: Date, counterparty: nat, account: nat, i: nat)
    requires Grows(db, db', date, source) && i < |db'.lines|
    ensures var l := db'.lines[i];
      When(UpTo(db'.entries, asOf), PartyNet(counterparty, account))(l)
      == if i < |db.lines| then When(UpTo(db.entries, asOf), PartyNet(counterparty, account))(l)
         else if date.Until(asOf) then PartyNet(counterparty, account)(l) else 0
  {
    if i < |db.lines| {
      assert db'.lines[i] == db'.lines[..|db.lines|][i] == db.lines[i];
    }
  }

  lemma CounterpartyGrows(db: Db, db': Db, date: Date, source: Source, asOf: Date, counterparty: nat, account: nat)
    requires Grows(db, db', date, source)
    ensures CounterpartyBalance(db', asOf, counterparty, account)
            == CounterpartyBalance(db, asOf, counterparty, account)
               + (if date.Until(asOf) then Sum(db'.lines[|db.lines|..], PartyNet(counterparty, account)) else 0)
  {
    hide Sum;
    hide When;
    hide UpTo;
    hide PartyNet;
    hide CounterpartyBalance;
    var before := When(UpTo(db.entries, asOf), PartyNet(counterparty, account));
    var after := When(UpTo(db'.entries, asOf), PartyNet(counterparty, account));
    BalanceAsNet(db, asOf, counterparty, account);
    BalanceAsNet(db', asOf, counterparty, account);
    forall i | 0 <= i < |db'.lines|
      ensures after(db'.lines[i]) == if i < |db.lines| then before(db'.lines[i])
                                     else if date.Until(asOf) then PartyNet(counterparty, account)(db'.lines[i]) else 0
    {
      LineOfParty(db, db', date, source, asOf, counterparty, account, i);
    }
    SumSplitAt(db.lines, db'.lines, before, after, PartyNet(counterparty, account), date.Until(asOf));
  }

  lemma BalanceAsNet(db: Db, asOf: Date, counterparty: nat, account: nat)
    ensures CounterpartyBalance(db, asOf, counterparty, account)
            == Sum(db.lines, When(UpTo(db.entries, asOf), PartyNet(counterparty, account)))
  {
    var upTo, ofParty := UpTo(db.entries, asOf), OfCounterparty(counterparty, account);
    NetOfRows(Filter(Filter(db.lines, upTo), ofParty));
    SumFilter2(db.lines, upTo, ofParty, Net(Every()));
    SumEqual(db.lines, When(upTo, When(ofParty, Net(Every()))), When(upTo, PartyNet(counterparty, account)));
  }

  /** Two ledger lines per document line add up as the document lines do. */
  lemma {:induction false} SumOfPairs(
      lines: seq<Line>, of: seq<DocumentLine>, f: Line -> int, g: DocumentLine -> int, back: bool)
    requires |lines| == 2 * |of|
    requires forall i :: 0 <= i < |of| ==>
      f(lines[2 * i]) + f(lines[2 * i + 1]) == if back then -g(of[i]) else g(of[i])
    ensures Sum(lines, f) == if back then -Sum(of, g) else Sum(of, g)
  {
    if of != [] {
      var k := |of| - 1;
      SumOfPairs(lines[..2 * k], of[..k], f, g, back);
      assert lines == lines[..2 * k] + [lines[2 * k], lines[2 * k + 1]];
      SumConcat(lines[..2 * k], [lines[2 * k], lines[2 * k + 1]], f);
      Documents.SumTwo(lines[2 * k], lines[2 * k + 1], f);
    }
  }

  /** What a document line adds to a budget line's actual. */
  function Adds(centers: seq<Budgets.CostCenter>, line: Budgets.BudgetLine, kind: AccountType): DocumentLine -> int {
    (l: DocumentLine) =>
      if PlannedFor(centers, line, l.costCenter, l.project) then
        Grown(kind, (if l.debitAccount == line.account then l.amount else 0)
                    - (if l.creditAccount == line.account then l.amount else 0))
      else 0
  }

  lemma PostGrows(db: Db, id: nat)
    requires LinesInv(db) && Documents.PostDocument(db, id).Commit?
    ensures Grows(db, Documents.PostDocument(db, id).db, db.documents[id].date, FromDocument(id))
  {
    var d, db' := db.documents[id], Documents.PostDocument(db, id).db;
    PostWrites(db, id);
    hide Documents.PostDocument;
    forall i | 0 <= i < |d.lines|
      ensures db'.lines[|db.lines|..][2 * i].entry == db'.lines[|db.lines|..][2 * i + 1].entry == |db.entries|
    {
      assert PairBooked(db'.lines[|db.lines|..], |db.entries|, d,
                        ExchangeRates.GetRate(db.baseCurrency, db.rates, d.currency, d.date).value, i);
    }
    EachOfPair(db, db', |d.lines|);
  }

  /** Every new line is in some pair. */
  lemma EachOfPair(db: Db, db': Db, pairs: nat)
    requires db.lines <= db'.lines && |db'.lines[|db.lines|..]| == 2 * pairs
    requires forall i :: 0 <= i < pairs ==>
      db'.lines[|db.lines|..][2 * i].entry == db'.lines[|db.lines|..][2 * i + 1].entry == |db.entries|
    ensures forall k :: |db.lines| <= k < |db'.lines| ==> db'.lines[k].entry == |db.entries|
  {
    var added := db'.lines[|db.lines|..];
    forall k | |db.lines| <= k < |db'.lines| ensures db'.lines[k].entry == |db.entries| {
      var i := (k - |db.lines|) / 2;
      assert db'.lines[k] == added[k - |db.lines|];
      assert k - |db.lines| == 2 * i || k - |db.lines| == 2 * i + 1;
    }
  }

  lemma ReverseGrows(db: Db, id: nat, actor: nat, today: Date)
    requires Inv(db) && Documents.ReverseDocument(db, id, actor, today).Commit?
    ensures Grows(db, Documents.ReverseDocument(db, id, actor, today).db, today, FromDocument(id))
  {
    LinesOfInv(db);
    hide Inv;
    hide LinesInv;
    hide Documents.ReverseDocument;
    hide Books;
    hide Corrects;
    hide PostedRate;
    hide PairTakenBack;
    var d, db' := db.documents[id], Documents.ReverseDocument(db, id, actor, today).db;
    ReverseWrites(db, id, actor, today);
    ReverseLines(db, id, actor, today);
    forall i | 0 <= i < |d.lines|
      ensures db'.lines[|db.lines|..][2 * i].entry == db'.lines[|db.lines|..][2 * i + 1].entry == |db.entries|
    {
      PairEntry(db'.lines[|db.lines|..], |db.entries|, d, PostedRate(db, d.entry.value), i);
    }
    EachOfPair(db, db', |d.lines|);
  }

  lemma LinesOfInv(db: Db)
    requires Inv(db)
    ensures LinesInv(db)
  {
  }

  lemma PairEntry(added: seq<Line>, e: nat, d: Document, rate: int, i: nat)
    requires i < |d.lines| && |added| == 2 * |d.lines| && PairTakenBack(added, e, d, rate, i)
    ensures added[2 * i].entry == added[2 * i + 1].entry == e
  {
  }

  /** The i-th pair of new lines has the dimensions of the document line and moves its amount, or moves it back. */
  predicate PairMoves(added: seq<Line>, d: Document, back: bool, i: nat)
    requires i < |d.lines| && |added| == 2 * |d.lines|
  {
    var l, x, y := d.lines[i], added[2 * i].body, added[2 * i + 1].body;
    && x.key.account == l.debitAccount && y.key.account == l.creditAccount
    && x.key.counterparty == y.key.counterparty == d.counterparty
    && x.key.costCenter == y.key.costCenter == l.costCenter && x.key.project == y.key.project == l.project
    && x.debit - x.credit == (if back then -l.amount else l.amount)
    && y.debit - y.credit == (if back then l.amount else -l.amount)
  }

  ghost predicate PairsMove(added: seq<Line>, d: Document, back: bool) {
    |added| == 2 * |d.lines| && forall i :: 0 <= i < |d.lines| ==> PairMoves(added, d, back, i)
  }

  lemma PlannedPairs(
      added: seq<Line>, d: Document, back: bool, centers: seq<Budgets.CostCenter>, line: Budgets.BudgetLine,
      kind: AccountType)
    requires PairsMove(added, d, back)
    ensures Sum(added, PlannedNet(centers, line, kind))
            == if back then -Sum(d.lines, Adds(centers, line, kind)) else Sum(d.lines, Adds(centers, line, kind))
  {
    var f, g := PlannedNet(centers, line, kind), Adds(centers, line, kind);
    forall i | 0 <= i < |d.lines|
      ensures f(added[2 * i]) + f(added[2 * i + 1]) == if back then -g(d.lines[i]) else g(d.lines[i])
    {
      assert PairMoves(added, d, back, i);
    }
    hide PlannedNet;
    hide Adds;
    SumOfPairs(added, d.lines, f, g, back);
  }

  lemma PartyPairs(added: seq<Line>, d: Document, back: bool, counterparty: nat, account: nat)
    requires PairsMove(added, d, back)
    ensures Sum(added, PartyNet(counterparty, account))
            == if d.counterparty != Some(counterparty) then 0
               else if back then -Sum(d.lines, Documents.MovesOn(account)) else Sum(d.lines, Documents.MovesOn(account))
  {
    var f, g := PartyNet(counterparty, account), Documents.MovesOn(account);
    forall i | 0 <= i < |d.lines|
      ensures f(added[2 * i]) + f(added[2 * i + 1])
              == if d.counterparty != Some(counterparty) then 0 else if back then -g(d.lines[i]) else g(d.lines[i])
    {
      assert PairMoves(added, d, back, i);
    }
    hide PartyNet;
    hide Documents.MovesOn;
    if d.counterparty == Some(counterparty) {
      SumOfPairs(added, d.lines, f, g, back);
    } else {
      SumOfPairs(added, d.lines, f, Nothing(), false);
      SumZero(d.lines, Nothing());
    }
  }

  function Nothing(): DocumentLine -> int { (l: DocumentLine) => 0 }

  lemma PostPairs(db: Db, id: nat)
    requires LinesInv(db) && Documents.PostDocument(db, id).Commit?
    ensures PairsMove(Documents.PostDocument(db, id).db.lines[|db.lines|..], db.documents[id], false)
  {
    var d, db' := db.documents[id], Documents.PostDocument(db, id).db;
    PostWrites(db, id);
    hide Documents.PostDocument;
    forall i | 0 <= i < |d.lines| ensures PairMoves(db'.lines[|db.lines|..], d, false, i) {
      assert PairBooked(db'.lines[|db.lines|..], |db.entries|, d,
                        ExchangeRates.GetRate(db.baseCurrency, db.rates, d.currency, d.date).value, i);
    }
  }

  lemma ReversePairs(db: Db, id: nat, actor: nat, today: Date)
    requires Inv(db) && Documents.ReverseDocument(db, id, actor, today).Commit?
    ensures PairsMove(Documents.ReverseDocument(db, id, actor, today).db.lines[|db.lines|..], db.documents[id], true)
  {
    var d, db' := db.documents[id], Documents.ReverseDocument(db, id, actor, today).db;
    ReverseLines(db, id, actor, today);
    hide Documents.ReverseDocument;
    hide Inv;
    forall i | 0 <= i < |d.lines| ensures PairMoves(db'.lines[|db.lines|..], d, true, i) {
      assert PairTakenBack(db'.lines[|db.lines|..], |db.entries|, d, PostedRate(db, d.entry.value), i);
    }
  }

  /**
   * Posting adds to the actual of every budget line, per cost center, department and project, exactly what the
   * document lines of those dimensions move on its account, in the month of the document's date and in no other.
   */
  lemma PostAddsToActual(
      db: Db, id: nat, centers: seq<Budgets.CostCenter>, line: Budgets.BudgetLine, year: int, month: int, kind: AccountType)
    requires LinesInv(db) && Documents.PostDocument(db, id).Commit?
    ensures Budgets.ActualForLine(Documents.PostDocument(db, id).db, centers, line, year, month, kind)
            == Budgets.ActualForLine(db, centers, line, year, month, kind)
               + (if db.documents[id].date.InMonth(year, month)
                  then Sum(db.documents[id].lines, Adds(centers, line, kind)) else 0)
  {
    var d, db' := db.documents[id], Documents.PostDocument(db, id).db;
    hide Documents.PostDocument;
    hide Budgets.ActualForLine;
    hide Sum;
    PostGrows(db, id);
    PostPairs(db, id);
    ActualGrows(db, db', d.date, FromDocument(id), centers, line, year, month, kind);
    PlannedPairs(db'.lines[|db.lines|..], d, false, centers, line, kind);
  }

  /** Reversing takes exactly that away again, in the month of the day of the reversal. */
  lemma ReverseTakesFromActual(
      db: Db, id: nat, actor: nat, today: Date, centers: seq<Budgets.CostCenter>, line: Budgets.BudgetLine, year: int,
      month: int, kind: AccountType)
    requires Inv(db) && Documents.ReverseDocument(db, id, actor, today).Commit?
    ensures Budgets.ActualForLine(Documents.ReverseDocument(db, id, actor, today).db, centers, line, year, month, kind)
            == Budgets.ActualForLine(db, centers, line, year, month, kind)
               - (if today.InMonth(year, month) then Sum(db.documents[id].lines, Adds(centers, line, kind)) else 0)
  {
    var d, db' := db.documents[id], Documents.ReverseDocument(db, id, actor, today).db;
    hide Documents.ReverseDocument;
    hide Budgets.ActualForLine;
    hide Sum;
    hide Inv;
    ReverseGrows(db, id, actor, today);
    ReversePairs(db, id, actor, today);
    ActualGrows(db, db', today, FromDocument(id), centers, line, year, month, kind);
    PlannedPairs(db'.lines[|db.lines|..], d, true, centers, line, kind);
  }

  /** Posting moves the balance with the document's own counterparty, from its date on, and with nobody else. */
  lemma PostMovesCounterparty(db: Db, id: nat, asOf: Date, counterparty: nat, account: nat)
    requires LinesInv(db) && Documents.PostDocument(db, id).Commit?
    ensures var d := db.documents[id];
      CounterpartyBalance(Documents.PostDocument(db, id).db, asOf, counterparty, account)
      == CounterpartyBalance(db, asOf, counterparty, account)
         + (if d.counterparty == Some(counterparty) && d.date.Until(asOf)
            then Sum(d.lines, Documents.MovesOn(account)) else 0)
  {
    var d, db' := db.documents[id], Documents.PostDocument(db, id).db;
    hide Documents.PostDocument;
    hide CounterpartyBalance;
    hide Sum;
    PostGrows(db, id);
    PostPairs(db, id);
    CounterpartyGrows(db, db', d.date, FromDocument(id), asOf, counterparty, account);
    PartyPairs(db'.lines[|db.lines|..], d, false, counterparty, account);
  }

  /** Reversing moves it back, from the day of the reversal on. */
  lemma ReverseMovesCounterpartyBack(db: Db, id: nat, actor: nat, today: Date, asOf: Date, counterparty: nat, account: nat)
    requires Inv(db) && Documents.ReverseDocument(db, id, actor, today).Commit?
    ensures var d := db.documents[id];
      CounterpartyBalance(Documents.ReverseDocument(db, id, actor, today).db, asOf, counterparty, account)
      == CounterpartyBalance(db, asOf, counterparty, account)
         - (if d.counterparty == Some(counterparty) && today.Until(asOf)
            then Sum(d.lines, Documents.MovesOn(account)) else 0)
  {
    var d, db' := db.documents[id], Documents.ReverseDocument(db, id, actor, today).db;
    hide Documents.ReverseDocument;
    hide CounterpartyBalance;
    hide Sum;
    hide Inv;
    ReverseGrows(db, id, actor, today);
    ReversePairs(db, id, actor, today);
    CounterpartyGrows(db, db', today, FromDocument(id), asOf, counterparty, account);
    PartyPairs(db'.lines[|db.lines|..], d, true, counterparty, account);
  }

  // ---------- Payments ----------

  /** The account opposite to cash: the one the request names, or else the one the order names. */
  function Opposite(db: Db, order: Payments.PaymentOrder): Option<nat> {
    if order.request.None? then order.counterAccount
    else if order.request.value < |db.requests| then Some(db.requests[order.request.value].expenseAccount)
    else None
  }

  predicate KeyIsNew(db: Db, key: string) { forall i :: 0 <= i < |db.payments| ==> db.payments[i].key != key }

  /**
   * An order with a new key is executed exactly when its amount is positive, both its accounts are active, its currency
   * has a rate by its date, the month of its date is open, and its request, if it names one, is APPROVED.
   */
  lemma PayExactlyWhen(db: Db, order: Payments.PaymentOrder)
    requires PeriodsInv(db) && KeyIsNew(db, order.key)
    ensures Payments.Execute(db, order).Commit? <==>
      && order.amount > 0 && Rated(db, order.currency, order.date) && MonthIsOpen(db, order.date)
      && Usable(db, order.cashAccount)
      && Opposite(db, order).Some? && Usable(db, Opposite(db, order).value)
      && (order.request.Some? ==> db.requests[order.request.value].status.Approved?)
  {
    RateFound(db, order.currency, order.date);
    if Opposite(db, order).Some? && Rated(db, order.currency, order.date) {
      PaymentEntryAccepted(db, order, Opposite(db, order).value);
    }
  }

  /** A used key answers the stored payment and changes nothing. */
  lemma PayAgain(db: Db, order: Payments.PaymentOrder)
    requires !KeyIsNew(db, order.key)
    ensures var tx := Payments.Execute(db, order);
      tx.Commit? && tx.db == db && tx.id < |db.payments| && db.payments[tx.id].key == order.key
  {
  }

  lemma PayRefusal(db: Db, order: Payments.PaymentOrder)
    requires PeriodsInv(db) && KeyIsNew(db, order.key) && Payments.Execute(db, order).Rollback?
    ensures var error := Payments.Execute(db, order).error;
      if Opposite(db, order).None? then error == (if order.request.None? then BadRequest else NotFound)
      else if !Rated(db, order.currency, order.date) then error == NotFound
      else if order.amount <= 0 then error == BadRequest
      else if !MonthIsOpen(db, order.date) then error == Conflict
      else
        var accounts := [Debited(order, Opposite(db, order).value), Credited(order, Opposite(db, order).value)];
        if Usable(db, accounts[0]) && Usable(db, accounts[1]) then error == Conflict else Blames(db, accounts, error)
  {
    RateFound(db, order.currency, order.date);
    OpenMonth(db, order.date);
    var rate := ExchangeRates.GetRate(db.baseCurrency, db.rates, order.currency, order.date);
    if Opposite(db, order).Some? && rate.Some? {
      var row := Payments.PendingRow(order, Opposite(db, order).value);
      PaymentLinesValid(row, rate.value);
      PaymentAccounts(db, order, row.counterAccount, rate.value);
      hide Blames;
      hide AccountsError;
      hide Usable;
    }
  }

  lemma PaymentAccounts(db: Db, order: Payments.PaymentOrder, counter: nat, rate: int)
    ensures var lines := Payments.PaymentPostings(Payments.PendingRow(order, counter), rate);
      var accounts := [Debited(order, counter), Credited(order, counter)];
      if Usable(db, accounts[0]) && Usable(db, accounts[1]) then AccountsError(db.accounts, lines).None?
      else AccountsError(db.accounts, lines).Some? && Blames(db, accounts, AccountsError(db.accounts, lines).value)
  {
    var lines := Payments.PaymentPostings(Payments.PendingRow(order, counter), rate);
    AllUsable(db, lines);
    assert lines[0] in lines && lines[1] in lines;
    AccountBlamed(db, lines, [Debited(order, counter), Credited(order, counter)]);
  }

  lemma PaymentEntryAccepted(db: Db, order: Payments.PaymentOrder, counter: nat)
    requires PeriodsInv(db) && Rated(db, order.currency, order.date)
    ensures var row := Payments.PendingRow(order, counter);
      var rate := ExchangeRates.GetRate(db.baseCurrency, db.rates, order.currency, order.date);
      && rate.Some?
      && (PostEntry(db.(payments := db.payments + [row]), order.date, FromPayment(|db.payments|),
                    Payments.PaymentPostings(row, rate.value)).Commit? <==>
          order.amount > 0 && MonthIsOpen(db, order.date) && Usable(db, order.cashAccount) && Usable(db, counter))
  {
    RateFound(db, order.currency, order.date);
    var rate := ExchangeRates.GetRate(db.baseCurrency, db.rates, order.currency, order.date).value;
    var row := Payments.PendingRow(order, counter);
    var inserted := db.(payments := db.payments + [row]);
    var lines := Payments.PaymentPostings(row, rate);
    PaymentLinesValid(row, rate);
    assert MonthIsOpen(inserted, order.date) <==> MonthIsOpen(db, order.date);
    EntryAccepted(inserted, order.date, FromPayment(|db.payments|), lines);
    assert lines[0] in lines && lines[1] in lines;
  }

  function Debited(order: Payments.PaymentOrder, counter: nat): nat {
    if order.direction.Outgoing? then counter else order.cashAccount
  }

  function Credited(order: Payments.PaymentOrder, counter: nat): nat {
    if order.direction.Outgoing? then order.cashAccount else counter
  }

  lemma PaymentLinesValid(row: Payment, rate: int)
    ensures ValidLines(Payments.PaymentPostings(row, rate)) <==> row.amount > 0
  {
    var lines := Payments.PaymentPostings(row, rate);
    Documents.SumTwo(lines[0], lines[1], DebitOf());
    Documents.SumTwo(lines[0], lines[1], CreditOf());
  }

  /**
   * All that a new payment writes. Its entry is of the order's date; the first line debits and the second credits the
   * ordered amount, and both carry the order's own currency, counterparty and contract, no cost center and no project.
   */
  lemma PayWrites(db: Db, order: Payments.PaymentOrder)
    requires KeyIsNew(db, order.key) && Payments.Execute(db, order).Commit?
    ensures var n, db' := |db.entries|, Payments.Execute(db, order).db;
      var rate, counter := ExchangeRates.GetRate(db.baseCurrency, db.rates, order.currency, order.date), Opposite(db, order);
      && rate.Some? && counter.Some? && Payments.Execute(db, order).id == |db.payments|
      && |db'.entries| == n + 1 && Books(db, db'.entries[n], order.date, FromPayment(|db.payments|))
      && |db'.lines| == |db.lines| + 2 && db'.lines[..|db.lines|] == db.lines
      && OrderBooked(db'.lines[|db.lines|], db'.lines[|db.lines| + 1], n, order, counter.value, rate.value)
  {
    hide Decimal.Convert;
    NewKey(db, order);
    var row, rate := ExecuteShape(db, order);
    var pending := row.(status := Pending, rate := 1_000_000, baseAmount := 0, entry := None);
    PaymentPair(db, pending, rate, order, Opposite(db, order).value);
    RateIsUsed(db, order);
  }

  lemma RateIsUsed(db: Db, order: Payments.PaymentOrder)
    requires KeyIsNew(db, order.key) && Payments.Execute(db, order).Commit?
    ensures var rate := ExchangeRates.GetRate(db.baseCurrency, db.rates, order.currency, order.date);
      rate.Some? && |Payments.Execute(db, order).db.payments| == |db.payments| + 1
      && Payments.Execute(db, order).db.payments[|db.payments|].rate == rate.value
    ensures Opposite(db, order).Some? && Payments.Execute(db, order).id == |db.payments|
  {
    hide Decimal.Convert;
    NewKey(db, order);
  }

  /** The first line debits and the second credits the ordered amount, both with the order's own dimensions. */
  predicate OrderBooked(dr: Line, cr: Line, e: nat, order: Payments.PaymentOrder, counter: nat, rate: int) {
    && Moves(dr, e, Debited(order, counter), order.amount, 0, rate)
    && Moves(cr, e, Credited(order, counter), 0, order.amount, rate)
    && Names(dr, order.currency, order.counterparty, order.contract, None, None)
    && Names(cr, order.currency, order.counterparty, order.contract, None, None)
  }

  lemma PaymentPair(db: Db, row: Payment, rate: int, order: Payments.PaymentOrder, counter: nat)
    requires Records(row, order, counter)
    ensures var stored := db.lines + Map(Payments.PaymentPostings(row, rate), Stored(|db.entries|));
      && |stored| == |db.lines| + 2
      && OrderBooked(stored[|db.lines|], stored[|db.lines| + 1], |db.entries|, order, counter, rate)
  {
    hide Decimal.Convert;
  }

  lemma NewKey(db: Db, order: Payments.PaymentOrder)
    requires KeyIsNew(db, order.key)
    ensures Payments.FindKey(db.payments, order.key) == |db.payments|
  {
  }

  /** The row of a new payment says what the order says, and the request it settles points at it. */
  lemma PayRecords(db: Db, order: Payments.PaymentOrder)
    requires KeyIsNew(db, order.key) && Payments.Execute(db, order).Commit?
    ensures var n, id, db' := |db.entries|, |db.payments|, Payments.Execute(db, order).db;
      var rate, counter := ExchangeRates.GetRate(db.baseCurrency, db.rates, order.currency, order.date), Opposite(db, order);
      && rate.Some? && counter.Some? && |db'.payments| == id + 1 && |db'.entries| == n + 1
      && Records(db'.payments[id], order, counter.value)
      && db'.payments[id].rate == rate.value
      && db'.payments[id].baseAmount == Decimal.Convert(order.amount, rate.value)
      && db'.payments[id].status.Executed? && db'.payments[id].entry == Some(n)
      && db' == db.(
           entries := db.entries + [db'.entries[n]], lines := db'.lines, payments := db.payments + [db'.payments[id]],
           requests := if order.request.None? then db.requests
                       else db.requests[order.request.value := db.requests[order.request.value].(
                         status := RequestStatus.Accounted, payment := Some(id), entry := Some(n))])
  {
    hide Decimal.Convert;
    NewKey(db, order);
    RateIsUsed(db, order);
    var row, rate := ExecuteShape(db, order);
  }

  /**
   * A new payment moves the balance with the order's own counterparty by the ordered amount, from its date on: up on
   * the account it debits, down on the one it credits.
   */
  lemma PayMovesCounterparty(db: Db, order: Payments.PaymentOrder, asOf: Date, counterparty: nat, account: nat)
    requires LinesInv(db) && KeyIsNew(db, order.key) && Payments.Execute(db, order).Commit?
    ensures Opposite(db, order).Some?
    ensures var counter := Opposite(db, order).value;
      CounterpartyBalance(Payments.Execute(db, order).db, asOf, counterparty, account)
      == CounterpartyBalance(db, asOf, counterparty, account)
         + (if order.counterparty == Some(counterparty) && order.date.Until(asOf)
            then (if account == Debited(order, counter) then order.amount else 0)
                 - (if account == Credited(order, counter) then order.amount else 0)
            else 0)
  {
    hide *;
    var db' := Payments.Execute(db, order).db;
    PayWrites(db, order);
    PayGrows(db, order);
    var rate := ExchangeRates.GetRate(db.baseCurrency, db.rates, order.currency, order.date).value;
    var counter := Opposite(db, order).value;
    CounterpartyGrows(db, db', order.date, FromPayment(|db.payments|), asOf, counterparty, account);
    TwoLines(db', |db.lines|, PartyNet(counterparty, account));
    PartyOrder(db'.lines[|db.lines|], db'.lines[|db.lines| + 1], |db.entries|, order, counter, rate, counterparty, account);
  }

  lemma PartyOrder(
      dr: Line, cr: Line, e: nat, order: Payments.PaymentOrder, counter: nat, rate: int, counterparty: nat, account: nat)
    requires OrderBooked(dr, cr, e, order, counter, rate)
    ensures PartyNet(counterparty, account)(dr) + PartyNet(counterparty, account)(cr)
      == if order.counterparty == Some(counterparty)
         then (if account == Debited(order, counter) then order.amount else 0)
                 - (if account == Credited(order, counter) then order.amount else 0)
         else 0
  {
  }

  lemma TwoLines(db': Db, first: nat, f: Line -> int)
    requires |db'.lines| == first + 2
    ensures Sum(db'.lines[first..], f) == f(db'.lines[first]) + f(db'.lines[first + 1])
  {
    assert db'.lines[first..] == [db'.lines[first], db'.lines[first + 1]];
    Documents.SumTwo(db'.lines[first], db'.lines[first + 1], f);
  }

  lemma PayGrows(db: Db, order: Payments.PaymentOrder)
    requires LinesInv(db) && KeyIsNew(db, order.key) && Payments.Execute(db, order).Commit?
    ensures Grows(db, Payments.Execute(db, order).db, order.date, FromPayment(|db.payments|))
  {
    PayWrites(db, order);
    PayRecords(db, order);
  }

  /** Payments carry no dimensions: they show only in the actuals of budget lines that plan for none. */
  lemma PayAddsToActual(
      db: Db, order: Payments.PaymentOrder, centers: seq<Budgets.CostCenter>, line: Budgets.BudgetLine, year: int,
      month: int, kind: AccountType)
    requires LinesInv(db) && KeyIsNew(db, order.key) && Payments.Execute(db, order).Commit?
    ensures Opposite(db, order).Some?
    ensures var counter := Opposite(db, order).value;
      Budgets.ActualForLine(Payments.Execute(db, order).db, centers, line, year, month, kind)
      == Budgets.ActualForLine(db, centers, line, year, month, kind)
         + (if order.date.InMonth(year, month) && line.costCenter.None? && line.department.None? && line.project.None?
            then Grown(kind, (if line.account == Debited(order, counter) then order.amount else 0)
                             - (if line.account == Credited(order, counter) then order.amount else 0))
            else 0)
  {
    hide *;
    var db' := Payments.Execute(db, order).db;
    PayWrites(db, order);
    PayGrows(db, order);
    var rate := ExchangeRates.GetRate(db.baseCurrency, db.rates, order.currency, order.date).value;
    var counter := Opposite(db, order).value;
    ActualGrows(db, db', order.date, FromPayment(|db.payments|), centers, line, year, month, kind);
    TwoLines(db', |db.lines|, PlannedNet(centers, line, kind));
    PlannedOrder(db'.lines[|db.lines|], db'.lines[|db.lines| + 1], |db.entries|, order, counter, rate, centers, line,
                 kind);
  }

  lemma PlannedOrder(
      dr: Line, cr: Line, e: nat, order: Payments.PaymentOrder, counter: nat, rate: int, centers: seq<Budgets.CostCenter>,
      line: Budgets.BudgetLine, kind: AccountType)
    requires OrderBooked(dr, cr, e, order, counter, rate)
    ensures PlannedNet(centers, line, kind)(dr) + PlannedNet(centers, line, kind)(cr)
      == if line.costCenter.None? && line.department.None? && line.project.None?
         then Grown(kind, (if line.account == Debited(order, counter) then order.amount else 0)
                          - (if line.account == Credited(order, counter) then order.amount else 0))
         else 0
  {
  }
}
