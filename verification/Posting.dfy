/** Financial periods and the posting service: the only writer of journal entries and lines. */
module Posting {
  import opened Folds
  import opened Tables
  import Decimal

  // ---------- Periods ----------

  /** Position of the period of a year and month, or |periods|. */
  function FindPeriod(periods: seq<Period>, year: int, month: int): (i: nat)
    ensures i <= |periods|
    ensures i < |periods| ==> periods[i].year == year && periods[i].month == month
    ensures i == |periods| ==> forall k :: 0 <= k < |periods| ==> !(periods[k].year == year && periods[k].month == month)
  {
    if periods == [] then 0
    else
      var last := |periods| - 1;
      var i := FindPeriod(periods[..last], year, month);
      if i < last then i
      else if periods[last].year == year && periods[last].month == month then last else |periods|
  }

  predicate MonthOpen(db: Db, year: int, month: int) {
    var i := FindPeriod(db.periods, year, month);
    i < |db.periods| && db.periods[i].status.Open?
  }

  function CreatePeriod(db: Db, year: int, month: int): Tx {
    var i := FindPeriod(db.periods, year, month);
    if i < |db.periods| then Rollback(Conflict)
    else Commit(db.(periods := db.periods + [Period(year, month, Open)]), i)
  }

  function MovePeriod(db: Db, id: nat, next: PeriodStatus): Tx {
    if id >= |db.periods| then Rollback(NotFound)
    else if !db.periods[id].status.Allows(next) then Rollback(Conflict)
    else Commit(db.(periods := db.periods[id := db.periods[id].(status := next)]), id)
  }

  function ReopenPeriod(db: Db, id: nat): Tx {
    if id >= |db.periods| then Rollback(NotFound)
    else if !db.periods[id].status.Closed? then Rollback(Conflict)
    else Commit(db.(periods := db.periods[id := db.periods[id].(status := Open)]), id)
  }

  // ---------- Line selectors ----------

  function DebitOf(): PostingLine -> int { (l: PostingLine) => l.debit }

  function CreditOf(): PostingLine -> int { (l: PostingLine) => l.credit }

  /** Debit minus credit of the lines whose key is selected. */
  function NetOf(p: LineKey -> bool): PostingLine -> int {
    (l: PostingLine) => if p(l.key) then l.debit - l.credit else 0
  }

  /** The same selectors over stored lines. */
  function Debit(p: LineKey -> bool): Line -> int {
    (l: Line) => if p(l.body.key) then l.body.debit else 0
  }

  function Credit(p: LineKey -> bool): Line -> int {
    (l: Line) => if p(l.body.key) then l.body.credit else 0
  }

  function Net(p: LineKey -> bool): Line -> int {
    (l: Line) => if p(l.body.key) then l.body.debit - l.body.credit else 0
  }

  function BaseNet(p: LineKey -> bool): Line -> int {
    (l: Line) => if p(l.body.key) then l.baseDebit - l.baseCredit else 0
  }

  function Every(): LineKey -> bool { (k: LineKey) => true }

  function OnAccount(account: nat): LineKey -> bool { (k: LineKey) => k.account == account }

  function OfAccount(account: nat): Line -> bool { (l: Line) => l.body.key.account == account }

  function InEntry(entry: nat): Line -> bool { (l: Line) => l.entry == entry }

  /** The lines of one entry, in line order. */
  function LinesOf(lines: seq<Line>, entry: nat): seq<Line> { Filter(lines, InEntry(entry)) }

  // ---------- Validation ----------

  predicate ValidLines(lines: seq<PostingLine>) {
    && |lines| >= 2
    && (forall i :: 0 <= i < |lines| ==> lines[i].OneSided())
    && Sum(lines, DebitOf()) == Sum(lines, CreditOf())
  }

  /** The first account that is missing or inactive decides the error. */
  function AccountsError(accounts: seq<Account>, lines: seq<PostingLine>): Option<Error> {
    if lines == [] then None
    else
      var id := lines[0].key.account;
      if id >= |accounts| then Some(NotFound)
      else if !accounts[id].isActive then Some(Conflict)
      else AccountsError(accounts, lines[1..])
  }

  // ---------- Posting ----------

  function Stored(entry: nat): PostingLine -> Line {
    (l: PostingLine) => Line(entry, l, Decimal.Convert(l.debit, l.rate), Decimal.Convert(l.credit, l.rate))
  }

  function PostEntry(db: Db, date: Date, source: Source, lines: seq<PostingLine>): Tx {
    if !ValidLines(lines) then Rollback(BadRequest)
    else
      var period := FindPeriod(db.periods, date.year, date.month);
      if period == |db.periods| then Rollback(Conflict)
      else if !db.periods[period].status.Open? then Rollback(Conflict)
      else
        var failed := AccountsError(db.accounts, lines);
        if failed.Some? then Rollback(failed.value)
        else
          var id := |db.entries|;
          Commit(db.(entries := db.entries + [Entry(period, date, source, EntryStatus.Posted)],
                     lines := db.lines + Map(lines, Stored(id))), id)
  }

  /** Debit and credit swapped, everything else kept. */
  function Mirror(): Line -> PostingLine {
    (l: Line) => PostingLine(l.body.key, l.body.credit, l.body.debit, l.body.rate)
  }

  function ReverseEntry(db: Db, original: nat, date: Date): Tx
    requires original < |db.entries|
  {
    if !db.entries[original].status.Posted? then Rollback(Conflict)
    else
      match PostEntry(db, date, db.entries[original].source, Map(LinesOf(db.lines, original), Mirror()))
      case Rollback(error) => Rollback(error)
      case Commit(db1, id) =>
        Commit(db1.(entries := db1.entries[original := db.entries[original].(status := EntryStatus.Reversed)]), id)
  }

  // ---------- The services ----------

  class PeriodsService {
    const store: Store

    constructor (store: Store)
      ensures this.store == store
    {
      this.store := store;
    }

    method Create(year: int, month: int) returns (reply: Reply)
      modifies store
      ensures store.db == After(old(store.db), CreatePeriod(old(store.db), year, month))
      ensures reply == CreatePeriod(old(store.db), year, month).Reply()
    {
      var existing := FindPeriod(store.db.periods, year, month);
      if existing < |store.db.periods| {
        return Failure(Conflict);
      }
      store.db := store.db.(periods := store.db.periods + [Period(year, month, Open)]);
      reply := Success(existing);
    }

    method Transition(id: nat, next: PeriodStatus) returns (reply: Reply)
      modifies store
      ensures store.db == After(old(store.db), MovePeriod(old(store.db), id, next))
      ensures reply == MovePeriod(old(store.db), id, next).Reply()
    {
      if id >= |store.db.periods| {
        return Failure(NotFound);
      }
      var period := store.db.periods[id];
      if !period.status.Allows(next) {
        return Failure(Conflict);
      }
      period := period.(status := next);
      store.db := store.db.(periods := store.db.periods[id := period]);
      reply := Success(id);
    }

    method ReopenClosedPeriod(id: nat) returns (reply: Reply)
      modifies store
      ensures store.db == After(old(store.db), ReopenPeriod(old(store.db), id))
      ensures reply == ReopenPeriod(old(store.db), id).Reply()
    {
      if id >= |store.db.periods| {
        return Failure(NotFound);
      }
      var period := store.db.periods[id];
      if !period.status.Closed? {
        return Failure(Conflict);
      }
      period := period.(status := Open);
      store.db := store.db.(periods := store.db.periods[id := period]);
      reply := Success(id);
    }
  }

  class PostingService {
    const store: Store

    constructor (store: Store)
      ensures this.store == store
    {
      this.store := store;
    }

    /** One pass over the lines, then the two totals. */
    method ValidateLines(lines: seq<PostingLine>) returns (ok: bool)
      ensures ok <==> ValidLines(lines)
    {
      if |lines| < 2 {
        return false;
      }
      var totalDebit, totalCredit := 0, 0;
      for i := 0 to |lines|
        invariant forall k :: 0 <= k < i ==> lines[k].OneSided()
        invariant totalDebit == Sum(lines[..i], DebitOf()) && totalCredit == Sum(lines[..i], CreditOf())
      {
        var debit, credit := lines[i].debit, lines[i].credit;
        if debit < 0 || credit < 0 {
          return false;
        }
        if debit > 0 && credit > 0 {
          return false;
        }
        if debit == 0 && credit == 0 {
          return false;
        }
        assert lines[..i + 1] == lines[..i] + [lines[i]];
        SumSnoc(lines[..i], lines[i], DebitOf());
        SumSnoc(lines[..i], lines[i], CreditOf());
        totalDebit, totalCredit := totalDebit + debit, totalCredit + credit;
      }
      assert lines[..|lines|] == lines;
      ok := totalDebit == totalCredit;
    }

    method Post(date: Date, source: Source, lines: seq<PostingLine>) returns (reply: Reply)
      modifies store
      ensures store.db == After(old(store.db), PostEntry(old(store.db), date, source, lines))
      ensures reply == PostEntry(old(store.db), date, source, lines).Reply()
    {
      var valid := ValidateLines(lines);
      if !valid {
        return Failure(BadRequest);
      }
      var period := FindPeriod(store.db.periods, date.year, date.month);
      if period == |store.db.periods| {
        return Failure(Conflict);
      }
      if !store.db.periods[period].status.Open? {
        return Failure(Conflict);
      }
      for i := 0 to |lines|
        invariant store.db == old(store.db)
        invariant AccountsError(store.db.accounts, lines) == AccountsError(store.db.accounts, lines[i..])
      {
        assert lines[i..][1..] == lines[i + 1..];
        var account := lines[i].key.account;
        if account >= |store.db.accounts| {
          return Failure(NotFound);
        }
        if !store.db.accounts[account].isActive {
          return Failure(Conflict);
        }
      }
      var id := |store.db.entries|;
      store.db := store.db.(entries := store.db.entries + [Entry(period, date, source, EntryStatus.Posted)]);
      store.db := store.db.(lines := store.db.lines + Map(lines, Stored(id)));
      reply := Success(id);
    }

    /** Runs in the caller's transaction: the mirror entry first, then the status of the original. */
    method Reverse(original: nat, date: Date) returns (reply: Reply)
      requires original < |store.db.entries|
      modifies store
      ensures store.db == After(old(store.db), ReverseEntry(old(store.db), original, date))
      ensures reply == ReverseEntry(old(store.db), original, date).Reply()
    {
      var entry := store.db.entries[original];
      if !entry.status.Posted? {
        return Failure(Conflict);
      }
      var mirrored := Map(LinesOf(store.db.lines, original), Mirror());
      reply := Post(date, entry.source, mirrored);
      if reply.Success? {
        var row := store.db.entries[original].(status := EntryStatus.Reversed);
        store.db := store.db.(entries := store.db.entries[original := row]);
      }
    }
  }

  // ---------- The ledger invariant ----------

  predicate StoredFaithfully(l: Line) {
    && l.body.OneSided()
    && l.baseDebit == Decimal.Convert(l.body.debit, l.body.rate)
    && l.baseCredit == Decimal.Convert(l.body.credit, l.body.rate)
  }

  /** At least two lines, balanced in transaction amounts and in base-currency amounts. */
  predicate Balanced(lines: seq<Line>) {
    |lines| >= 2 && Sum(lines, Net(Every())) == 0 && Sum(lines, BaseNet(Every())) == 0
  }

  ghost predicate LinesInv(db: Db) {
    forall i :: 0 <= i < |db.lines| ==>
      && db.lines[i].entry < |db.entries|
      && db.lines[i].body.key.account < |db.accounts|
      && StoredFaithfully(db.lines[i])
  }

  ghost predicate EntriesInv(db: Db) {
    forall e :: 0 <= e < |db.entries| ==>
      && Balanced(LinesOf(db.lines, e))
      && db.entries[e].period < |db.periods|
      && db.entries[e].date.InMonth(db.periods[db.entries[e].period].year, db.periods[db.entries[e].period].month)
  }

  ghost predicate PeriodsInv(db: Db) {
    forall i, j :: 0 <= i < j < |db.periods| ==>
      db.periods[i].year != db.periods[j].year || db.periods[i].month != db.periods[j].month
  }

  ghost predicate LedgerInv(db: Db) { LinesInv(db) && EntriesInv(db) && PeriodsInv(db) }

  // ---------- Facts about posting ----------

  /** Stored, the lines have the posted net for every selection, and their own entry id. */
  lemma StoredNet(lines: seq<PostingLine>, entry: nat, p: LineKey -> bool)
    ensures Sum(Map(lines, Stored(entry)), Net(p)) == Sum(lines, NetOf(p))
    ensures LinesOf(Map(lines, Stored(entry)), entry) == Map(lines, Stored(entry))
  {
    SumMap(lines, Stored(entry), Net(p), NetOf(p));
    FilterAll(Map(lines, Stored(entry)), InEntry(entry));
  }

  lemma EveryNet(lines: seq<PostingLine>)
    ensures Sum(lines, NetOf(Every())) == Sum(lines, DebitOf()) - Sum(lines, CreditOf())
  {
    SumMinus(lines, DebitOf(), CreditOf(), NetOf(Every()));
  }

  lemma {:induction false} AccountsExist(accounts: seq<Account>, lines: seq<PostingLine>, i: nat)
    requires AccountsError(accounts, lines).None? && i < |lines|
    ensures lines[i].key.account < |accounts| && accounts[lines[i].key.account].isActive
  {
    if i > 0 {
      AccountsExist(accounts, lines[1..], i - 1);
    }
  }

  /** Appending lines of a new entry changes no older entry's lines. */
  lemma AppendedLinesOf(before: seq<Line>, added: seq<Line>, id: nat, e: nat)
    requires forall l :: l in before ==> l.entry < id
    requires forall l :: l in added ==> l.entry == id
    ensures e < id ==> LinesOf(before + added, e) == LinesOf(before, e)
    ensures e == id ==> LinesOf(before + added, e) == added
  {
    FilterConcat(before, added, InEntry(e));
    if e < id {
      FilterNone(added, InEntry(e));
    } else if e == id {
      FilterNone(before, InEntry(e));
      FilterAll(added, InEntry(e));
    }
  }

  /** A successful post appends one entry and its lines, and touches nothing else. */
  lemma PostAppends(db: Db, date: Date, source: Source, lines: seq<PostingLine>)
    requires LinesInv(db)
    requires PostEntry(db, date, source, lines).Commit?
    ensures var db' := PostEntry(db, date, source, lines).db;
      var id := |db.entries|;
      && PostEntry(db, date, source, lines).id == id
      && db' == db.(entries := db.entries + [Entry(FindPeriod(db.periods, date.year, date.month), date, source, EntryStatus.Posted)],
                    lines := db.lines + Map(lines, Stored(id)))
      && (forall e :: 0 <= e < id ==> LinesOf(db'.lines, e) == LinesOf(db.lines, e))
      && LinesOf(db'.lines, id) == Map(lines, Stored(id))
      && MonthOpen(db, date.year, date.month)
  {
    var id := |db.entries|;
    var stored := Map(lines, Stored(id));
    forall e | 0 <= e <= id
      ensures e < id ==> LinesOf(db.lines + stored, e) == LinesOf(db.lines, e)
      ensures e == id ==> LinesOf(db.lines + stored, e) == stored
    {
      AppendedLinesOf(db.lines, stored, id, e);
    }
  }

  /** The new lines are faithful, of the new entry, and on accounts that exist. */
  lemma PostKeepsLines(db: Db, date: Date, source: Source, lines: seq<PostingLine>)
    requires LinesInv(db) && PostEntry(db, date, source, lines).Commit?
    ensures LinesInv(PostEntry(db, date, source, lines).db)
  {
    PostAppends(db, date, source, lines);
    var db', id := PostEntry(db, date, source, lines).db, |db.entries|;
    forall i | |db.lines| <= i < |db'.lines|
      ensures db'.lines[i].entry == id && StoredFaithfully(db'.lines[i])
      ensures db'.lines[i].body.key.account < |db.accounts|
    {
      AccountsExist(db.accounts, lines, i - |db.lines|);
      assert db'.lines[i] == Stored(id)(lines[i - |db.lines|]);
    }
  }

  lemma PostKeepsEntries(db: Db, date: Date, source: Source, lines: seq<PostingLine>)
    requires LinesInv(db) && EntriesInv(db) && PostEntry(db, date, source, lines).Commit?
    requires Sum(Map(lines, Stored(|db.entries|)), BaseNet(Every())) == 0
    ensures EntriesInv(PostEntry(db, date, source, lines).db)
  {
    hide Sum;
    hide Filter;
    hide Map;
    PostAppends(db, date, source, lines);
    StoredNet(lines, |db.entries|, Every());
    EveryNet(lines);
  }

  lemma PostKeepsInv(db: Db, date: Date, source: Source, lines: seq<PostingLine>)
    requires LedgerInv(db)
    requires PostEntry(db, date, source, lines).Commit?
    requires Sum(Map(lines, Stored(|db.entries|)), BaseNet(Every())) == 0
    ensures LedgerInv(PostEntry(db, date, source, lines).db)
  {
    PostKeepsLines(db, date, source, lines);
    PostKeepsEntries(db, date, source, lines);
  }

  // ---------- Reversal ----------

  /** Re-converting the swapped amounts at the stored rate reproduces the stored base amounts, swapped. */
  lemma MirrorLine(l: Line, id: nat)
    requires StoredFaithfully(l)
    ensures Stored(id)(Mirror()(l))
            == Line(id, PostingLine(l.body.key, l.body.credit, l.body.debit, l.body.rate), l.baseCredit, l.baseDebit)
  {
  }

  /** The reversal of an entry cancels it for every selection of keys, in both kinds of amounts. */
  lemma {:induction false} MirrorCancels(lines: seq<Line>, id: nat, p: LineKey -> bool)
    requires forall i :: 0 <= i < |lines| ==> StoredFaithfully(lines[i])
    ensures var mirrored := Map(Map(lines, Mirror()), Stored(id));
      && Sum(mirrored, Net(p)) == -Sum(lines, Net(p))
      && Sum(mirrored, BaseNet(p)) == -Sum(lines, BaseNet(p))
      && (forall i :: 0 <= i < |lines| ==>
            mirrored[i].baseDebit == lines[i].baseCredit && mirrored[i].baseCredit == lines[i].baseDebit)
  {
    if lines != [] {
      var init, l := lines[..|lines| - 1], lines[|lines| - 1];
      MirrorCancels(init, id, p);
      MirrorLine(l, id);
      var posted := Map(lines, Mirror());
      assert posted[..|posted| - 1] == Map(init, Mirror());
      assert Map(posted, Stored(id)) == Map(Map(init, Mirror()), Stored(id)) + [Stored(id)(Mirror()(l))];
      SumSnoc(Map(Map(init, Mirror()), Stored(id)), Stored(id)(Mirror()(l)), Net(p));
      SumSnoc(Map(Map(init, Mirror()), Stored(id)), Stored(id)(Mirror()(l)), BaseNet(p));
      forall i | 0 <= i < |lines|
        ensures Map(posted, Stored(id))[i].baseDebit == lines[i].baseCredit
        ensures Map(posted, Stored(id))[i].baseCredit == lines[i].baseDebit
      {
        MirrorLine(lines[i], id);
      }
    }
  }

  /** Debit and credit change places, raw and base, and nothing else changes. */
  predicate SwappedLine(original: Line, mirror: Line) {
    && mirror.body.key == original.body.key && mirror.body.rate == original.body.rate
    && mirror.body.debit == original.body.credit && mirror.body.credit == original.body.debit
    && mirror.baseDebit == original.baseCredit && mirror.baseCredit == original.baseDebit
  }

  predicate Swapped(original: seq<Line>, mirror: seq<Line>) {
    && |mirror| == |original|
    && forall i :: 0 <= i < |original| ==> SwappedLine(original[i], mirror[i])
  }

  lemma SwappedAt(lines: seq<Line>, m: nat, i: nat)
    requires i < |lines| && StoredFaithfully(lines[i])
    ensures SwappedLine(lines[i], Map(Map(lines, Mirror()), Stored(m))[i])
  {
    var posted := Map(lines, Mirror());
    assert posted[i] == Mirror()(lines[i]);
    assert Map(posted, Stored(m))[i] == Stored(m)(posted[i]);
    MirrorLine(lines[i], m);
  }

  lemma MirrorSwaps(lines: seq<Line>, m: nat)
    requires forall i :: 0 <= i < |lines| ==> StoredFaithfully(lines[i])
    ensures Swapped(lines, Map(Map(lines, Mirror()), Stored(m)))
  {
    var mirror := Map(Map(lines, Mirror()), Stored(m));
    forall i | 0 <= i < |lines| ensures SwappedLine(lines[i], mirror[i]) {
      SwappedAt(lines, m, i);
    }
  }

  /** The mirror of a balanced entry always passes validation. */
  lemma MirrorValid(lines: seq<Line>)
    requires Balanced(lines)
    requires forall i :: 0 <= i < |lines| ==> StoredFaithfully(lines[i])
    ensures ValidLines(Map(lines, Mirror()))
  {
    hide Sum;
    hide Map;
    var posted := Map(lines, Mirror());
    EveryNet(posted);
    MirrorCancels(lines, 0, Every());
    StoredNet(posted, 0, Every());
  }

  /** The lines of one entry as they should be stored. */
  predicate GoodLines(lines: seq<Line>) {
    Balanced(lines) && forall i :: 0 <= i < |lines| ==> StoredFaithfully(lines[i])
  }

  /** The lines of the reversal of an entry, stored under its own id. */
  function MirrorLines(lines: seq<Line>, entry: nat): seq<Line> { Map(Map(lines, Mirror()), Stored(entry)) }

  /** Accepted lines that balance in base currency are good once stored. */
  lemma StoredLinesGood(lines: seq<PostingLine>, entry: nat)
    requires ValidLines(lines) && Sum(Map(lines, Stored(entry)), BaseNet(Every())) == 0
    ensures GoodLines(Map(lines, Stored(entry)))
  {
    StoredNet(lines, entry, Every());
    EveryNet(lines);
  }

  lemma MirrorIsGood(lines: seq<Line>, entry: nat)
    requires GoodLines(lines)
    ensures ValidLines(Map(lines, Mirror())) && GoodLines(Map(Map(lines, Mirror()), Stored(entry)))
  {
    MirrorValid(lines);
    MirrorCancels(lines, entry, Every());
    StoredLinesGood(Map(lines, Mirror()), entry);
  }

  /** The mirror of good lines is accepted, good, their exact swap, and cancels them for every selection of keys. */
  lemma MirrorOfGood(lines: seq<Line>, entry: nat, p: LineKey -> bool)
    requires GoodLines(lines)
    ensures ValidLines(Map(lines, Mirror())) && GoodLines(MirrorLines(lines, entry))
    ensures Swapped(lines, MirrorLines(lines, entry))
    ensures Sum(lines, Net(p)) + Sum(MirrorLines(lines, entry), Net(p)) == 0
    ensures Sum(lines, BaseNet(p)) + Sum(MirrorLines(lines, entry), BaseNet(p)) == 0
  {
    MirrorIsGood(lines, entry);
    MirrorSwaps(lines, entry);
    MirrorCancels(lines, entry, p);
  }

  lemma LinesOfFaithful(db: Db, e: nat)
    requires LinesInv(db)
    ensures forall i :: 0 <= i < |LinesOf(db.lines, e)| ==> StoredFaithfully(LinesOf(db.lines, e)[i])
  {
    forall i | 0 <= i < |LinesOf(db.lines, e)| ensures StoredFaithfully(LinesOf(db.lines, e)[i]) {
      InFilter(db.lines, InEntry(e), LinesOf(db.lines, e)[i]);
    }
  }

  /** A reversal fails only for the reasons that are not about its lines. */
  lemma ReversalNeverUnbalanced(db: Db, original: nat, date: Date)
    requires LedgerInv(db) && original < |db.entries|
    requires db.entries[original].status.Posted?
    ensures ReverseEntry(db, original, date).Rollback? <==>
            !MonthOpen(db, date.year, date.month)
            || AccountsError(db.accounts, Map(LinesOf(db.lines, original), Mirror())).Some?
  {
    LinesOfFaithful(db, original);
    MirrorValid(LinesOf(db.lines, original));
  }

  // ---------- Base-currency balance ----------

  function Count(p: PostingLine -> bool): PostingLine -> int { (l: PostingLine) => if p(l) then 1 else 0 }

  function IsDebit(): PostingLine -> bool { (l: PostingLine) => l.debit > 0 }

  function IsCredit(): PostingLine -> bool { (l: PostingLine) => l.credit > 0 }

  function BaseDebitOf(): PostingLine -> int { (l: PostingLine) => Decimal.Convert(l.debit, l.rate) }

  function BaseCreditOf(): PostingLine -> int { (l: PostingLine) => Decimal.Convert(l.credit, l.rate) }

  /** Truncation loses less than one minor unit per nonzero converted amount. */
  lemma {:induction false} ConversionLoss(
    lines: seq<PostingLine>, rate: int, raw: PostingLine -> int, base: PostingLine -> int, side: PostingLine -> bool)
    requires rate >= 0
    requires forall l :: l in lines ==>
               raw(l) >= 0 && (side(l) <==> raw(l) > 0) && base(l) == Decimal.Convert(raw(l), rate)
    ensures var loss := Sum(lines, raw) * rate - Sum(lines, base) * Decimal.RATE_SCALE;
      && 0 <= loss
      && (Sum(lines, Count(side)) > 0 ==> loss < Sum(lines, Count(side)) * Decimal.RATE_SCALE)
      && (Sum(lines, Count(side)) == 0 ==> loss == 0)
      && Sum(lines, Count(side)) >= 0
  {
    if lines != [] {
      var init, l := lines[..|lines| - 1], lines[|lines| - 1];
      assert l in lines;
      ConversionLoss(init, rate, raw, base, side);
      Decimal.ConvertError(raw(l), rate);
      assert raw(l) * rate >= 0 by { Decimal.NonNegativeProduct(raw(l), rate); }
      assert Sum(lines, raw) * rate == Sum(init, raw) * rate + raw(l) * rate by {
        Decimal.Distribute(Sum(init, raw), raw(l), rate);
      }
    }
  }

  /** Every counted line has at least one minor unit; without counted lines there is none. */
  lemma {:induction false} CountAtMost(lines: seq<PostingLine>, raw: PostingLine -> int, side: PostingLine -> bool)
    requires forall l :: l in lines ==> raw(l) >= 0 && (side(l) <==> raw(l) > 0)
    ensures 0 <= Sum(lines, Count(side)) <= Sum(lines, raw)
    ensures Sum(lines, Count(side)) == 0 ==> Sum(lines, raw) == 0
  {
    if lines != [] {
      CountAtMost(lines[..|lines| - 1], raw, side);
    }
  }

  /** A valid entry has a line on either side. */
  lemma BothSides(lines: seq<PostingLine>)
    requires ValidLines(lines)
    ensures Sum(lines, Count(IsDebit())) >= 1 && Sum(lines, Count(IsCredit())) >= 1
  {
    CountAtMost(lines, DebitOf(), IsDebit());
    CountAtMost(lines, CreditOf(), IsCredit());
    var one := (l: PostingLine) => 1;
    SumPlus(lines, Count(IsDebit()), Count(IsCredit()), one);
    assert Sum(lines, one) >= 1 by {
      SumNonNegative(lines[..|lines| - 1], one);
    }
  }

  lemma PositiveFactor(x: int, scale: int)
    requires scale > 0 && x * scale > 0
    ensures x > 0
  {
  }

  /** Two truncated totals of one exact total differ by less than their losses. */
  lemma GapOfLosses(exact: int, a: int, b: int, d: int, c: int, scale: int)
    requires scale > 0
    requires 0 <= exact - a * scale < d * scale && 0 <= exact - b * scale < c * scale
    ensures -d < a - b < c
  {
    assert (c - a + b) * scale == c * scale - a * scale + b * scale;
    PositiveFactor(c - a + b, scale);
    assert (d - b + a) * scale == d * scale - b * scale + a * scale;
    PositiveFactor(d - b + a, scale);
  }

  /** With one rate on all lines, each base total falls short by fewer minor units than its side has lines. */
  lemma UniformRateBound(lines: seq<PostingLine>, rate: int)
    requires ValidLines(lines) && rate >= 0
    requires forall i :: 0 <= i < |lines| ==> lines[i].rate == rate
    ensures var d, c := Sum(lines, Count(IsDebit())), Sum(lines, Count(IsCredit()));
      var gap := Sum(lines, BaseDebitOf()) - Sum(lines, BaseCreditOf());
      -d < gap < c
  {
    ConversionLoss(lines, rate, DebitOf(), BaseDebitOf(), IsDebit());
    ConversionLoss(lines, rate, CreditOf(), BaseCreditOf(), IsCredit());
    BothSides(lines);
    GapOfLosses(Sum(lines, DebitOf()) * rate, Sum(lines, BaseDebitOf()), Sum(lines, BaseCreditOf()),
                Sum(lines, Count(IsDebit())), Sum(lines, Count(IsCredit())), Decimal.RATE_SCALE);
  }
}
