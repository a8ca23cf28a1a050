/** Exchange rates: upsert by (currency, date) and lookup of the latest rate on or before a date. */
module ExchangeRates {
  import opened Folds
  import opened Tables
  import Decimal

  /** ASCII upper case. */
  function Upper(s: string): string {
    Map(s, (c: char) => if 'a' <= c <= 'z' then (c as int - 32) as char else c)
  }

  predicate IsKey(row: RateRow, currency: string, date: Date) {
    row.currency == currency && row.date == date
  }

  /** Position of the row for (currency, date), or |rows|. */
  function FindRow(rows: seq<RateRow>, currency: string, date: Date): (i: nat)
    ensures i <= |rows|
    ensures i < |rows| ==> IsKey(rows[i], currency, date)
    ensures i == |rows| ==> forall k :: 0 <= k < |rows| ==> !IsKey(rows[k], currency, date)
  {
    if rows == [] then 0
    else
      var i := FindRow(rows[..|rows| - 1], currency, date);
      if i < |rows| - 1 then i
      else if IsKey(rows[|rows| - 1], currency, date) then |rows| - 1 else |rows|
  }

  predicate Candidate(row: RateRow, currency: string, date: Date) {
    row.currency == currency && row.date.Until(date)
  }

  /** ORDER BY rateDate DESC LIMIT 1 over the candidates. */
  function Latest(rows: seq<RateRow>, currency: string, date: Date): Option<RateRow> {
    if rows == [] then None
    else
      var best := Latest(rows[..|rows| - 1], currency, date);
      var row := rows[|rows| - 1];
      if Candidate(row, currency, date) && (best.None? || best.value.date.Until(row.date)) then Some(row) else best
  }

  lemma {:induction false} LatestIsBest(rows: seq<RateRow>, currency: string, date: Date)
    ensures var best := Latest(rows, currency, date);
      && (best.Some? ==> Candidate(best.value, currency, date)
                         && exists k :: 0 <= k < |rows| && rows[k] == best.value)
      && (forall k :: 0 <= k < |rows| && Candidate(rows[k], currency, date) ==>
            best.Some? && rows[k].date.Until(best.value.date))
  {
    if rows != [] {
      var init := rows[..|rows| - 1];
      LatestIsBest(init, currency, date);
      assert forall k :: 0 <= k < |init| ==> init[k] == rows[k];
      assert rows[|rows| - 1] == rows[|rows| - 1];
    }
  }

  function GetRate(baseCurrency: string, rows: seq<RateRow>, currency: string, date: Date): Option<int> {
    var normalized := Upper(currency);
    if normalized == baseCurrency then Some(1_000_000)
    else
      var best := Latest(rows, normalized, date);
      if best.Some? then Some(best.value.rate) else None
  }

  ghost predicate HasKey(rows: seq<RateRow>, currency: string, date: Date) {
    exists k :: 0 <= k < |rows| && IsKey(rows[k], currency, date)
  }

  /** The rows after one accepted write. */
  function Upsert(rows: seq<RateRow>, row: RateRow): (rows': seq<RateRow>)
    ensures |rows| <= |rows'| && HasKey(rows', row.currency, row.date)
  {
    var i := FindRow(rows, row.currency, row.date);
    var rows' := if i < |rows| then rows[i := row] else rows + [row];
    assert IsKey(rows'[i], row.currency, row.date);
    rows'
  }

  function SetRate(db: Db, currency: string, date: Date, rate: int): Tx {
    var normalized := Upper(currency);
    if normalized == db.baseCurrency then Rollback(Conflict)
    else
      Commit(db.(rates := Upsert(db.rates, RateRow(normalized, date, rate))), FindRow(db.rates, normalized, date))
  }

  class ExchangeRatesService {
    const store: Store

    constructor (store: Store)
      ensures this.store == store
    {
      this.store := store;
    }

    /** Upsert: an existing row for the same day is overwritten in place. */
    method Set(currency: string, date: Date, rate: int) returns (reply: Reply)
      modifies store
      ensures store.db == After(old(store.db), SetRate(old(store.db), currency, date, rate))
      ensures reply == SetRate(old(store.db), currency, date, rate).Reply()
    {
      var normalized := Upper(currency);
      if normalized == store.db.baseCurrency {
        return Failure(Conflict);
      }
      var i := FindRow(store.db.rates, normalized, date);
      if i < |store.db.rates| {
        store.db := store.db.(rates := store.db.rates[i := store.db.rates[i].(rate := rate)]);
      } else {
        store.db := store.db.(rates := store.db.rates + [RateRow(normalized, date, rate)]);
      }
      reply := Success(i);
    }
  }

  // ---------- What a history of writes means ----------

  datatype Write = Write(currency: string, date: Date, rate: int)

  function Apply(db: Db, history: seq<Write>): Db {
    if history == [] then db
    else
      var w := history[|history| - 1];
      var before := Apply(db, history[..|history| - 1]);
      After(before, SetRate(before, w.currency, w.date, w.rate))
  }

  /** The write counts for a lookup of this currency on this date. */
  predicate Relevant(w: Write, currency: string, date: Date) {
    Upper(w.currency) == Upper(currency) && w.date.Until(date)
  }

  /** w at position i is the last write for the greatest relevant date. */
  predicate Decisive(history: seq<Write>, i: nat, currency: string, date: Date)
    requires i < |history|
  {
    && Relevant(history[i], currency, date)
    && forall j :: 0 <= j < |history| && Relevant(history[j], currency, date) ==>
         history[j].date.Until(history[i].date) && (history[j].date == history[i].date ==> j <= i)
  }

  /** position i holds the last write for its own (currency, date). */
  predicate LastForKey(history: seq<Write>, i: nat)
    requires i < |history|
  {
    forall j :: i < j < |history| ==>
      !(Upper(history[j].currency) == Upper(history[i].currency) && history[j].date == history[i].date)
  }

  predicate RowIsLastWrite(row: RateRow, history: seq<Write>) {
    exists i :: 0 <= i < |history| && LastForKey(history, i)
      && Upper(history[i].currency) == row.currency && history[i].date == row.date && history[i].rate == row.rate
  }

  lemma StillLast(row: RateRow, history: seq<Write>, w: Write)
    requires RowIsLastWrite(row, history)
    requires !IsKey(row, Upper(w.currency), w.date)
    ensures RowIsLastWrite(row, history + [w])
  {
    var i :| 0 <= i < |history| && LastForKey(history, i)
      && Upper(history[i].currency) == row.currency && history[i].date == row.date && history[i].rate == row.rate;
    assert (history + [w])[i] == history[i];
    assert LastForKey(history + [w], i);
  }

  lemma NewestIsLast(history: seq<Write>, w: Write)
    ensures RowIsLastWrite(RateRow(Upper(w.currency), w.date, w.rate), history + [w])
  {
    assert LastForKey(history + [w], |history|);
  }

  ghost predicate RowsAreLastWrites(rows: seq<RateRow>, history: seq<Write>, baseCurrency: string) {
    forall k :: 0 <= k < |rows| ==> RowIsLastWrite(rows[k], history) && rows[k].currency != baseCurrency
  }

  ghost predicate KeysDistinct(rows: seq<RateRow>) {
    forall k, m :: 0 <= k < m < |rows| ==> !IsKey(rows[k], rows[m].currency, rows[m].date)
  }

  ghost predicate KeysCovered(rows: seq<RateRow>, history: seq<Write>, baseCurrency: string) {
    forall i :: 0 <= i < |history| && Upper(history[i].currency) != baseCurrency ==>
      HasKey(rows, Upper(history[i].currency), history[i].date)
  }

  /** The table mirrors the history: each row is the last write of its key and each key written has one row. */
  ghost predicate Mirrors(rows: seq<RateRow>, history: seq<Write>, baseCurrency: string) {
    && RowsAreLastWrites(rows, history, baseCurrency)
    && KeysDistinct(rows)
    && KeysCovered(rows, history, baseCurrency)
  }

  /** The written row is the newest write of its key; another row's key is not the one just written. */
  lemma UpsertedRow(rows: seq<RateRow>, history: seq<Write>, w: Write, row: RateRow, k: nat)
    requires row == RateRow(Upper(w.currency), w.date, w.rate) && KeysDistinct(rows)
    requires k < |Upsert(rows, row)| && (k < |rows| ==> RowIsLastWrite(rows[k], history))
    ensures RowIsLastWrite(Upsert(rows, row)[k], history + [w])
  {
    NewestIsLast(history, w);
    if k != FindRow(rows, row.currency, row.date) {
      assert Upsert(rows, row)[k] == rows[k];
      assert !IsKey(rows[k], row.currency, row.date);
      StillLast(rows[k], history, w);
    }
  }

  lemma UpsertRows(rows: seq<RateRow>, history: seq<Write>, w: Write, baseCurrency: string)
    requires RowsAreLastWrites(rows, history, baseCurrency) && KeysDistinct(rows)
    requires Upper(w.currency) != baseCurrency
    ensures RowsAreLastWrites(Upsert(rows, RateRow(Upper(w.currency), w.date, w.rate)), history + [w], baseCurrency)
    ensures KeysDistinct(Upsert(rows, RateRow(Upper(w.currency), w.date, w.rate)))
  {
    hide RowIsLastWrite;
    hide Upper;
    var row := RateRow(Upper(w.currency), w.date, w.rate);
    forall k | 0 <= k < |Upsert(rows, row)| ensures RowIsLastWrite(Upsert(rows, row)[k], history + [w]) {
      UpsertedRow(rows, history, w, row, k);
    }
  }

  lemma UpsertCovers(rows: seq<RateRow>, row: RateRow, currency: string, date: Date)
    requires HasKey(rows, currency, date)
    ensures HasKey(Upsert(rows, row), currency, date)
  {
    var k :| 0 <= k < |rows| && IsKey(rows[k], currency, date);
    assert IsKey(Upsert(rows, row)[k], currency, date);
  }

  lemma WriteMirrors(rows: seq<RateRow>, history: seq<Write>, w: Write, baseCurrency: string)
    requires Mirrors(rows, history, baseCurrency) && Upper(w.currency) != baseCurrency
    ensures Mirrors(Upsert(rows, RateRow(Upper(w.currency), w.date, w.rate)), history + [w], baseCurrency)
  {
    var row := RateRow(Upper(w.currency), w.date, w.rate);
    UpsertRows(rows, history, w, baseCurrency);
    forall i | 0 <= i < |history + [w]| && Upper((history + [w])[i].currency) != baseCurrency
      ensures HasKey(Upsert(rows, row), Upper((history + [w])[i].currency), (history + [w])[i].date)
    {
      if i < |history| {
        UpsertCovers(rows, row, Upper(history[i].currency), history[i].date);
      }
    }
  }

  /** A refused write for the base currency leaves the mirror as it is. */
  lemma RefusedMirrors(rows: seq<RateRow>, history: seq<Write>, w: Write, baseCurrency: string)
    requires Mirrors(rows, history, baseCurrency) && Upper(w.currency) == baseCurrency
    ensures Mirrors(rows, history + [w], baseCurrency)
  {
    forall k | 0 <= k < |rows| ensures RowIsLastWrite(rows[k], history + [w]) {
      StillLast(rows[k], history, w);
    }
  }

  lemma {:induction false} HistoryMirrors(db: Db, history: seq<Write>)
    requires db.rates == []
    ensures Apply(db, history).baseCurrency == db.baseCurrency
    ensures Mirrors(Apply(db, history).rates, history, db.baseCurrency)
  {
    hide RowIsLastWrite;
    hide HasKey;
    hide Upper;
    if history != [] {
      var init, w := history[..|history| - 1], history[|history| - 1];
      HistoryMirrors(db, init);
      assert history == init + [w];
      if Upper(w.currency) == db.baseCurrency {
        RefusedMirrors(Apply(db, init).rates, init, w, db.baseCurrency);
      } else {
        WriteMirrors(Apply(db, init).rates, init, w, db.baseCurrency);
      }
    }
  }

  lemma BestIsDecisive(rows: seq<RateRow>, history: seq<Write>, baseCurrency: string, currency: string, date: Date)
    returns (i: nat)
    requires Mirrors(rows, history, baseCurrency) && Upper(currency) != baseCurrency
    requires Latest(rows, Upper(currency), date).Some?
    ensures i < |history| && Decisive(history, i, currency, date)
    ensures history[i].rate == Latest(rows, Upper(currency), date).value.rate
  {
    LatestIsBest(rows, Upper(currency), date);
    var best := Latest(rows, Upper(currency), date).value;
    assert RowIsLastWrite(best, history);
    i :| 0 <= i < |history| && LastForKey(history, i)
      && Upper(history[i].currency) == best.currency && history[i].date == best.date && history[i].rate == best.rate;
    forall j | 0 <= j < |history| && Relevant(history[j], currency, date)
      ensures history[j].date.Until(best.date)
    {
      assert HasKey(rows, Upper(history[j].currency), history[j].date);
    }
  }

  /** A lookup returns the last value written for the greatest rate date not after the requested one. */
  lemma RateIsLastWrite(db: Db, history: seq<Write>, currency: string, date: Date)
    requires db.rates == [] && Upper(currency) != db.baseCurrency
    ensures var rate := GetRate(db.baseCurrency, Apply(db, history).rates, currency, date);
      && (rate.None? <==> forall i :: 0 <= i < |history| ==> !Relevant(history[i], currency, date))
      && (rate.Some? ==> exists i :: 0 <= i < |history| && Decisive(history, i, currency, date)
                           && history[i].rate == rate.value)
  {
    HistoryMirrors(db, history);
    var rows := Apply(db, history).rates;
    if Latest(rows, Upper(currency), date).Some? {
      var i := BestIsDecisive(rows, history, db.baseCurrency, currency, date);
    } else {
      LatestIsBest(rows, Upper(currency), date);
      forall j | 0 <= j < |history| ensures !Relevant(history[j], currency, date) {
        assert Relevant(history[j], currency, date) ==>
                 HasKey(rows, Upper(history[j].currency), history[j].date);
      }
    }
  }

  /** At most one position is decisive, so the lookup is fully determined by the history. */
  lemma DecisiveUnique(history: seq<Write>, i: nat, j: nat, currency: string, date: Date)
    requires i < |history| && j < |history|
    requires Decisive(history, i, currency, date) && Decisive(history, j, currency, date)
    ensures i == j
  {
  }

  /** Writing a rate for a later date never changes an earlier lookup. */
  lemma LaterWritesDoNotMatter(db: Db, w: Write, currency: string, date: Date)
    requires !w.date.Until(date)
    ensures GetRate(db.baseCurrency, After(db, SetRate(db, w.currency, w.date, w.rate)).rates, currency, date)
            == GetRate(db.baseCurrency, db.rates, currency, date)
  {
    hide Upper;
    var rows := db.rates;
    var key := Upper(w.currency);
    var i := FindRow(rows, key, w.date);
    if key != db.baseCurrency {
      if i < |rows| {
        LatestIgnores(rows, i, rows[i].(rate := w.rate), Upper(currency), date);
      } else {
        assert (rows + [RateRow(key, w.date, w.rate)])[..|rows|] == rows;
      }
    }
  }

  lemma {:induction false} LatestIgnores(rows: seq<RateRow>, i: nat, row: RateRow, currency: string, date: Date)
    requires i < |rows|
    requires !Candidate(rows[i], currency, date) && !Candidate(row, currency, date)
    ensures Latest(rows[i := row], currency, date) == Latest(rows, currency, date)
  {
    var init := rows[..|rows| - 1];
    if i < |rows| - 1 {
      assert rows[i := row][..|rows| - 1] == init[i := row];
      LatestIgnores(init, i, row, currency, date);
    } else {
      assert rows[i := row][..|rows| - 1] == init;
    }
  }

  // ---------- Currencies ----------

  function Lower(c: char): char { if 'A' <= c <= 'Z' then (c as int + 32) as char else c }

  /** The same letters, upper or lower case. */
  predicate SameLetters(a: string, b: string) {
    |a| == |b| && forall i :: 0 <= i < |a| ==> Lower(a[i]) == Lower(b[i])
  }

  /** Two spellings name one currency exactly when they differ in case only. */
  lemma SpellingsOfOneCurrency(a: string, b: string)
    ensures Upper(a) == Upper(b) <==> SameLetters(a, b)
  {
    if Upper(a) == Upper(b) {
      forall i | 0 <= i < |a| ensures Lower(a[i]) == Lower(b[i]) {
        assert Upper(a)[i] == Upper(b)[i];
      }
    }
  }

  /** The base currency is never written and always has the rate 1.000000, which converts every amount to itself. */
  lemma BaseCurrencyRate(db: Db, currency: string, date: Date, rate: int, amount: int)
    requires Upper(currency) == db.baseCurrency
    ensures SetRate(db, currency, date, rate) == Rollback(Conflict)
    ensures GetRate(db.baseCurrency, db.rates, currency, date) == Some(1_000_000)
    ensures Decimal.Convert(amount, 1_000_000) == amount
  {
  }
}
