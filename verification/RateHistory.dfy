/** The exchange rates of a whole run: exactly what its rate commands wrote, whatever else happened. */
module RateHistory {
  import opened Tables
  import opened Folds
  import opened Erp
  import ExchangeRates

  /** The rate writes among the commands, in order. */
  function Writes(commands: seq<Command>): seq<ExchangeRates.Write> {
    if commands == [] then []
    else
      var c := commands[|commands| - 1];
      Writes(commands[..|commands| - 1])
      + (if c.SetRate? then [ExchangeRates.Write(c.currency, c.rateDate, c.rate)] else [])
  }

  lemma OthersKeepRates(db: Db, c: Command)
    requires !c.SetRate?
    ensures Step(db, c).rates == db.rates && Step(db, c).baseCurrency == db.baseCurrency
  {
    if SetupCommand(c) {
      SetupKeepsLedger(db, c);
    } else {
      OthersKeepSetup(db, c);
    }
  }

  /** A write looks at nothing but the rates. */
  lemma SetRateOnRates(a: Db, b: Db, currency: string, date: Date, rate: int)
    requires a.rates == b.rates && a.baseCurrency == b.baseCurrency
    ensures After(a, ExchangeRates.SetRate(a, currency, date, rate)).rates
            == After(b, ExchangeRates.SetRate(b, currency, date, rate)).rates
    ensures After(a, ExchangeRates.SetRate(a, currency, date, rate)).baseCurrency == a.baseCurrency
  {
  }

  lemma StepSetsRate(db: Db, c: Command)
    requires c.SetRate?
    ensures Step(db, c) == After(db, ExchangeRates.SetRate(db, c.currency, c.rateDate, c.rate))
  {
    hide ExchangeRates.SetRate;
  }

  /** After any run the rates are those that its rate commands alone would have written. */
  lemma {:induction false} RatesAreTheWrites(base: string, commands: seq<Command>)
    ensures Run(EmptyDb(base), commands).rates == ExchangeRates.Apply(EmptyDb(base), Writes(commands)).rates
    ensures Run(EmptyDb(base), commands).baseCurrency == base
    ensures ExchangeRates.Apply(EmptyDb(base), Writes(commands)).baseCurrency == base
  {
    if commands != [] {
      var before, c := commands[..|commands| - 1], commands[|commands| - 1];
      RatesAreTheWrites(base, before);
      var db, written := Run(EmptyDb(base), before), ExchangeRates.Apply(EmptyDb(base), Writes(before));
      assert Run(EmptyDb(base), commands) == Step(db, c);
      hide Step;
      hide Perform;
      hide ExchangeRates.SetRate;
      if c.SetRate? {
        StepSetsRate(db, c);
        SetRateOnRates(db, written, c.currency, c.rateDate, c.rate);
        SetRateOnRates(written, db, c.currency, c.rateDate, c.rate);
        assert Writes(commands)[..|Writes(before)|] == Writes(before);
      } else {
        OthersKeepRates(db, c);
        assert Writes(commands) == Writes(before);
      }
    }
  }

  /** A lookup after any run returns the last rate its commands wrote for the greatest date not after the asked one. */
  lemma LookupIsLastWrite(base: string, commands: seq<Command>, currency: string, date: Date)
    requires ExchangeRates.Upper(currency) != base
    ensures var history, db := Writes(commands), Run(EmptyDb(base), commands);
      var rate := ExchangeRates.GetRate(db.baseCurrency, db.rates, currency, date);
      && (rate.None? <==> forall i :: 0 <= i < |history| ==> !ExchangeRates.Relevant(history[i], currency, date))
      && (rate.Some? ==> exists i :: 0 <= i < |history| && ExchangeRates.Decisive(history, i, currency, date)
                           && history[i].rate == rate.value)
  {
    RatesAreTheWrites(base, commands);
    ExchangeRates.RateIsLastWrite(EmptyDb(base), Writes(commands), currency, date);
  }
}
