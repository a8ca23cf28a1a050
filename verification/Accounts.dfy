/** The chart of accounts over whole runs: codes stay unique and a deactivated account is frozen. */
module Accounts {
  import opened Folds
  import opened Tables
  import opened Erp
  import opened Posting
  import ExchangeRates
  import Documents
  import Payments

  predicate CodesUnique(accounts: seq<Account>) {
    forall i, j :: 0 <= i < j < |accounts| ==> accounts[i].code != accounts[j].code
  }

  /** Accounts are only added and deactivated. */
  predicate AccountsGrow(before: seq<Account>, after: seq<Account>) {
    && |before| <= |after|
    && forall a :: 0 <= a < |before| ==>
         && after[a].code == before[a].code && after[a].kind == before[a].kind && after[a].isCash == before[a].isCash
         && (after[a].isActive ==> before[a].isActive)
  }

  lemma StepKeepsAccounts(db: Db, c: Command)
    requires CodesUnique(db.accounts)
    ensures CodesUnique(Step(db, c).accounts) && AccountsGrow(db.accounts, Step(db, c).accounts)
  {
    if !c.CreateAccount? && !c.DeactivateAccount? {
      OthersKeepAccounts(db, c);
    }
  }

  lemma OthersKeepAccounts(db: Db, c: Command)
    requires !c.CreateAccount? && !c.DeactivateAccount?
    ensures Step(db, c).accounts == db.accounts
  {
    if SetupCommand(c) {
      SetupKeepsLedger(db, c);
    } else {
      OthersKeepSetup(db, c);
    }
  }

  /** No run brings a deactivated account back or changes what an account is; codes stay unique. */
  lemma {:induction false} RunKeepsAccounts(db: Db, commands: seq<Command>)
    requires CodesUnique(db.accounts)
    ensures CodesUnique(Run(db, commands).accounts) && AccountsGrow(db.accounts, Run(db, commands).accounts)
  {
    if commands != [] {
      RunKeepsAccounts(db, commands[..|commands| - 1]);
      StepKeepsAccounts(Run(db, commands[..|commands| - 1]), commands[|commands| - 1]);
    }
  }

  // ---------- Frozen accounts ----------

  /** Every line that is new in b is on an account that was active in a. */
  predicate NewLinesActive(a: Db, b: Db) {
    && a.lines <= b.lines
    && forall i :: |a.lines| <= i < |b.lines| ==>
         b.lines[i].body.key.account < |a.accounts| && a.accounts[b.lines[i].body.key.account].isActive
  }

  lemma PostedLinesActive(db: Db, date: Date, source: Source, lines: seq<PostingLine>)
    requires PostEntry(db, date, source, lines).Commit?
    ensures NewLinesActive(db, PostEntry(db, date, source, lines).db)
  {
    var stored := PostEntry(db, date, source, lines).db.lines;
    forall i | |db.lines| <= i < |stored|
      ensures stored[i].body.key.account < |db.accounts| && db.accounts[stored[i].body.key.account].isActive
    {
      AccountsExist(db.accounts, lines, i - |db.lines|);
    }
  }

  lemma PostActive(db: Db, id: nat)
    requires Documents.PostDocument(db, id).Commit?
    ensures NewLinesActive(db, Documents.PostDocument(db, id).db)
  {
    var d := db.documents[id];
    var rate := ExchangeRates.GetRate(db.baseCurrency, db.rates, d.currency, d.date).value;
    PostedLinesActive(db, d.date, FromDocument(id), Documents.Postings(d, rate));
  }

  lemma ReverseActive(db: Db, id: nat, actor: nat, today: Date)
    requires Documents.ReverseDocument(db, id, actor, today).Commit?
    ensures NewLinesActive(db, Documents.ReverseDocument(db, id, actor, today).db)
  {
    var e := db.documents[id].entry.value;
    PostedLinesActive(db, today, db.entries[e].source, Map(LinesOf(db.lines, e), Mirror()));
  }

  lemma ExecuteActive(db: Db, order: Payments.PaymentOrder)
    requires Payments.Execute(db, order).Commit?
    ensures NewLinesActive(db, Payments.Execute(db, order).db)
  {
    if Payments.FindKey(db.payments, order.key) == |db.payments| {
      var row, rate := ExecuteShape(db, order);
      var pending := row.(status := Pending, rate := 1_000_000, baseAmount := 0, entry := None);
      PostedLinesActive(db.(payments := db.payments + [pending]), order.date, FromPayment(|db.payments|),
                        Payments.PaymentPostings(pending, rate));
    }
  }

  lemma StepLinesActive(db: Db, c: Command)
    ensures NewLinesActive(db, Step(db, c))
  {
    if Perform(db, c).Commit? {
      if c.PostDocument? {
        PostActive(db, c.id);
      } else if c.ReverseDocument? {
        ReverseActive(db, c.id, c.actor, c.today);
      } else if c.ExecutePayment? {
        ExecuteActive(db, c.order);
      } else {
        OthersKeepLines(db, c);
      }
    }
  }

  lemma OthersKeepLines(db: Db, c: Command)
    requires !c.PostDocument? && !c.ReverseDocument? && !c.ExecutePayment?
    ensures Step(db, c).lines == db.lines
  {
    if SetupCommand(c) {
      SetupKeepsLedger(db, c);
    } else if c.CreateDocument? || c.UpdateDocument? || c.DecideDocument? {
      PaperKeepsSetup(db, c);
    } else {
      RequestKeepsSetup(db, c);
    }
  }

  lemma NoLinesAdded(a: Db, b: Db, account: nat)
    requires NewLinesActive(a, b) && account < |a.accounts| && !a.accounts[account].isActive
    ensures Filter(b.lines, OfAccount(account)) == Filter(a.lines, OfAccount(account))
  {
    var added := b.lines[|a.lines|..];
    assert b.lines == a.lines + added;
    forall l | l in added ensures !OfAccount(account)(l) {
      var i :| 0 <= i < |added| && added[i] == l;
      assert b.lines[|a.lines| + i] == l;
    }
    FilterConcat(a.lines, added, OfAccount(account));
    FilterNone(added, OfAccount(account));
  }

  /** A deactivated account never gets another line, not even from a reversal of its own entries. */
  lemma {:induction false} DeactivatedAccountIsFrozen(db: Db, commands: seq<Command>, account: nat)
    requires CodesUnique(db.accounts) && account < |db.accounts| && !db.accounts[account].isActive
    ensures Filter(Run(db, commands).lines, OfAccount(account)) == Filter(db.lines, OfAccount(account))
  {
    if commands != [] {
      var before := commands[..|commands| - 1];
      DeactivatedAccountIsFrozen(db, before, account);
      RunKeepsAccounts(db, before);
      StepLinesActive(Run(db, before), commands[|commands| - 1]);
      NoLinesAdded(Run(db, before), Run(db, commands), account);
    }
  }

  // ---------- One call ----------

  /** A new account is active and what it was asked to be, unless its code is taken. */
  lemma AccountCreation(db: Db, code: string, kind: AccountType, isCash: bool)
    ensures var tx := AddAccount(db, code, kind, isCash);
      && (tx.Commit? <==> forall i :: 0 <= i < |db.accounts| ==> db.accounts[i].code != code)
      && (tx.Rollback? ==> tx.error == Conflict)
      && (tx.Commit? ==> |tx.db.accounts| == |db.accounts| + 1 && tx.id == |db.accounts|
                         && tx.db == db.(accounts := db.accounts + [tx.db.accounts[tx.id]])
                         && tx.db.accounts[tx.id].code == code && tx.db.accounts[tx.id].kind == kind
                         && tx.db.accounts[tx.id].isCash == isCash && tx.db.accounts[tx.id].isActive)
  {
  }

  /** A deactivated account is no longer active, and every other account stays as it is. */
  lemma AccountDeactivation(db: Db, id: nat)
    ensures var tx := Deactivate(db, id);
      && (tx.Commit? <==> id < |db.accounts|) && (tx.Rollback? ==> tx.error == NotFound)
      && (tx.Commit? ==> |tx.db.accounts| == |db.accounts| && tx.db == db.(accounts := tx.db.accounts)
                         && tx.db.accounts[id] == db.accounts[id].(isActive := false)
                         && forall k :: 0 <= k < |db.accounts| && k != id ==> tx.db.accounts[k] == db.accounts[k])
  {
  }
}
