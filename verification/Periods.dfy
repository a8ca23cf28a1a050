/** Financial periods over runs of the accounting machine. */
module Periods {
  import opened Folds
  import opened Tables
  import opened Erp
  import Posting

  function WithPeriodStatus(db: Db, id: nat, status: PeriodStatus): Tx
    requires id < |db.periods|
  {
    Commit(db.(periods := db.periods[id := db.periods[id].(status := status)]), id)
  }

  /** OPEN goes to CLOSING, CLOSING back to OPEN or on to CLOSED, and only a reopening leaves CLOSED. */
  lemma PeriodMoves(db: Db, id: nat)
    requires id < |db.periods|
    ensures var status := db.periods[id].status;
      && Posting.MovePeriod(db, id, Open)
         == (if status.Closing? then WithPeriodStatus(db, id, Open) else Rollback(Conflict))
      && Posting.MovePeriod(db, id, Closing)
         == (if status.Open? then WithPeriodStatus(db, id, Closing) else Rollback(Conflict))
      && Posting.MovePeriod(db, id, Closed)
         == (if status.Closing? then WithPeriodStatus(db, id, Closed) else Rollback(Conflict))
      && Posting.ReopenPeriod(db, id)
         == (if status.Closed? then WithPeriodStatus(db, id, Open) else Rollback(Conflict))
  {
  }

  lemma MissingPeriod(db: Db, id: nat, next: PeriodStatus)
    requires id >= |db.periods|
    ensures Posting.MovePeriod(db, id, next) == Posting.ReopenPeriod(db, id) == Rollback(NotFound)
  {
  }

  predicate HasMonth(db: Db, year: int, month: int) {
    exists i :: 0 <= i < |db.periods| && db.periods[i].year == year && db.periods[i].month == month
  }

  /** A month gets one period, and it starts OPEN. */
  lemma PeriodCreation(db: Db, year: int, month: int)
    ensures var tx := Posting.CreatePeriod(db, year, month);
      if HasMonth(db, year, month) then tx == Rollback(Conflict)
      else tx == Commit(db.(periods := db.periods + [Period(year, month, PeriodStatus.Open)]), |db.periods|)
  {
    var i := Posting.FindPeriod(db.periods, year, month);
    if i < |db.periods| {
      assert db.periods[i].year == year && db.periods[i].month == month;
    }
  }

  predicate Reopens(db: Db, c: Command, id: nat) { c.ReopenPeriod? && c.id == id && Perform(db, c).Commit? }

  predicate NeverReopened(db: Db, commands: seq<Command>, id: nat) {
    commands == []
    || (NeverReopened(db, commands[..|commands| - 1], id)
        && !Reopens(Run(db, commands[..|commands| - 1]), commands[|commands| - 1], id))
  }

  lemma StaysClosed(db: Db, c: Command, id: nat)
    requires id < |db.periods| && db.periods[id].status.Closed? && !Reopens(db, c, id)
    ensures id < |Step(db, c).periods| && Step(db, c).periods[id] == db.periods[id]
  {
    if !SetupCommand(c) {
      OthersKeepSetup(db, c);
    }
  }

  lemma {:induction false} NeverReopenedBefore(db: Db, commands: seq<Command>, id: nat, k: nat)
    requires NeverReopened(db, commands, id) && k <= |commands|
    ensures NeverReopened(db, commands[..k], id)
  {
    if k < |commands| {
      NeverReopenedBefore(db, commands[..|commands| - 1], id, k);
      assert commands[..|commands| - 1][..k] == commands[..k];
    } else {
      assert commands[..k] == commands;
    }
  }

  lemma {:induction false} StaysClosedUntilReopened(db: Db, commands: seq<Command>, id: nat)
    requires id < |db.periods| && db.periods[id].status.Closed? && NeverReopened(db, commands, id)
    ensures id < |Run(db, commands).periods| && Run(db, commands).periods[id] == db.periods[id]
  {
    if commands != [] {
      var before := commands[..|commands| - 1];
      StaysClosedUntilReopened(db, before, id);
      StaysClosed(Run(db, before), commands[|commands| - 1], id);
    }
  }

  /** From its closing until an accepted reopening, the lines dated in a month never change, whatever the calls are. */
  lemma ClosedMonthIsFinal(db: Db, commands: seq<Command>, id: nat)
    requires Inv(db) && id < |db.periods| && db.periods[id].status.Closed? && NeverReopened(db, commands, id)
    ensures var p := db.periods[id];
      MonthLines(Run(db, commands), p.year, p.month) == MonthLines(db, p.year, p.month)
  {
    var p := db.periods[id];
    forall k | 0 <= k < |commands| ensures !Posting.MonthOpen(Run(db, commands[..k]), p.year, p.month) {
      NeverReopenedBefore(db, commands, id, k);
      StaysClosedUntilReopened(db, commands[..k], id);
      RunAppendOnly(db, commands[..k]);
      NotOpen(Run(db, commands[..k]), id);
    }
    ClosedMonthIsStable(db, commands, p.year, p.month);
  }

  lemma NotOpen(db: Db, id: nat)
    requires Posting.PeriodsInv(db) && id < |db.periods| && db.periods[id].status.Closed?
    ensures !Posting.MonthOpen(db, db.periods[id].year, db.periods[id].month)
  {
    assert Posting.FindPeriod(db.periods, db.periods[id].year, db.periods[id].month) == id;
  }
}
