/** The login lock: how many wrong passwords a user's account takes in a span of time. */
module Lockout {
  import opened Folds
  import opened Auth

  /** A quarter of an hour for five strikes. */
  const LOCK := 15 * 60 * 1000
  const STRIKES := 5

  /** A password of this user was compared and did not match. */
  predicate FailedCheck(db: Db, c: Command, user: nat) {
    c.CallLogin? && c.user == user && user in db.users && Perform(db, c).reply == Denied(Unauthorized)
  }

  /** A login of this user got as far as clearing the counter. */
  predicate PassedCheck(db: Db, c: Command, user: nat) {
    && c.CallLogin? && c.user == user
    && (Perform(db, c).reply.Issued? || Perform(db, c).reply == Denied(InternalError))
  }

  function Failures(db: Db, commands: seq<Command>, user: nat): nat {
    if commands == [] then 0
    else
      var before := commands[..|commands| - 1];
      Failures(db, before, user)
      + (if FailedCheck(Run(db, before), commands[|commands| - 1], user) then 1 else 0)
  }

  /** No login of the user succeeds in the run. */
  predicate NoneSucceeds(db: Db, commands: seq<Command>, user: nat) {
    commands == []
    || (NoneSucceeds(db, commands[..|commands| - 1], user)
        && !PassedCheck(Run(db, commands[..|commands| - 1]), commands[|commands| - 1], user))
  }

  // ---------- The counter ----------

  /** Four strikes at most are ever stored, and none beside a lock. */
  predicate Counted(u: User) {
    u.failedLoginAttempts < STRIKES && (u.lockedUntil.Some? ==> u.failedLoginAttempts == 0)
  }

  predicate CountersInRange(db: Db) {
    forall u :: u in db.users ==> Counted(db.users[u])
  }

  lemma StepKeepsCounters(db: Db, c: Command)
    requires CountersInRange(db)
    ensures CountersInRange(Step(db, c))
  {
  }

  lemma {:induction false} CountersAlwaysInRange(commands: seq<Command>)
    ensures CountersInRange(Run(EmptyDb(), commands))
  {
    if commands != [] {
      CountersAlwaysInRange(commands[..|commands| - 1]);
      StepKeepsCounters(Run(EmptyDb(), commands[..|commands| - 1]), commands[|commands| - 1]);
    }
  }

  /** The login state of a user: what only logins of that user change. */
  predicate SameLogin(a: Db, b: Db, user: nat) {
    && user in a.users && user in b.users
    && b.users[user].failedLoginAttempts == a.users[user].failedLoginAttempts
    && b.users[user].lockedUntil == a.users[user].lockedUntil
  }

  lemma OthersKeepLogin(db: Db, c: Command, user: nat)
    requires user in db.users && !FailedCheck(db, c, user) && !PassedCheck(db, c, user)
    ensures SameLogin(db, Step(db, c), user)
  {
  }

  lemma FailureCounts(db: Db, c: Command, user: nat)
    requires FailedCheck(db, c, user)
    ensures !LockedOut(db.users[user], c.now)
    ensures user in Step(db, c).users && Step(db, c).users[user] == AfterFailure(db.users[user], c.now)
  {
  }

  lemma AbsentUsers(db: Db, c: Command, user: nat)
    requires user !in db.users && user in Step(db, c).users
    ensures Step(db, c).users[user].failedLoginAttempts == 0 && Step(db, c).users[user].lockedUntil == None
  {
  }

  // ---------- The bound ----------

  /**
   * After the failures so far there were some number of locks, each 15 minutes after the one before:
   * the last one still holds, or has run out.
   */
  predicate Paced(db: Db, user: nat, from: int, now: int, failures: nat, locks: nat) {
    && from <= now
    && (locks > 0 ==> now >= from + (locks - 1) * LOCK)
    && if user !in db.users then failures == 0 && locks == 0
       else
         var u := db.users[user];
         && failures <= STRIKES * locks + u.failedLoginAttempts
         && (locks > 0 ==> || now >= from + locks * LOCK
                           || (u.failedLoginAttempts == 0 && u.lockedUntil.Some?
                               && u.lockedUntil.value >= from + locks * LOCK))
  }

  lemma StepPaced(db: Db, c: Command, user: nat, from: int, now: int, failures: nat, locks: nat) returns (after: nat)
    requires CountersInRange(db) && Paced(db, user, from, now, failures, locks) && now <= c.now
    requires !PassedCheck(db, c, user)
    ensures Paced(Step(db, c), user, from, c.now, failures + (if FailedCheck(db, c, user) then 1 else 0), after)
  {
    after := locks;
    if user !in db.users {
      if user in Step(db, c).users {
        AbsentUsers(db, c, user);
      }
    } else if FailedCheck(db, c, user) {
      FailureCounts(db, c, user);
      if Step(db, c).users[user].lockedUntil.Some? {
        after := locks + 1;
      }
    } else {
      OthersKeepLogin(db, c, user);
    }
  }

  lemma {:induction false} RunPaced(db: Db, commands: seq<Command>, user: nat, from: int) returns (locks: nat)
    requires CountersInRange(db) && Clocked(from, commands) && NoneSucceeds(db, commands, user)
    ensures CountersInRange(Run(db, commands))
    ensures Paced(Run(db, commands), user, from, Last(from, commands), Failures(db, commands, user), locks)
  {
    locks := 0;
    if commands != [] {
      var before, c := commands[..|commands| - 1], commands[|commands| - 1];
      locks := RunPaced(db, before, user, from);
      StepKeepsCounters(Run(db, before), c);
      locks := StepPaced(Run(db, before), c, user, from, Last(from, before), Failures(db, before, user), locks);
    }
  }

  lemma QuotientBounds(locks: nat, elapsed: int)
    requires 0 <= elapsed && locks * LOCK <= elapsed
    ensures locks <= elapsed / LOCK
  {
  }

  /** What the pace means for the count: the arithmetic alone. */
  lemma BoundFromLocks(failures: nat, locks: nat, stored: nat, elapsed: nat)
    requires failures <= STRIKES * locks + stored && stored < STRIKES
    requires locks > 0 ==> (locks - 1) * LOCK <= elapsed
    requires stored > 0 ==> locks * LOCK <= elapsed
    ensures failures <= STRIKES * (elapsed / LOCK + 1)
  {
    if stored > 0 {
      QuotientBounds(locks, elapsed);
    } else if locks > 0 {
      QuotientBounds(locks - 1, elapsed);
    }
  }

  lemma PacedBound(db: Db, user: nat, from: int, now: int, failures: nat, locks: nat)
    requires CountersInRange(db) && Paced(db, user, from, now, failures, locks)
    ensures failures <= STRIKES * ((now - from) / LOCK + 1)
  {
    if user in db.users {
      BoundFromLocks(failures, locks, db.users[user].failedLoginAttempts, now - from);
    }
  }

  /** A span of T ms without a successful login sees at most 5 (T / 15 min + 1) wrong passwords. */
  lemma FailuresAreBounded(db: Db, commands: seq<Command>, user: nat, from: int)
    requires CountersInRange(db) && Clocked(from, commands) && NoneSucceeds(db, commands, user)
    ensures Failures(db, commands, user)
            <= STRIKES * ((Last(from, commands) - from) / LOCK + 1)
  {
    hide Failures;
    hide NoneSucceeds;
    hide Run;
    hide Last;
    var locks := RunPaced(db, commands, user, from);
    PacedBound(Run(db, commands), user, from, Last(from, commands), Failures(db, commands, user), locks);
  }

  // ---------- The bound is reached ----------

  lemma {:induction false} SpanConcat(db: Db, a: seq<Command>, b: seq<Command>, user: nat)
    ensures Failures(db, a + b, user) == Failures(db, a, user) + Failures(Run(db, a), b, user)
    ensures NoneSucceeds(db, a + b, user) <==> NoneSucceeds(db, a, user) && NoneSucceeds(Run(db, a), b, user)
  {
    if b == [] {
      assert a + b == a;
    } else {
      var front := b[..|b| - 1];
      assert (a + b)[..|a + b| - 1] == a + front;
      SpanConcat(db, a, front, user);
      RunConcat(db, a, front);
    }
  }

  /** Ready for five attempts: no strike stored and no lock holding. */
  predicate Clear(db: Db, user: nat, password: nat, now: int) {
    && user in db.users && db.users[user].password != password
    && db.users[user].failedLoginAttempts == 0 && !LockedOut(db.users[user], now)
  }

  /** So many strikes stored; the fifth one locks. */
  predicate Struck(db: Db, c: Command, password: nat, times: nat)
    requires c.CallLogin?
  {
    && c.user in db.users && db.users[c.user].password == password
    && if times < STRIKES
       then db.users[c.user].failedLoginAttempts == times && !LockedOut(db.users[c.user], c.now)
       else db.users[c.user].failedLoginAttempts == 0 && db.users[c.user].lockedUntil == Some(c.now + LOCK)
  }

  lemma OneStrike(db: Db, c: Command, password: nat, times: nat)
    requires c.CallLogin? && times < STRIKES && Struck(db, c, password, times) && password != c.password
    ensures FailedCheck(db, c, c.user) && !PassedCheck(db, c, c.user)
    ensures Struck(Step(db, c), c, password, times + 1)
  {
  }

  lemma {:induction false} StrikesAddUp(db: Db, c: Command, times: nat)
    requires c.CallLogin? && Clear(db, c.user, c.password, c.now) && times <= STRIKES
    ensures Struck(Run(db, Repeat(c, times)), c, db.users[c.user].password, times)
    ensures Failures(db, Repeat(c, times), c.user) == times && NoneSucceeds(db, Repeat(c, times), c.user)
  {
    if times > 0 {
      StrikesAddUp(db, c, times - 1);
      OneStrike(Run(db, Repeat(c, times - 1)), c, db.users[c.user].password, times - 1);
      assert Repeat(c, times)[..times - 1] == Repeat(c, times - 1);
    }
  }

  /** Five wrong passwords as soon as each lock runs out, n + 1 rounds of them. */
  function Rounds(user: nat, password: nat, from: int, n: nat): seq<Command> {
    var round := Repeat(CallLogin(user, password, 0, 0, from + n * LOCK, 0), STRIKES);
    if n == 0 then round else Rounds(user, password, from, n - 1) + round
  }

  /** What a run of n + 1 rounds does. */
  predicate MeetsBound(db: Db, commands: seq<Command>, user: nat, password: nat, from: int, n: nat) {
    && Clocked(from, commands) && NoneSucceeds(db, commands, user)
    && Last(from, commands) == from + n * LOCK
    && Failures(db, commands, user) == STRIKES * (n + 1)
    && Clear(Run(db, commands), user, password, from + (n + 1) * LOCK)
  }

  lemma OneMoreRound(db: Db, earlier: seq<Command>, user: nat, password: nat, from: int, n: nat)
    requires n > 0 && MeetsBound(db, earlier, user, password, from, n - 1)
    ensures var c := CallLogin(user, password, 0, 0, from + n * LOCK, 0);
            MeetsBound(db, earlier + Repeat(c, STRIKES), user, password, from, n)
  {
    var c := CallLogin(user, password, 0, 0, from + n * LOCK, 0);
    var round := Repeat(c, STRIKES);
    StrikesAddUp(Run(db, earlier), c, STRIKES);
    ClockedRepeat(Last(from, earlier), c, STRIKES);
    SpanConcat(db, earlier, round, user);
    ClockedConcat(from, earlier, round);
    RunConcat(db, earlier, round);
  }

  lemma {:induction false} RoundsMeetBound(db: Db, user: nat, password: nat, from: int, n: nat)
    requires Clear(db, user, password, from)
    ensures MeetsBound(db, Rounds(user, password, from, n), user, password, from, n)
  {
    if n == 0 {
      var c := CallLogin(user, password, 0, 0, from, 0);
      StrikesAddUp(db, c, STRIKES);
      ClockedRepeat(from, c, STRIKES);
    } else {
      RoundsMeetBound(db, user, password, from, n - 1);
      OneMoreRound(db, Rounds(user, password, from, n - 1), user, password, from, n);
    }
  }

  /** For every number of locks some run meets the bound exactly. */
  lemma BoundIsReached(db: Db, user: nat, password: nat, from: int, n: nat)
    requires Clear(db, user, password, from)
    ensures var commands := Rounds(user, password, from, n);
            && Clocked(from, commands) && NoneSucceeds(db, commands, user)
            && Last(from, commands) - from == n * LOCK
            && Failures(db, commands, user) == STRIKES * ((Last(from, commands) - from) / LOCK + 1)
  {
    RoundsMeetBound(db, user, password, from, n);
    assert n * LOCK / LOCK == n;
  }
}
