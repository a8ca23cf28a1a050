/** Email verification codes: one open code per user, five guesses per code, one code a minute. */
module Verification {
  import opened Folds
  import opened Auth

  /** The call was refused and a guess was counted against the open code. */
  predicate WrongGuess(db: Db, c: Command, user: nat) {
    c.CallVerify? && c.user == user && Perform(db, c).reply.Denied? && Step(db, c) != db
  }

  function Guesses(db: Db, commands: seq<Command>, user: nat): nat {
    if commands == [] then 0
    else
      var before := commands[..|commands| - 1];
      Guesses(db, before, user)
      + (if WrongGuess(Run(db, before), commands[|commands| - 1], user) then 1 else 0)
  }

  // ---------- What every reachable state keeps ----------

  /** Codes belong to users, at most one of a user is open, and it is that user's newest. */
  predicate CodesInv(db: Db) {
    && (forall i :: 0 <= i < |db.codes| ==> db.codes[i].user in db.users && db.codes[i].attempts <= GUESSES)
    && (forall i, j :: 0 <= i < j < |db.codes| && db.codes[i].user == db.codes[j].user ==> db.codes[i].consumed)
  }

  lemma NewCodeKeepsInv(db: Db, next: Db, user: nat, hash: nat, now: int)
    requires CodesInv(db) && user in next.users && (forall u :: u in db.users ==> u in next.users)
    requires next.codes == WithNewCode(db.codes, user, hash, now)
    ensures CodesInv(next)
  {
    var n := |db.codes|;
    assert forall i :: 0 <= i < n ==> next.codes[i] == ConsumeAll(user)(db.codes[i]);
  }

  lemma OthersKeepCodes(db: Db, c: Command)
    requires !c.CallVerify? && !c.CallRegister? && !c.CallResend?
    ensures Step(db, c).codes == db.codes && Step(db, c).users.Keys == db.users.Keys
  {
  }

  lemma VerifyKeepsCodes(db: Db, c: Command)
    requires CodesInv(db) && c.CallVerify?
    ensures CodesInv(Step(db, c))
  {
  }

  lemma StepKeepsCodes(db: Db, c: Command)
    requires CodesInv(db)
    ensures CodesInv(Step(db, c))
  {
    if c.CallVerify? {
      VerifyKeepsCodes(db, c);
    } else if c.CallRegister? || c.CallResend? {
      if Step(db, c) != db {
        NewCodeKeepsInv(db, Step(db, c), c.user, c.hash, c.now);
      }
    } else {
      OthersKeepCodes(db, c);
    }
  }

  lemma {:induction false} RunKeepsCodes(db: Db, commands: seq<Command>)
    requires CodesInv(db)
    ensures CodesInv(Run(db, commands))
  {
    if commands != [] {
      RunKeepsCodes(db, commands[..|commands| - 1]);
      StepKeepsCodes(Run(db, commands[..|commands| - 1]), commands[|commands| - 1]);
    }
  }

  /** In every reachable state a user has at most one unconsumed code, with at most five wrong guesses. */
  lemma OneOpenCode(commands: seq<Command>, i: nat, j: nat)
    requires i < |Run(EmptyDb(), commands).codes| && j < |Run(EmptyDb(), commands).codes|
    ensures var codes := Run(EmptyDb(), commands).codes;
            && codes[i].attempts <= GUESSES
            && (!codes[i].consumed && !codes[j].consumed && codes[i].user == codes[j].user ==> i == j)
  {
    RunKeepsCodes(EmptyDb(), commands);
  }

  // ---------- The bound ----------

  const COOLDOWN := 60 * 1000
  const GUESSES := 5

  /** Guesses already made at the user's newest code; five when that code takes no more. */
  function Spent(codes: seq<Code>, user: nat): nat {
    var i := Newest(codes, CodeOwner(), user);
    if i < |codes| && !codes[i].consumed then codes[i].attempts else GUESSES
  }

  /**
   * So many codes were created since the moment `from`, each a minute after the one before,
   * and each took at most five guesses.
   */
  predicate Metered(db: Db, user: nat, from: int, now: int, guesses: nat, codes: nat) {
    && from <= now
    && guesses <= GUESSES * codes + Spent(db.codes, user)
    && (user !in db.users ==> guesses == 0 && codes == 0)
    && (codes > 0 ==> var i := Newest(db.codes, CodeOwner(), user);
                      i < |db.codes| && from + (codes - 1) * COOLDOWN <= db.codes[i].createdAt <= now)
  }

  lemma NewestIs(codes: seq<Code>, user: nat, i: nat)
    requires i < |codes| && codes[i].user == user && forall k :: i < k < |codes| ==> codes[k].user != user
    ensures Newest(codes, CodeOwner(), user) == i
  {
  }

  lemma NoCodeOf(db: Db, user: nat)
    requires CodesInv(db) && user !in db.users
    ensures Newest(db.codes, CodeOwner(), user) == |db.codes|
  {
  }

  /** A new code is the newest one of its user, and leaves the codes of everyone else alone. */
  lemma NewCodeSpent(codes: seq<Code>, user: nat, hash: nat, now: int, other: nat)
    ensures var next := WithNewCode(codes, user, hash, now);
            && Newest(next, CodeOwner(), user) == |codes| && next[|codes|].createdAt == now && Spent(next, user) == 0
            && (other != user ==>
                  && Spent(next, other) == Spent(codes, other)
                  && (Newest(codes, CodeOwner(), other) < |codes| ==>
                        && Newest(next, CodeOwner(), other) == Newest(codes, CodeOwner(), other)
                        && next[Newest(codes, CodeOwner(), other)] == codes[Newest(codes, CodeOwner(), other)]))
  {
    var next := WithNewCode(codes, user, hash, now);
    assert forall i :: 0 <= i < |codes| ==> next[i] == ConsumeAll(user)(codes[i]);
    NewestIs(next, user, |codes|);
    var i := Newest(codes, CodeOwner(), other);
    if other != user {
      if i < |codes| {
        NewestIs(next, other, i);
      } else {
        assert forall k :: 0 <= k < |next| ==> next[k].user != other;
      }
    }
  }

  /** Changing one code to another of the same user and age moves no code of anyone else. */
  lemma UpdatedCode(codes: seq<Code>, at: nat, c: Code, user: nat)
    requires at < |codes| && c.user == codes[at].user
    ensures Newest(codes[at := c], CodeOwner(), user) == Newest(codes, CodeOwner(), user)
  {
    var i := Newest(codes, CodeOwner(), user);
    var next := codes[at := c];
    assert forall k :: 0 <= k < |codes| ==> next[k].user == codes[k].user;
    if i < |codes| {
      NewestIs(next, user, i);
    }
  }

  lemma OpenIsNewest(db: Db, user: nat)
    requires CodesInv(db) && NewestOpen(db.codes, user) < |db.codes|
    ensures NewestOpen(db.codes, user) == Newest(db.codes, CodeOwner(), user)
  {
    var i := Newest(db.codes, CodeOwner(), user);
    assert NewestOpen(db.codes, user) <= i;
  }

  /** A counted guess spends one of the newest code's five; a right one spends what is left. */
  lemma GuessSpent(codes: seq<Code>, at: nat, c: Code, user: nat)
    requires at < |codes| && at == Newest(codes, CodeOwner(), codes[at].user)
    requires !codes[at].consumed && codes[at].attempts < GUESSES
    requires c == codes[at].(attempts := codes[at].attempts + 1) || c == codes[at].(consumed := true)
    ensures Spent(codes[at := c], user)
            >= Spent(codes, user) + (if codes[at].user == user && !c.consumed then 1 else 0)
  {
    UpdatedCode(codes, at, c, user);
  }

  lemma VerifyMeters(db: Db, c: Command, user: nat, from: int, now: int, guesses: nat, codes: nat)
    requires CodesInv(db) && Metered(db, user, from, now, guesses, codes) && now <= c.now && c.CallVerify?
    ensures Metered(Step(db, c), user, from, c.now, guesses + (if WrongGuess(db, c, user) then 1 else 0), codes)
  {
    hide NewestOpen;
    hide Newest;
    hide Spent;
    var next := Step(db, c);
    if next != db {
      var at := NewestOpen(db.codes, c.user);
      OpenIsNewest(db, c.user);
      UpdatedCode(db.codes, at, next.codes[at], user);
      GuessSpent(db.codes, at, next.codes[at], user);
    }
  }

  lemma CreationMeters(
      db: Db, next: Db, creator: nat, hash: nat, at: int, user: nat, from: int, now: int, guesses: nat, codes: nat)
    returns (after: nat)
    requires CodesInv(db) && Metered(db, user, from, now, guesses, codes) && now <= at
    requires next.codes == WithNewCode(db.codes, creator, hash, at) && creator in next.users
    requires forall u :: u != creator ==> (u in next.users <==> u in db.users)
    requires var i := Newest(db.codes, CodeOwner(), creator);
             i < |db.codes| ==> at - db.codes[i].createdAt >= COOLDOWN
    ensures Metered(next, user, from, at, guesses, after)
  {
    NewCodeSpent(db.codes, creator, hash, at, user);
    after := if creator == user then codes + 1 else codes;
  }

  lemma CreationMetersStep(db: Db, c: Command, user: nat, from: int, now: int, guesses: nat, codes: nat)
    returns (after: nat)
    requires CodesInv(db) && Metered(db, user, from, now, guesses, codes) && now <= c.now
    requires c.CallRegister? || c.CallResend?
    ensures Metered(Step(db, c), user, from, c.now, guesses, after)
  {
    after := codes;
    if Step(db, c) != db {
      if c.CallRegister? {
        NoCodeOf(db, c.user);
      }
      after := CreationMeters(db, Step(db, c), c.user, c.hash, c.now, user, from, now, guesses, codes);
    }
  }

  lemma StepMeters(db: Db, c: Command, user: nat, from: int, now: int, guesses: nat, codes: nat) returns (after: nat)
    requires CodesInv(db) && Metered(db, user, from, now, guesses, codes) && now <= c.now
    ensures Metered(Step(db, c), user, from, c.now, guesses + (if WrongGuess(db, c, user) then 1 else 0), after)
  {
    after := codes;
    if c.CallVerify? {
      VerifyMeters(db, c, user, from, now, guesses, codes);
    } else if c.CallRegister? || c.CallResend? {
      after := CreationMetersStep(db, c, user, from, now, guesses, codes);
    } else {
      OthersKeepCodes(db, c);
    }
  }

  lemma {:induction false} RunMeters(db: Db, commands: seq<Command>, user: nat, from: int) returns (codes: nat)
    requires CodesInv(db) && Clocked(from, commands)
    ensures Metered(Run(db, commands), user, from, Last(from, commands), Guesses(db, commands, user), codes)
  {
    codes := 0;
    if commands != [] {
      var before := commands[..|commands| - 1];
      codes := RunMeters(db, before, user, from);
      RunKeepsCodes(db, before);
      codes := StepMeters(Run(db, before), commands[|commands| - 1], user, from, Last(from, before),
                          Guesses(db, before, user), codes);
    }
  }

  lemma BoundFromCodes(guesses: nat, codes: nat, spent: nat, elapsed: nat)
    requires guesses <= GUESSES * codes + spent && spent <= GUESSES
    requires codes > 0 ==> (codes - 1) * COOLDOWN <= elapsed
    ensures guesses <= GUESSES * (elapsed / COOLDOWN + 2)
  {
    if codes > 0 {
      assert codes - 1 <= elapsed / COOLDOWN;
    }
  }

  lemma SpentAtMost(db: Db, user: nat)
    requires CodesInv(db)
    ensures Spent(db.codes, user) <= GUESSES
  {
  }

  lemma MeteredBound(db: Db, user: nat, from: int, now: int, guesses: nat, codes: nat)
    requires CodesInv(db) && Metered(db, user, from, now, guesses, codes)
    ensures guesses <= GUESSES * ((now - from) / COOLDOWN + 2)
  {
    var spent := Spent(db.codes, user);
    SpentAtMost(db, user);
    assert codes > 0 ==> (codes - 1) * COOLDOWN <= now - from;
    BoundFromCodes(guesses, codes, spent, now - from);
  }

  /** A span of T ms admits at most 5 (T / 1 min + 2) wrong guesses at a user's codes. */
  lemma GuessesAreBounded(db: Db, commands: seq<Command>, user: nat, from: int)
    requires CodesInv(db) && Clocked(from, commands)
    ensures Guesses(db, commands, user) <= GUESSES * ((Last(from, commands) - from) / COOLDOWN + 2)
  {
    hide Guesses;
    hide Run;
    hide Last;
    var codes := RunMeters(db, commands, user, from);
    RunKeepsCodes(db, commands);
    MeteredBound(Run(db, commands), user, from, Last(from, commands), Guesses(db, commands, user), codes);
  }

  // ---------- The bound is reached ----------

  lemma {:induction false} GuessesConcat(db: Db, a: seq<Command>, b: seq<Command>, user: nat)
    ensures Guesses(db, a + b, user) == Guesses(db, a, user) + Guesses(Run(db, a), b, user)
  {
    if b == [] {
      assert a + b == a;
    } else {
      var front := b[..|b| - 1];
      assert (a + b)[..|a + b| - 1] == a + front;
      GuessesConcat(db, a, front, user);
      RunConcat(db, a, front);
    }
  }

  /** The user waits for verification with an open code that took so many guesses, and `hash` is not that code. */
  predicate Guessing(db: Db, user: nat, hash: nat, now: int, spent: nat) {
    && CodesInv(db) && user in db.users && db.users[user].status.PendingEmailVerification?
    && var i := Newest(db.codes, CodeOwner(), user);
       && i < |db.codes| && !db.codes[i].consumed && db.codes[i].hash != hash && db.codes[i].attempts == spent
       && now <= db.codes[i].expiresAt
  }

  /** Old enough that a new code may be asked for at that moment. */
  predicate MayResend(db: Db, user: nat, at: int) {
    var i := Newest(db.codes, CodeOwner(), user);
    i < |db.codes| && db.codes[i].createdAt + COOLDOWN <= at
  }

  lemma OneGuess(db: Db, c: Command, at: int)
    requires c.CallVerify? && Guessing(db, c.user, c.hash, c.now, Spent(db.codes, c.user)) && MayResend(db, c.user, at)
    requires Spent(db.codes, c.user) < GUESSES
    ensures WrongGuess(db, c, c.user)
    ensures Guessing(Step(db, c), c.user, c.hash, c.now, Spent(db.codes, c.user) + 1) && MayResend(Step(db, c), c.user, at)
  {
    StepKeepsCodes(db, c);
    var i := Newest(db.codes, CodeOwner(), c.user);
    assert NewestOpen(db.codes, c.user) == i;
    UpdatedCode(db.codes, i, db.codes[i].(attempts := db.codes[i].attempts + 1), c.user);
  }

  lemma {:induction false} GuessesAddUp(db: Db, c: Command, times: nat, at: int)
    requires c.CallVerify? && times <= GUESSES
    requires Guessing(db, c.user, c.hash, c.now, 0) && MayResend(db, c.user, at)
    ensures Guessing(Run(db, Repeat(c, times)), c.user, c.hash, c.now, times)
    ensures MayResend(Run(db, Repeat(c, times)), c.user, at)
    ensures Guesses(db, Repeat(c, times), c.user) == times
  {
    if times > 0 {
      GuessesAddUp(db, c, times - 1, at);
      OneGuess(Run(db, Repeat(c, times - 1)), c, at);
    }
  }

  /** A new code, and five wrong guesses at it, all at one moment. */
  function Minute(user: nat, hash: nat, other: nat, now: int): seq<Command> {
    [CallResend(user, other, now)] + Repeat(CallVerify(user, hash, now), GUESSES)
  }

  lemma OneMinute(db: Db, user: nat, hash: nat, other: nat, now: int)
    requires CodesInv(db) && user in db.users && db.users[user].status.PendingEmailVerification?
    requires MayResend(db, user, now) && other != hash
    ensures var end := Run(db, Minute(user, hash, other, now));
            && Guessing(end, user, hash, now, GUESSES) && MayResend(end, user, now + COOLDOWN)
            && Guesses(db, Minute(user, hash, other, now), user) == GUESSES
  {
    var resend, guess := CallResend(user, other, now), CallVerify(user, hash, now);
    StepKeepsCodes(db, resend);
    NewCodeSpent(db.codes, user, other, now, user);
    assert [resend][..0] == [];
    assert Run(db, [resend]) == Step(Run(db, []), resend) == Step(db, resend);
    assert Guesses(db, [resend], user) == Guesses(db, [], user) == 0;
    GuessesAddUp(Step(db, resend), guess, GUESSES, now + COOLDOWN);
    RunConcat(db, [resend], Repeat(guess, GUESSES));
    GuessesConcat(db, [resend], Repeat(guess, GUESSES), user);
  }

  lemma ClockedMinute(from: int, user: nat, hash: nat, other: nat, now: int)
    requires from <= now
    ensures Clocked(from, Minute(user, hash, other, now)) && Last(from, Minute(user, hash, other, now)) == now
  {
    var resend, guess := CallResend(user, other, now), CallVerify(user, hash, now);
    assert [resend][..0] == [];
    assert Clocked(from, [resend]) && Last(from, [resend]) == now;
    ClockedRepeat(now, guess, GUESSES);
    ClockedConcat(from, [resend], Repeat(guess, GUESSES));
  }

  /** The moment n + 1 minutes later. */
  function Next(from: int, n: nat): (now: int)
    ensures now == from + n * COOLDOWN + COOLDOWN
  {
    from + (n + 1) * COOLDOWN
  }

  /** Five guesses at the code at hand, then a new code and five more right away and after every minute. */
  function Minutes(user: nat, hash: nat, other: nat, from: int, n: nat): seq<Command> {
    if n == 0 then Repeat(CallVerify(user, hash, from), GUESSES) + Minute(user, hash, other, from)
    else Minutes(user, hash, other, from, n - 1) + Minute(user, hash, other, Next(from, n - 1))
  }

  /** What such a run of n minutes does. */
  predicate MeetsBound(db: Db, commands: seq<Command>, user: nat, from: int, n: nat) {
    && Clocked(from, commands) && Last(from, commands) == from + n * COOLDOWN
    && Guesses(db, commands, user) == GUESSES * (n + 2)
  }

  lemma OneMoreMinute(db: Db, earlier: seq<Command>, user: nat, hash: nat, other: nat, from: int, now: int, guesses: nat)
    requires Clocked(from, earlier) && Last(from, earlier) <= now && Guesses(db, earlier, user) == guesses
    requires Guessing(Run(db, earlier), user, hash, Last(from, earlier), GUESSES)
    requires MayResend(Run(db, earlier), user, now) && other != hash
    ensures var commands := earlier + Minute(user, hash, other, now);
            && Clocked(from, commands) && Last(from, commands) == now
            && Guesses(db, commands, user) == guesses + GUESSES
            && Exhausted(Run(db, commands), user, hash, now)
  {
    OneMinute(Run(db, earlier), user, hash, other, now);
    ClockedMinute(Last(from, earlier), user, hash, other, now);
    ClockedConcat(from, earlier, Minute(user, hash, other, now));
    GuessesConcat(db, earlier, Minute(user, hash, other, now), user);
    RunConcat(db, earlier, Minute(user, hash, other, now));
  }

  /** All five guesses are spent, and the next code is a minute away. */
  predicate Exhausted(db: Db, user: nat, hash: nat, now: int) {
    Guessing(db, user, hash, now, GUESSES) && MayResend(db, user, now + COOLDOWN)
  }

  lemma FirstMinute(db: Db, user: nat, hash: nat, other: nat, from: int)
    requires Guessing(db, user, hash, from, 0) && MayResend(db, user, from) && other != hash
    ensures MeetsBound(db, Minutes(user, hash, other, from, 0), user, from, 0)
    ensures Exhausted(Run(db, Minutes(user, hash, other, from, 0)), user, hash, from)
  {
    var guess := CallVerify(user, hash, from);
    GuessesAddUp(db, guess, GUESSES, from);
    ClockedRepeat(from, guess, GUESSES);
    OneMoreMinute(db, Repeat(guess, GUESSES), user, hash, other, from, from, GUESSES);
  }

  lemma {:induction false} MinutesMeetBound(db: Db, user: nat, hash: nat, other: nat, from: int, n: nat)
    requires Guessing(db, user, hash, from, 0) && MayResend(db, user, from) && other != hash
    ensures MeetsBound(db, Minutes(user, hash, other, from, n), user, from, n)
    ensures Exhausted(Run(db, Minutes(user, hash, other, from, n)), user, hash, from + n * COOLDOWN)
  {
    if n == 0 {
      FirstMinute(db, user, hash, other, from);
    } else {
      var earlier := Minutes(user, hash, other, from, n - 1);
      var guesses := GUESSES * (n - 1 + 2);
      MinutesMeetBound(db, user, hash, other, from, n - 1);
      OneMoreMinute(db, earlier, user, hash, other, from, Next(from, n - 1), guesses);
      assert guesses + GUESSES == GUESSES * (n + 2);
    }
  }

  lemma ExactQuotient(n: nat, elapsed: int)
    requires elapsed == n * COOLDOWN
    ensures elapsed / COOLDOWN == n
  {
  }

  /** For every number of minutes some run meets the bound exactly. */
  lemma BoundIsReached(db: Db, user: nat, hash: nat, other: nat, from: int, n: nat) returns (commands: seq<Command>)
    requires Guessing(db, user, hash, from, 0) && MayResend(db, user, from) && other != hash
    ensures Clocked(from, commands) && Last(from, commands) - from == n * COOLDOWN
    ensures Guesses(db, commands, user) == GUESSES * ((Last(from, commands) - from) / COOLDOWN + 2)
  {
    commands := Minutes(user, hash, other, from, n);
    MinutesMeetBound(db, user, hash, other, from, n);
    ExactQuotient(n, Last(from, commands) - from);
  }
}
