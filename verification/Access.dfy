/**
 * Who gets in: when exactly a login or a refresh hands out a token, and what the status and password of a user are
 * in every reachable state, told by the accepted calls of the user's history.
 */
module Access {
  import opened Folds
  import opened Auth
  import Sessions
  import Verification

  // ---------- Handing out tokens ----------

  /** A login hands out a token exactly to an existing, ACTIVE, not locked user with the right password. */
  lemma LoginExactlyWhen(db: Db, user: nat, password: nat, hash: nat, family: nat, now: int, ttl: nat)
    ensures var outcome := Login(db, user, password, hash, family, now, ttl);
      && (outcome.reply.Issued? <==>
            && user in db.users && db.users[user].status.Active? && db.users[user].password == password
            && (db.users[user].lockedUntil.Some? ==> db.users[user].lockedUntil.value <= now)
            && hash !in db.tokens)
      && (outcome.reply.Issued? ==>
            && outcome.reply.hash == hash
            && outcome.db.tokens == db.tokens[hash := Token(user, family, now + ttl, None, None)]
            && outcome.db.users == db.users[user := db.users[user].(failedLoginAttempts := 0, lockedUntil := None)]
            && outcome.db.codes == db.codes && outcome.db.resets == db.resets)
      && (!outcome.reply.Issued? ==> outcome.db == db.(users := outcome.db.users) && outcome.reply == Denied(
            if user !in db.users then Unauthorized
            else if db.users[user].lockedUntil.Some? && db.users[user].lockedUntil.value > now then Forbidden
            else if db.users[user].password != password then Unauthorized
            else if !db.users[user].status.Active? then Forbidden
            else InternalError))
  {
  }

  /** A refresh hands out a successor exactly for a stored, unrevoked, unexpired token of an ACTIVE user. */
  lemma RefreshExactlyWhen(db: Db, hash: nat, newHash: nat, now: int, ttl: nat)
    ensures var outcome := Refresh(db, hash, newHash, now, ttl);
      && (outcome.reply.Issued? <==>
            && hash in db.tokens && newHash !in db.tokens
            && db.tokens[hash].revokedAt.None? && now <= db.tokens[hash].expiresAt
            && db.tokens[hash].user in db.users && db.users[db.tokens[hash].user].status.Active?)
      && (outcome.reply.Issued? ==>
            && outcome.reply.hash == newHash
            && outcome.db == db.(tokens := outcome.db.tokens)
            && outcome.db.tokens.Keys == db.tokens.Keys + {newHash}
            && outcome.db.tokens[hash] == db.tokens[hash].(revokedAt := Some(now), replacedBy := Some(newHash))
            && outcome.db.tokens[newHash]
               == Token(db.tokens[hash].user, db.tokens[hash].family, now + ttl, None, None)
            && forall h :: h in db.tokens && h != hash ==> outcome.db.tokens[h] == db.tokens[h])
      && (!outcome.reply.Issued? && !Sessions.Revoked(db, hash) ==> outcome.db == db)
      && (!outcome.reply.Issued? ==> outcome.reply == Denied(
            if hash !in db.tokens || db.tokens[hash].revokedAt.Some? || db.tokens[hash].expiresAt < now
               || db.tokens[hash].user !in db.users then Unauthorized
            else if !db.users[db.tokens[hash].user].status.Active? then Forbidden
            else InternalError))
  {
  }

  /** The user a call would hand a token to. */
  function Recipient(db: Db, c: Command): Option<nat> {
    match c
    case CallLogin(user, _, _, _, _, _) => Some(user)
    case CallRefresh(hash, _, _, _) => if hash in db.tokens then Some(db.tokens[hash].user) else None
    case _ => None
  }

  lemma OnlyActiveUsersGetTokens(db: Db, c: Command)
    requires Perform(db, c).reply.Issued?
    ensures var user := Recipient(db, c); user.Some? && user.value in db.users && db.users[user.value].status.Active?
  {
    if c.CallLogin? {
      LoginExactlyWhen(db, c.user, c.password, c.hash, c.family, c.now, c.ttl);
    } else {
      RefreshExactlyWhen(db, c.hash, c.newHash, c.now, c.ttl);
    }
  }

  /** Logging out ends exactly the presented token: it never refreshes again, and every other one is untouched. */
  lemma LogoutEndsToken(
      db: Db, hash: nat, at: int, commands: seq<Command>, newHash: nat, now: int, ttl: nat)
    ensures Refresh(Run(Logout(db, hash, at).db, commands), hash, newHash, now, ttl).reply == Denied(Unauthorized)
            || hash !in db.tokens
    ensures var after := Logout(db, hash, at).db;
      && after == db.(tokens := after.tokens) && after.tokens.Keys == db.tokens.Keys
      && (forall h :: h in db.tokens && h != hash ==> after.tokens[h] == db.tokens[h])
  {
    if hash in db.tokens {
      assert Sessions.Revoked(Logout(db, hash, at).db, hash);
      Sessions.RevokedIsRefusedForever(Logout(db, hash, at).db, commands, hash, newHash, now, ttl);
    }
  }

  // ---------- Registration and administration ----------

  /** A new user is registered exactly when everything of the registration can be stored; failures leave nothing behind. */
  lemma RegisterExactlyWhen(db: Db, user: nat, password: nat, rest: Registration, hash: nat, now: int)
    ensures var outcome := Register(db, user, password, rest, hash, now);
      && (outcome.reply.Accepted? <==>
            user !in db.users && rest.photosGiven && rest.roleSeeded && rest.profileStored)
      && (!outcome.reply.Accepted? ==> outcome == Outcome(db, Denied(
            if user in db.users then Conflict else if !rest.photosGiven then BadRequest else InternalError)))
      && (outcome.reply.Accepted? ==>
            && outcome.db.users == db.users[user := User(password, PendingEmailVerification, 0, None)]
            && outcome.db == db.(users := outcome.db.users, codes := outcome.db.codes)
            && SendsCode(db, outcome.db, user, hash, now))
  {
  }

  /** The user's earlier codes are used up and there is one more, unused, of this moment. */
  predicate SendsCode(db: Db, db': Db, user: nat, hash: nat, now: int) {
    && |db'.codes| == |db.codes| + 1
    && (forall i :: 0 <= i < |db.codes| ==>
          db'.codes[i] == if db.codes[i].user == user then db.codes[i].(consumed := true) else db.codes[i])
    && var c := db'.codes[|db.codes|];
       c.user == user && c.hash == hash && c.createdAt == now && !c.consumed && c.attempts == 0
  }

  /** The four decisions about a user: accepted from one status each, and what they leave. */
  lemma AdministrationExactlyWhen(db: Db, user: nat, at: int)
    ensures var refused := Outcome(db, Denied(if user in db.users then Conflict else NotFound));
      && ApproveUser(db, user, true)
         == (if HasStatus(db, user, PendingAdminApproval) then WithStatus(db, user, Active) else refused)
      && ApproveUser(db, user, false)
         == (if HasStatus(db, user, PendingAdminApproval) then Outcome(db, Denied(InternalError)) else refused)
      && RejectUser(db, user)
         == (if HasStatus(db, user, PendingAdminApproval) then WithStatus(db, user, UserStatus.Rejected) else refused)
      && UnblockUser(db, user) == (if HasStatus(db, user, UserStatus.Blocked) then WithStatus(db, user, Active) else refused)
      && (HasStatus(db, user, Active) ==>
            && BlockUser(db, user, at).reply.Accepted?
            && BlockUser(db, user, at).db
               == WithStatus(db, user, UserStatus.Blocked).db.(tokens := BlockUser(db, user, at).db.tokens))
      && (!HasStatus(db, user, Active) ==> BlockUser(db, user, at) == refused)
  {
  }

  predicate HasStatus(db: Db, user: nat, status: UserStatus) { user in db.users && db.users[user].status == status }

  function WithStatus(db: Db, user: nat, status: UserStatus): Outcome
    requires user in db.users
  {
    Outcome(db.(users := db.users[user := db.users[user].(status := status)]), Accepted)
  }

  /** Signing out everywhere revokes exactly the user's live tokens, at this moment, and changes nothing else. */
  lemma LogoutAllRevokes(db: Db, user: nat, at: int)
    ensures var after := LogoutAll(db, user, at).db;
      && after == db.(tokens := after.tokens) && after.tokens.Keys == db.tokens.Keys
      && forall h :: h in db.tokens ==>
           after.tokens[h] == if db.tokens[h].user == user && db.tokens[h].revokedAt.None?
                              then db.tokens[h].(revokedAt := Some(at)) else db.tokens[h]
  {
  }

  // ---------- The life of a user ----------

  /** The accepted calls that concern a user's status. */
  datatype Event = Registered | Verified | Approved | Rejected | Blocked | Unblocked

  function EventOf(db: Db, c: Command, user: nat): Option<Event> {
    if !Perform(db, c).reply.Accepted? then None
    else
      match c
      case CallRegister(u, _, _, _, _) => if u == user then Some(Registered) else None
      case CallVerify(u, _, _) => if u == user then Some(Verified) else None
      case CallApprove(u, _, _) => if u == user then Some(Event.Approved) else None
      case CallReject(u, _) => if u == user then Some(Event.Rejected) else None
      case CallBlock(u, _) => if u == user then Some(Event.Blocked) else None
      case CallUnblock(u, _) => if u == user then Some(Unblocked) else None
      case _ => None
  }

  function History(commands: seq<Command>, user: nat): seq<Event> {
    if commands == [] then []
    else
      var before, c := commands[..|commands| - 1], commands[|commands| - 1];
      var event := EventOf(Run(EmptyDb(), before), c, user);
      History(before, user) + (if event.Some? then [event.value] else [])
  }

  /** Registered, verified, approved, and then blocked and unblocked any number of times. */
  predicate Admitted(history: seq<Event>) {
    history == [Registered, Verified, Event.Approved]
    || (|history| >= 2 && history[|history| - 2..] == [Event.Blocked, Unblocked] && Admitted(history[..|history| - 2]))
  }

  /** The one shape of history that each status stands for. */
  predicate Tells(history: seq<Event>, status: UserStatus) {
    match status
    case PendingEmailVerification => history == [Registered]
    case PendingAdminApproval => history == [Registered, Verified]
    case Rejected => history == [Registered, Verified, Event.Rejected]
    case Active => Admitted(history)
    case Blocked => history != [] && history[|history| - 1] == Event.Blocked && Admitted(history[..|history| - 1])
  }

  /** The statuses an accepted call leads from and to, by the name of the call; a user not yet there has none. */
  predicate Leads(from: Option<UserStatus>, event: Event, to: UserStatus) {
    match event
    case Registered => from.None? && to == PendingEmailVerification
    case Verified => from == Some(PendingEmailVerification) && to == PendingAdminApproval
    case Approved => from == Some(PendingAdminApproval) && to == Active
    case Rejected => from == Some(PendingAdminApproval) && to == UserStatus.Rejected
    case Blocked => from == Some(Active) && to == UserStatus.Blocked
    case Unblocked => from == Some(UserStatus.Blocked) && to == Active
  }

  function StatusOf(db: Db, user: nat): Option<UserStatus> {
    if user in db.users then Some(db.users[user].status) else None
  }

  predicate Told(history: seq<Event>, status: Option<UserStatus>) {
    if status.Some? then Tells(history, status.value) else history == []
  }

  lemma BlockTold(history: seq<Event>)
    requires Admitted(history)
    ensures Tells(history + [Event.Blocked], UserStatus.Blocked)
  {
    assert (history + [Event.Blocked])[..|history|] == history;
  }

  lemma UnblockTold(history: seq<Event>)
    requires Tells(history, UserStatus.Blocked)
    ensures Admitted(history + [Unblocked])
  {
    var after := history + [Unblocked];
    assert after[|after| - 2..] == [Event.Blocked, Unblocked];
    assert after[..|after| - 2] == history[..|history| - 1];
  }

  lemma LeadsTold(history: seq<Event>, from: Option<UserStatus>, event: Event, to: UserStatus)
    requires Told(history, from) && Leads(from, event, to)
    ensures Told(history + [event], Some(to))
  {
    if event.Blocked? {
      BlockTold(history);
    } else if event.Unblocked? {
      UnblockTold(history);
    } else if event.Registered? {
      assert history + [Registered] == [Registered];
    } else if event.Verified? {
      assert history + [Verified] == [Registered, Verified];
    } else {
      assert history + [event] == [Registered, Verified, event];
    }
  }

  lemma EventLeads(db: Db, c: Command, user: nat)
    ensures var event := EventOf(db, c, user);
      if event.None? then StatusOf(Step(db, c), user) == StatusOf(db, user)
      else user in Step(db, c).users && Leads(StatusOf(db, user), event.value, Step(db, c).users[user].status)
  {
  }

  /**
   * In every reachable state a user's status and the accepted calls tell the same story: nobody is ACTIVE who was not
   * registered, verified by code and approved by an administrator, each once, or whose last block was not lifted.
   */
  lemma {:induction false} StatusTellsHistory(commands: seq<Command>, user: nat)
    ensures Told(History(commands, user), StatusOf(Run(EmptyDb(), commands), user))
  {
    if commands != [] {
      var before, c := commands[..|commands| - 1], commands[|commands| - 1];
      var db, history := Run(EmptyDb(), before), History(before, user);
      StatusTellsHistory(before, user);
      EventLeads(db, c, user);
      hide Step;
      hide EventOf;
      hide Told;
      hide Leads;
      if EventOf(db, c, user).Some? {
        LeadsTold(history, StatusOf(db, user), EventOf(db, c, user).value, Step(db, c).users[user].status);
      } else {
        assert history + [] == history;
      }
    }
  }

  /** Whoever is handed a token was registered, verified and approved before, and is not blocked. */
  lemma TokensOnlyForAdmitted(commands: seq<Command>, c: Command)
    requires Perform(Run(EmptyDb(), commands), c).reply.Issued?
    ensures var user := Recipient(Run(EmptyDb(), commands), c);
      user.Some? && Admitted(History(commands, user.value))
  {
    OnlyActiveUsersGetTokens(Run(EmptyDb(), commands), c);
    StatusTellsHistory(commands, Recipient(Run(EmptyDb(), commands), c).value);
  }

  // ---------- Blocked users ----------

  predicate Unblocks(db: Db, c: Command, user: nat) {
    c.CallUnblock? && c.user == user && Perform(db, c).reply.Accepted?
  }

  predicate NeverUnblocked(db: Db, commands: seq<Command>, user: nat) {
    commands == []
    || (NeverUnblocked(db, commands[..|commands| - 1], user)
        && !Unblocks(Run(db, commands[..|commands| - 1]), commands[|commands| - 1], user))
  }

  lemma StaysBlocked(db: Db, c: Command, user: nat)
    requires user in db.users && db.users[user].status.Blocked? && !Unblocks(db, c, user)
    ensures user in Step(db, c).users && Step(db, c).users[user].status.Blocked?
  {
  }

  lemma {:induction false} StaysBlockedUntilUnblocked(db: Db, commands: seq<Command>, user: nat)
    requires user in db.users && db.users[user].status.Blocked? && NeverUnblocked(db, commands, user)
    ensures user in Run(db, commands).users && Run(db, commands).users[user].status.Blocked?
  {
    if commands != [] {
      var before := commands[..|commands| - 1];
      StaysBlockedUntilUnblocked(db, before, user);
      StaysBlocked(Run(db, before), commands[|commands| - 1], user);
    }
  }

  /** From an accepted block until the next accepted unblock no call hands the user a token. */
  lemma NoTokenWhileBlocked(db: Db, user: nat, at: int, commands: seq<Command>, c: Command)
    requires BlockUser(db, user, at).reply.Accepted? && NeverUnblocked(BlockUser(db, user, at).db, commands, user)
    requires Recipient(Run(BlockUser(db, user, at).db, commands), c) == Some(user)
    ensures Perform(Run(BlockUser(db, user, at).db, commands), c).reply.Denied?
  {
    var blocked := BlockUser(db, user, at).db;
    StaysBlockedUntilUnblocked(blocked, commands, user);
    if Perform(Run(blocked, commands), c).reply.Issued? {
      OnlyActiveUsersGetTokens(Run(blocked, commands), c);
    }
  }

  // ---------- Passwords ----------

  /** The password that a call sets for the user, if it is accepted. */
  function SetsPassword(c: Command, user: nat): Option<nat> {
    match c
    case CallRegister(u, password, _, _, _) => if u == user then Some(password) else None
    case CallChangePassword(u, _, next, _) => if u == user then Some(next) else None
    case CallReset(u, _, next, _) => if u == user then Some(next) else None
    case _ => None
  }

  /** The password that the last accepted registration, change or reset of the user set. */
  function LastPassword(commands: seq<Command>, user: nat): Option<nat> {
    if commands == [] then None
    else
      var before, c := commands[..|commands| - 1], commands[|commands| - 1];
      if Perform(Run(EmptyDb(), before), c).reply.Accepted? && SetsPassword(c, user).Some? then SetsPassword(c, user)
      else LastPassword(before, user)
  }

  lemma StepSetsPassword(db: Db, c: Command, user: nat)
    ensures var next := SetsPassword(c, user);
      if Perform(db, c).reply.Accepted? && next.Some?
      then user in Step(db, c).users && Step(db, c).users[user].password == next.value
      else (user in Step(db, c).users <==> user in db.users)
           && (user in db.users ==> Step(db, c).users[user].password == db.users[user].password)
  {
  }

  lemma {:induction false} PasswordIsLastSet(commands: seq<Command>, user: nat)
    ensures var db := Run(EmptyDb(), commands);
      LastPassword(commands, user) == if user in db.users then Some(db.users[user].password) else None
  {
    if commands != [] {
      var before := commands[..|commands| - 1];
      PasswordIsLastSet(before, user);
      StepSetsPassword(Run(EmptyDb(), before), commands[|commands| - 1], user);
      hide Step;
      hide Perform;
    }
  }

  /** In every reachable state a granted login shows the password set last, and that password is never refused as wrong. */
  lemma LoginTakesLastPassword(
      commands: seq<Command>, user: nat, password: nat, hash: nat, family: nat, now: int, ttl: nat)
    ensures var db := Run(EmptyDb(), commands);
      var reply := Login(db, user, password, hash, family, now, ttl).reply;
      && (reply.Issued? ==> LastPassword(commands, user) == Some(password))
      && (LastPassword(commands, user) == Some(password) ==> reply != Denied(Unauthorized))
  {
    PasswordIsLastSet(commands, user);
    LoginExactlyWhen(Run(EmptyDb(), commands), user, password, hash, family, now, ttl);
  }

  /** Only the current password changes the password. */
  lemma ChangeExactlyWhen(db: Db, user: nat, current: nat, next: nat, now: int)
    ensures var outcome := ChangePassword(db, user, current, next, now);
      && (outcome.reply.Accepted? <==> user in db.users && db.users[user].password == current)
      && (!outcome.reply.Accepted? ==>
            outcome == Outcome(db, Denied(if user in db.users then BadRequest else Unauthorized)))
      && (outcome.reply.Accepted? ==>
            outcome.db == db.(users := db.users[user := db.users[user].(password := next)], tokens := outcome.db.tokens))
  {
  }

  // ---------- Reset tokens ----------

  function OpenReset(user: nat, hash: nat): Reset -> int {
    (r: Reset) => if r.user == user && r.hash == hash && !r.consumed then 1 else 0
  }

  /** The call stored one more reset token of the user with this hash. */
  predicate IssuesReset(db: Db, c: Command, user: nat, hash: nat) {
    c.CallForgot? && c.user == user && c.hash == hash && |Step(db, c).resets| > |db.resets|
  }

  predicate UsesReset(db: Db, c: Command, user: nat, hash: nat) {
    c.CallReset? && c.user == user && c.hash == hash && Perform(db, c).reply.Accepted?
  }

  function IssuedResets(commands: seq<Command>, user: nat, hash: nat): nat {
    if commands == [] then 0
    else
      var before := commands[..|commands| - 1];
      IssuedResets(before, user, hash)
      + (if IssuesReset(Run(EmptyDb(), before), commands[|commands| - 1], user, hash) then 1 else 0)
  }

  function UsedResets(commands: seq<Command>, user: nat, hash: nat): nat {
    if commands == [] then 0
    else
      var before := commands[..|commands| - 1];
      UsedResets(before, user, hash)
      + (if UsesReset(Run(EmptyDb(), before), commands[|commands| - 1], user, hash) then 1 else 0)
  }

  lemma StepCountsResets(db: Db, c: Command, user: nat, hash: nat)
    ensures Sum(Step(db, c).resets, OpenReset(user, hash))
            == Sum(db.resets, OpenReset(user, hash)) + (if IssuesReset(db, c, user, hash) then 1 else 0)
               - (if UsesReset(db, c, user, hash) then 1 else 0)
  {
    var next := Step(db, c);
    if c.CallForgot? && next.resets != db.resets {
      SumSnoc(db.resets, next.resets[|db.resets|], OpenReset(user, hash));
    } else if c.CallReset? && Perform(db, c).reply.Accepted? {
      var i := FindReset(db.resets, c.user, c.hash);
      SumUpdate(db.resets, i, next.resets[i], OpenReset(user, hash));
    } else {
      OthersKeepResets(db, c);
      hide Step;
      hide Perform;
    }
  }

  lemma OthersKeepResets(db: Db, c: Command)
    requires c.CallForgot? ==> Step(db, c).resets == db.resets
    requires c.CallReset? ==> !Perform(db, c).reply.Accepted?
    ensures Step(db, c).resets == db.resets
  {
  }

  /** Every reset token is used at most once: the used and the open ones are together those that were issued. */
  lemma {:induction false} ResetsAreUsedOnce(commands: seq<Command>, user: nat, hash: nat)
    ensures UsedResets(commands, user, hash) + Sum(Run(EmptyDb(), commands).resets, OpenReset(user, hash))
            == IssuedResets(commands, user, hash)
  {
    if commands != [] {
      var before := commands[..|commands| - 1];
      ResetsAreUsedOnce(before, user, hash);
      StepCountsResets(Run(EmptyDb(), before), commands[|commands| - 1], user, hash);
    }
  }

  lemma NoOpenReset(resets: seq<Reset>, user: nat, hash: nat)
    requires Sum(resets, OpenReset(user, hash)) <= 0
    ensures FindReset(resets, user, hash) == |resets|
  {
    var i := FindReset(resets, user, hash);
    if i < |resets| {
      SumSplit(resets, i, OpenReset(user, hash));
      SumNonNegative(resets[..i], OpenReset(user, hash));
      SumNonNegative(resets[i + 1..], OpenReset(user, hash));
    }
  }

  /** A token issued once resets one password; from then on it is refused. */
  lemma ResetTokenWorksOnce(commands: seq<Command>, user: nat, hash: nat, next: nat, now: int)
    requires UsedResets(commands, user, hash) >= IssuedResets(commands, user, hash)
    ensures ResetPassword(Run(EmptyDb(), commands), user, hash, next, now)
            == Outcome(Run(EmptyDb(), commands), Denied(BadRequest))
  {
    ResetsAreUsedOnce(commands, user, hash);
    NoOpenReset(Run(EmptyDb(), commands).resets, user, hash);
  }

  // ---------- How long codes and reset tokens live ----------

  /** Codes live a quarter of an hour, reset tokens half an hour, and those of one user are at least a minute apart. */
  predicate Lifetimes(db: Db) {
    && (forall i :: 0 <= i < |db.codes| ==> db.codes[i].expiresAt == db.codes[i].createdAt + 15 * 60 * 1000)
    && (forall i :: 0 <= i < |db.resets| ==> db.resets[i].expiresAt == db.resets[i].createdAt + 30 * 60 * 1000)
    && (forall i, j :: 0 <= i < j < |db.codes| && db.codes[i].user == db.codes[j].user ==>
          db.codes[i].createdAt + 60 * 1000 <= db.codes[j].createdAt)
    && (forall i, j :: 0 <= i < j < |db.resets| && db.resets[i].user == db.resets[j].user ==>
          db.resets[i].createdAt + 60 * 1000 <= db.resets[j].createdAt)
  }

  /** What a call does to the codes and reset tokens: it sends one, or at most marks them. */
  lemma StepOnCodes(db: Db, c: Command)
    ensures SameTimes(db, Step(db, c))
            || ((c.CallRegister? || c.CallResend?) && Perform(db, c).reply.Accepted?)
            || (c.CallForgot? && Step(db, c).resets != db.resets)
  {
  }

  predicate SameTimes(db: Db, db': Db) {
    && |db'.codes| == |db.codes| && |db'.resets| == |db.resets|
    && (forall i :: 0 <= i < |db.codes| ==>
          && db'.codes[i].user == db.codes[i].user && db'.codes[i].createdAt == db.codes[i].createdAt
          && db'.codes[i].expiresAt == db.codes[i].expiresAt)
    && (forall i :: 0 <= i < |db.resets| ==>
          && db'.resets[i].user == db.resets[i].user && db'.resets[i].createdAt == db.resets[i].createdAt
          && db'.resets[i].expiresAt == db.resets[i].expiresAt)
  }

  lemma CodeSent(db: Db, c: Command)
    requires Verification.CodesInv(db) && (c.CallRegister? || c.CallResend?) && Perform(db, c).reply.Accepted?
    ensures Step(db, c).resets == db.resets && Step(db, c).codes == WithNewCode(db.codes, c.user, c.hash, c.now)
    ensures var i := Newest(db.codes, CodeOwner(), c.user);
      i < |db.codes| ==> db.codes[i].createdAt + 60 * 1000 <= c.now
  {
    hide WithNewCode;
  }

  lemma ResetSent(db: Db, c: Command)
    requires c.CallForgot? && Step(db, c).resets != db.resets
    ensures Step(db, c).codes == db.codes
    ensures Step(db, c).resets == db.resets + [Reset(c.user, c.hash, c.now, c.now + 30 * 60 * 1000, false)]
    ensures var i := Newest(db.resets, ResetOwner(), c.user);
      i < |db.resets| ==> db.resets[i].createdAt + 60 * 1000 <= c.now
  {
  }

  lemma StepKeepsLifetimes(db: Db, c: Command)
    requires Lifetimes(db) && Verification.CodesInv(db)
    ensures Lifetimes(Step(db, c))
  {
    hide Step;
    hide Perform;
    hide Newest;
    hide WithNewCode;
    StepOnCodes(db, c);
    if (c.CallRegister? || c.CallResend?) && Perform(db, c).reply.Accepted? {
      CodeSent(db, c);
      NewCodeLives(db, Step(db, c), c.user, c.hash, c.now);
    } else if c.CallForgot? && Step(db, c).resets != db.resets {
      ResetSent(db, c);
      NewResetLives(db, Step(db, c), c.user, c.hash, c.now);
    }
  }

  lemma NewResetLives(db: Db, db': Db, user: nat, hash: nat, now: int)
    requires Lifetimes(db) && db'.codes == db.codes
    requires db'.resets == db.resets + [Reset(user, hash, now, now + 30 * 60 * 1000, false)]
    requires var i := Newest(db.resets, ResetOwner(), user);
      i < |db.resets| ==> db.resets[i].createdAt + 60 * 1000 <= now
    ensures Lifetimes(db')
  {
    NewestRests(db.resets, user, now);
  }

  lemma NewCodeLives(db: Db, db': Db, user: nat, hash: nat, now: int)
    requires Lifetimes(db) && db'.resets == db.resets && db'.codes == WithNewCode(db.codes, user, hash, now)
    requires var i := Newest(db.codes, CodeOwner(), user);
      i < |db.codes| ==> db.codes[i].createdAt + 60 * 1000 <= now
    ensures Lifetimes(db')
  {
    var codes := db.codes;
    assert forall i :: 0 <= i < |codes| ==> db'.codes[i] == ConsumeAll(user)(codes[i]);
    forall i | 0 <= i < |codes|
      ensures db'.codes[i].user == codes[i].user && db'.codes[i].createdAt == codes[i].createdAt
      ensures db'.codes[i].expiresAt == codes[i].expiresAt
      ensures codes[i].user == user ==> codes[i].createdAt + 60 * 1000 <= now
    {
      var newest := Newest(codes, CodeOwner(), user);
      assert CodeOwner()(codes[i]) == codes[i].user;
    }
    hide WithNewCode;
    hide Newest;
  }

  lemma {:induction false} LifetimesHold(commands: seq<Command>)
    ensures Lifetimes(Run(EmptyDb(), commands))
  {
    if commands != [] {
      LifetimesHold(commands[..|commands| - 1]);
      Verification.RunKeepsCodes(EmptyDb(), commands[..|commands| - 1]);
      StepKeepsLifetimes(Run(EmptyDb(), commands[..|commands| - 1]), commands[|commands| - 1]);
    }
  }

  /** An unused code of the user that is not expired and not guessed at too often. */
  predicate Opens(c: Code, user: nat, hash: nat, now: int) {
    c.user == user && c.hash == hash && !c.consumed && now <= c.createdAt + 15 * 60 * 1000 && c.attempts < 5
  }

  /** In every reachable state an email is verified exactly by an unused code of the user, sent in the last 15 minutes. */
  lemma VerifyExactlyWhen(commands: seq<Command>, user: nat, hash: nat, now: int)
    ensures var db := Run(EmptyDb(), commands);
      VerifyEmail(db, user, hash, now).reply.Accepted? <==>
        && user in db.users && db.users[user].status.PendingEmailVerification?
        && exists i :: 0 <= i < |db.codes| && Opens(db.codes[i], user, hash, now)
  {
    var db := Run(EmptyDb(), commands);
    LifetimesHold(commands);
    Verification.RunKeepsCodes(EmptyDb(), commands);
    if i :| 0 <= i < |db.codes| && Opens(db.codes[i], user, hash, now) {
      assert i == NewestOpen(db.codes, user);
    }
  }

  /** What a refused verification answers, and that it writes at most one counted guess. */
  lemma VerifyRefusal(commands: seq<Command>, user: nat, hash: nat, now: int)
    ensures var db := Run(EmptyDb(), commands);
      var outcome, i := VerifyEmail(db, user, hash, now), NewestOpen(db.codes, user);
      !outcome.reply.Accepted? ==>
        if user !in db.users then outcome == Outcome(db, Denied(BadRequest))
        else if !db.users[user].status.PendingEmailVerification? then outcome == Outcome(db, Denied(Conflict))
        else if i == |db.codes| || db.codes[i].createdAt + 15 * 60 * 1000 < now
        then outcome == Outcome(db, Denied(BadRequest))
        else if db.codes[i].attempts >= 5 then outcome == Outcome(db, Denied(Forbidden))
        else
          && outcome.reply == Denied(BadRequest) && db.codes[i].hash != hash
          && outcome.db == db.(codes := db.codes[i := db.codes[i].(attempts := db.codes[i].attempts + 1)])
  {
    LifetimesHold(commands);
    hide Run;
    hide NewestOpen;
  }

  predicate Resets(r: Reset, user: nat, hash: nat, now: int) {
    r.user == user && r.hash == hash && !r.consumed && now <= r.createdAt + 30 * 60 * 1000
  }

  /** A password is reset only by an unused token of the user, sent in the last 30 minutes, which is used up by it. */
  lemma ResetNeedsToken(commands: seq<Command>, user: nat, hash: nat, next: nat, now: int) returns (i: nat)
    requires ResetPassword(Run(EmptyDb(), commands), user, hash, next, now).reply.Accepted?
    ensures var db := Run(EmptyDb(), commands);
      var after := ResetPassword(db, user, hash, next, now).db;
      && user in db.users && i < |db.resets| && Resets(db.resets[i], user, hash, now)
      && after.resets == db.resets[i := db.resets[i].(consumed := true)]
      && after.users == db.users[user := db.users[user].(password := next)]
  {
    LifetimesHold(commands);
    i := FindReset(Run(EmptyDb(), commands).resets, user, hash);
  }

  /** A refused reset tells nothing but that, and writes nothing. */
  lemma ResetRefusal(db: Db, user: nat, hash: nat, next: nat, now: int)
    requires !ResetPassword(db, user, hash, next, now).reply.Accepted?
    ensures ResetPassword(db, user, hash, next, now) == Outcome(db, Denied(BadRequest))
  {
  }

  /** And it is reset by any such token, if the user has no other one with this hash. */
  lemma ResetTakesToken(commands: seq<Command>, user: nat, hash: nat, next: nat, now: int, i: nat)
    requires user in Run(EmptyDb(), commands).users && i < |Run(EmptyDb(), commands).resets|
    requires Resets(Run(EmptyDb(), commands).resets[i], user, hash, now)
    requires forall k :: 0 <= k < |Run(EmptyDb(), commands).resets| && k != i ==>
      Run(EmptyDb(), commands).resets[k].user != user || Run(EmptyDb(), commands).resets[k].hash != hash
    ensures ResetPassword(Run(EmptyDb(), commands), user, hash, next, now).reply.Accepted?
  {
    LifetimesHold(commands);
    assert FindReset(Run(EmptyDb(), commands).resets, user, hash) == i;
  }

  /** In every reachable state a code is sent again exactly to an unverified user, a minute after the last one. */
  lemma ResendExactlyWhen(commands: seq<Command>, user: nat, hash: nat, now: int)
    ensures var db := Run(EmptyDb(), commands);
      var outcome := ResendVerification(db, user, hash, now);
      && (outcome.reply.Accepted? <==>
            && user in db.users && db.users[user].status.PendingEmailVerification?
            && forall i :: 0 <= i < |db.codes| && db.codes[i].user == user ==> db.codes[i].createdAt + 60 * 1000 <= now)
      && (if outcome.reply.Accepted? then
            outcome.db == db.(codes := outcome.db.codes) && SendsCode(db, outcome.db, user, hash, now)
          else
            outcome == Outcome(db, Denied(
              if user !in db.users then BadRequest
              else if !db.users[user].status.PendingEmailVerification? then Conflict else TooManyRequests)))
  {
    LifetimesHold(commands);
    var db := Run(EmptyDb(), commands);
    var i := Newest(db.codes, CodeOwner(), user);
    assert forall k :: 0 <= k < |db.codes| && db.codes[k].user == user && k != i ==>
        k < i && db.codes[k].createdAt + 60 * 1000 <= db.codes[i].createdAt;
  }

  predicate RestedAMinute(resets: seq<Reset>, user: nat, now: int) {
    forall i :: 0 <= i < |resets| && resets[i].user == user ==> resets[i].createdAt + 60 * 1000 <= now
  }

  /** A reset token is stored exactly for a user that was not rejected, a minute after the last one; the answer is one. */
  lemma ForgotExactlyWhen(commands: seq<Command>, user: nat, hash: nat, now: int)
    ensures var db := Run(EmptyDb(), commands);
      var outcome := ForgotPassword(db, user, hash, now);
      && outcome.reply == Accepted
      && outcome.db.resets == (
           if user in db.users && !db.users[user].status.Rejected? && RestedAMinute(db.resets, user, now)
           then db.resets + [Reset(user, hash, now, now + 30 * 60 * 1000, false)] else db.resets)
      && outcome.db == db.(resets := outcome.db.resets)
  {
    LifetimesHold(commands);
    NewestRests(Run(EmptyDb(), commands).resets, user, now);
    ForgotByNewest(Run(EmptyDb(), commands), user, hash, now);
    hide *;
  }

  lemma ForgotByNewest(db: Db, user: nat, hash: nat, now: int)
    ensures var outcome, i := ForgotPassword(db, user, hash, now), Newest(db.resets, ResetOwner(), user);
      && outcome.reply == Accepted && outcome.db == db.(resets := outcome.db.resets)
      && outcome.db.resets == (
           if user in db.users && !db.users[user].status.Rejected?
              && (i == |db.resets| || db.resets[i].createdAt + 60 * 1000 <= now)
           then db.resets + [Reset(user, hash, now, now + 30 * 60 * 1000, false)] else db.resets)
  {
  }

  /** The newest reset token decides, because the others are older. */
  lemma NewestRests(resets: seq<Reset>, user: nat, now: int)
    requires forall i, j :: 0 <= i < j < |resets| && resets[i].user == resets[j].user ==>
      resets[i].createdAt + 60 * 1000 <= resets[j].createdAt
    ensures var i := Newest(resets, ResetOwner(), user);
      RestedAMinute(resets, user, now) <==> i == |resets| || resets[i].createdAt + 60 * 1000 <= now
  {
    var i := Newest(resets, ResetOwner(), user);
    forall k | 0 <= k < |resets| && resets[k].user == user && k != i
      ensures i < |resets| && resets[k].createdAt <= resets[i].createdAt
    {
      assert ResetOwner()(resets[k]) == user;
    }
  }

  // ---------- Everybody else ----------

  /** The user whose row a call may change. */
  function Subject(c: Command): Option<nat> {
    match c
    case CallRefresh(_, _, _, _) => None
    case CallLogout(_, _) => None
    case _ => Some(c.user)
  }

  lemma OthersUntouched(db: Db, c: Command, user: nat)
    requires Subject(c) != Some(user)
    ensures user in Step(db, c).users <==> user in db.users
    ensures user in db.users ==> Step(db, c).users[user] == db.users[user]
  {
  }
}
