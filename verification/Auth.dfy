/**
 * Users, refresh tokens, verification codes and reset tokens, with the operations of the
 * authentication and user administration services. Each operation is one atomic step.
 * Passwords, tokens and codes are opaque values; a stored hash stands for its value.
 */
module Auth {
  import opened Folds

  const EMAIL_CODE_TTL_MS := 900_000
  const EMAIL_RESEND_COOLDOWN_MS := 60_000
  const MAX_VERIFY_ATTEMPTS := 5
  const PASSWORD_RESET_TTL_MS := 1_800_000
  const MAX_FAILED_LOGIN_ATTEMPTS := 5
  const LOGIN_LOCK_MS := 900_000

  datatype UserStatus = PendingEmailVerification | PendingAdminApproval | Active | Blocked | Rejected

  datatype User = User(password: nat, status: UserStatus, failedLoginAttempts: nat, lockedUntil: Option<int>)

  datatype Token = Token(user: nat, family: nat, expiresAt: int, revokedAt: Option<int>, replacedBy: Option<nat>)

  datatype Code = Code(user: nat, hash: nat, createdAt: int, expiresAt: int, consumed: bool, attempts: nat)

  datatype Reset = Reset(user: nat, hash: nat, createdAt: int, expiresAt: int, consumed: bool)

  /** tokens is keyed by token hash (unique); codes and resets are in order of creation. */
  datatype Db = Db(users: map<nat, User>, tokens: map<nat, Token>, codes: seq<Code>, resets: seq<Reset>)

  function EmptyDb(): Db { Db(map[], map[], [], []) }

  datatype Denial = Unauthorized | Forbidden | BadRequest | Conflict | TooManyRequests | NotFound | InternalError

  datatype Reply = Accepted | Issued(hash: nat) | Denied(denial: Denial)

  /** A refused call may still have written: a counted failure, a revoked family. */
  datatype Outcome = Outcome(db: Db, reply: Reply)

  // ---------- Tokens ----------

  /** UPDATE refresh_tokens SET revokedAt = now WHERE which AND revokedAt IS NULL. */
  function Revoke(tokens: map<nat, Token>, which: Token -> bool, now: int): map<nat, Token> {
    map h | h in tokens :: if which(tokens[h]) && tokens[h].revokedAt.None?
                           then tokens[h].(revokedAt := Some(now)) else tokens[h]
  }

  function OfFamily(family: nat): Token -> bool { (t: Token) => t.family == family }

  function OfUser(user: nat): Token -> bool { (t: Token) => t.user == user }

  predicate MayLogIn(status: UserStatus) { status.Active? }

  function Refresh(db: Db, hash: nat, newHash: nat, now: int, ttl: nat): Outcome {
    if hash !in db.tokens then Outcome(db, Denied(Unauthorized))
    else
      var existing := db.tokens[hash];
      if existing.revokedAt.Some? then
        Outcome(db.(tokens := Revoke(db.tokens, OfFamily(existing.family), now)), Denied(Unauthorized))
      else if existing.expiresAt < now then Outcome(db, Denied(Unauthorized))
      else if existing.user !in db.users then Outcome(db, Denied(Unauthorized))
      else if !MayLogIn(db.users[existing.user].status) then Outcome(db, Denied(Forbidden))
      else if newHash in db.tokens then Outcome(db, Denied(InternalError))
      else
        var rotated := existing.(revokedAt := Some(now), replacedBy := Some(newHash));
        var issued := Token(existing.user, existing.family, now + ttl, None, None);
        Outcome(db.(tokens := db.tokens[hash := rotated][newHash := issued]), Issued(newHash))
  }

  function Logout(db: Db, hash: nat, now: int): Outcome {
    if hash in db.tokens && db.tokens[hash].revokedAt.None?
    then Outcome(db.(tokens := db.tokens[hash := db.tokens[hash].(revokedAt := Some(now))]), Accepted)
    else Outcome(db, Accepted)
  }

  function LogoutAll(db: Db, user: nat, now: int): Outcome {
    Outcome(db.(tokens := Revoke(db.tokens, OfUser(user), now)), Accepted)
  }

  /** Position of the newest row that belongs to the user, or |rows|: rows are in order of creation. */
  function Newest<T>(rows: seq<T>, owner: T -> nat, user: nat): (i: nat)
    ensures i <= |rows|
    ensures i < |rows| ==> owner(rows[i]) == user && forall k :: i < k < |rows| ==> owner(rows[k]) != user
    ensures i == |rows| ==> forall k :: 0 <= k < |rows| ==> owner(rows[k]) != user
  {
    if rows == [] then 0
    else if owner(rows[|rows| - 1]) == user then |rows| - 1
    else
      var i := Newest(rows[..|rows| - 1], owner, user);
      if i < |rows| - 1 then i else |rows|
  }

  // ---------- Passwords and login ----------

  predicate LockedOut(u: User, now: int) { u.lockedUntil.Some? && u.lockedUntil.value > now }

  function AfterFailure(u: User, now: int): User {
    var attempts := u.failedLoginAttempts + 1;
    var lockedUntil := if attempts >= MAX_FAILED_LOGIN_ATTEMPTS then Some(now + LOGIN_LOCK_MS) else None;
    u.(failedLoginAttempts := if lockedUntil.Some? then 0 else attempts, lockedUntil := lockedUntil)
  }

  function Login(db: Db, user: nat, password: nat, hash: nat, family: nat, now: int, ttl: nat): Outcome {
    if user !in db.users then Outcome(db, Denied(Unauthorized))
    else
      var u := db.users[user];
      if LockedOut(u, now) then Outcome(db, Denied(Forbidden))
      else if password != u.password then
        Outcome(db.(users := db.users[user := AfterFailure(u, now)]), Denied(Unauthorized))
      else if !MayLogIn(u.status) then Outcome(db, Denied(Forbidden))
      else
        var reset := db.(users := db.users[user := u.(failedLoginAttempts := 0, lockedUntil := None)]);
        if hash in db.tokens then Outcome(reset, Denied(InternalError))
        else Outcome(reset.(tokens := db.tokens[hash := Token(user, family, now + ttl, None, None)]), Issued(hash))
  }

  function ChangePassword(db: Db, user: nat, current: nat, next: nat, now: int): Outcome {
    if user !in db.users then Outcome(db, Denied(Unauthorized))
    else if current != db.users[user].password then Outcome(db, Denied(BadRequest))
    else
      Outcome(db.(users := db.users[user := db.users[user].(password := next)],
                  tokens := Revoke(db.tokens, OfUser(user), now)), Accepted)
  }

  function ResetOwner(): Reset -> nat { (r: Reset) => r.user }

  /** The same answer whether or not the account exists. */
  function ForgotPassword(db: Db, user: nat, hash: nat, now: int): Outcome {
    if user !in db.users || db.users[user].status.Rejected? then Outcome(db, Accepted)
    else
      var i := Newest(db.resets, ResetOwner(), user);
      if i < |db.resets| && now - db.resets[i].createdAt < EMAIL_RESEND_COOLDOWN_MS then Outcome(db, Accepted)
      else Outcome(db.(resets := db.resets + [Reset(user, hash, now, now + PASSWORD_RESET_TTL_MS, false)]), Accepted)
  }

  predicate Unlocks(r: Reset, user: nat, hash: nat) { r.user == user && r.hash == hash && !r.consumed }

  /** Position of an unconsumed reset token of the user with this hash, or |resets|. */
  function FindReset(resets: seq<Reset>, user: nat, hash: nat): (i: nat)
    ensures i <= |resets|
    ensures i < |resets| ==> Unlocks(resets[i], user, hash)
    ensures i == |resets| ==> forall k :: 0 <= k < |resets| ==> !Unlocks(resets[k], user, hash)
  {
    if resets == [] then 0
    else
      if Unlocks(resets[|resets| - 1], user, hash) then |resets| - 1
      else
        var i := FindReset(resets[..|resets| - 1], user, hash);
        if i < |resets| - 1 then i else |resets|
  }

  function ResetPassword(db: Db, user: nat, hash: nat, next: nat, now: int): Outcome {
    if user !in db.users then Outcome(db, Denied(BadRequest))
    else
      var i := FindReset(db.resets, user, hash);
      if i == |db.resets| || db.resets[i].expiresAt < now then Outcome(db, Denied(BadRequest))
      else
        Outcome(db.(resets := db.resets[i := db.resets[i].(consumed := true)],
                    users := db.users[user := db.users[user].(password := next)],
                    tokens := Revoke(db.tokens, OfUser(user), now)), Accepted)
  }

  // ---------- Registration and verification ----------

  /** UPDATE ... SET consumedAt WHERE userId = user AND consumedAt IS NULL. */
  function ConsumeAll(user: nat): Code -> Code {
    (c: Code) => if c.user == user then c.(consumed := true) else c
  }

  function WithNewCode(codes: seq<Code>, user: nat, hash: nat, now: int): seq<Code> {
    Map(codes, ConsumeAll(user)) + [Code(user, hash, now, now + EMAIL_CODE_TTL_MS, false, 0)]
  }

  /** How the rest of a registration goes: the three photos, the seeded role, the stored files and profile. */
  datatype Registration = Registration(photosGiven: bool, roleSeeded: bool, profileStored: bool)

  function Register(db: Db, user: nat, password: nat, rest: Registration, hash: nat, now: int): Outcome {
    if user in db.users then Outcome(db, Denied(Conflict))
    else if !rest.photosGiven then Outcome(db, Denied(BadRequest))
    else if !rest.roleSeeded then Outcome(db, Denied(InternalError))
    else if !rest.profileStored then Outcome(db, Denied(InternalError))
    else
      Outcome(db.(users := db.users[user := User(password, PendingEmailVerification, 0, None)],
                  codes := WithNewCode(db.codes, user, hash, now)), Accepted)
  }

  function CodeOwner(): Code -> nat { (c: Code) => c.user }

  predicate IsOpen(c: Code, user: nat) { c.user == user && !c.consumed }

  /** Position of the user's newest unconsumed code, or |codes|. */
  function NewestOpen(codes: seq<Code>, user: nat): (i: nat)
    ensures i <= |codes|
    ensures i < |codes| ==> IsOpen(codes[i], user) && forall k :: i < k < |codes| ==> !IsOpen(codes[k], user)
    ensures i == |codes| ==> forall k :: 0 <= k < |codes| ==> !IsOpen(codes[k], user)
  {
    if codes == [] then 0
    else if IsOpen(codes[|codes| - 1], user) then |codes| - 1
    else
      var i := NewestOpen(codes[..|codes| - 1], user);
      if i < |codes| - 1 then i else |codes|
  }

  function VerifyEmail(db: Db, user: nat, hash: nat, now: int): Outcome {
    if user !in db.users then Outcome(db, Denied(BadRequest))
    else if !db.users[user].status.PendingEmailVerification? then Outcome(db, Denied(Conflict))
    else
      var i := NewestOpen(db.codes, user);
      if i == |db.codes| then Outcome(db, Denied(BadRequest))
      else if db.codes[i].expiresAt < now then Outcome(db, Denied(BadRequest))
      else if db.codes[i].attempts >= MAX_VERIFY_ATTEMPTS then Outcome(db, Denied(Forbidden))
      else if db.codes[i].hash != hash then
        Outcome(db.(codes := db.codes[i := db.codes[i].(attempts := db.codes[i].attempts + 1)]), Denied(BadRequest))
      else
        Outcome(db.(codes := db.codes[i := db.codes[i].(consumed := true)],
                    users := db.users[user := db.users[user].(status := PendingAdminApproval)]), Accepted)
  }

  function ResendVerification(db: Db, user: nat, hash: nat, now: int): Outcome {
    if user !in db.users then Outcome(db, Denied(BadRequest))
    else if !db.users[user].status.PendingEmailVerification? then Outcome(db, Denied(Conflict))
    else
      var i := Newest(db.codes, CodeOwner(), user);
      if i < |db.codes| && now - db.codes[i].createdAt < EMAIL_RESEND_COOLDOWN_MS
      then Outcome(db, Denied(TooManyRequests))
      else Outcome(db.(codes := WithNewCode(db.codes, user, hash, now)), Accepted)
  }

  // ---------- Administration ----------

  function MoveUser(db: Db, user: nat, from: UserStatus, to: UserStatus): Outcome {
    if user !in db.users then Outcome(db, Denied(NotFound))
    else if db.users[user].status != from then Outcome(db, Denied(Conflict))
    else Outcome(db.(users := db.users[user := db.users[user].(status := to)]), Accepted)
  }

  /** Approval also stores the employee; when that fails the whole transaction is rolled back. */
  function ApproveUser(db: Db, user: nat, employeeStored: bool): Outcome {
    var moved := MoveUser(db, user, PendingAdminApproval, Active);
    if moved.reply.Denied? || employeeStored then moved else Outcome(db, Denied(InternalError))
  }

  function RejectUser(db: Db, user: nat): Outcome { MoveUser(db, user, PendingAdminApproval, Rejected) }

  function UnblockUser(db: Db, user: nat): Outcome { MoveUser(db, user, Blocked, Active) }

  function BlockUser(db: Db, user: nat, now: int): Outcome {
    var moved := MoveUser(db, user, Active, Blocked);
    if moved.reply.Denied? then moved
    else moved.(db := moved.db.(tokens := Revoke(moved.db.tokens, OfUser(user), now)))
  }

  // ---------- The services ----------

  class AuthStore {
    var db: Db

    constructor ()
      ensures db == EmptyDb()
    {
      db := EmptyDb();
    }
  }

  class AuthService {
    const store: AuthStore

    constructor (store: AuthStore)
      ensures this.store == store
    {
      this.store := store;
    }

    method RegisterUser(user: nat, password: nat, rest: Registration, hash: nat, now: int) returns (reply: Reply)
      modifies store
      ensures Outcome(store.db, reply) == Register(old(store.db), user, password, rest, hash, now)
    {
      if user in store.db.users {
        return Denied(Conflict);
      }
      if !rest.photosGiven {
        return Denied(BadRequest);
      }
      if !rest.roleSeeded {
        return Denied(InternalError);
      }
      var begun := store.db;
      store.db := store.db.(users := store.db.users[user := User(password, PendingEmailVerification, 0, None)]);
      if !rest.profileStored {
        store.db := begun;
        return Denied(InternalError);
      }
      CreateVerificationCode(user, hash, now);
      reply := Accepted;
    }

    /** Consumes every open code of the user, then stores the new one. */
    method CreateVerificationCode(user: nat, hash: nat, now: int)
      modifies store
      ensures store.db == old(store.db).(codes := WithNewCode(old(store.db).codes, user, hash, now))
    {
      var i := 0;
      var codes := store.db.codes;
      while i < |codes|
        invariant 0 <= i <= |codes| == |store.db.codes|
        invariant forall k :: 0 <= k < i ==> codes[k] == ConsumeAll(user)(store.db.codes[k])
        invariant forall k :: i <= k < |codes| ==> codes[k] == store.db.codes[k]
      {
        if codes[i].user == user && !codes[i].consumed {
          codes := codes[i := codes[i].(consumed := true)];
        }
        i := i + 1;
      }
      assert codes == Map(store.db.codes, ConsumeAll(user));
      store.db := store.db.(codes := codes);
      store.db := store.db.(codes := store.db.codes + [Code(user, hash, now, now + EMAIL_CODE_TTL_MS, false, 0)]);
    }

    method Verify(user: nat, hash: nat, now: int) returns (reply: Reply)
      modifies store
      ensures Outcome(store.db, reply) == VerifyEmail(old(store.db), user, hash, now)
    {
      if user !in store.db.users {
        return Denied(BadRequest);
      }
      if !store.db.users[user].status.PendingEmailVerification? {
        return Denied(Conflict);
      }
      var i := NewestOpen(store.db.codes, user);
      if i == |store.db.codes| {
        return Denied(BadRequest);
      }
      var token := store.db.codes[i];
      if token.expiresAt < now {
        return Denied(BadRequest);
      }
      if token.attempts >= MAX_VERIFY_ATTEMPTS {
        return Denied(Forbidden);
      }
      if token.hash != hash {
        store.db := store.db.(codes := store.db.codes[i := token.(attempts := token.attempts + 1)]);
        return Denied(BadRequest);
      }
      store.db := store.db.(codes := store.db.codes[i := token.(consumed := true)]);
      store.db := store.db.(users := store.db.users[user := store.db.users[user].(status := PendingAdminApproval)]);
      reply := Accepted;
    }

    method Resend(user: nat, hash: nat, now: int) returns (reply: Reply)
      modifies store
      ensures Outcome(store.db, reply) == ResendVerification(old(store.db), user, hash, now)
    {
      if user !in store.db.users {
        return Denied(BadRequest);
      }
      if !store.db.users[user].status.PendingEmailVerification? {
        return Denied(Conflict);
      }
      var i := Newest(store.db.codes, CodeOwner(), user);
      if i < |store.db.codes| && now - store.db.codes[i].createdAt < EMAIL_RESEND_COOLDOWN_MS {
        return Denied(TooManyRequests);
      }
      CreateVerificationCode(user, hash, now);
      reply := Accepted;
    }

    method LogIn(user: nat, password: nat, hash: nat, family: nat, now: int, ttl: nat) returns (reply: Reply)
      modifies store
      ensures Outcome(store.db, reply) == Login(old(store.db), user, password, hash, family, now, ttl)
    {
      if user !in store.db.users {
        return Denied(Unauthorized);
      }
      var u := store.db.users[user];
      if u.lockedUntil.Some? && u.lockedUntil.value > now {
        return Denied(Forbidden);
      }
      if password != u.password {
        RegisterFailedLogin(user, now);
        return Denied(Unauthorized);
      }
      if !MayLogIn(u.status) {
        return Denied(Forbidden);
      }
      u := u.(failedLoginAttempts := 0, lockedUntil := None);
      store.db := store.db.(users := store.db.users[user := u]);
      if hash in store.db.tokens {
        return Denied(InternalError);
      }
      store.db := store.db.(tokens := store.db.tokens[hash := Token(user, family, now + ttl, None, None)]);
      reply := Issued(hash);
    }

    method RegisterFailedLogin(user: nat, now: int)
      requires user in store.db.users
      modifies store
      ensures store.db == old(store.db).(users :=
                old(store.db).users[user := AfterFailure(old(store.db).users[user], now)])
    {
      var u := store.db.users[user];
      var attempts := u.failedLoginAttempts + 1;
      var lockedUntil: Option<int> := None;
      if attempts >= MAX_FAILED_LOGIN_ATTEMPTS {
        lockedUntil := Some(now + LOGIN_LOCK_MS);
        attempts := 0;
      }
      store.db := store.db.(users :=
        store.db.users[user := u.(failedLoginAttempts := attempts, lockedUntil := lockedUntil)]);
    }

    method RefreshSession(hash: nat, newHash: nat, now: int, ttl: nat) returns (reply: Reply)
      modifies store
      ensures Outcome(store.db, reply) == Refresh(old(store.db), hash, newHash, now, ttl)
    {
      if hash !in store.db.tokens {
        return Denied(Unauthorized);
      }
      var existing := store.db.tokens[hash];
      if existing.revokedAt.Some? {
        store.db := store.db.(tokens := Revoke(store.db.tokens, OfFamily(existing.family), now));
        return Denied(Unauthorized);
      }
      if existing.expiresAt < now {
        return Denied(Unauthorized);
      }
      if existing.user !in store.db.users {
        return Denied(Unauthorized);
      }
      if !MayLogIn(store.db.users[existing.user].status) {
        return Denied(Forbidden);
      }
      var begun := store.db;
      var rotated := existing.(revokedAt := Some(now), replacedBy := Some(newHash));
      store.db := store.db.(tokens := store.db.tokens[hash := rotated]);
      if newHash in store.db.tokens {
        store.db := begun;
        return Denied(InternalError);
      }
      var issued := Token(existing.user, existing.family, now + ttl, None, None);
      store.db := store.db.(tokens := store.db.tokens[newHash := issued]);
      reply := Issued(newHash);
    }

    method LogOut(hash: nat, now: int)
      modifies store
      ensures store.db == Logout(old(store.db), hash, now).db
    {
      if hash in store.db.tokens && store.db.tokens[hash].revokedAt.None? {
        var revoked := store.db.tokens[hash].(revokedAt := Some(now));
        store.db := store.db.(tokens := store.db.tokens[hash := revoked]);
      }
    }

    method LogOutEverywhere(user: nat, now: int)
      modifies store
      ensures store.db == LogoutAll(old(store.db), user, now).db
    {
      store.db := store.db.(tokens := Revoke(store.db.tokens, OfUser(user), now));
    }

    method NewPassword(user: nat, current: nat, next: nat, now: int) returns (reply: Reply)
      modifies store
      ensures Outcome(store.db, reply) == ChangePassword(old(store.db), user, current, next, now)
    {
      if user !in store.db.users {
        return Denied(Unauthorized);
      }
      if current != store.db.users[user].password {
        return Denied(BadRequest);
      }
      store.db := store.db.(users := store.db.users[user := store.db.users[user].(password := next)]);
      LogOutEverywhere(user, now);
      reply := Accepted;
    }

    method Forgot(user: nat, hash: nat, now: int) returns (reply: Reply)
      modifies store
      ensures Outcome(store.db, reply) == ForgotPassword(old(store.db), user, hash, now)
    {
      reply := Accepted;
      if user !in store.db.users || store.db.users[user].status.Rejected? {
        return;
      }
      var i := Newest(store.db.resets, ResetOwner(), user);
      if i < |store.db.resets| && now - store.db.resets[i].createdAt < EMAIL_RESEND_COOLDOWN_MS {
        return;
      }
      store.db := store.db.(resets := store.db.resets + [Reset(user, hash, now, now + PASSWORD_RESET_TTL_MS, false)]);
    }

    method ResetWithToken(user: nat, hash: nat, next: nat, now: int) returns (reply: Reply)
      modifies store
      ensures Outcome(store.db, reply) == ResetPassword(old(store.db), user, hash, next, now)
    {
      if user !in store.db.users {
        return Denied(BadRequest);
      }
      var i := FindReset(store.db.resets, user, hash);
      if i == |store.db.resets| || store.db.resets[i].expiresAt < now {
        return Denied(BadRequest);
      }
      store.db := store.db.(resets := store.db.resets[i := store.db.resets[i].(consumed := true)]);
      store.db := store.db.(users := store.db.users[user := store.db.users[user].(password := next)]);
      store.db := store.db.(tokens := Revoke(store.db.tokens, OfUser(user), now));
      reply := Accepted;
    }
  }

  class UsersService {
    const store: AuthStore

    constructor (store: AuthStore)
      ensures this.store == store
    {
      this.store := store;
    }

    method Approve(user: nat, employeeStored: bool) returns (reply: Reply)
      modifies store
      ensures Outcome(store.db, reply) == ApproveUser(old(store.db), user, employeeStored)
    {
      var begun := store.db;
      reply := Move(user, PendingAdminApproval, Active);
      if reply.Accepted? && !employeeStored {
        store.db := begun;
        reply := Denied(InternalError);
      }
    }

    method Reject(user: nat) returns (reply: Reply)
      modifies store
      ensures Outcome(store.db, reply) == RejectUser(old(store.db), user)
    {
      reply := Move(user, PendingAdminApproval, Rejected);
    }

    method Unblock(user: nat) returns (reply: Reply)
      modifies store
      ensures Outcome(store.db, reply) == UnblockUser(old(store.db), user)
    {
      reply := Move(user, Blocked, Active);
    }

    method Block(user: nat, now: int) returns (reply: Reply)
      modifies store
      ensures Outcome(store.db, reply) == BlockUser(old(store.db), user, now)
    {
      reply := Move(user, Active, Blocked);
      if reply.Accepted? {
        store.db := store.db.(tokens := Revoke(store.db.tokens, OfUser(user), now));
      }
    }

    /** The locked read, the check and the save that all four share. */
    method Move(user: nat, from: UserStatus, to: UserStatus) returns (reply: Reply)
      modifies store
      ensures Outcome(store.db, reply) == MoveUser(old(store.db), user, from, to)
    {
      if user !in store.db.users {
        return Denied(NotFound);
      }
      var u := store.db.users[user];
      if u.status != from {
        return Denied(Conflict);
      }
      store.db := store.db.(users := store.db.users[user := u.(status := to)]);
      reply := Accepted;
    }
  }

  // ---------- Runs ----------

  datatype Command =
    | CallRegister(user: nat, password: nat, rest: Registration, hash: nat, now: int)
    | CallVerify(user: nat, hash: nat, now: int)
    | CallResend(user: nat, hash: nat, now: int)
    | CallLogin(user: nat, password: nat, hash: nat, family: nat, now: int, ttl: nat)
    | CallRefresh(hash: nat, newHash: nat, now: int, ttl: nat)
    | CallLogout(hash: nat, now: int)
    | CallLogoutAll(user: nat, now: int)
    | CallChangePassword(user: nat, current: nat, next: nat, now: int)
    | CallForgot(user: nat, hash: nat, now: int)
    | CallReset(user: nat, hash: nat, next: nat, now: int)
    | CallApprove(user: nat, employeeStored: bool, now: int)
    | CallReject(user: nat, now: int)
    | CallBlock(user: nat, now: int)
    | CallUnblock(user: nat, now: int)

  function Perform(db: Db, c: Command): Outcome {
    match c
    case CallRegister(user, password, rest, hash, now) => Register(db, user, password, rest, hash, now)
    case CallVerify(user, hash, now) => VerifyEmail(db, user, hash, now)
    case CallResend(user, hash, now) => ResendVerification(db, user, hash, now)
    case CallLogin(user, password, hash, family, now, ttl) => Login(db, user, password, hash, family, now, ttl)
    case CallRefresh(hash, newHash, now, ttl) => Refresh(db, hash, newHash, now, ttl)
    case CallLogout(hash, now) => Logout(db, hash, now)
    case CallLogoutAll(user, now) => LogoutAll(db, user, now)
    case CallChangePassword(user, current, next, now) => ChangePassword(db, user, current, next, now)
    case CallForgot(user, hash, now) => ForgotPassword(db, user, hash, now)
    case CallReset(user, hash, next, now) => ResetPassword(db, user, hash, next, now)
    case CallApprove(user, employeeStored, _) => ApproveUser(db, user, employeeStored)
    case CallReject(user, _) => RejectUser(db, user)
    case CallBlock(user, now) => BlockUser(db, user, now)
    case CallUnblock(user, _) => UnblockUser(db, user)
  }

  function Step(db: Db, c: Command): Db { Perform(db, c).db }

  function Run(db: Db, commands: seq<Command>): Db {
    if commands == [] then db
    else Step(Run(db, commands[..|commands| - 1]), commands[|commands| - 1])
  }

  lemma {:induction false} RunConcat(db: Db, a: seq<Command>, b: seq<Command>)
    ensures Run(db, a + b) == Run(Run(db, a), b)
  {
    if b == [] {
      assert a + b == a;
    } else {
      assert (a + b)[..|a + b| - 1] == a + b[..|b| - 1];
      RunConcat(db, a, b[..|b| - 1]);
    }
  }

  function Last(from: int, commands: seq<Command>): int {
    if commands == [] then from else commands[|commands| - 1].now
  }

  /** The clock does not go back, and the run starts no earlier than this moment. */
  predicate Clocked(from: int, commands: seq<Command>) {
    commands == []
    || (Clocked(from, commands[..|commands| - 1])
        && Last(from, commands[..|commands| - 1]) <= commands[|commands| - 1].now)
  }

  lemma {:induction false} ClockedConcat(from: int, a: seq<Command>, b: seq<Command>)
    ensures Last(from, a + b) == Last(Last(from, a), b)
    ensures Clocked(from, a + b) <==> Clocked(from, a) && Clocked(Last(from, a), b)
  {
    if b == [] {
      assert a + b == a;
    } else {
      assert (a + b)[..|a + b| - 1] == a + b[..|b| - 1];
      ClockedConcat(from, a, b[..|b| - 1]);
    }
  }

  /** The same call, so many times. */
  function Repeat(c: Command, times: nat): (commands: seq<Command>)
    ensures |commands| == times
  {
    if times == 0 then [] else Repeat(c, times - 1) + [c]
  }

  lemma {:induction false} ClockedRepeat(from: int, c: Command, times: nat)
    requires from <= c.now
    ensures Clocked(from, Repeat(c, times)) && Last(from, Repeat(c, times)) == if times == 0 then from else c.now
  {
    if times > 0 {
      ClockedRepeat(from, c, times - 1);
    }
  }
}
