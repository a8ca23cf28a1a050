/**
 * Rotation of refresh tokens over whole runs: one chain per family, one live token at its end,
 * and no way back for a token once it was revoked.
 */
module Sessions {
  import opened Folds
  import opened Auth

  // ---------- Fresh families ----------

  /** A login draws a random family identifier, so no stored token carries it yet. */
  predicate FreshFamily(db: Db, c: Command) {
    c.CallLogin? ==> !UsedFamily(db, c.family)
  }

  predicate UsedFamily(db: Db, family: nat) {
    exists h :: h in db.tokens && db.tokens[h].family == family
  }

  predicate FreshRun(db: Db, commands: seq<Command>) {
    commands == []
    || (FreshRun(db, commands[..|commands| - 1])
        && FreshFamily(Run(db, commands[..|commands| - 1]), commands[|commands| - 1]))
  }

  lemma {:induction false} FreshRunConcat(db: Db, a: seq<Command>, b: seq<Command>)
    requires FreshRun(db, a + b)
    ensures FreshRun(db, a) && FreshRun(Run(db, a), b)
  {
    if b == [] {
      assert a + b == a;
    } else {
      assert (a + b)[..|a + b| - 1] == a + b[..|b| - 1];
      FreshRunConcat(db, a, b[..|b| - 1]);
      RunConcat(db, a, b[..|b| - 1]);
    }
  }

  // ---------- Revocation only grows ----------

  predicate Revoked(db: Db, h: nat) { h in db.tokens && db.tokens[h].revokedAt.Some? }

  /** What never changes about a stored token, and that a revocation stays with its time. */
  predicate SameToken(a: Token, b: Token) {
    && b.user == a.user && b.family == a.family && b.expiresAt == a.expiresAt
    && (a.revokedAt.Some? ==> b == a)
  }

  /** No row appears, no link is written: at most some rows became revoked. */
  predicate OnlyRevokes(a: map<nat, Token>, b: map<nat, Token>) {
    && a.Keys == b.Keys
    && forall h :: h in a ==> SameToken(a[h], b[h]) && b[h].replacedBy == a[h].replacedBy
  }

  lemma RevokeOnlyRevokes(tokens: map<nat, Token>, which: Token -> bool, now: int)
    ensures OnlyRevokes(tokens, Revoke(tokens, which, now))
  {
  }

  lemma RefusedRefreshOnlyRevokes(db: Db, c: Command)
    requires c.CallRefresh? && !Perform(db, c).reply.Issued?
    ensures OnlyRevokes(db.tokens, Step(db, c).tokens)
  {
    if Revoked(db, c.hash) {
      RevokeOnlyRevokes(db.tokens, OfFamily(db.tokens[c.hash].family), c.now);
    }
  }

  /** Apart from a granted login or refresh, no call adds or links a token. */
  lemma OthersOnlyRevoke(db: Db, c: Command)
    requires !Perform(db, c).reply.Issued?
    ensures OnlyRevokes(db.tokens, Step(db, c).tokens)
  {
    if c.CallRefresh? {
      RefusedRefreshOnlyRevokes(db, c);
    } else if c.CallLogoutAll? || c.CallChangePassword? || c.CallReset? || c.CallBlock? {
      RevokeOnlyRevokes(db.tokens, OfUser(c.user), c.now);
    }
  }

  lemma StepKeepsTokens(db: Db, c: Command, h: nat)
    requires h in db.tokens
    ensures h in Step(db, c).tokens && SameToken(db.tokens[h], Step(db, c).tokens[h])
  {
    if !Perform(db, c).reply.Issued? {
      OthersOnlyRevoke(db, c);
    }
  }

  /** Rows of refresh_tokens are never deleted; owner, family and expiry never change; a revoked row is final. */
  lemma {:induction false} RunKeepsTokens(db: Db, commands: seq<Command>, h: nat)
    requires h in db.tokens
    ensures h in Run(db, commands).tokens && SameToken(db.tokens[h], Run(db, commands).tokens[h])
  {
    if commands != [] {
      RunKeepsTokens(db, commands[..|commands| - 1], h);
      StepKeepsTokens(Run(db, commands[..|commands| - 1]), commands[|commands| - 1], h);
    }
  }

  /** A revoked token is refused at every later moment, whatever happens in between. */
  lemma RevokedIsRefusedForever(db: Db, commands: seq<Command>, h: nat, newHash: nat, now: int, ttl: nat)
    requires Revoked(db, h)
    ensures Refresh(Run(db, commands), h, newHash, now, ttl).reply == Denied(Unauthorized)
  {
    RunKeepsTokens(db, commands, h);
  }

  // ---------- One chain per family ----------

  /** Per family, the hashes handed out so far, in order: what an observer of the replies writes down. */
  function Note(log: map<nat, seq<nat>>, db: Db, c: Command): map<nat, seq<nat>> {
    match Perform(db, c).reply
    case Issued(hash) =>
      (match c
       case CallLogin(_, _, _, family, _, _) => log[family := [hash]]
       case CallRefresh(shown, _, _, _) =>
         if shown in db.tokens && db.tokens[shown].family in log
         then log[db.tokens[shown].family := log[db.tokens[shown].family] + [hash]]
         else log
       case _ => log)
    case _ => log
  }

  function IssueLog(commands: seq<Command>): map<nat, seq<nat>> {
    if commands == [] then map[]
    else
      var before := commands[..|commands| - 1];
      Note(IssueLog(before), Run(EmptyDb(), before), commands[|commands| - 1])
  }

  /** The stored rows of a family are exactly the chain, each but the last revoked and linked to the next. */
  predicate IsChain(tokens: map<nat, Token>, family: nat, chain: seq<nat>) {
    && chain != []
    && (forall h :: h in tokens && tokens[h].family == family ==> h in chain)
    && (forall i :: 0 <= i < |chain| ==> chain[i] in tokens && tokens[chain[i]].family == family)
    && (forall i, j :: 0 <= i < j < |chain| ==> chain[i] != chain[j])
    && (forall i :: 0 <= i < |chain| ==> tokens[chain[i]].user == tokens[chain[0]].user)
    && (forall i :: 0 <= i < |chain| - 1 ==> Replaced(tokens, chain, i))
    && tokens[chain[|chain| - 1]].replacedBy == None
  }

  predicate Replaced(tokens: map<nat, Token>, chain: seq<nat>, i: nat)
    requires i + 1 < |chain| && chain[i] in tokens
  {
    tokens[chain[i]].revokedAt.Some? && tokens[chain[i]].replacedBy == Some(chain[i + 1])
  }

  predicate Chained(db: Db, log: map<nat, seq<nat>>) {
    && (forall h :: h in db.tokens ==> db.tokens[h].family in log)
    && (forall f :: f in log ==> IsChain(db.tokens, f, log[f]))
  }

  lemma RevokingKeepsChain(a: map<nat, Token>, b: map<nat, Token>, f: nat, chain: seq<nat>)
    requires OnlyRevokes(a, b) && IsChain(a, f, chain)
    ensures IsChain(b, f, chain)
  {
    assert forall i :: 0 <= i < |chain| - 1 ==> Replaced(a, chain, i) ==> Replaced(b, chain, i);
  }

  lemma RevokingKeepsChains(a: Db, b: Db, log: map<nat, seq<nat>>)
    requires Chained(a, log) && OnlyRevokes(a.tokens, b.tokens)
    ensures Chained(b, log)
  {
    forall f | f in log
      ensures IsChain(b.tokens, f, log[f])
    {
      RevokingKeepsChain(a.tokens, b.tokens, f, log[f]);
    }
  }

  /** A granted login adds one row; a granted refresh revokes and links one row and adds its successor. */
  predicate Adds(a: map<nat, Token>, b: map<nat, Token>, h: nat, t: Token) {
    h !in a && t.replacedBy.None? && b == a[h := t]
  }

  predicate Rotates(a: map<nat, Token>, b: map<nat, Token>, h: nat, n: nat, rotated: Token, t: Token) {
    && h in a && n !in a && a[h].revokedAt.None?
    && rotated.user == t.user == a[h].user && rotated.family == t.family == a[h].family
    && rotated.revokedAt.Some? && rotated.replacedBy == Some(n) && t.replacedBy.None?
    && b == a[h := rotated][n := t]
  }

  lemma IssuedShape(db: Db, c: Command) returns (rotated: Token, t: Token)
    requires Perform(db, c).reply.Issued?
    ensures c.CallLogin? || c.CallRefresh?
    ensures c.CallLogin? ==> Adds(db.tokens, Step(db, c).tokens, c.hash, t) && t.family == c.family && t.user == c.user
                             && Perform(db, c).reply.hash == c.hash
    ensures c.CallRefresh? ==> Rotates(db.tokens, Step(db, c).tokens, c.hash, c.newHash, rotated, t)
                               && Perform(db, c).reply.hash == c.newHash
  {
    if c.CallLogin? {
      t := Token(c.user, c.family, c.now + c.ttl, None, None);
      rotated := t;
    } else {
      t := Token(db.tokens[c.hash].user, db.tokens[c.hash].family, c.now + c.ttl, None, None);
      rotated := db.tokens[c.hash].(revokedAt := Some(c.now), replacedBy := Some(c.newHash));
    }
  }

  predicate SameRowsOf(a: map<nat, Token>, b: map<nat, Token>, f: nat) {
    && (forall h :: h in a && a[h].family == f ==> h in b && b[h] == a[h])
    && (forall h :: h in b && b[h].family == f ==> h in a && a[h] == b[h])
  }

  lemma SameRowsSameChain(a: map<nat, Token>, b: map<nat, Token>, f: nat, chain: seq<nat>)
    requires SameRowsOf(a, b, f) && IsChain(a, f, chain)
    ensures IsChain(b, f, chain)
  {
    assert forall i :: 0 <= i < |chain| ==> chain[i] in b && b[chain[i]] == a[chain[i]];
    assert forall i :: 0 <= i < |chain| - 1 ==> Replaced(a, chain, i) ==> Replaced(b, chain, i);
  }

  lemma RotatingExtendsChain(
      a: map<nat, Token>, b: map<nat, Token>, h: nat, n: nat, rotated: Token, t: Token, f: nat, chain: seq<nat>)
    requires Rotates(a, b, h, n, rotated, t) && IsChain(a, f, chain) && t.family == f
    ensures chain[|chain| - 1] == h
    ensures IsChain(b, f, chain + [n])
  {
    var last := |chain| - 1;
    var i :| 0 <= i < |chain| && chain[i] == h;
    assert i < last ==> Replaced(a, chain, i);
    var next := chain + [n];
    forall k | 0 <= k < |next| - 1
      ensures Replaced(b, next, k)
    {
      if k < last {
        assert next[k] != h && Replaced(a, chain, k);
      }
    }
    forall g | g in b && b[g].family == f
      ensures g in next
    {
      if g != n {
        assert g in chain;
      }
    }
  }

  lemma AddingSparesOthers(a: map<nat, Token>, b: map<nat, Token>, h: nat, t: Token, f: nat)
    requires Adds(a, b, h, t) && t.family != f
    ensures SameRowsOf(a, b, f)
  {
  }

  lemma RotatingSparesOthers(a: map<nat, Token>, b: map<nat, Token>, h: nat, n: nat, rotated: Token, t: Token, f: nat)
    requires Rotates(a, b, h, n, rotated, t) && t.family != f
    ensures SameRowsOf(a, b, f)
  {
  }

  lemma LoginKeepsChain(
      a: map<nat, Token>, b: map<nat, Token>, h: nat, t: Token, f: nat, log: map<nat, seq<nat>>, after: seq<nat>)
    requires Adds(a, b, h, t) && forall g :: g in a ==> a[g].family != t.family
    requires f != t.family ==> f in log && IsChain(a, f, log[f])
    requires after == if f == t.family then [h] else log[f]
    ensures IsChain(b, f, after)
  {
    if f != t.family {
      AddingSparesOthers(a, b, h, t, f);
      SameRowsSameChain(a, b, f, log[f]);
    }
  }

  lemma LoginKeepsChains(db: Db, next: Db, h: nat, t: Token, log: map<nat, seq<nat>>)
    requires Chained(db, log) && Adds(db.tokens, next.tokens, h, t) && !UsedFamily(db, t.family)
    ensures Chained(next, log[t.family := [h]])
  {
    var after := log[t.family := [h]];
    forall f | f in after
      ensures IsChain(next.tokens, f, after[f])
    {
      LoginKeepsChain(db.tokens, next.tokens, h, t, f, log, after[f]);
    }
  }

  /** The chain of one family after a refresh, given what the log says about it afterwards. */
  lemma RefreshKeepsChain(
      a: map<nat, Token>, b: map<nat, Token>, h: nat, n: nat, rotated: Token, t: Token, f: nat,
      chain: seq<nat>, after: seq<nat>)
    requires Rotates(a, b, h, n, rotated, t) && IsChain(a, f, chain)
    requires after == if f == t.family then chain + [n] else chain
    ensures IsChain(b, f, after)
  {
    if f == t.family {
      RotatingExtendsChain(a, b, h, n, rotated, t, f, chain);
    } else {
      RotatingSparesOthers(a, b, h, n, rotated, t, f);
      SameRowsSameChain(a, b, f, chain);
    }
  }

  lemma RefreshKeepsChains(db: Db, next: Db, h: nat, n: nat, rotated: Token, t: Token, log: map<nat, seq<nat>>)
    requires Chained(db, log) && Rotates(db.tokens, next.tokens, h, n, rotated, t)
    ensures t.family in log && Chained(next, log[t.family := log[t.family] + [n]])
  {
    var after := log[t.family := log[t.family] + [n]];
    forall f | f in after
      ensures IsChain(next.tokens, f, after[f])
    {
      RefreshKeepsChain(db.tokens, next.tokens, h, n, rotated, t, f, log[f], after[f]);
    }
  }

  /** In every reachable state the links in the table spell out the order in which the tokens were handed out. */
  lemma {:induction false} RotationChains(commands: seq<Command>)
    requires FreshRun(EmptyDb(), commands)
    ensures Chained(Run(EmptyDb(), commands), IssueLog(commands))
  {
    if commands != [] {
      var before, c := commands[..|commands| - 1], commands[|commands| - 1];
      RotationChains(before);
      var db, log := Run(EmptyDb(), before), IssueLog(before);
      if !Perform(db, c).reply.Issued? {
        OthersOnlyRevoke(db, c);
        RevokingKeepsChains(db, Step(db, c), log);
      } else {
        var rotated, t := IssuedShape(db, c);
        if c.CallLogin? {
          LoginKeepsChains(db, Step(db, c), c.hash, t, log);
        } else {
          RefreshKeepsChains(db, Step(db, c), c.hash, c.newHash, rotated, t, log);
        }
      }
    }
  }

  /** At most one token of a family is unrevoked, and it is the newest one handed out. */
  lemma OneLiveTokenPerFamily(commands: seq<Command>, h: nat)
    requires FreshRun(EmptyDb(), commands)
    ensures var db, log := Run(EmptyDb(), commands), IssueLog(commands);
            h in db.tokens && !Revoked(db, h) ==>
              var family := db.tokens[h].family;
              && family in log && log[family] != [] && h == log[family][|log[family]| - 1]
              && (forall g :: g in db.tokens && db.tokens[g].family == family && g != h ==> Revoked(db, g))
  {
    RotationChains(commands);
    var db := Run(EmptyDb(), commands);
    if h in db.tokens && !Revoked(db, h) {
      OneLiveInChain(db.tokens, db.tokens[h].family, IssueLog(commands)[db.tokens[h].family], h);
    }
  }

  lemma OneLiveInChain(tokens: map<nat, Token>, f: nat, chain: seq<nat>, h: nat)
    requires IsChain(tokens, f, chain) && h in tokens && tokens[h].family == f && tokens[h].revokedAt.None?
    ensures h == chain[|chain| - 1]
    ensures forall g :: g in tokens && tokens[g].family == f && g != h ==> tokens[g].revokedAt.Some?
  {
    forall g | g in tokens && tokens[g].family == f
      ensures g == chain[|chain| - 1] || tokens[g].revokedAt.Some?
    {
      var i :| 0 <= i < |chain| && chain[i] == g;
      assert i < |chain| - 1 ==> Replaced(tokens, chain, i);
    }
  }

  // ---------- Reuse ends the family ----------

  /** The family has tokens and every one of them is revoked. */
  predicate DeadFamily(db: Db, family: nat) {
    && UsedFamily(db, family)
    && forall h :: h in db.tokens && db.tokens[h].family == family ==> Revoked(db, h)
  }

  predicate NoNewTokens(a: Db, b: Db, family: nat) {
    forall h :: h in b.tokens && b.tokens[h].family == family ==> h in a.tokens && a.tokens[h].family == family
  }

  lemma DeadFamilyStays(db: Db, c: Command, family: nat)
    requires DeadFamily(db, family) && FreshFamily(db, c)
    ensures DeadFamily(Step(db, c), family) && NoNewTokens(db, Step(db, c), family)
  {
    var w :| w in db.tokens && db.tokens[w].family == family;
    StepKeepsTokens(db, c, w);
    if Perform(db, c).reply.Issued? {
      var _, _ := IssuedShape(db, c);
    } else {
      OthersOnlyRevoke(db, c);
    }
  }

  lemma {:induction false} DeadFamilyStaysDead(db: Db, commands: seq<Command>, family: nat)
    requires DeadFamily(db, family) && FreshRun(db, commands)
    ensures DeadFamily(Run(db, commands), family) && NoNewTokens(db, Run(db, commands), family)
  {
    if commands != [] {
      var before := Run(db, commands[..|commands| - 1]);
      DeadFamilyStaysDead(db, commands[..|commands| - 1], family);
      DeadFamilyStays(before, commands[|commands| - 1], family);
      assert Run(db, commands) == Step(before, commands[|commands| - 1]);
    }
  }

  /**
   * Presenting a revoked token revokes its family for good: in every continuation the family gains
   * no token and each of its tokens is refused.
   */
  lemma ReuseEndsFamily(db: Db, h: nat, newHash: nat, now: int, ttl: nat, commands: seq<Command>)
    requires Revoked(db, h)
    requires FreshRun(Refresh(db, h, newHash, now, ttl).db, commands)
    ensures var family := db.tokens[h].family;
            var later := Run(Refresh(db, h, newHash, now, ttl).db, commands);
            && DeadFamily(later, family)
            && NoNewTokens(db, later, family)
            && forall g, n, t, l :: g in later.tokens && later.tokens[g].family == family
                                    ==> Refresh(later, g, n, t, l) == Outcome(later, Denied(Unauthorized))
  {
    var family := db.tokens[h].family;
    var after := Refresh(db, h, newHash, now, ttl).db;
    assert h in after.tokens && after.tokens[h].family == family;
    DeadFamilyStaysDead(after, commands, family);
    var later := Run(after, commands);
    forall g, n: nat, t: int, l: nat | g in later.tokens && later.tokens[g].family == family
      ensures Refresh(later, g, n, t, l) == Outcome(later, Denied(Unauthorized))
    {
      DeadTokensAreRefused(later, family, g, n, t, l);
    }
  }

  lemma DeadTokensAreRefused(db: Db, family: nat, g: nat, newHash: nat, now: int, ttl: nat)
    requires DeadFamily(db, family) && g in db.tokens && db.tokens[g].family == family
    ensures Refresh(db, g, newHash, now, ttl) == Outcome(db, Denied(Unauthorized))
  {
    assert Revoke(db.tokens, OfFamily(family), now) == db.tokens;
  }

  lemma RunOne(db: Db, c: Command)
    ensures Run(db, [c]) == Step(db, c)
    ensures FreshRun(db, [c]) <==> FreshFamily(db, c)
  {
    assert [c][..0] == [];
    assert Run(db, []) == db;
  }

  /** What a run over two calls with others between and after them does, step by step. */
  lemma RunInParts(db: Db, first: Command, between: seq<Command>, second: Command, after: seq<Command>)
    ensures var reached := Run(Step(db, first), between);
      Run(db, [first] + between + [second] + after) == Run(Step(reached, second), after)
  {
    RunConcat(db, [first] + between + [second], after);
    RunConcat(db, [first] + between, [second]);
    RunConcat(db, [first], between);
    RunOne(db, first);
    RunOne(Run(Step(db, first), between), second);
  }

  lemma FreshInParts(db: Db, first: Command, between: seq<Command>, second: Command, after: seq<Command>)
    requires FreshRun(db, [first] + between + [second] + after)
    ensures var reached := Run(Step(db, first), between);
      FreshRun(Step(reached, second), after)
  {
    FreshRunConcat(db, [first] + between + [second], after);
    RunConcat(db, [first] + between, [second]);
    RunConcat(db, [first], between);
    RunOne(db, first);
    RunOne(Run(Step(db, first), between), second);
  }

  lemma RotatedIsRevoked(db: Db, c: Command)
    requires c.CallRefresh? && Perform(db, c).reply.Issued?
    ensures c.hash in db.tokens && Revoked(Step(db, c), c.hash)
    ensures Step(db, c).tokens[c.hash].family == db.tokens[c.hash].family
  {
  }

  /** Two parties hold the same token: once the second has presented it too, nothing descended from it works. */
  lemma SharedTokenEndsBoth(
      db: Db, first: Command, between: seq<Command>, second: Command, after: seq<Command>, g: nat, again: Command)
    requires first.CallRefresh? && second.CallRefresh? && first.hash == second.hash
    requires Perform(db, first).reply.Issued?
    requires FreshRun(db, [first] + between + [second] + after)
    requires var end := Run(db, [first] + between + [second] + after);
             && g in end.tokens && end.tokens[g].family == db.tokens[first.hash].family
             && again.CallRefresh? && again.hash == g
    ensures Perform(Run(db, [first] + between + [second] + after), again).reply == Denied(Unauthorized)
  {
    var rotated := Step(db, first);
    var reached := Run(rotated, between);
    RunInParts(db, first, between, second, after);
    FreshInParts(db, first, between, second, after);
    RotatedIsRevoked(db, first);
    RunKeepsTokens(rotated, between, first.hash);
    ReuseEndsFamily(reached, second.hash, second.newHash, second.now, second.ttl, after);
  }

  // ---------- Signing a user out ----------

  /** The calls that end every session of a user: blocking, logging out everywhere, a new password. */
  predicate EndsSessions(db: Db, c: Command, user: nat) {
    && Perform(db, c).reply.Accepted?
    && match c
       case CallLogoutAll(u, _) => u == user
       case CallChangePassword(u, _, _, _) => u == user
       case CallReset(u, _, _, _) => u == user
       case CallBlock(u, _) => u == user
       case _ => false
  }

  /** A token the user held before such a call is refused in every continuation, also after an unblock. */
  lemma EndedSessionsNeverReturn(
      db: Db, c: Command, user: nat, commands: seq<Command>, h: nat, newHash: nat, now: int, ttl: nat)
    requires EndsSessions(db, c, user)
    requires h in db.tokens && db.tokens[h].user == user
    ensures Refresh(Run(Step(db, c), commands), h, newHash, now, ttl).reply == Denied(Unauthorized)
  {
    assert Revoked(Step(db, c), h);
    RevokedIsRefusedForever(Step(db, c), commands, h, newHash, now, ttl);
  }

  /** The k-th call is a granted login of the user that opened this family. */
  predicate OpensFamily(start: Db, commands: seq<Command>, k: nat, user: nat, family: nat)
    requires k < |commands|
  {
    && commands[k].CallLogin? && commands[k].user == user && commands[k].family == family
    && Perform(Run(start, commands[..k]), commands[k]).reply.Issued?
  }

  /** A live token after the step was live already, or was handed out by it: to a login, or for a live token. */
  lemma WhereLiveTokensComeFrom(db: Db, c: Command, h: nat) returns (source: nat)
    requires h in Step(db, c).tokens && !Revoked(Step(db, c), h)
    ensures var t := Step(db, c).tokens[h];
            || (c.CallLogin? && Perform(db, c).reply.Issued? && t.user == c.user && t.family == c.family)
            || (source in db.tokens && !Revoked(db, source)
                && db.tokens[source].user == t.user && db.tokens[source].family == t.family)
  {
    if h in db.tokens {
      StepKeepsTokens(db, c, h);
      source := h;
    } else if Perform(db, c).reply.Issued? {
      var _, _ := IssuedShape(db, c);
      source := if c.CallRefresh? then c.hash else h;
    } else {
      OthersOnlyRevoke(db, c);
      assert false;
    }
  }

  /** Whatever of the user works after such a call descends from a login granted after it. */
  lemma {:induction false} LiveTokensComeFromNewLogins(db: Db, c: Command, user: nat, commands: seq<Command>, h: nat)
    requires EndsSessions(db, c, user)
    requires h in Run(Step(db, c), commands).tokens && Run(Step(db, c), commands).tokens[h].user == user
    requires !Revoked(Run(Step(db, c), commands), h)
    ensures exists k :: 0 <= k < |commands|
                        && OpensFamily(Step(db, c), commands, k, user, Run(Step(db, c), commands).tokens[h].family)
  {
    var start := Step(db, c);
    if commands == [] {
      OthersOnlyRevoke(db, c);
      assert false;
    } else {
      var n := |commands| - 1;
      var before := Run(start, commands[..n]);
      var family := Run(start, commands).tokens[h].family;
      var source := WhereLiveTokensComeFrom(before, commands[n], h);
      if source in before.tokens && !Revoked(before, source)
         && before.tokens[source].user == user && before.tokens[source].family == family {
        LiveTokensComeFromNewLogins(db, c, user, commands[..n], source);
        var k :| 0 <= k < n && OpensFamily(start, commands[..n], k, user, family);
        assert commands[..n][..k] == commands[..k];
        assert OpensFamily(start, commands, k, user, family);
      } else {
        assert OpensFamily(start, commands, n, user, family);
      }
    }
  }
}
