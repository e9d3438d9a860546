/** The auth use cases as the code runs them, one at a time, and their agreement with the protocol: a use
    case that nothing interrupts does what its protocol steps do. */
module AuthUseCase {
  import opened Faults
  import opened TokenTable
  import opened AuthProtocol
  import opened AuthInvariants

  /** The oracles of a refresh's statements, in the order in which they run: the look-up; token generation,
      or the rejection that follows the look-up; the rotation; the rejection that follows it. */
  datatype RefreshEnv = RefreshEnv(first: Env, second: Env, third: Env, fourth: Env)

  /** The table and reply of `rejectRefreshReuse`. */
  function Rejected(table: Table, user: UserId, env: Env): (Table, RefreshReply) {
    if user == "" then (table, RevokedRefresh)
    else
      (if env.fault == FailsBefore then table else RevokeUser(table, user),
       if env.fault == NoFault then RevokedRefresh else Failed)
  }

  /** The table and reply of an uninterrupted `RefreshTokens`. */
  function RefreshAlone(table: Table, users: set<UserId>, token: Hash, env: RefreshEnv): (Table, RefreshReply) {
    if env.first.fault != NoFault then (table, Failed)
    else if token !in table then (table, InvalidRefresh)
    else
      var row := table[token];
      if row.revoked then Rejected(table, row.userId, env.second)
      else if env.first.now > row.expiresAt then (table, InvalidRefresh)
      else Exchanged(table, users, token, env)
  }

  /** The table and reply once the look-up has accepted the token. */
  function Exchanged(table: Table, users: set<UserId>, token: Hash, env: RefreshEnv): (Table, RefreshReply)
    requires token in table
  {
    var user, newHash := table[token].userId, env.second.newHash;
    if env.second.fault != NoFault || user !in users then (table, Failed)
    else
      match RotateReply(table, token, newHash, user, env.third.now, env.third.fault)
      case InvalidToken => Rejected(table, user, env.fourth)
      case DatabaseError =>
        (if env.third.fault != FailsBefore && CanRotate(table, token, newHash, user, env.third.now)
         then Rotate(table, token, newHash, env.second.expiresAt) else table,
         Failed)
      case Done => (Rotate(table, token, newHash, env.second.expiresAt), Issued(newHash))
  }

  /** The table and answer of an uninterrupted `Logout`: an absent token counts as logged out. */
  function LogoutAlone(table: Table, token: Hash, env: Env): (Table, bool) {
    (if env.fault == FailsBefore then table else Revoke(table, token), env.fault == NoFault)
  }

  /** The table and answer of an uninterrupted `generateTokenPair`, with which Login and Register end. */
  function SessionAlone(table: Table, user: UserId, generate: Env, store: Env, lineage: nat): (Table, bool) {
    if generate.fault != NoFault || store.fault == FailsBefore || generate.newHash in table then (table, false)
    else
      (table[generate.newHash := Row(user, generate.expiresAt, false, lineage)], store.fault == NoFault)
  }

  class AuthUseCase {
    const tokens: TokenRepository
    var users: set<UserId>

    constructor (users: set<UserId>)
      ensures fresh(tokens) && tokens.rows == map[] && this.users == users
    {
      tokens := new TokenRepository();
      this.users := users;
    }

    method RefreshTokens(token: Hash, env: RefreshEnv) returns (reply: RefreshReply)
      modifies tokens
      ensures (tokens.rows, reply) == RefreshAlone(old(tokens.rows), users, token, env)
    {
      var found, row := tokens.FindByToken(token, env.first.fault);
      if found == InvalidToken {
        return InvalidRefresh;
      }
      if found != Done {
        return Failed;
      }
      if row.revoked {
        reply := RejectRefreshReuse(row.userId, env.second);
        return;
      }
      if env.first.now > row.expiresAt {
        return InvalidRefresh;
      }
      if env.second.fault != NoFault || row.userId !in users {
        return Failed;
      }
      var newHash := env.second.newHash;
      var rotated := tokens.RotateRefreshToken(token, newHash, row.userId, env.second.expiresAt,
                                               env.third.now, env.third.fault);
      if rotated == InvalidToken {
        reply := RejectRefreshReuse(row.userId, env.fourth);
        return;
      }
      if rotated != Done {
        return Failed;
      }
      reply := Issued(newHash);
    }

    method RejectRefreshReuse(user: UserId, env: Env) returns (reply: RefreshReply)
      modifies tokens
      ensures (tokens.rows, reply) == Rejected(old(tokens.rows), user, env)
    {
      if user != "" {
        var revoked := tokens.RevokeAllUserTokens(user, env.fault);
        if revoked != Done {
          return Failed;
        }
      }
      reply := RevokedRefresh;
    }

    method Logout(token: Hash, env: Env) returns (done: bool)
      modifies tokens
      ensures (tokens.rows, done) == LogoutAlone(old(tokens.rows), token, env)
      ensures done ==> !IsLive(tokens.rows, token)
    {
      var reply := tokens.RevokeToken(token, env.fault);
      done := reply == Done || reply == InvalidToken;
    }

    method GenerateTokenPair(user: UserId, generate: Env, store: Env, lineage: nat) returns (done: bool)
      modifies tokens
      ensures (tokens.rows, done) == SessionAlone(old(tokens.rows), user, generate, store, lineage)
      ensures done ==> IsLive(tokens.rows, generate.newHash) && tokens.rows[generate.newHash].userId == user
    {
      if generate.fault != NoFault {
        return false;
      }
      var stored := tokens.StoreRefreshToken(generate.newHash, Row(user, generate.expiresAt, false, lineage), store.fault);
      done := stored == Done;
    }
  }

  // ---------------------------------------------------------------- agreement with the protocol

  function RefreshRun(id: nat, token: Hash, env: RefreshEnv): seq<Action> {
    [BeginRefresh(id, token), Step(id, env.first), Step(id, env.second), Step(id, env.third), Step(id, env.fourth)]
  }

  lemma ExecStep(s: System, run: seq<Action>, a: Action)
    ensures Exec(s, run + [a]) == Apply(Exec(s, run), a)
  {
    assert (run + [a])[..|run|] == run;
  }

  lemma ExecTwo(s: System, run: seq<Action>, a: Action, b: Action)
    ensures Exec(s, run + [a, b]) == Apply(Apply(Exec(s, run), a), b)
  {
    var mid := Exec(s, run + [a]);
    assert mid == Apply(Exec(s, run), a) by { ExecStep(s, run, a); }
    assert Exec(s, run + [a] + [b]) == Apply(mid, b) by { ExecStep(s, run + [a], b); }
    assert run + [a] + [b] == run + [a, b];
  }

  lemma ExecFive(s: System, a: Action, b: Action, c: Action, d: Action, e: Action)
    ensures Exec(s, [a, b, c, d, e]) == Apply(Apply(Apply(Apply(Apply(s, a), b), c), d), e)
  {
    ExecStep(s, [], a);
    ExecTwo(s, [a], b, c);
    ExecTwo(s, [a, b, c], d, e);
    assert [] + [a] == [a] && [a] + [b, c] == [a, b, c] && [a, b, c] + [d, e] == [a, b, c, d, e];
  }

  lemma FinishedStepsIdle(s: System, id: nat, env: Env)
    requires id in s.calls && s.calls[id].Refreshed?
    ensures Apply(s, Step(id, env)) == s
  {
  }

  lemma RejectAlone(s: System, id: nat, token: Hash, user: UserId, env: Env)
    ensures var t := Reject(s, id, token, user, env);
            id in t.calls && t.calls[id] == Refreshed(token, Rejected(s.table, user, env).1) &&
            t.table == Rejected(s.table, user, env).0
  {
  }

  lemma RejectingAlone(s: System, id: nat, token: Hash, user: UserId, env: Env)
    requires id in s.calls && s.calls[id] == Rejecting(token, user)
    ensures var t := Apply(s, Step(id, env));
            id in t.calls && t.calls[id] == Refreshed(token, Rejected(s.table, user, env).1) &&
            t.table == Rejected(s.table, user, env).0
  {
    RejectAlone(s, id, token, user, env);
    assert Apply(s, Step(id, env)) == Reject(s, id, token, user, env);
  }

  /** A refresh that nothing interrupts has the outcome of `RefreshTokens`. */
  lemma UninterruptedRefresh(s: System, id: nat, token: Hash, env: RefreshEnv)
    requires id !in s.calls && env.second.newHash !in s.generated && s.table.Keys <= s.generated.Keys
    ensures var t := Exec(s, RefreshRun(id, token, env));
            var (table, reply) := RefreshAlone(s.table, s.users, token, env);
            t.table == table && id in t.calls && t.calls[id] == Refreshed(token, reply)
  {
    ExecFive(s, BeginRefresh(id, token), Step(id, env.first), Step(id, env.second), Step(id, env.third),
             Step(id, env.fourth));
    var begun := Apply(s, BeginRefresh(id, token));
    var found := Apply(begun, Step(id, env.first));
    AfterLookUp(s, found, id, token, env);
  }

  /** The part of the run after the look-up. */
  lemma AfterLookUp(s: System, found: System, id: nat, token: Hash, env: RefreshEnv)
    requires env.second.newHash !in s.generated
    requires found == LookUp(Reached(s, id, LookingUp(token)), id, token, env.first)
    ensures var t := Apply(Apply(Apply(found, Step(id, env.second)), Step(id, env.third)), Step(id, env.fourth));
            var (table, reply) := RefreshAlone(s.table, s.users, token, env);
            t.table == table && id in t.calls && t.calls[id] == Refreshed(token, reply)
  {
    match found.calls[id]
    case Refreshed(_, _) =>
      FinishedStepsIdle(found, id, env.second);
      FinishedStepsIdle(found, id, env.third);
      FinishedStepsIdle(found, id, env.fourth);
    case Rejecting(_, user) =>
      RejectingAlone(found, id, token, user, env.second);
      var done := Apply(found, Step(id, env.second));
      FinishedStepsIdle(done, id, env.third);
      FinishedStepsIdle(done, id, env.fourth);
    case Generating(_, user) =>
      AfterGenerating(found, id, token, user, env);
  }

  lemma RotateAlone(s: System, id: nat, token: Hash, user: UserId, newHash: Hash, expiresAt: int, env: Env)
    requires token in s.table && s.table[token].userId == user
    ensures var t := RotateStep(s, id, token, user, newHash, expiresAt, env);
            && id in t.calls
            && t.table == (if env.fault != FailsBefore && CanRotate(s.table, token, newHash, user, env.now)
                           then Rotate(s.table, token, newHash, expiresAt) else s.table)
            && t.calls[id] == match RotateReply(s.table, token, newHash, user, env.now, env.fault)
                              case InvalidToken => Rejecting(token, user)
                              case DatabaseError => Refreshed(token, Failed)
                              case Done => Refreshed(token, Issued(newHash))
  {
  }

  lemma AfterRotating(s: System, id: nat, token: Hash, user: UserId, env: RefreshEnv)
    requires id in s.calls && s.calls[id] == Rotating(token, user, env.second.newHash, env.second.expiresAt)
    requires token in s.table && s.table[token].userId == user && user in s.users && env.second.fault == NoFault
    ensures var t := Apply(Apply(s, Step(id, env.third)), Step(id, env.fourth));
            var (table, reply) := Exchanged(s.table, s.users, token, env);
            t.table == table && id in t.calls && t.calls[id] == Refreshed(token, reply)
  {
    RotateAlone(s, id, token, user, env.second.newHash, env.second.expiresAt, env.third);
    var rotated := Apply(s, Step(id, env.third));
    assert rotated == RotateStep(s, id, token, user, env.second.newHash, env.second.expiresAt, env.third);
    if rotated.calls[id].Refreshed? {
      FinishedStepsIdle(rotated, id, env.fourth);
    } else {
      RejectingAlone(rotated, id, token, user, env.fourth);
    }
  }

  lemma AfterGenerating(s: System, id: nat, token: Hash, user: UserId, env: RefreshEnv)
    requires id in s.calls && s.calls[id] == Generating(token, user)
    requires token in s.table && s.table[token].userId == user && env.second.newHash !in s.generated
    ensures var t := Apply(Apply(Apply(s, Step(id, env.second)), Step(id, env.third)), Step(id, env.fourth));
            var (table, reply) := Exchanged(s.table, s.users, token, env);
            t.table == table && id in t.calls && t.calls[id] == Refreshed(token, reply)
  {
    var ready := Apply(s, Step(id, env.second));
    assert ready == Generate(s, id, token, user, env.second);
    if ready.calls[id].Refreshed? {
      FinishedStepsIdle(ready, id, env.third);
      FinishedStepsIdle(ready, id, env.fourth);
    } else {
      AfterRotating(ready, id, token, user, env);
    }
  }

  // ---------------------------------------------------------------- when a refresh succeeds

  /** A refresh that nothing interrupts succeeds exactly when its token is stored, unrevoked and unexpired at
      both checks, its user exists, the new token is new and no statement fails. */
  lemma SucceedsExactly(table: Table, users: set<UserId>, token: Hash, env: RefreshEnv)
    ensures RefreshAlone(table, users, token, env).1.Issued? <==>
            && IsLive(table, token) && env.first.now <= table[token].expiresAt
            && env.third.now < table[token].expiresAt && table[token].userId in users
            && env.second.newHash !in table
            && env.first.fault == env.second.fault == env.third.fault == NoFault
  {
  }

  /** A successful refresh replaces one live row by one live row of the same user and lineage, which is that
      of the generated token and expires when that token does. */
  lemma SuccessRotates(table: Table, users: set<UserId>, token: Hash, env: RefreshEnv)
    requires RefreshAlone(table, users, token, env).1.Issued?
    ensures var (after, reply) := RefreshAlone(table, users, token, env);
            && reply.token == env.second.newHash && after[reply.token].expiresAt == env.second.expiresAt
            && IsLive(after, reply.token) && !IsLive(after, token)
            && after[reply.token].userId == table[token].userId && after[reply.token].lineage == table[token].lineage
            && after.Keys == table.Keys + {reply.token}
            && forall h | h in table && h != token :: after[h] == table[h]
  {
  }

  /** The statements of a refresh all work, and it is presented and rotated before `expiresAt`. */
  predicate InTime(env: RefreshEnv, expiresAt: int) {
    && env.first.fault == env.second.fault == env.third.fault == NoFault
    && env.first.now <= expiresAt && env.third.now < expiresAt
  }

  /** Sessions go on: the token that a refresh answered, presented at any time before the expiry it was
      generated with, is answered with a pair again. */
  lemma RefreshedTokenRefreshes(table: Table, users: set<UserId>, token: Hash, env: RefreshEnv, next: RefreshEnv)
    requires RefreshAlone(table, users, token, env).1.Issued? && InTime(next, env.second.expiresAt)
    requires next.second.newHash !in RefreshAlone(table, users, token, env).0
    ensures var (after, reply) := RefreshAlone(table, users, token, env);
            RefreshAlone(after, users, reply.token, next).1 == Issued(next.second.newHash)
  {
    var (after, reply) := RefreshAlone(table, users, token, env);
    SucceedsExactly(table, users, token, env);
    SuccessRotates(table, users, token, env);
    SucceedsExactly(after, users, reply.token, next);
    SuccessRotates(after, users, reply.token, next);
  }

  /** And they begin: the token of a completed login or registration is answered with a pair likewise. */
  lemma NewSessionRefreshes(table: Table, users: set<UserId>, user: UserId, generate: Env, store: Env, lineage: nat,
                            next: RefreshEnv)
    requires SessionAlone(table, user, generate, store, lineage).1 && user in users
    requires InTime(next, generate.expiresAt)
    requires next.second.newHash !in SessionAlone(table, user, generate, store, lineage).0
    ensures var after := SessionAlone(table, user, generate, store, lineage).0;
            && RefreshAlone(after, users, generate.newHash, next).1 == Issued(next.second.newHash)
            && forall h | h in table :: after[h] == table[h]
  {
    var after := SessionAlone(table, user, generate, store, lineage).0;
    SucceedsExactly(after, users, generate.newHash, next);
    SuccessRotates(after, users, generate.newHash, next);
  }

  /** When a login completes, and that one whose store answer was lost has left a live session behind. */
  lemma SessionCompletesExactly(table: Table, user: UserId, generate: Env, store: Env, lineage: nat)
    ensures var (after, done) := SessionAlone(table, user, generate, store, lineage);
            && (done <==> generate.fault == store.fault == NoFault && generate.newHash !in table)
            && (after != table <==> generate.fault == NoFault && store.fault != FailsBefore && generate.newHash !in table)
            && (after != table ==> IsLive(after, generate.newHash) && after[generate.newHash].userId == user)
  {
    assert generate.newHash !in table ==>
             table[generate.newHash := Row(user, generate.expiresAt, false, lineage)].Keys != table.Keys;
  }

  /** When a logout completes: whenever its statement works, whatever the token; and one whose answer was lost
      has ended the token too. */
  lemma LogoutCompletesExactly(table: Table, token: Hash, env: Env)
    ensures LogoutAlone(table, token, env).1 <==> env.fault == NoFault
    ensures env.fault != FailsBefore ==> !IsLive(LogoutAlone(table, token, env).0, token)
  {
  }

  /** After a completed logout no refresh with the token succeeds, and other tokens are as they were. */
  lemma LogoutEndsRefreshing(table: Table, users: set<UserId>, token: Hash, env: Env, next: RefreshEnv)
    requires LogoutAlone(table, token, env).1
    ensures var after := LogoutAlone(table, token, env).0;
            && !RefreshAlone(after, users, token, next).1.Issued?
            && after.Keys == table.Keys && forall h | h in table && h != token :: after[h] == table[h]
  {
    SucceedsExactly(LogoutAlone(table, token, env).0, users, token, next);
  }

  /** When a refresh is answered "invalid", and that it then changes nothing. */
  lemma InvalidExactly(table: Table, users: set<UserId>, token: Hash, env: RefreshEnv)
    ensures RefreshAlone(table, users, token, env).1 == InvalidRefresh <==>
            && env.first.fault == NoFault
            && (token !in table || (IsLive(table, token) && env.first.now > table[token].expiresAt))
    ensures RefreshAlone(table, users, token, env).1 == InvalidRefresh ==>
            RefreshAlone(table, users, token, env).0 == table
  {
  }

  /** What a refresh that fails can leave behind: nothing, unless the answer of its last write was lost. A
      lost rotation has consumed the token although the client never sees the new one. */
  lemma FailureLeaves(table: Table, users: set<UserId>, token: Hash, env: RefreshEnv)
    requires RefreshAlone(table, users, token, env).1 == Failed
    ensures var after := RefreshAlone(table, users, token, env).0;
            || after == table
            || (IsLive(table, token) && env.third.fault == FailsAfter && !IsLive(after, token) &&
                IsLive(after, env.second.newHash))
            || (token in table && (if table[token].revoked then env.second else env.fourth).fault == FailsAfter &&
                Active(after, table[token].userId) == {})
  {
    if token in table {
      RevokeUserActive(table, table[token].userId, table[token].userId);
    }
  }

  /** Presenting a token that is no longer live is noticed exactly while its row is still stored: then all
      sessions of its owner end. Once the cleanup has deleted the row the token is merely invalid, and
      every session survives. */
  lemma ReuseNoticedWhileStored(table: Table, users: set<UserId>, token: Hash, env: RefreshEnv)
    requires !IsLive(table, token) && env.first.fault == env.second.fault == NoFault
    ensures var (after, reply) := RefreshAlone(table, users, token, env);
            && (reply == RevokedRefresh <==> token in table)
            && (token in table && table[token].userId != "" ==> Active(after, table[token].userId) == {})
            && (token !in table ==> reply == InvalidRefresh && after == table)
  {
    if token in table {
      RevokeUserActive(table, table[token].userId, table[token].userId);
    }
  }

  /** When a refresh that nothing interrupts is answered "revoked": its token is stored, and either it had
      been revoked, or it expired between the check at look-up and the one inside the rotation. */
  lemma RevokedExactly(table: Table, users: set<UserId>, token: Hash, env: RefreshEnv)
    ensures RefreshAlone(table, users, token, env).1 == RevokedRefresh <==>
            && env.first.fault == NoFault && token in table
            && (if table[token].revoked then table[token].userId == "" || env.second.fault == NoFault
                else
                  && env.first.now <= table[token].expiresAt <= env.third.now
                  && env.second.fault == NoFault && table[token].userId in users
                  && env.third.fault != FailsBefore
                  && (table[token].userId == "" || env.fourth.fault == NoFault))
  {
  }

  /** So "revoked" does not mean reuse: a live token presented for the first time, just before it expires,
      ends every session of its owner. */
  lemma ExpiryEndsSessions(table: Table, users: set<UserId>, token: Hash, env: RefreshEnv)
    requires IsLive(table, token) && table[token].userId in users && table[token].userId != ""
    requires env.first.now <= table[token].expiresAt <= env.third.now
    requires env.first.fault == env.second.fault == env.third.fault == env.fourth.fault == NoFault
    ensures var (after, reply) := RefreshAlone(table, users, token, env);
            reply == RevokedRefresh && Active(after, table[token].userId) == {}
  {
    RevokedExactly(table, users, token, env);
    RevokeUserActive(table, table[token].userId, table[token].userId);
  }

  /** The cleanup makes every reuse invisible: none of the revoked tokens is stored afterwards. */
  lemma CleanupHidesReuse(table: Table, users: set<UserId>, token: Hash, now: int, env: RefreshEnv)
    requires !IsLive(table, token) && env.first.fault == env.second.fault == NoFault
    ensures RefreshAlone(Cleanup(table, now), users, token, env) == (Cleanup(table, now), InvalidRefresh)
  {
  }
}
