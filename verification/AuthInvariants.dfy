/** What every step of the protocol keeps. */
module AuthInvariants {
  import opened Faults
  import opened TokenTable
  import opened AuthProtocol

  /** The call holds a generated token that is not stored yet. */
  predicate Holds(call: Call, h: Hash) {
    match call
    case Rotating(_, _, newHash, _) => newHash == h
    case Storing(_, newHash, _) => newHash == h
    case _ => false
  }

  /** The hash was handed out and can never be inserted any more. */
  ghost predicate Spent(s: System, h: Hash) {
    h in s.generated && forall id | id in s.calls :: !Holds(s.calls[id], h)
  }

  /** No call can ever be answered with a pair for this token again. */
  ghost predicate Dead(s: System, h: Hash) {
    Spent(s, h) && !IsLive(s.table, h)
  }

  /** Stored tokens belong to whom they were issued to; those not stored yet are new and in one hand. */
  ghost predicate FreshTokens(s: System) {
    && s.issuedTo.Keys <= s.generated.Keys
    && (forall h | h in s.table :: h in s.issuedTo && s.table[h].userId == s.issuedTo[h])
    && (forall id, h | id in s.calls && Holds(s.calls[id], h) :: h in s.generated && h !in s.issuedTo)
    && (forall i, j, h | i in s.calls && j in s.calls && Holds(s.calls[i], h) && Holds(s.calls[j], h) :: i == j)
  }

  /** The call knows the token's owner, who stays the owner when the row is gone. */
  ghost predicate Knows(s: System, token: Hash, user: UserId) {
    Spent(s, token) && user in s.users && token in s.issuedTo && s.issuedTo[token] == user
  }

  ghost predicate CallTrue(s: System, call: Call) {
    match call
    case Generating(token, user) => Knows(s, token, user)
    case Rotating(token, user, _, _) => Knows(s, token, user)
    case Rejecting(token, user) => Knows(s, token, user)
    case Refreshed(token, Issued(_)) => Dead(s, token)
    case Opening(user) => user in s.users
    case Storing(user, _, _) => user in s.users
    case _ => true
  }

  ghost predicate CallsTrue(s: System) {
    forall id | id in s.calls :: CallTrue(s, s.calls[id])
  }

  /** The call answered a token pair for `token`. */
  predicate Won(call: Call, token: Hash) {
    call.Refreshed? && call.token == token && call.reply.Issued?
  }

  ghost predicate SingleUse(s: System) {
    forall i, j, h | i in s.calls && j in s.calls && Won(s.calls[i], h) && Won(s.calls[j], h) :: i == j
  }

  /** Each lineage has one owner and at most one live row. */
  ghost predicate Lineages(s: System) {
    && "" !in s.users
    && (forall u | u in s.owners :: u in s.users)
    && (forall h | h in s.table :: s.table[h].lineage < |s.owners| &&
                                   s.table[h].userId == s.owners[s.table[h].lineage])
    && (forall g, h | IsLive(s.table, g) && IsLive(s.table, h) && s.table[g].lineage == s.table[h].lineage :: g == h)
  }

  /** Sessions opened are live or accounted for. */
  predicate Balanced(table: Table, user: UserId, t: Tally) {
    t.stored == |Active(table, user)| + t.loggedOut + t.revokedAll + t.expired
  }

  ghost predicate Tallies(s: System) {
    s.tallies.Keys == s.users && forall u | u in s.users :: Balanced(s.table, u, s.tallies[u])
  }

  ghost predicate Safe(s: System) {
    FreshTokens(s) && CallsTrue(s) && SingleUse(s) && Lineages(s)
  }

  ghost predicate Inv(s: System) {
    Safe(s) && Tallies(s)
  }

  // ---------------------------------------------------------------- counting live rows

  lemma RevokeActive(table: Table, h: Hash, user: UserId)
    ensures Active(Revoke(table, h), user) == Active(table, user) - {h}
    ensures h in Active(table, user) ==> |Active(Revoke(table, h), user)| == |Active(table, user)| - 1
  {
    assert Active(Revoke(table, h), user) == Active(table, user) - {h};
  }

  lemma InsertActive(table: Table, h: Hash, row: Row, user: UserId)
    requires h !in table && !row.revoked
    ensures |Active(table[h := row], user)| == |Active(table, user)| + (if row.userId == user then 1 else 0)
  {
    assert Active(table[h := row], user) ==
           if row.userId == user then Active(table, user) + {h} else Active(table, user);
  }

  lemma RotateActive(table: Table, oldHash: Hash, newHash: Hash, owner: UserId, now: int, expiresAt: int, user: UserId)
    requires CanRotate(table, oldHash, newHash, owner, now)
    ensures |Active(Rotate(table, oldHash, newHash, expiresAt), user)| == |Active(table, user)|
  {
    RevokeActive(table, oldHash, user);
    InsertActive(Revoke(table, oldHash), newHash, Row(table[oldHash].userId, expiresAt, false, table[oldHash].lineage), user);
  }

  lemma RevokeUserActive(table: Table, revoked: UserId, user: UserId)
    ensures Active(RevokeUser(table, revoked), user) == if user == revoked then {} else Active(table, user)
  {
  }

  lemma CleanupActive(table: Table, now: int, user: UserId)
    ensures |Active(Cleanup(table, now), user)| == |Active(table, user)| - |Lapsed(table, user, now)|
  {
    assert Active(Cleanup(table, now), user) == Active(table, user) - Lapsed(table, user, now);
  }

  // ---------------------------------------------------------------- each kind of step

  lemma ReachedCalls(s: System, id: nat, call: Call)
    requires CallsTrue(s) && CallTrue(s, call)
    requires forall h :: !Holds(call, h)
    ensures CallsTrue(Reached(s, id, call))
  {
    var t := Reached(s, id, call);
    forall i | i in t.calls ensures CallTrue(t, t.calls[i]) {
      assert i != id ==> CallTrue(s, s.calls[i]);
    }
  }

  /** Moving one call on without touching the table. */
  lemma ReachedKeeps(s: System, id: nat, call: Call)
    requires Safe(s) && CallTrue(s, call)
    requires forall h :: !Holds(call, h) && !Won(call, h)
    ensures Safe(Reached(s, id, call))
  {
    ReachedCalls(s, id, call);
  }

  /** `after` is `before` with rows revoked or deleted. */
  ghost predicate RowsEnd(before: Table, after: Table) {
    && after.Keys <= before.Keys
    && forall h | h in after ::
         after[h] == before[h] || after[h] == before[h].(revoked := true)
  }

  lemma RowsEndCalls(s: System, table: Table)
    requires CallsTrue(s) && RowsEnd(s.table, table)
    ensures CallsTrue(s.(table := table))
  {
    forall id | id in s.calls ensures CallTrue(s.(table := table), s.calls[id]) {
      assert CallTrue(s, s.calls[id]);
    }
  }

  lemma RowsEndKeeps(s: System, table: Table)
    requires Safe(s) && RowsEnd(s.table, table)
    ensures Safe(s.(table := table))
  {
    RowsEndCalls(s, table);
  }

  lemma RevokeEndsRows(table: Table, h: Hash)
    ensures RowsEnd(table, Revoke(table, h))
  {
  }

  lemma RevokeUserEndsRows(table: Table, user: UserId)
    ensures RowsEnd(table, RevokeUser(table, user))
  {
  }

  lemma CleanupEndsRows(table: Table, now: int)
    ensures RowsEnd(table, Cleanup(table, now))
  {
  }

  /** Safety does not depend on the tallies. */
  lemma SafeWithTallies(s: System, tallies: map<UserId, Tally>)
    requires Safe(s)
    ensures Safe(s.(tallies := tallies))
  {
  }

  /** A call that generated a new token and holds it. */
  function Granted(s: System, id: nat, call: Call, newHash: Hash, expiresAt: int): System {
    Reached(s, id, call).(generated := s.generated[newHash := expiresAt])
  }

  lemma GrantFresh(s: System, id: nat, call: Call, newHash: Hash, expiresAt: int)
    requires FreshTokens(s) && newHash !in s.generated
    requires forall h :: Holds(call, h) <==> h == newHash
    ensures FreshTokens(Granted(s, id, call, newHash, expiresAt))
  {
  }

  lemma GrantSpent(s: System, id: nat, call: Call, newHash: Hash, expiresAt: int, h: Hash)
    requires Spent(s, h) && newHash !in s.generated
    requires forall g :: Holds(call, g) <==> g == newHash
    ensures Spent(Granted(s, id, call, newHash, expiresAt), h)
  {
  }

  lemma GrantCalls(s: System, id: nat, call: Call, newHash: Hash, expiresAt: int)
    requires CallsTrue(s) && CallTrue(s, call) && newHash !in s.generated
    requires forall h :: Holds(call, h) <==> h == newHash
    ensures CallsTrue(Granted(s, id, call, newHash, expiresAt))
  {
    var t := Granted(s, id, call, newHash, expiresAt);
    forall i | i in t.calls ensures CallTrue(t, t.calls[i]) {
      assert CallTrue(s, t.calls[i]);
      match t.calls[i] {
        case Generating(token, _) => GrantSpent(s, id, call, newHash, expiresAt, token);
        case Rotating(token, _, _, _) => GrantSpent(s, id, call, newHash, expiresAt, token);
        case Rejecting(token, _) => GrantSpent(s, id, call, newHash, expiresAt, token);
        case Refreshed(token, Issued(_)) => GrantSpent(s, id, call, newHash, expiresAt, token);
        case _ =>
      }
    }
  }

  lemma GrantKeeps(s: System, id: nat, call: Call, newHash: Hash, expiresAt: int)
    requires Safe(s) && CallTrue(s, call) && newHash !in s.generated
    requires forall h :: Holds(call, h) <==> h == newHash
    requires forall h :: !Won(call, h)
    ensures Safe(Granted(s, id, call, newHash, expiresAt))
  {
    GrantFresh(s, id, call, newHash, expiresAt);
    GrantCalls(s, id, call, newHash, expiresAt);
  }

  lemma LookUpKeeps(s: System, id: nat, token: Hash, env: Env)
    requires Inv(s) && id in s.calls && s.calls[id] == LookingUp(token)
    ensures Inv(LookUp(s, id, token, env))
  {
    var call := LookUp(s, id, token, env).calls[id];
    ReachedKeeps(s, id, call);
  }

  lemma GenerateKeeps(s: System, id: nat, token: Hash, user: UserId, env: Env)
    requires Inv(s) && id in s.calls && s.calls[id] == Generating(token, user)
    ensures Inv(Generate(s, id, token, user, env))
  {
    if env.fault != NoFault || user !in s.users {
      ReachedKeeps(s, id, Refreshed(token, Failed));
    } else if env.newHash !in s.generated {
      GrantKeeps(s, id, Rotating(token, user, env.newHash, env.expiresAt), env.newHash, env.expiresAt);
    }
  }

  lemma OpenKeeps(s: System, id: nat, user: UserId, env: Env)
    requires Inv(s) && id in s.calls && s.calls[id] == Opening(user)
    ensures Inv(Open(s, id, user, env))
  {
    if env.fault != NoFault {
      ReachedKeeps(s, id, Opened(user, false));
    } else if env.newHash !in s.generated {
      GrantKeeps(s, id, Storing(user, env.newHash, env.expiresAt), env.newHash, env.expiresAt);
    }
  }

  function Rotated(s: System, id: nat, token: Hash, newHash: Hash, expiresAt: int, reply: RefreshReply): System
    requires token in s.table
  {
    Reached(s, id, Refreshed(token, reply))
      .(table := Rotate(s.table, token, newHash, expiresAt),
        issuedTo := s.issuedTo[newHash := s.table[token].userId])
  }

  lemma RotatedFresh(s: System, id: nat, token: Hash, user: UserId, newHash: Hash, expiresAt: int, reply: RefreshReply)
    requires FreshTokens(s) && id in s.calls && s.calls[id] == Rotating(token, user, newHash, expiresAt)
    requires token in s.table
    ensures FreshTokens(Rotated(s, id, token, newHash, expiresAt, reply))
  {
    assert Holds(s.calls[id], newHash);
  }

  lemma RotatedKnows(s: System, id: nat, token: Hash, user: UserId, newHash: Hash, expiresAt: int,
                     reply: RefreshReply, h: Hash)
    requires FreshTokens(s) && id in s.calls && s.calls[id] == Rotating(token, user, newHash, expiresAt)
    requires token in s.table && Spent(s, h)
    ensures Spent(Rotated(s, id, token, newHash, expiresAt, reply), h)
    ensures Dead(s, h) ==> Dead(Rotated(s, id, token, newHash, expiresAt, reply), h)
  {
    assert Holds(s.calls[id], newHash);
  }

  lemma RotatedCalls(s: System, id: nat, token: Hash, user: UserId, newHash: Hash, expiresAt: int, now: int, reply: RefreshReply)
    requires Safe(s) && id in s.calls && s.calls[id] == Rotating(token, user, newHash, expiresAt)
    requires CanRotate(s.table, token, newHash, user, now)
    requires reply == Issued(newHash) || reply == Failed
    ensures CallsTrue(Rotated(s, id, token, newHash, expiresAt, reply))
  {
    var t := Rotated(s, id, token, newHash, expiresAt, reply);
    assert Knows(s, token, user) && Holds(s.calls[id], newHash);
    RotatedKnows(s, id, token, user, newHash, expiresAt, reply, token);
    forall i | i in t.calls && i != id ensures CallTrue(t, t.calls[i]) {
      assert CallTrue(s, s.calls[i]);
      match s.calls[i] {
        case Generating(h, _) => RotatedKnows(s, id, token, user, newHash, expiresAt, reply, h);
        case Rotating(h, _, _, _) => RotatedKnows(s, id, token, user, newHash, expiresAt, reply, h);
        case Rejecting(h, _) => RotatedKnows(s, id, token, user, newHash, expiresAt, reply, h);
        case Refreshed(h, Issued(_)) => RotatedKnows(s, id, token, user, newHash, expiresAt, reply, h);
        case _ =>
      }
    }
  }

  lemma RotatedLineages(s: System, id: nat, token: Hash, user: UserId, newHash: Hash, expiresAt: int, now: int, reply: RefreshReply)
    requires Lineages(s) && CanRotate(s.table, token, newHash, user, now)
    ensures Lineages(Rotated(s, id, token, newHash, expiresAt, reply))
  {
  }

  /** A token that was still live has had no winner yet. */
  lemma RotatedSingleUse(s: System, id: nat, token: Hash, newHash: Hash, expiresAt: int, reply: RefreshReply)
    requires SingleUse(s) && CallsTrue(s) && IsLive(s.table, token)
    requires reply == Issued(newHash) || reply == Failed
    ensures SingleUse(Rotated(s, id, token, newHash, expiresAt, reply))
  {
    forall i | i in s.calls ensures !Won(s.calls[i], token) {
      assert CallTrue(s, s.calls[i]);
    }
  }

  /** The committed rotation: the new row takes the old one's place in its lineage. */
  lemma RotatedSafe(s: System, id: nat, token: Hash, user: UserId, newHash: Hash, expiresAt: int, now: int, reply: RefreshReply)
    requires Safe(s) && id in s.calls && s.calls[id] == Rotating(token, user, newHash, expiresAt)
    requires CanRotate(s.table, token, newHash, user, now)
    requires reply == Issued(newHash) || reply == Failed
    ensures Safe(Rotated(s, id, token, newHash, expiresAt, reply))
  {
    RotatedFresh(s, id, token, user, newHash, expiresAt, reply);
    RotatedCalls(s, id, token, user, newHash, expiresAt, now, reply);
    RotatedSingleUse(s, id, token, newHash, expiresAt, reply);
    RotatedLineages(s, id, token, user, newHash, expiresAt, now, reply);
  }

  lemma RotateKeeps(s: System, id: nat, token: Hash, user: UserId, newHash: Hash, expiresAt: int, env: Env)
    requires Inv(s) && id in s.calls && s.calls[id] == Rotating(token, user, newHash, expiresAt)
    ensures Inv(RotateStep(s, id, token, user, newHash, expiresAt, env))
  {
    var t := RotateStep(s, id, token, user, newHash, expiresAt, env);
    assert CallTrue(s, s.calls[id]);
    if env.fault != FailsBefore && CanRotate(s.table, token, newHash, user, env.now) {
      var reply := if env.fault == NoFault then Issued(newHash) else Failed;
      RotatedSafe(s, id, token, user, newHash, expiresAt, env.now, reply);
      forall u | u in s.users ensures Balanced(t.table, u, t.tallies[u]) {
        RotateActive(s.table, token, newHash, user, env.now, expiresAt, u);
      }
    } else {
      ReachedKeeps(s, id, t.calls[id]);
    }
  }

  lemma RejectTallies(s: System, id: nat, token: Hash, user: UserId, env: Env)
    requires Tallies(s)
    ensures Tallies(Reject(s, id, token, user, env))
  {
    var t := Reject(s, id, token, user, env);
    if user != "" && env.fault != FailsBefore {
      forall u | u in s.users ensures Balanced(t.table, u, t.tallies[u]) {
        RevokeUserActive(s.table, user, u);
      }
    }
  }

  lemma RejectKeeps(s: System, id: nat, token: Hash, user: UserId, env: Env)
    requires Inv(s) && id in s.calls && s.calls[id] == Rejecting(token, user)
    ensures Inv(Reject(s, id, token, user, env))
  {
    var t := Reject(s, id, token, user, env);
    RejectTallies(s, id, token, user, env);
    ReachedKeeps(s, id, t.calls[id]);
    if user != "" && env.fault != FailsBefore {
      RevokeUserEndsRows(s.table, user);
      EndRows(s, t, id);
    }
  }

  /** A call moves on, rows end, and the tallies are what they are. */
  lemma EndRows(s: System, t: System, id: nat)
    requires id in t.calls && Safe(Reached(s, id, t.calls[id])) && RowsEnd(s.table, t.table)
    requires t == Reached(s, id, t.calls[id]).(table := t.table, tallies := t.tallies)
    ensures Safe(t)
  {
    var moved := Reached(s, id, t.calls[id]);
    RowsEndKeeps(moved, t.table);
    SafeWithTallies(moved.(table := t.table), t.tallies);
  }

  lemma LogOutTallies(s: System, id: nat, token: Hash, env: Env)
    requires Tallies(s)
    ensures Tallies(LogOut(s, id, token, env))
  {
    var t := LogOut(s, id, token, env);
    if env.fault != FailsBefore && token in s.table {
      forall u | u in s.users ensures Balanced(t.table, u, t.tallies[u]) {
        RevokeActive(s.table, token, u);
        if token !in Active(s.table, u) {
          assert Active(s.table, u) - {token} == Active(s.table, u);
        }
      }
    }
  }

  lemma LogOutKeeps(s: System, id: nat, token: Hash, env: Env)
    requires Inv(s) && id in s.calls && s.calls[id] == LoggingOut(token)
    ensures Inv(LogOut(s, id, token, env))
  {
    var t := LogOut(s, id, token, env);
    LogOutTallies(s, id, token, env);
    ReachedKeeps(s, id, t.calls[id]);
    RevokeEndsRows(s.table, token);
    EndRows(s, t, id);
  }

  /** The system after a store step that took effect. */
  function Stored(s: System, id: nat, user: UserId, newHash: Hash, expiresAt: int, done: bool): System {
    Reached(s, id, Opened(user, done))
      .(table := s.table[newHash := Row(user, expiresAt, false, |s.owners|)],
        issuedTo := s.issuedTo[newHash := user], owners := s.owners + [user])
  }

  lemma StoredLineages(s: System, id: nat, user: UserId, newHash: Hash, expiresAt: int, done: bool)
    requires Lineages(s) && user in s.users && newHash !in s.table
    ensures Lineages(Stored(s, id, user, newHash, expiresAt, done))
  {
  }

  lemma StoredCalls(s: System, id: nat, user: UserId, newHash: Hash, expiresAt: int, done: bool)
    requires FreshTokens(s) && CallsTrue(s) && id in s.calls && s.calls[id] == Storing(user, newHash, expiresAt)
    ensures CallsTrue(Stored(s, id, user, newHash, expiresAt, done))
  {
    var t := Stored(s, id, user, newHash, expiresAt, done);
    assert Holds(s.calls[id], newHash);
    forall i | i in t.calls && i != id ensures CallTrue(t, t.calls[i]) {
      assert CallTrue(s, s.calls[i]);
    }
  }

  lemma StoredFresh(s: System, id: nat, user: UserId, newHash: Hash, expiresAt: int, done: bool)
    requires FreshTokens(s) && id in s.calls && s.calls[id] == Storing(user, newHash, expiresAt)
    ensures FreshTokens(Stored(s, id, user, newHash, expiresAt, done))
  {
    assert Holds(s.calls[id], newHash);
  }

  lemma StoredSafe(s: System, id: nat, user: UserId, newHash: Hash, expiresAt: int, done: bool)
    requires Safe(s) && id in s.calls && s.calls[id] == Storing(user, newHash, expiresAt)
    ensures Safe(Stored(s, id, user, newHash, expiresAt, done))
  {
    assert CallTrue(s, s.calls[id]) && Holds(s.calls[id], newHash);
    StoredFresh(s, id, user, newHash, expiresAt, done);
    StoredLineages(s, id, user, newHash, expiresAt, done);
    StoredCalls(s, id, user, newHash, expiresAt, done);
  }

  lemma StoreTallies(s: System, id: nat, user: UserId, newHash: Hash, expiresAt: int, env: Env)
    requires Tallies(s)
    ensures Tallies(Store(s, id, user, newHash, expiresAt, env))
  {
    var t := Store(s, id, user, newHash, expiresAt, env);
    if env.fault != FailsBefore && newHash !in s.table {
      forall u | u in s.users ensures Balanced(t.table, u, t.tallies[u]) {
        InsertActive(s.table, newHash, Row(user, expiresAt, false, |s.owners|), u);
      }
    }
  }

  lemma StoreKeeps(s: System, id: nat, user: UserId, newHash: Hash, expiresAt: int, env: Env)
    requires Inv(s) && id in s.calls && s.calls[id] == Storing(user, newHash, expiresAt)
    ensures Inv(Store(s, id, user, newHash, expiresAt, env))
  {
    var t := Store(s, id, user, newHash, expiresAt, env);
    StoreTallies(s, id, user, newHash, expiresAt, env);
    if env.fault == FailsBefore || newHash in s.table {
      ReachedKeeps(s, id, Opened(user, false));
    } else {
      var stored := Stored(s, id, user, newHash, expiresAt, env.fault == NoFault);
      StoredSafe(s, id, user, newHash, expiresAt, env.fault == NoFault);
      SafeWithTallies(stored, t.tallies);
    }
  }

  lemma CleanedTallies(s: System, now: int)
    requires Tallies(s)
    ensures Tallies(Cleaned(s, now))
  {
    forall u | u in s.users ensures Balanced(Cleanup(s.table, now), u, Cleaned(s, now).tallies[u]) {
      CleanupActive(s.table, now, u);
    }
  }

  lemma CleanedKeeps(s: System, now: int)
    requires Inv(s)
    ensures Inv(Cleaned(s, now))
  {
    CleanedTallies(s, now);
    CleanupEndsRows(s.table, now);
    RowsEndKeeps(s, Cleanup(s.table, now));
    SafeWithTallies(s.(table := Cleanup(s.table, now)), Cleaned(s, now).tallies);
  }

  lemma EnrollCalls(s: System, user: UserId)
    requires CallsTrue(s)
    ensures CallsTrue(s.(users := s.users + {user}))
  {
    forall i | i in s.calls ensures CallTrue(s.(users := s.users + {user}), s.calls[i]) {
      assert CallTrue(s, s.calls[i]);
    }
  }

  lemma EnrollSafe(s: System, user: UserId)
    requires Safe(s) && user != ""
    ensures Safe(s.(users := s.users + {user}))
  {
    EnrollCalls(s, user);
  }

  lemma EnrollTallies(s: System, user: UserId)
    requires Safe(s) && Tallies(s) && user !in s.users
    ensures Tallies(s.(users := s.users + {user}, tallies := s.tallies[user := Tally(0, 0, 0, 0)]))
  {
    assert Active(s.table, user) == {};
  }

  lemma EnrollKeeps(s: System, user: UserId)
    requires Inv(s) && user != "" && user !in s.users
    ensures Inv(Apply(s, Enroll(user)))
  {
    EnrollSafe(s, user);
    EnrollTallies(s, user);
    SafeWithTallies(s.(users := s.users + {user}), s.tallies[user := Tally(0, 0, 0, 0)]);
  }

  lemma StepCallKeeps(s: System, id: nat, env: Env)
    requires Inv(s) && id in s.calls
    ensures Inv(StepCall(s, id, env))
  {
    match s.calls[id]
    case LookingUp(token) => LookUpKeeps(s, id, token, env);
    case Generating(token, user) => GenerateKeeps(s, id, token, user, env);
    case Rotating(token, user, newHash, expiresAt) => RotateKeeps(s, id, token, user, newHash, expiresAt, env);
    case Rejecting(token, user) => RejectKeeps(s, id, token, user, env);
    case LoggingOut(token) => LogOutKeeps(s, id, token, env);
    case Opening(user) => OpenKeeps(s, id, user, env);
    case Storing(user, newHash, expiresAt) => StoreKeeps(s, id, user, newHash, expiresAt, env);
    case Refreshed(_, _) =>
    case LoggedOut(_, _) =>
    case Opened(_, _) =>
  }

  lemma ApplyKeeps(s: System, a: Action)
    requires Inv(s)
    ensures Inv(Apply(s, a))
  {
    match a
    case Enroll(user) => if user != "" && user !in s.users { EnrollKeeps(s, user); }
    case BeginRefresh(id, token) => ReachedKeeps(s, id, LookingUp(token));
    case BeginLogout(id, token) => ReachedKeeps(s, id, LoggingOut(token));
    case BeginSession(id, user) => if user in s.users { ReachedKeeps(s, id, Opening(user)); }
    case Step(id, env) => if id in s.calls { StepCallKeeps(s, id, env); }
    case Abandon(id) =>
      if id in s.calls && GivenUp(s.calls[id]) != s.calls[id] {
        ReachedKeeps(s, id, GivenUp(s.calls[id]));
      } else if id in s.calls {
        assert Reached(s, id, s.calls[id]) == s;
      }
    case RunCleanup(now, fault) => if fault != FailsBefore { CleanedKeeps(s, now); }
  }

  lemma {:induction false} ExecKeeps(s: System, run: seq<Action>)
    requires Inv(s)
    ensures Inv(Exec(s, run))
  {
    if run != [] {
      ExecKeeps(s, run[..|run| - 1]);
      ApplyKeeps(Exec(s, run[..|run| - 1]), run[|run| - 1]);
    }
  }
}
