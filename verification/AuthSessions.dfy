/** Logins and logouts in the protocol: what their answers mean, their agreement with the use cases, and which
    steps count towards which part of the session account. */
module AuthSessions {
  import opened Faults
  import opened TokenTable
  import opened AuthProtocol
  import opened AuthInvariants
  import opened AuthTheorems
  import opened AuthUseCase

  /** A logout that nothing interrupts has the outcome of `Logout`. */
  lemma UninterruptedLogout(s: System, id: nat, token: Hash, env: Env)
    requires id !in s.calls
    ensures var t := Exec(s, [BeginLogout(id, token), Step(id, env)]);
            && t.table == LogoutAlone(s.table, token, env).0
            && id in t.calls && t.calls[id] == LoggedOut(token, LogoutAlone(s.table, token, env).1)
  {
    ExecStep(s, [], BeginLogout(id, token));
    ExecStep(s, [BeginLogout(id, token)], Step(id, env));
    assert [] + [BeginLogout(id, token)] == [BeginLogout(id, token)];
    assert [BeginLogout(id, token)] + [Step(id, env)] == [BeginLogout(id, token), Step(id, env)];
    var begun := Apply(s, BeginLogout(id, token));
    assert Apply(begun, Step(id, env)) == LogOut(begun, id, token, env);
  }

  lemma StoreAlone(s: System, id: nat, user: UserId, newHash: Hash, expiresAt: int, store: Env)
    requires newHash !in s.table
    ensures var t := Store(s, id, user, newHash, expiresAt, store);
            && t.table == (if store.fault == FailsBefore then s.table
                           else s.table[newHash := Row(user, expiresAt, false, |s.owners|)])
            && id in t.calls && t.calls[id] == Opened(user, store.fault == NoFault)
  {
  }

  lemma SessionSteps(s: System, id: nat, user: UserId, generate: Env, store: Env)
    requires id in s.calls && s.calls[id] == Opening(user)
    requires generate.newHash !in s.generated && generate.newHash !in s.table
    ensures var t := Apply(Apply(s, Step(id, generate)), Step(id, store));
            var (table, done) := SessionAlone(s.table, user, generate, store, |s.owners|);
            t.table == table && id in t.calls && t.calls[id] == Opened(user, done)
  {
    var ready := Apply(s, Step(id, generate));
    assert ready == Open(s, id, user, generate);
    if generate.fault == NoFault {
      assert ready.calls[id] == Storing(user, generate.newHash, generate.expiresAt);
      assert Apply(ready, Step(id, store)) == Store(ready, id, user, generate.newHash, generate.expiresAt, store);
      StoreAlone(ready, id, user, generate.newHash, generate.expiresAt, store);
    } else {
      assert Apply(ready, Step(id, store)) == ready;
    }
  }

  /** A login or registration that nothing interrupts ends as `generateTokenPair` does. */
  lemma UninterruptedSession(s: System, id: nat, user: UserId, generate: Env, store: Env)
    requires id !in s.calls && user in s.users
    requires generate.newHash !in s.generated && s.table.Keys <= s.generated.Keys
    ensures var t := Exec(s, [BeginSession(id, user), Step(id, generate), Step(id, store)]);
            var (table, done) := SessionAlone(s.table, user, generate, store, |s.owners|);
            t.table == table && id in t.calls && t.calls[id] == Opened(user, done)
  {
    var a, b, c := BeginSession(id, user), Step(id, generate), Step(id, store);
    ExecStep(s, [], a);
    ExecStep(s, [a], b);
    ExecStep(s, [a, b], c);
    assert [] + [a] == [a] && [a] + [b] == [a, b] && [a, b] + [c] == [a, b, c];
    SessionSteps(Apply(s, a), id, user, generate, store);
  }

  /** Over every run: when a logout is answered with success, a token that had been issued is dead from then
      on, whatever else is going on. */
  lemma LogoutDoneMeansDead(run: seq<Action>, a: Action, id: nat, token: Hash)
    requires var s := Exec(Start(), run);
             && token in s.issuedTo && id in s.calls && s.calls[id] == LoggingOut(token)
             && id in Apply(s, a).calls && Apply(s, a).calls[id] == LoggedOut(token, true)
    ensures Dead(Apply(Exec(Start(), run), a), token)
  {
    var s := Exec(Start(), run);
    Reachable(run);
    assert forall i | i in s.calls :: !Holds(s.calls[i], token);
    if !(a.Step? && a.id == id) {
      OthersStay(s, a, id);
    }
    assert Apply(s, a) == LogOut(s, id, token, a.env);
    SpentStays(s, a, token);
  }

  /** Over every run: when a login is answered with success, a live row of its user has just been stored, in a
      lineage of its own. */
  lemma SessionDoneMeansLive(run: seq<Action>, a: Action, id: nat, user: UserId, newHash: Hash, expiresAt: int)
    requires var s := Exec(Start(), run);
             && id in s.calls && s.calls[id] == Storing(user, newHash, expiresAt)
             && id in Apply(s, a).calls && Apply(s, a).calls[id] == Opened(user, true)
    ensures var s := Exec(Start(), run);
            && newHash !in s.table && newHash in Apply(s, a).table
            && Apply(s, a).table[newHash] == Row(user, expiresAt, false, |s.owners|)
            && Apply(s, a).owners == s.owners + [user]
  {
    var s := Exec(Start(), run);
    if !(a.Step? && a.id == id) {
      OthersStay(s, a, id);
    }
    assert Apply(s, a) == Store(s, id, user, newHash, expiresAt, a.env);
  }

  // ---------------------------------------------------------------- the parts of the account

  function TallyOf(s: System, user: UserId): Tally {
    if user in s.tallies then s.tallies[user] else Tally(0, 0, 0, 0)
  }

  lemma RejectCounts(s: System, id: nat, token: Hash, u: UserId, env: Env, user: UserId)
    ensures var (before, after) := (TallyOf(s, user), TallyOf(Reject(s, id, token, u, env), user));
            after == before.(revokedAll := after.revokedAll) && (u != user ==> after == before)
  {
  }

  lemma LogOutCounts(s: System, id: nat, token: Hash, env: Env, user: UserId)
    ensures var (before, after) := (TallyOf(s, user), TallyOf(LogOut(s, id, token, env), user));
            after == before || after == before.(loggedOut := before.loggedOut + 1)
  {
  }

  lemma StoreCounts(s: System, id: nat, u: UserId, newHash: Hash, expiresAt: int, env: Env, user: UserId)
    ensures var (before, after) := (TallyOf(s, user), TallyOf(Store(s, id, u, newHash, expiresAt, env), user));
            after == before || (u == user && after == before.(stored := before.stored + 1))
  {
  }

  lemma OthersDoNotCount(s: System, id: nat, env: Env)
    requires id in s.calls
    requires !s.calls[id].Rejecting? && !s.calls[id].LoggingOut? && !s.calls[id].Storing?
    ensures StepCall(s, id, env).tallies == s.tallies
  {
  }

  lemma StepCounts(s: System, id: nat, env: Env, user: UserId)
    requires id in s.calls
    ensures var (before, after) := (TallyOf(s, user), TallyOf(StepCall(s, id, env), user));
            && (after.stored != before.stored ==>
                  after.stored == before.stored + 1 && s.calls[id].Storing? && s.calls[id].user == user)
            && (after.loggedOut != before.loggedOut ==> after.loggedOut == before.loggedOut + 1 && s.calls[id].LoggingOut?)
            && (after.revokedAll != before.revokedAll ==> s.calls[id].Rejecting? && s.calls[id].user == user)
            && after.expired == before.expired
  {
    match s.calls[id]
    case Rejecting(token, u) => RejectCounts(s, id, token, u, env, user);
    case LoggingOut(token) => LogOutCounts(s, id, token, env, user);
    case Storing(u, newHash, expiresAt) => StoreCounts(s, id, u, newHash, expiresAt, env, user);
    case _ => OthersDoNotCount(s, id, env);
  }

  /** Each part of a user's account moves by its own kind of step only: stored sessions by a store step of that
      user, one at a time; logouts by logout steps, one at a time; mass revocations by rejections of that
      user's tokens; expiries by the cleanup. */
  lemma EachPartHasItsCause(s: System, a: Action, user: UserId)
    requires user in s.tallies && user in s.users
    ensures var (before, after) := (TallyOf(s, user), TallyOf(Apply(s, a), user));
            && (after.stored != before.stored ==> after.stored == before.stored + 1 && StoresFor(s, a, user))
            && (after.loggedOut != before.loggedOut ==>
                  after.loggedOut == before.loggedOut + 1 && a.Step? && a.id in s.calls && s.calls[a.id].LoggingOut?)
            && (after.revokedAll != before.revokedAll ==>
                  a.Step? && a.id in s.calls && s.calls[a.id].Rejecting? && s.calls[a.id].user == user)
            && (after.expired != before.expired ==> a.RunCleanup?)
  {
    match a
    case Step(id, env) => if id in s.calls { StepCounts(s, id, env, user); }
    case _ =>
  }
}
