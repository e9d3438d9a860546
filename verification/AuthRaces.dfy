/** Two refreshes with one live token at the same time: a client that retries, or opens two tabs. The loser's
    rejection ends the session that the winner has just been given. */
module AuthRaces {
  import opened Faults
  import opened TokenTable
  import opened AuthProtocol
  import opened AuthInvariants

  /** Calls `i` and `j` are both about to exchange one live token of the user, for `g` and for `h`. */
  ghost predicate Racing(s: System, i: nat, j: nat, token: Hash, user: UserId, g: Hash, h: Hash, expiresAt: int) {
    && i != j && i in s.calls && j in s.calls && user != ""
    && s.calls[i] == Rotating(token, user, g, expiresAt) && s.calls[j] == Rotating(token, user, h, expiresAt)
  }

  /** The first to reach the database wins a pair; the other is answered "revoked", and then the winner's new
      token is dead as well, with every other session of the user. */
  lemma LoserEndsWinner(s: System, i: nat, j: nat, token: Hash, user: UserId, g: Hash, h: Hash, expiresAt: int,
                        first: Env, second: Env, third: Env)
    requires Racing(s, i, j, token, user, g, h, expiresAt) && CanRotate(s.table, token, g, user, first.now)
    requires first.fault == third.fault == NoFault && second.fault != FailsBefore
    ensures var won := Apply(s, Step(i, first));
            && i in won.calls && won.calls[i] == Refreshed(token, Issued(g)) && IsLive(won.table, g)
            && var lost := Apply(Apply(won, Step(j, second)), Step(j, third));
               && i in lost.calls && lost.calls[i] == Refreshed(token, Issued(g))
               && j in lost.calls && lost.calls[j] == Refreshed(token, RevokedRefresh)
               && !IsLive(lost.table, g) && Active(lost.table, user) == {}
  {
    var won := Apply(s, Step(i, first));
    assert won == RotateStep(s, i, token, user, g, expiresAt, first);
    var refused := Apply(won, Step(j, second));
    assert refused.calls[j] == Rejecting(token, user) && refused.table == won.table;
    RevokeUserActive(refused.table, user, user);
  }

  // ---------------------------------------------------------------- such a race can happen

  ghost predicate Reachable(s: System) {
    exists run: seq<Action> :: Exec(Start(), run) == s
  }

  lemma Next(s: System, a: Action)
    requires Reachable(s)
    ensures Reachable(Apply(s, a))
  {
    var run :| Exec(Start(), run) == s;
    assert (run + [a])[..|run|] == run;
    assert Exec(Start(), run + [a]) == Apply(s, a);
  }

  /** A user about to be given a first token. */
  lemma FirstSession(user: UserId, token: Hash, expiresAt: int) returns (s: System)
    requires user != ""
    ensures Reachable(s)
    ensures s == Start().(users := {user}, tallies := map[user := Tally(0, 0, 0, 0)], generated := map[token := expiresAt],
                          calls := map[0 := Storing(user, token, expiresAt)])
  {
    s := Start();
    assert Exec(s, []) == s;
    Next(s, Enroll(user));
    s := Apply(s, Enroll(user));
    Next(s, BeginSession(0, user));
    s := Apply(s, BeginSession(0, user));
    Next(s, Step(0, Env(NoFault, 0, token, expiresAt)));
    s := Apply(s, Step(0, Env(NoFault, 0, token, expiresAt)));
  }

  /** A user with one session. */
  lemma OneSession(user: UserId, token: Hash, expiresAt: int) returns (s: System)
    requires user != ""
    ensures Reachable(s) && s.users == {user} && s.generated.Keys == {token} && s.calls.Keys == {0}
    ensures s.table == map[token := Row(user, expiresAt, false, 0)]
  {
    s := FirstSession(user, token, expiresAt);
    Next(s, Step(0, Env(NoFault, 0, token, expiresAt)));
    s := Apply(s, Step(0, Env(NoFault, 0, token, expiresAt)));
  }

  /** A refresh of the live token goes as far as its rotation. */
  lemma GoesToRotation(before: System, id: nat, token: Hash, user: UserId, newHash: Hash, expiresAt: int)
    returns (s: System)
    requires Reachable(before) && id !in before.calls && newHash !in before.generated && user in before.users
    requires IsLive(before.table, token) && before.table[token].userId == user && before.table[token].expiresAt >= 0
    ensures Reachable(s) && s.table == before.table && s.users == before.users
    ensures s.calls == before.calls[id := Rotating(token, user, newHash, expiresAt)]
    ensures s.generated.Keys == before.generated.Keys + {newHash}
  {
    var env := Env(NoFault, 0, newHash, expiresAt);
    Next(before, BeginRefresh(id, token));
    s := Apply(before, BeginRefresh(id, token));
    Next(s, Step(id, env));
    s := Apply(s, Step(id, env));
    assert s.calls[id] == Generating(token, user);
    Next(s, Step(id, env));
    s := Apply(s, Step(id, env));
  }

  /** For every user, and every three tokens and lifetime, the race is reachable. */
  lemma RacesHappen(user: UserId, token: Hash, g: Hash, h: Hash, expiresAt: int) returns (s: System)
    requires user != "" && token != g && token != h && g != h && expiresAt > 0
    ensures Reachable(s) && Racing(s, 1, 2, token, user, g, h, expiresAt) && CanRotate(s.table, token, g, user, 0)
  {
    s := OneSession(user, token, expiresAt);
    s := GoesToRotation(s, 1, token, user, g, expiresAt);
    s := GoesToRotation(s, 2, token, user, h, expiresAt);
  }
}
