/** What the rotation protocol guarantees over every run, whatever interleaves. */
module AuthTheorems {
  import opened Faults
  import opened TokenTable
  import opened AuthProtocol
  import opened AuthInvariants

  lemma Reachable(run: seq<Action>)
    ensures Inv(Exec(Start(), run))
  {
    ExecKeeps(Start(), run);
  }

  /** In every reachable state each login lineage has at most one unrevoked row, and all its rows belong to
      the user it was opened for. */
  lemma LineageSafety(run: seq<Action>, g: Hash, h: Hash)
    ensures var s := Exec(Start(), run);
            && (IsLive(s.table, g) && IsLive(s.table, h) && s.table[g].lineage == s.table[h].lineage ==> g == h)
            && (h in s.table ==> s.table[h].lineage < |s.owners| && s.table[h].userId == s.owners[s.table[h].lineage])
  {
    Reachable(run);
  }

  lemma StepKeepsOwners(s: System, id: nat, env: Env)
    requires id in s.calls
    ensures s.owners <= StepCall(s, id, env).owners
  {
    match s.calls[id]
    case Storing(user, newHash, expiresAt) =>
      assert Store(s, id, user, newHash, expiresAt, env).owners == s.owners ||
             Store(s, id, user, newHash, expiresAt, env).owners == s.owners + [user];
    case _ =>
  }

  /** A lineage keeps its owner for ever. */
  lemma {:induction false} OwnersGrow(s: System, run: seq<Action>)
    ensures s.owners <= Exec(s, run).owners
  {
    if run != [] {
      var before, a := Exec(s, run[..|run| - 1]), run[|run| - 1];
      OwnersGrow(s, run[..|run| - 1]);
      if a.Step? && a.id in before.calls {
        StepKeepsOwners(before, a.id, a.env);
      } else {
        assert Apply(before, a).owners == before.owners;
      }
    }
  }

  /** Of any number of interleaved refreshes presenting one token, at most one is answered with a pair. */
  lemma AtMostOneWinner(run: seq<Action>, i: nat, j: nat, h: Hash)
    requires var s := Exec(Start(), run);
             i in s.calls && j in s.calls && Won(s.calls[i], h) && Won(s.calls[j], h)
    ensures i == j
  {
    Reachable(run);
  }

  // ---------------------------------------------------------------- tokens that have ended

  lemma StoredIsSpent(s: System, h: Hash)
    requires Inv(s) && h in s.table
    ensures Spent(s, h)
  {
  }

  /** Where a step can take a call. */
  predicate Leads(s: System, before: Call, after: Call, env: Env) {
    match before
    case LookingUp(token) =>
      || (after.Refreshed? && after.token == token && (after.reply == Failed || after.reply == InvalidRefresh))
      || (after.Generating? && after.token == token)
      || (after.Rejecting? && after.token == token)
    case Generating(token, user) =>
      || after == before || after == Refreshed(token, Failed)
      || (after == Rotating(token, user, env.newHash, env.expiresAt) && env.newHash !in s.generated)
    case Rotating(token, user, newHash, _) =>
      after == Rejecting(token, user) || after == Refreshed(token, Failed) || after == Refreshed(token, Issued(newHash))
    case Rejecting(token, _) => after == Refreshed(token, RevokedRefresh) || after == Refreshed(token, Failed)
    case LoggingOut(_) => after.LoggedOut?
    case Opening(user) =>
      || after == before || after.Opened?
      || (after == Storing(user, env.newHash, env.expiresAt) && env.newHash !in s.generated)
    case Storing(_, _, _) => after.Opened?
    case _ => after == before
  }

  /** The step moves its own call only, and as `Leads` says. */
  ghost predicate Moves(s: System, t: System, id: nat, before: Call, env: Env) {
    id in t.calls && t.calls == s.calls[id := t.calls[id]] && Leads(s, before, t.calls[id], env)
  }

  lemma LookUpMoves(s: System, id: nat, token: Hash, env: Env)
    ensures Moves(s, LookUp(s, id, token, env), id, LookingUp(token), env)
  {
  }

  lemma GenerateMoves(s: System, id: nat, token: Hash, user: UserId, env: Env)
    requires id in s.calls && s.calls[id] == Generating(token, user)
    ensures Moves(s, Generate(s, id, token, user, env), id, Generating(token, user), env)
  {
  }

  lemma RotateStepMoves(s: System, id: nat, token: Hash, user: UserId, newHash: Hash, expiresAt: int, env: Env)
    ensures Moves(s, RotateStep(s, id, token, user, newHash, expiresAt, env), id, Rotating(token, user, newHash, expiresAt), env)
  {
  }

  lemma RejectMoves(s: System, id: nat, token: Hash, user: UserId, env: Env)
    ensures Moves(s, Reject(s, id, token, user, env), id, Rejecting(token, user), env)
  {
  }

  lemma LogOutMoves(s: System, id: nat, token: Hash, env: Env)
    ensures Moves(s, LogOut(s, id, token, env), id, LoggingOut(token), env)
  {
  }

  lemma OpenMoves(s: System, id: nat, user: UserId, env: Env)
    requires id in s.calls && s.calls[id] == Opening(user)
    ensures Moves(s, Open(s, id, user, env), id, Opening(user), env)
  {
  }

  lemma StoreMoves(s: System, id: nat, user: UserId, newHash: Hash, expiresAt: int, env: Env)
    ensures Moves(s, Store(s, id, user, newHash, expiresAt, env), id, Storing(user, newHash, expiresAt), env)
  {
  }

  lemma StepLeads(s: System, id: nat, env: Env)
    requires id in s.calls
    ensures Moves(s, StepCall(s, id, env), id, s.calls[id], env)
  {
    match s.calls[id]
    case LookingUp(token) => LookUpMoves(s, id, token, env);
    case Generating(token, user) => GenerateMoves(s, id, token, user, env);
    case Rotating(token, user, newHash, expiresAt) => RotateStepMoves(s, id, token, user, newHash, expiresAt, env);
    case Rejecting(token, user) => RejectMoves(s, id, token, user, env);
    case LoggingOut(token) => LogOutMoves(s, id, token, env);
    case Opening(user) => OpenMoves(s, id, user, env);
    case Storing(user, newHash, expiresAt) => StoreMoves(s, id, user, newHash, expiresAt, env);
    case _ => assert s.calls == s.calls[id := s.calls[id]];
  }

  /** A call moves by its own steps, by being given up, and by being started. */
  lemma OthersStay(s: System, a: Action, id: nat)
    requires !(a.Step? && a.id == id)
    ensures id in s.calls ==>
              id in Apply(s, a).calls &&
              (Apply(s, a).calls[id] == s.calls[id] || Apply(s, a).calls[id] == GivenUp(s.calls[id]))
    ensures id in Apply(s, a).calls && id !in s.calls ==>
              Apply(s, a).calls[id].LookingUp? || Apply(s, a).calls[id].LoggingOut? || Apply(s, a).calls[id].Opening?
  {
    if a.Step? && a.id in s.calls {
      StepLeads(s, a.id, a.env);
    }
  }

  /** A call comes to hold a new token only by generating it. */
  lemma HoldsNew(s: System, a: Action, id: nat, h: Hash)
    requires id in Apply(s, a).calls && Holds(Apply(s, a).calls[id], h)
    ensures h !in s.generated || (id in s.calls && Holds(s.calls[id], h))
  {
    if !(a.Step? && a.id == id) {
      OthersStay(s, a, id);
    } else if id in s.calls {
      StepLeads(s, id, a.env);
    }
  }

  lemma GeneratedGrows(s: System, a: Action)
    ensures forall h | h in s.generated :: h in Apply(s, a).generated && Apply(s, a).generated[h] == s.generated[h]
  {
  }

  lemma SpentStays(s: System, a: Action, h: Hash)
    requires Inv(s) && Spent(s, h)
    ensures Spent(Apply(s, a), h)
  {
    GeneratedGrows(s, a);
    forall id | id in Apply(s, a).calls ensures !Holds(Apply(s, a).calls[id], h) {
      if Holds(Apply(s, a).calls[id], h) {
        HoldsNew(s, a, id, h);
        assert false;
      }
    }
  }

  /** The action commits a rotation. */
  ghost predicate Rotates(s: System, a: Action) {
    a.Step? && a.id in s.calls && s.calls[a.id].Rotating? &&
    CanRotate(s.table, s.calls[a.id].token, s.calls[a.id].newHash, s.calls[a.id].user, a.env.now)
  }

  /** The action stores a row for a login or registration of the user. */
  predicate StoresFor(s: System, a: Action, user: UserId) {
    a.Step? && a.id in s.calls && s.calls[a.id].Storing? && s.calls[a.id].user == user
  }

  lemma StepChangesTable(s: System, id: nat, env: Env)
    requires id in s.calls
    ensures var t := StepCall(s, id, env);
      match s.calls[id]
      case Rotating(token, user, newHash, expiresAt) =>
        t.table == s.table ||
        (CanRotate(s.table, token, newHash, user, env.now) && t.table == Rotate(s.table, token, newHash, expiresAt))
      case Storing(user, newHash, expiresAt) =>
        t.table == s.table ||
        (newHash !in s.table && t.table == s.table[newHash := Row(user, expiresAt, false, |s.owners|)])
      case _ => RowsEnd(s.table, t.table)
  {
    match s.calls[id]
    case Rejecting(_, user) => RevokeUserEndsRows(s.table, user);
    case LoggingOut(token) => RevokeEndsRows(s.table, token);
    case _ =>
  }

  /** The table changes by ending rows, by a rotation, or by storing one row. */
  lemma TableChanges(s: System, a: Action)
    ensures var t := Apply(s, a);
      || RowsEnd(s.table, t.table)
      || (Rotates(s, a) && t.table == Rotate(s.table, s.calls[a.id].token, s.calls[a.id].newHash, s.calls[a.id].expiresAt))
      || (a.Step? && a.id in s.calls && s.calls[a.id].Storing? && s.calls[a.id].newHash !in s.table &&
          t.table == s.table[s.calls[a.id].newHash := Row(s.calls[a.id].user, s.calls[a.id].expiresAt, false, |s.owners|)])
  {
    match a
    case Step(id, env) => if id in s.calls { StepChangesTable(s, id, env); }
    case RunCleanup(now, _) => CleanupEndsRows(s.table, now);
    case _ =>
  }

  lemma DeadRowStays(s: System, a: Action, h: Hash)
    requires Inv(s) && Dead(s, h)
    ensures !IsLive(Apply(s, a).table, h)
  {
    TableChanges(s, a);
    if a.Step? && a.id in s.calls {
      assert !Holds(s.calls[a.id], h);
    }
  }

  /** A finished call stays as it is. */
  lemma FinishedStays(s: System, a: Action, id: nat)
    requires id in s.calls && s.calls[id].Refreshed?
    ensures id in Apply(s, a).calls && Apply(s, a).calls[id] == s.calls[id]
  {
    if !(a.Step? && a.id == id) {
      OthersStay(s, a, id);
    }
  }

  /** A call can be answered with a pair only in a step that finds its token consumable. */
  lemma WinsByConsuming(s: System, a: Action, id: nat, h: Hash)
    requires id in Apply(s, a).calls && Won(Apply(s, a).calls[id], h)
    requires !(id in s.calls && Won(s.calls[id], h))
    ensures IsLive(s.table, h) && !IsLive(Apply(s, a).table, h)
  {
    if a.Step? && a.id == id {
      StepLeads(s, id, a.env);
      assert s.calls[id].Rotating?;
      assert Apply(s, a) == RotateStep(s, id, s.calls[id].token, s.calls[id].user, s.calls[id].newHash,
                                       s.calls[id].expiresAt, a.env);
    } else {
      OthersStay(s, a, id);
    }
  }

  /** A token that was rotated, logged out, revoked or cleaned away stays dead through every run, and no
      call that had not already succeeded with it ever does. */
  lemma {:induction false} DeadForever(s: System, run: seq<Action>, h: Hash)
    requires Inv(s) && Dead(s, h)
    ensures Dead(Exec(s, run), h)
    ensures forall id | id in Exec(s, run).calls && Won(Exec(s, run).calls[id], h) ::
              id in s.calls && s.calls[id] == Exec(s, run).calls[id]
  {
    if run != [] {
      var before, a := Exec(s, run[..|run| - 1]), run[|run| - 1];
      DeadForever(s, run[..|run| - 1], h);
      ExecKeeps(s, run[..|run| - 1]);
      SpentStays(before, a, h);
      DeadRowStays(before, a, h);
      forall id | id in Apply(before, a).calls && Won(Apply(before, a).calls[id], h)
        ensures id in s.calls && s.calls[id] == Apply(before, a).calls[id]
      {
        if !(id in before.calls && Won(before.calls[id], h)) {
          WinsByConsuming(before, a, id, h);
          assert false;
        } else {
          FinishedStays(before, a, id);
        }
      }
    }
  }

  /** Every way of ending a token kills it: a stored token that is not live after a step is dead, even if
      the cleanup removed its row. */
  lemma EndedIsDead(run: seq<Action>, a: Action, h: Hash)
    requires var s := Exec(Start(), run); h in s.table && !IsLive(Apply(s, a).table, h)
    ensures Dead(Apply(Exec(Start(), run), a), h)
  {
    Reachable(run);
    StoredIsSpent(Exec(Start(), run), h);
    SpentStays(Exec(Start(), run), a, h);
  }

  /** Rotation, logout and revoke-all do end the tokens they are meant to end. */
  lemma StepsEndTokens(s: System, id: nat, env: Env, h: Hash)
    requires id in s.calls && env.fault != FailsBefore && h in s.table
    requires
      || (s.calls[id].LoggingOut? && s.calls[id].token == h)
      || (s.calls[id].Rejecting? && s.calls[id].user == s.table[h].userId != "")
      || (s.calls[id].Rotating? && s.calls[id].token == h &&
          CanRotate(s.table, h, s.calls[id].newHash, s.calls[id].user, env.now))
    ensures !IsLive(Apply(s, Step(id, env)).table, h)
  {
  }

  /** Tokens are single-use over whole runs: once a stored token has stopped being live, no later call with
      it is ever answered with a pair. */
  lemma EndedTokensNeverWin(run: seq<Action>, a: Action, more: seq<Action>, h: Hash, id: nat)
    requires var s := Exec(Start(), run); h in s.table && !IsLive(Apply(s, a).table, h)
    requires var s := Exec(Apply(Exec(Start(), run), a), more); id in s.calls && Won(s.calls[id], h)
    ensures var after := Apply(Exec(Start(), run), a); id in after.calls && Won(after.calls[id], h)
  {
    EndedIsDead(run, a, h);
    Reachable(run);
    ApplyKeeps(Exec(Start(), run), a);
    DeadForever(Apply(Exec(Start(), run), a), more, h);
  }

  // ---------------------------------------------------------------- whose a token is

  lemma StepKeepsIssued(s: System, id: nat, env: Env, h: Hash)
    requires FreshTokens(s) && id in s.calls && h in s.issuedTo
    ensures h in StepCall(s, id, env).issuedTo && StepCall(s, id, env).issuedTo[h] == s.issuedTo[h]
  {
    assert !Holds(s.calls[id], h);
  }

  lemma ApplyKeepsIssued(s: System, a: Action, h: Hash)
    requires FreshTokens(s) && h in s.issuedTo
    ensures h in Apply(s, a).issuedTo && Apply(s, a).issuedTo[h] == s.issuedTo[h]
  {
    match a
    case Step(id, env) => if id in s.calls { StepKeepsIssued(s, id, env, h); }
    case _ =>
  }

  /** To whom a token was issued is what its row says while it has one, and never changes, whether the row
      stays or is deleted. */
  lemma {:induction false} IssuedForEver(s: System, run: seq<Action>, h: Hash)
    requires Inv(s) && h in s.issuedTo
    ensures h in Exec(s, run).issuedTo && Exec(s, run).issuedTo[h] == s.issuedTo[h]
    ensures h in Exec(s, run).table ==> Exec(s, run).table[h].userId == s.issuedTo[h]
  {
    ExecKeeps(s, run);
    if run != [] {
      var before, a := Exec(s, run[..|run| - 1]), run[|run| - 1];
      IssuedForEver(s, run[..|run| - 1], h);
      ExecKeeps(s, run[..|run| - 1]);
      ApplyKeepsIssued(before, a, h);
    }
  }

  // ---------------------------------------------------------------- the answer "revoked"

  /** The answer "revoked" comes from one kind of step only. */
  lemma RevokedByRejecting(s: System, a: Action, id: nat, token: Hash)
    requires id in Apply(s, a).calls && Apply(s, a).calls[id] == Refreshed(token, RevokedRefresh)
    requires !(id in s.calls && s.calls[id].Refreshed?)
    ensures a.Step? && a.id == id && id in s.calls && s.calls[id].Rejecting? && s.calls[id].token == token
    ensures s.calls[id].user != "" ==> Apply(s, a).table == RevokeUser(s.table, s.calls[id].user)
    ensures Apply(s, a).issuedTo == s.issuedTo
  {
    if a.Step? && a.id == id && id in s.calls {
      StepLeads(s, id, a.env);
      assert Apply(s, a) == Reject(s, id, s.calls[id].token, s.calls[id].user, a.env);
    } else {
      OthersStay(s, a, id);
    }
  }

  /** The step answers a refresh of this token with "revoked". */
  ghost predicate AnswersRevoked(s: System, a: Action, id: nat, token: Hash) {
    && id in Apply(s, a).calls && Apply(s, a).calls[id] == Refreshed(token, RevokedRefresh)
    && !(id in s.calls && s.calls[id].Refreshed?)
  }

  /** Whenever a refresh is answered "revoked", its token had been issued, and in that very step the user it
      was issued to lost every live row, and no row of anybody else changed. The cleanup may have deleted
      the token's own row before. */
  lemma RevokedMeansCleared(run: seq<Action>, a: Action, id: nat, token: Hash)
    requires AnswersRevoked(Exec(Start(), run), a, id, token)
    ensures var s := Exec(Start(), run);
            && token in s.issuedTo && s.issuedTo[token] in s.users
            && id in s.calls && s.calls[id] == Rejecting(token, s.issuedTo[token])
            && Cleared(s.table, Apply(s, a).table, s.issuedTo[token])
  {
    var s := Exec(Start(), run);
    Reachable(run);
    RevokedByRejecting(s, a, id, token);
    assert CallTrue(s, s.calls[id]);
    RevokeUserActive(s.table, s.issuedTo[token], s.issuedTo[token]);
  }

  /** The user has no live row left, and nobody else's row changed. */
  ghost predicate Cleared(before: Table, after: Table, user: UserId) {
    && Active(after, user) == {}
    && after.Keys == before.Keys
    && forall h | h in before && before[h].userId != user :: after[h] == before[h]
  }

  /** A row becomes live only by a store step, or by a rotation that takes over a live row of its user. */
  lemma NewlyLive(s: System, a: Action, h: Hash)
    requires IsLive(Apply(s, a).table, h)
    ensures var user := Apply(s, a).table[h].userId;
            StoresFor(s, a, user) || Active(s.table, user) != {}
  {
    var user := Apply(s, a).table[h].userId;
    TableChanges(s, a);
    if h in s.table && s.table[h].userId == user && !s.table[h].revoked {
      assert h in Active(s.table, user);
    } else if Rotates(s, a) {
      assert s.table[s.calls[a.id].token].userId == user ==> s.calls[a.id].token in Active(s.table, user);
    }
  }

  lemma ClearedStays(s: System, a: Action, user: UserId)
    requires Active(s.table, user) == {} && !StoresFor(s, a, user)
    ensures Active(Apply(s, a).table, user) == {}
  {
    if h :| h in Active(Apply(s, a).table, user) {
      NewlyLive(s, a, h);
    }
  }

  /** And so it remains, through every refresh in flight, until the next store step of a login or
      registration of that user. */
  lemma {:induction false} ClearedUntilNextSession(s: System, run: seq<Action>, user: UserId)
    requires Active(s.table, user) == {}
    requires NoSessionOf(s, run, user)
    ensures Active(Exec(s, run).table, user) == {}
  {
    if run != [] {
      var n := |run| - 1;
      forall i | 0 <= i < n ensures !StoresFor(Exec(s, run[..n][..i]), run[..n][i], user) {
        assert run[..n][..i] == run[..i];
      }
      ClearedUntilNextSession(s, run[..n], user);
      ClearedStays(Exec(s, run[..n]), run[n], user);
    }
  }

  /** Both together: after a "revoked" answer the user to whom the token was issued has no live row, through
      every continuation of the run in which no login or registration of that user stores one. */
  lemma RevokedUntilNextSession(run: seq<Action>, a: Action, id: nat, token: Hash, more: seq<Action>)
    requires AnswersRevoked(Exec(Start(), run), a, id, token)
    ensures var s := Exec(Start(), run);
            && token in s.issuedTo && s.issuedTo[token] in s.users
            && id in s.calls && s.calls[id] == Rejecting(token, s.issuedTo[token])
            && Cleared(s.table, Apply(s, a).table, s.issuedTo[token])
            && (NoSessionOf(Apply(s, a), more, s.issuedTo[token]) ==>
                  Active(Exec(Apply(s, a), more).table, s.issuedTo[token]) == {})
  {
    RevokedMeansCleared(run, a, id, token);
    var s := Exec(Start(), run);
    if NoSessionOf(Apply(s, a), more, s.issuedTo[token]) {
      ClearedUntilNextSession(Apply(s, a), more, s.issuedTo[token]);
    }
  }

  ghost predicate NoSessionOf(s: System, run: seq<Action>, user: UserId) {
    forall i | 0 <= i < |run| :: !StoresFor(Exec(s, run[..i]), run[i], user)
  }

  // ---------------------------------------------------------------- sessions are conserved

  /** Over every run and for every user, the sessions stored are the live rows plus those ended by logout,
      by revoke-all and by expiry. */
  lemma SessionsConserved(run: seq<Action>, user: UserId)
    ensures var s := Exec(Start(), run);
            user in s.users ==>
              user in s.tallies &&
              s.tallies[user].stored == |Active(s.table, user)| + s.tallies[user].loggedOut +
                                        s.tallies[user].revokedAll + s.tallies[user].expired
  {
    Reachable(run);
  }

  /** A rotation changes neither side of that account. */
  lemma RotationKeepsCount(s: System, id: nat, env: Env, user: UserId)
    requires id in s.calls && s.calls[id].Rotating?
    ensures var t := Apply(s, Step(id, env));
            t.tallies == s.tallies && |Active(t.table, user)| == |Active(s.table, user)|
  {
    var call := s.calls[id];
    if env.fault != FailsBefore && CanRotate(s.table, call.token, call.newHash, call.user, env.now) {
      RotateActive(s.table, call.token, call.newHash, call.user, env.now, call.expiresAt, user);
    }
  }

  /** The owner check inside the rotation never fires: a token about to be rotated belongs to the user its
      look-up found. */
  lemma OwnerCheckNeverFails(run: seq<Action>, id: nat)
    requires var s := Exec(Start(), run); id in s.calls && s.calls[id].Rotating?
    ensures var s := Exec(Start(), run);
            s.calls[id].user != "" &&
            (s.calls[id].token in s.table ==> s.table[s.calls[id].token].userId == s.calls[id].user)
  {
    Reachable(run);
    var s := Exec(Start(), run);
    assert CallTrue(s, s.calls[id]);
  }
}
