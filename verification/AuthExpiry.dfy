/** Lifetimes of tokens over every run: a stored token expires when it was generated to. */
module AuthExpiry {
  import opened Faults
  import opened TokenTable
  import opened AuthProtocol
  import opened AuthInvariants
  import opened AuthTheorems

  /** The token was generated with this expiry. */
  predicate Lives(s: System, h: Hash, expiresAt: int) {
    h in s.generated && s.generated[h] == expiresAt
  }

  ghost predicate Expiries(s: System) {
    && (forall h | h in s.table :: Lives(s, h, s.table[h].expiresAt))
    && (forall id | id in s.calls && s.calls[id].Rotating? :: Lives(s, s.calls[id].newHash, s.calls[id].expiresAt))
    && (forall id | id in s.calls && s.calls[id].Storing? :: Lives(s, s.calls[id].newHash, s.calls[id].expiresAt))
  }

  /** A call that comes to hold a token was given its expiry in the same step. */
  lemma StepHolds(s: System, id: nat, env: Env)
    requires id in s.calls && Expiries(s)
    ensures var t := StepCall(s, id, env);
            id in t.calls && (t.calls[id].Rotating? || t.calls[id].Storing? ==>
              Lives(t, t.calls[id].newHash, t.calls[id].expiresAt))
  {
    match s.calls[id]
    case Generating(token, user) => assert StepCall(s, id, env) == Generate(s, id, token, user, env);
    case Opening(user) => assert StepCall(s, id, env) == Open(s, id, user, env);
    case _ => StepLeads(s, id, env);
  }

  lemma CallsKeepExpiries(s: System, a: Action)
    requires Expiries(s)
    ensures forall id | id in Apply(s, a).calls && (Apply(s, a).calls[id].Rotating? || Apply(s, a).calls[id].Storing?) ::
              Lives(Apply(s, a), Apply(s, a).calls[id].newHash, Apply(s, a).calls[id].expiresAt)
  {
    GeneratedGrows(s, a);
    forall id | id in Apply(s, a).calls && (Apply(s, a).calls[id].Rotating? || Apply(s, a).calls[id].Storing?)
      ensures Lives(Apply(s, a), Apply(s, a).calls[id].newHash, Apply(s, a).calls[id].expiresAt)
    {
      if a.Step? && a.id == id {
        StepHolds(s, id, a.env);
      } else {
        OthersStay(s, a, id);
      }
    }
  }

  lemma RowsKeepExpiries(s: System, a: Action)
    requires Expiries(s)
    ensures forall h | h in Apply(s, a).table :: Lives(Apply(s, a), h, Apply(s, a).table[h].expiresAt)
  {
    GeneratedGrows(s, a);
    TableChanges(s, a);
  }

  lemma {:induction false} ExecKeepsExpiries(run: seq<Action>)
    ensures Expiries(Exec(Start(), run))
  {
    if run != [] {
      var before, a := Exec(Start(), run[..|run| - 1]), run[|run| - 1];
      ExecKeepsExpiries(run[..|run| - 1]);
      CallsKeepExpiries(before, a);
      RowsKeepExpiries(before, a);
    }
  }

  lemma {:induction false} GeneratedForEver(s: System, run: seq<Action>, h: Hash)
    requires h in s.generated
    ensures Lives(Exec(s, run), h, s.generated[h])
  {
    if run != [] {
      GeneratedForEver(s, run[..|run| - 1], h);
      GeneratedGrows(Exec(s, run[..|run| - 1]), run[|run| - 1]);
    }
  }

  /** In every reachable state and every continuation of it, the row of a token expires when the token was
      generated to expire. */
  lemma RowsExpireAsGenerated(run: seq<Action>, more: seq<Action>, h: Hash)
    requires h in Exec(Start(), run).generated
    ensures var t := Exec(Exec(Start(), run), more);
            h in t.table ==> t.table[h].expiresAt == Exec(Start(), run).generated[h]
  {
    ExecConcat(Start(), run, more);
    ExecKeepsExpiries(run + more);
    GeneratedForEver(Exec(Start(), run), more, h);
  }

  lemma {:induction false} ExecConcat(s: System, run: seq<Action>, more: seq<Action>)
    ensures Exec(s, run + more) == Exec(Exec(s, run), more)
  {
    if more == [] {
      assert run + more == run;
    } else {
      ExecConcat(s, run, more[..|more| - 1]);
      assert (run + more)[..|run + more| - 1] == run + more[..|more| - 1];
    }
  }

  /** The step answers a refresh of this token with a pair whose refresh token is `g`. */
  ghost predicate AnswersPair(s: System, a: Action, id: nat, token: Hash, g: Hash) {
    && id in Apply(s, a).calls && Apply(s, a).calls[id] == Refreshed(token, Issued(g))
    && !(id in s.calls && s.calls[id].Refreshed?)
  }

  /** Over every run: the token that a refresh answers is stored live in that very step, for the user and in
      the lineage of the token presented, which had not expired, with the expiry it was generated with. */
  lemma AnsweredTokenIsStored(run: seq<Action>, a: Action, id: nat, token: Hash, g: Hash)
    requires AnswersPair(Exec(Start(), run), a, id, token, g)
    ensures var (s, t) := (Exec(Start(), run), Apply(Exec(Start(), run), a));
            && a.Step? && IsConsumable(s.table, token, a.env.now)
            && IsLive(t.table, g) && g in t.generated && t.table[g].expiresAt == t.generated[g]
            && token in s.issuedTo && t.table[g].userId == s.issuedTo[token]
            && t.table[g].lineage == s.table[token].lineage
  {
    var s := Exec(Start(), run);
    Reachable(run);
    if a.Step? && a.id == id && id in s.calls {
      StepLeads(s, id, a.env);
      assert s.calls[id] == Rotating(token, s.calls[id].user, g, s.calls[id].expiresAt);
      assert Apply(s, a) == RotateStep(s, id, token, s.calls[id].user, g, s.calls[id].expiresAt, a.env);
      RowsKeepExpiriesAfter(run, a);
    } else {
      OthersStay(s, a, id);
    }
  }

  lemma RowsKeepExpiriesAfter(run: seq<Action>, a: Action)
    ensures Expiries(Apply(Exec(Start(), run), a))
  {
    ExecKeepsExpiries(run);
    CallsKeepExpiries(Exec(Start(), run), a);
    RowsKeepExpiries(Exec(Start(), run), a);
  }
}
