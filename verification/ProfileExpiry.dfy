/** Expired tokens and the profiles answered, over every run. */
module ProfileExpiry {
  import opened DomainErrors
  import opened RedisCache
  import opened ProfileCache
  import opened ProfileTheorems

  /** The token had not expired when the call came in. */
  ghost predicate CameInTime(w: World, s: System, id: nat, token: string)
    requires id in s.arrivals
  {
    w.expiry(token).None? || s.arrivals[id] < w.expiry(token).value
  }

  ghost predicate CallInTime(w: World, s: System, id: nat, call: Call)
    requires id in s.arrivals
  {
    match call
    case ReadingHint(token, remaining, _) => remaining > 0 ==> CameInTime(w, s, id, token)
    case ReadingProfile(token, _, _, _) => CameInTime(w, s, id, token)
    case Asking(_, _) => true
    case StoringProfile(token, _, _, _) => CameInTime(w, s, id, token)
    case StoringHint(token, _, _) => CameInTime(w, s, id, token)
    case Answered(token, answer, _) => answer.Some? ==> CameInTime(w, s, id, token)
  }

  ghost predicate InTime(w: World, s: System) {
    && s.arrivals.Keys == s.calls.Keys
    && forall id | id in s.calls :: s.arrivals[id] <= s.clock && CallInTime(w, s, id, s.calls[id])
  }

  lemma OwnStepInTime(w: World, s: System, id: nat, works: bool)
    requires InTime(w, s) && id in s.calls
    ensures var t := StepCall(w, s, id, works);
            && t.arrivals == s.arrivals && t.clock == s.clock && t.calls == s.calls[id := t.calls[id]]
            && CallInTime(w, t, id, t.calls[id])
  {
    assert CallInTime(w, s, id, s.calls[id]);
  }

  lemma StepInTime(w: World, s: System, id: nat, works: bool)
    requires InTime(w, s) && id in s.calls
    ensures InTime(w, StepCall(w, s, id, works))
  {
    var t := StepCall(w, s, id, works);
    OwnStepInTime(w, s, id, works);
    OthersInTime(w, s, t, id);
  }

  lemma OthersInTime(w: World, s: System, t: System, id: nat)
    requires InTime(w, s) && id in s.calls && id in t.calls && t.calls == s.calls[id := t.calls[id]]
    requires t.arrivals == s.arrivals && t.clock == s.clock && CallInTime(w, t, id, t.calls[id])
    ensures InTime(w, t)
  {
    forall i | i in t.calls && i != id ensures CallInTime(w, t, i, t.calls[i]) {
      assert CallInTime(w, s, i, s.calls[i]);
    }
  }

  lemma {:induction false} RunInTime(w: World, now: int, run: seq<Action>)
    ensures InTime(w, Exec(w, Start(now), run))
  {
    if run != [] {
      var s, a := Exec(w, Start(now), run[..|run| - 1]), run[|run| - 1];
      RunInTime(w, now, run[..|run| - 1]);
      match a {
        case Step(id, works) => if id in s.calls { StepInTime(w, s, id, works); }
        case _ =>
          forall i | i in Apply(w, s, a).calls ensures CallInTime(w, Apply(w, s, a), i, Apply(w, s, a).calls[i]) {
            assert i in s.calls ==> CallInTime(w, s, i, s.calls[i]);
          }
      }
    }
  }

  /** Over every run: a lookup that comes in at or after its token's expiry is never answered with a profile,
      neither from the cache nor by the backend. */
  lemma ExpiredTokensGetNothing(w: World, now: int, run: seq<Action>, id: nat)
    requires var s := Exec(w, Start(now), run);
             && id in s.calls && s.calls[id].Answered? && id in s.arrivals
             && w.expiry(s.calls[id].token).Some? && s.arrivals[id] >= w.expiry(s.calls[id].token).value
    ensures Exec(w, Start(now), run).calls[id].answer == None
  {
    RunInTime(w, now, run);
    assert CallInTime(w, Exec(w, Start(now), run), id, Exec(w, Start(now), run).calls[id]);
  }

  /** Over every run: every profile answered, cached or not, is that of a stored user, the token's owner, in
      id, e-mail, name and creation time, and tells no password hash. */
  lemma AnswersAreTheOwners(w: World, now: int, run: seq<Action>, id: nat)
    requires Lawful(w)
    requires var s := Exec(w, Start(now), run);
             id in s.calls && s.calls[id].Answered? && s.calls[id].answer.Some?
    ensures var s := Exec(w, Start(now), run);
            var (owner, profile) := (w.owner(s.calls[id].token), s.calls[id].answer.value);
            && owner.Some? && owner.value in s.users && profile.id == owner.value
            && profile.email == s.users[owner.value].email && profile.username == s.users[owner.value].username
            && profile.createdAt == s.users[owner.value].createdAt && profile.updatedAt == 0 && profile.passwordHash == ""
  {
    ExecKeeps(w, now, run);
    var s := Exec(w, Start(now), run);
    assert CallTrue(w, s, s.calls[id]);
  }
}
