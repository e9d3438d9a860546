/** What a cached profile can be, over every run. */
module ProfileTheorems {
  import opened DomainErrors
  import opened RedisCache
  import opened ProfileCache

  // ---------------------------------------------------------------- keys

  /** The two kinds of keys never meet, and a key tells its user or hash. */
  lemma KeysDistinct(a: string, b: string)
    ensures ProfileKey(a) != HintKey(b)
    ensures ProfileKey(a) == ProfileKey(b) ==> a == b
    ensures HintKey(a) == HintKey(b) ==> a == b
  {
    assert ProfileKey(a)[8] == 'u' && HintKey(b)[8] == 't';
    assert ProfileKey(a)[13..] == a && ProfileKey(b)[13..] == b;
    assert HintKey(a)[12..] == a && HintKey(b)[12..] == b;
  }

  // ---------------------------------------------------------------- invariants

  /** The backend answered for the user, no later than `time` and no earlier than `lag` before. */
  ghost predicate FetchedBy(s: System, user: string, time: int, lag: int) {
    exists f :: f in s.fetches && f.user == user && f.at <= time <= f.at + lag
  }

  /** The backend accepted this token, no later than `time`. */
  ghost predicate AcceptedBy(s: System, token: string, time: int) {
    exists f :: f in s.fetches && f.token == token && f.at <= time
  }

  ghost predicate Timely(s: System, e: Entry) {
    e.storedAt <= s.clock && e.expiresAt <= e.storedAt + PROFILE_TTL
  }

  /** The token belongs to the user, and the backend has accepted it. */
  ghost predicate Vouched(w: World, s: System, token: string, user: string) {
    w.owner(token) == Some(user) && user in s.users && AcceptedBy(s, token, s.clock)
  }

  ghost predicate ProfileEntry(w: World, s: System, user: string, e: Entry) {
    && Timely(s, e) && user in s.users
    && e.value == w.encode(ClientProfile(s.users[user]))
    && FetchedBy(s, user, e.storedAt, s.lag)
  }

  ghost predicate HintEntry(w: World, s: System, token: string, e: Entry) {
    Timely(s, e) && Vouched(w, s, token, e.value)
  }

  ghost predicate StoreTrue(w: World, s: System) {
    && (forall user :: ProfileKey(user) in s.store ==> ProfileEntry(w, s, user, s.store[ProfileKey(user)]))
    && (forall token :: HintKey(w.hash(token)) in s.store ==> HintEntry(w, s, token, s.store[HintKey(w.hash(token))]))
  }

  /** The answer is the owner's profile. */
  ghost predicate AnswerTrue(w: World, s: System, token: string, answer: User) {
    && w.owner(token).Some? && w.owner(token).value in s.users
    && answer == ClientProfile(s.users[w.owner(token).value])
    && AcceptedBy(s, token, s.clock)
  }

  ghost predicate Checked(w: World, token: string, remaining: int, checkedAt: int) {
    remaining > 0 ==> w.expiry(token).Some? && checkedAt < w.expiry(token).value
  }

  ghost predicate CallTrue(w: World, s: System, call: Call) {
    match call
    case ReadingHint(token, remaining, checkedAt) => Checked(w, token, remaining, checkedAt)
    case ReadingProfile(token, remaining, checkedAt, user) =>
      remaining > 0 && Checked(w, token, remaining, checkedAt) && Vouched(w, s, token, user)
    case Asking(_, _) => true
    case StoringProfile(token, remaining, profile, fetchedAt) =>
      && remaining > 0 && AnswerTrue(w, s, token, profile)
      && Fetch(token, profile.id, fetchedAt) in s.fetches && fetchedAt <= s.clock
    case StoringHint(token, remaining, profile) => remaining > 0 && AnswerTrue(w, s, token, profile)
    case Answered(token, answer, source) =>
      && (answer.Some? ==> AnswerTrue(w, s, token, answer.value))
      && (source.Hit? ==> answer.Some? && HitTrue(w, s, token, source))
  }

  ghost predicate HitTrue(w: World, s: System, token: string, source: Source)
    requires source.Hit?
  {
    && w.expiry(token).Some? && source.checkedAt < w.expiry(token).value
    && AcceptedBy(s, token, source.readAt)
    && w.owner(token).Some? && FetchedBy(s, w.owner(token).value, source.storedAt, s.lag)
    && source.storedAt <= source.readAt <= s.clock && source.readAt < source.storedAt + PROFILE_TTL
  }

  ghost predicate CallsTrue(w: World, s: System) {
    forall id | id in s.calls :: CallTrue(w, s, s.calls[id])
  }

  ghost predicate UsersTrue(s: System) {
    forall id | id in s.users :: id != "" && s.users[id].id == id
  }

  ghost predicate Inv(w: World, s: System) {
    UsersTrue(s) && StoreTrue(w, s) && CallsTrue(w, s)
  }

  // ---------------------------------------------------------------- growth

  /** Time passes, users and accepted calls are added, nothing else. */
  ghost predicate Grows(s: System, t: System) {
    && s.clock <= t.clock && s.lag <= t.lag && s.fetches <= t.fetches && s.users.Keys <= t.users.Keys
    && forall id | id in s.users :: t.users[id] == s.users[id]
  }

  lemma GrowthKeepsCall(w: World, s: System, t: System, call: Call)
    requires Grows(s, t) && CallTrue(w, s, call)
    ensures CallTrue(w, t, call)
  {
  }

  lemma GrowthKeepsProfile(w: World, s: System, t: System, user: string, e: Entry)
    requires Grows(s, t) && ProfileEntry(w, s, user, e)
    ensures ProfileEntry(w, t, user, e)
  {
  }

  lemma GrowthKeepsHint(w: World, s: System, t: System, token: string, e: Entry)
    requires Grows(s, t) && HintEntry(w, s, token, e)
    ensures HintEntry(w, t, token, e)
  {
  }

  /** Growth, the loss of entries, and one call moving on keep the invariant. */
  lemma MoveKeeps(w: World, s: System, t: System, id: nat)
    requires Inv(w, s) && Grows(s, t) && UsersTrue(t)
    requires t.store.Keys <= s.store.Keys && forall k | k in t.store :: t.store[k] == s.store[k]
    requires forall i | i in t.calls && i != id :: i in s.calls && t.calls[i] == s.calls[i]
    requires id in t.calls ==> CallTrue(w, t, t.calls[id])
    ensures Inv(w, t)
  {
    forall i | i in t.calls ensures CallTrue(w, t, t.calls[i]) {
      if i != id {
        GrowthKeepsCall(w, s, t, t.calls[i]);
      }
    }
    forall user | ProfileKey(user) in t.store ensures ProfileEntry(w, t, user, t.store[ProfileKey(user)]) {
      GrowthKeepsProfile(w, s, t, user, s.store[ProfileKey(user)]);
    }
    forall token | HintKey(w.hash(token)) in t.store
      ensures HintEntry(w, t, token, t.store[HintKey(w.hash(token))])
    {
      GrowthKeepsHint(w, s, t, token, s.store[HintKey(w.hash(token))]);
    }
  }

  // ---------------------------------------------------------------- steps

  lemma HintStep(w: World, s: System, id: nat, works: bool)
    requires Lawful(w) && Inv(w, s) && id in s.calls && s.calls[id].ReadingHint?
    ensures Inv(w, StepCall(w, s, id, works))
  {
    var call := s.calls[id];
    assert CallTrue(w, s, call);
    var t := StepCall(w, s, id, works);
    if t.calls[id].ReadingProfile? {
      assert HintEntry(w, s, call.token, s.store[HintKey(w.hash(call.token))]);
      assert t.calls[id].user == s.store[HintKey(w.hash(call.token))].value;
    }
    GrowthKeepsAll(w, s, t, id);
  }

  lemma GrowthKeepsAll(w: World, s: System, t: System, id: nat)
    requires Inv(w, s) && id in t.calls && CallTrue(w, s, t.calls[id])
    requires t == Reached(s, id, t.calls[id]).(arrivals := t.arrivals)
    ensures Inv(w, t)
  {
    GrowthKeepsCall(w, s, t, t.calls[id]);
    MoveKeeps(w, s, t, id);
  }

  lemma ProfileStep(w: World, s: System, id: nat, works: bool)
    requires Lawful(w) && Inv(w, s) && id in s.calls && s.calls[id].ReadingProfile?
    ensures Inv(w, StepCall(w, s, id, works))
  {
    var call := s.calls[id];
    assert CallTrue(w, s, call);
    var t := StepCall(w, s, id, works);
    if t.calls[id].Answered? {
      var e := s.store[ProfileKey(call.user)];
      assert ProfileEntry(w, s, call.user, e);
      var client := ClientProfile(s.users[call.user]);
      assert w.decode(w.encode(client)) == Some(client.(passwordHash := ""));
    }
    GrowthKeepsAll(w, s, t, id);
  }

  lemma AskStep(w: World, s: System, id: nat, works: bool)
    requires Lawful(w) && Inv(w, s) && id in s.calls && s.calls[id].Asking?
    ensures Inv(w, StepCall(w, s, id, works))
  {
    var call, t := s.calls[id], StepCall(w, s, id, works);
    var answer := if works then Backend(w, s.users, call.token, s.clock) else None;
    if answer.Some? {
      var f := Fetch(call.token, answer.value.id, s.clock);
      assert f in t.fetches;
      assert AcceptedBy(t, call.token, t.clock);
    }
    MoveKeeps(w, s, t, id);
  }

  lemma StoreProfileStep(w: World, s: System, id: nat, works: bool)
    requires Lawful(w) && Inv(w, s) && id in s.calls && s.calls[id].StoringProfile?
    ensures Inv(w, StepCall(w, s, id, works))
  {
    var call := s.calls[id];
    assert CallTrue(w, s, call);
    var t := StepCall(w, s, id, works);
    var moved := Reached(s, id, t.calls[id]);
    GrowthKeepsAll(w, s, moved, id);
    if works {
      var key := ProfileKey(call.profile.id);
      forall user | ProfileKey(user) in t.store ensures ProfileEntry(w, t, user, t.store[ProfileKey(user)]) {
        KeysDistinct(user, call.profile.id);
        if ProfileKey(user) == key {
          assert Fetch(call.token, call.profile.id, call.fetchedAt) in t.fetches;
        } else {
          GrowthKeepsProfile(w, moved, t, user, s.store[ProfileKey(user)]);
        }
      }
      forall token | HintKey(w.hash(token)) in t.store
        ensures HintEntry(w, t, token, t.store[HintKey(w.hash(token))])
      {
        KeysDistinct(call.profile.id, w.hash(token));
        GrowthKeepsHint(w, moved, t, token, s.store[HintKey(w.hash(token))]);
      }
      SameCalls(w, moved, t);
    }
  }

  lemma SameCalls(w: World, s: System, t: System)
    requires CallsTrue(w, s) && t == s.(store := t.store, lag := t.lag) && s.lag <= t.lag
    ensures CallsTrue(w, t)
  {
    forall id | id in t.calls ensures CallTrue(w, t, t.calls[id]) {
      GrowthKeepsCall(w, s, t, t.calls[id]);
    }
  }

  lemma StoreHintStep(w: World, s: System, id: nat, works: bool)
    requires Lawful(w) && Inv(w, s) && id in s.calls && s.calls[id].StoringHint?
    ensures Inv(w, StepCall(w, s, id, works))
  {
    var call := s.calls[id];
    assert CallTrue(w, s, call);
    var t := StepCall(w, s, id, works);
    var moved := Reached(s, id, t.calls[id]);
    GrowthKeepsAll(w, s, moved, id);
    if works {
      var key := HintKey(w.hash(call.token));
      forall user | ProfileKey(user) in t.store ensures ProfileEntry(w, t, user, t.store[ProfileKey(user)]) {
        KeysDistinct(user, w.hash(call.token));
        assert ProfileEntry(w, moved, user, s.store[ProfileKey(user)]);
      }
      forall token | HintKey(w.hash(token)) in t.store
        ensures HintEntry(w, t, token, t.store[HintKey(w.hash(token))])
      {
        KeysDistinct(w.hash(token), w.hash(call.token));
        if token != call.token {
          assert HintEntry(w, moved, token, s.store[HintKey(w.hash(token))]);
        }
      }
      SameCalls(w, moved, t);
    }
  }

  lemma ApplyKeeps(w: World, s: System, a: Action)
    requires Lawful(w) && Inv(w, s)
    ensures Inv(w, Apply(w, s, a))
  {
    match a
    case Arrive(id, token) =>
      if id !in s.calls {
        GrowthKeepsAll(w, s, Apply(w, s, a), id);
      }
    case Step(id, works) =>
      if id in s.calls {
        match s.calls[id] {
          case ReadingHint(_, _, _) => HintStep(w, s, id, works);
          case ReadingProfile(_, _, _, _) => ProfileStep(w, s, id, works);
          case Asking(_, _) => AskStep(w, s, id, works);
          case StoringProfile(_, _, _, _) => StoreProfileStep(w, s, id, works);
          case StoringHint(_, _, _) => StoreHintStep(w, s, id, works);
          case Answered(_, _, _) =>
        }
      }
    case _ => IdleKeeps(w, s, a);
  }

  lemma IdleKeeps(w: World, s: System, a: Action)
    requires Inv(w, s) && (a.Enroll? || a.Evict? || a.Tick?)
    ensures Inv(w, Apply(w, s, a))
  {
    var t := Apply(w, s, a);
    var id: nat := 0;
    if id in s.calls {
      GrowthKeepsCall(w, s, t, s.calls[id]);
    }
    MoveKeeps(w, s, t, id);
  }

  lemma {:induction false} ExecKeeps(w: World, now: int, run: seq<Action>)
    requires Lawful(w)
    ensures Inv(w, Exec(w, Start(now), run))
  {
    if run != [] {
      ExecKeeps(w, now, run[..|run| - 1]);
      ApplyKeeps(w, Exec(w, Start(now), run[..|run| - 1]), run[|run| - 1]);
    }
  }

  // ---------------------------------------------------------------- theorems

  /** The cache is transparent: in every reachable state, every profile ever answered for a token, from the
      cache or not, is what the backend answers for that token at any moment before it expires. */
  lemma AnswersAreTheBackends(w: World, now: int, run: seq<Action>, id: nat, t: int)
    requires Lawful(w)
    requires var s := Exec(w, Start(now), run);
             id in s.calls && s.calls[id].Answered? && s.calls[id].answer.Some?
    ensures var s := Exec(w, Start(now), run);
            var token := s.calls[id].token;
            w.expiry(token).None? || t < w.expiry(token).value ==>
              Backend(w, s.users, token, t) == s.calls[id].answer
  {
    ExecKeeps(w, now, run);
    var s := Exec(w, Start(now), run);
    assert CallTrue(w, s, s.calls[id]);
  }

  /** A hit is sound, over every run with failing operations, evictions and expiries: the backend accepted
      that very token before, the token was unexpired when checked, and the profile is its owner's, stored
      less than 15 minutes before it was read, and fetched no earlier than the run's longest delay between a
      fetch and its write before that. So no profile is older than 15 minutes while writes follow at once. */
  lemma HitsAreSound(w: World, now: int, run: seq<Action>, id: nat)
    requires Lawful(w)
    requires var s := Exec(w, Start(now), run);
             id in s.calls && s.calls[id].Answered? && s.calls[id].source.Hit?
    ensures var s := Exec(w, Start(now), run);
            var (token, hit) := (s.calls[id].token, s.calls[id].source);
            && AcceptedBy(s, token, hit.readAt)
            && w.expiry(token).Some? && hit.checkedAt < w.expiry(token).value
            && w.owner(token).Some? && s.calls[id].answer.Some? && s.calls[id].answer.value.id == w.owner(token).value
            && FetchedBy(s, w.owner(token).value, hit.storedAt, s.lag)
            && hit.storedAt <= hit.readAt < hit.storedAt + PROFILE_TTL
  {
    ExecKeeps(w, now, run);
    var s := Exec(w, Start(now), run);
    assert CallTrue(w, s, s.calls[id]);
  }

  /** A token the backend would not verify is never answered with a profile. */
  lemma ForgedTokensGetNothing(w: World, now: int, run: seq<Action>, id: nat)
    requires Lawful(w)
    requires var s := Exec(w, Start(now), run);
             id in s.calls && s.calls[id].Answered? && w.owner(s.calls[id].token) == None
    ensures Exec(w, Start(now), run).calls[id].answer == None
  {
    ExecKeeps(w, now, run);
    var s := Exec(w, Start(now), run);
    assert CallTrue(w, s, s.calls[id]);
  }
}
