/** How old a cached profile can be. Its 15 minutes run from the write into the cache, and the write comes
    after the fetch, so the age exceeds 15 minutes by up to the longest such delay, and by no more. */
module ProfileAge {
  import opened DomainErrors
  import opened RedisCache
  import opened ProfileCache
  import opened ProfileTheorems

  /** The user's profile was fetched less than `age` before `time`. */
  ghost predicate YoungerThan(s: System, user: string, time: int, age: int) {
    exists f :: f in s.fetches && f.user == user && f.at <= time < f.at + age
  }

  ghost predicate IsHit(s: System, id: nat) {
    id in s.calls && s.calls[id].Answered? && s.calls[id].source.Hit?
  }

  /** Over every run, a profile read from the cache was fetched less than 15 minutes and the run's longest
      delay of a write before. */
  lemma HitAge(w: World, now: int, run: seq<Action>, id: nat)
    requires Lawful(w) && IsHit(Exec(w, Start(now), run), id)
    ensures var s := Exec(w, Start(now), run);
            w.owner(s.calls[id].token).Some? &&
            YoungerThan(s, w.owner(s.calls[id].token).value, s.calls[id].source.readAt, PROFILE_TTL + s.lag)
  {
    HitsAreSound(w, now, run, id);
    var s := Exec(w, Start(now), run);
    var (user, hit) := (w.owner(s.calls[id].token).value, s.calls[id].source);
    var f :| f in s.fetches && f.user == user && f.at <= hit.storedAt <= f.at + s.lag;
    assert f.at <= hit.readAt < f.at + (PROFILE_TTL + s.lag);
  }

  // ---------------------------------------------------------------- the bound is reached

  ghost predicate Reachable(w: World, now: int, s: System) {
    exists run: seq<Action> :: Exec(w, Start(now), run) == s
  }

  lemma Next(w: World, now: int, s: System, a: Action)
    requires Reachable(w, now, s)
    ensures Reachable(w, now, Apply(w, s, a))
  {
    var run :| Exec(w, Start(now), run) == s;
    assert (run + [a])[..|run|] == run;
    assert Exec(w, Start(now), run + [a]) == Apply(w, s, a);
  }

  /** A user's token that outlives the delay and the cache's 15 minutes together. */
  ghost predicate LongLived(w: World, now: int, u: User, token: string, delay: nat) {
    && u.id != "" && w.owner(token) == Some(u.id)
    && w.expiry(token).Some? && w.expiry(token).value - now >= PROFILE_TTL + delay
  }

  /** The cache holds the user's profile, written `delay` after it was fetched. */
  ghost predicate StoredLate(w: World, now: int, s: System, u: User, token: string, delay: nat) {
    && Reachable(w, now, s)
    && s.clock == now + delay && s.lag == delay && s.fetches == {Fetch(token, u.id, now)} && s.calls.Keys == {0}
    && s.store == map[ProfileKey(u.id) := Entry(w.encode(ClientProfile(u)), s.clock + PROFILE_TTL, s.clock),
                      HintKey(w.hash(token)) := Entry(u.id, s.clock + PROFILE_TTL, s.clock)]
  }

  lemma AsksFirst(w: World, now: int, u: User, token: string, delay: nat) returns (s: System)
    requires LongLived(w, now, u, token, delay)
    ensures Reachable(w, now, s)
    ensures s == System(map[], map[u.id := u], now,
                        map[0 := StoringProfile(token, w.expiry(token).value - now, ClientProfile(u), now)],
                        {Fetch(token, u.id, now)}, 0, map[0 := now])
  {
    s := Start(now);
    assert Exec(w, s, []) == s;
    Next(w, now, s, Enroll(u));
    s := Apply(w, s, Enroll(u));
    Next(w, now, s, Arrive(0, token));
    s := Apply(w, s, Arrive(0, token));
    Next(w, now, s, Step(0, true));
    s := Apply(w, s, Step(0, true));
    assert s.calls[0] == Asking(token, w.expiry(token).value - now);
    Next(w, now, s, Step(0, true));
    s := Apply(w, s, Step(0, true));
  }

  lemma StoresLate(w: World, now: int, u: User, token: string, delay: nat) returns (s: System)
    requires LongLived(w, now, u, token, delay)
    ensures StoredLate(w, now, s, u, token, delay)
  {
    s := AsksFirst(w, now, u, token, delay);
    Next(w, now, s, Tick(delay));
    s := Apply(w, s, Tick(delay));
    Next(w, now, s, Step(0, true));
    s := Apply(w, s, Step(0, true));
    Next(w, now, s, Step(0, true));
    s := Apply(w, s, Step(0, true));
  }

  /** Whatever the delay of one write, a run exists in which a later lookup, itself without any delay, hits a
      profile that old: fetched 15 minutes and that delay, less one millisecond, before. So the profile is
      older than 15 minutes for every delay of two milliseconds or more. */
  lemma LateWritesAge(w: World, now: int, u: User, token: string, delay: nat) returns (s: System)
    requires Lawful(w) && LongLived(w, now, u, token, delay)
    ensures Reachable(w, now, s) && IsHit(s, 1) && s.lag == delay
    ensures s.calls[1].source.checkedAt == s.calls[1].source.readAt
    ensures !YoungerThan(s, u.id, s.calls[1].source.readAt, PROFILE_TTL + delay - 1)
  {
    s := StoresLate(w, now, u, token, delay);
    KeysDistinct(u.id, w.hash(token));
    Next(w, now, s, Tick(PROFILE_TTL - 1));
    s := Apply(w, s, Tick(PROFILE_TTL - 1));
    Next(w, now, s, Arrive(1, token));
    s := Apply(w, s, Arrive(1, token));
    Next(w, now, s, Step(1, true));
    s := Apply(w, s, Step(1, true));
    assert s.calls[1].ReadingProfile?;
    Next(w, now, s, Step(1, true));
    s := Apply(w, s, Step(1, true));
    assert w.decode(w.encode(ClientProfile(u))).Some?;
  }
}
