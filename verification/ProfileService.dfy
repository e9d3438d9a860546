/** `GetUserProfile` as the gateway runs it, one call at a time: cache, then backend through breaker and
    retries, then cache. And its agreement with the interleaved model: a call that nothing interrupts does
    what its steps do. */
module ProfileService {
  import opened DomainErrors
  import opened CircuitBreaker
  import Retry
  import opened Resilience
  import opened RedisCache
  import opened ProfileCache
  import ErrorTranslation

  /** Whether each cache operation of a call works. */
  datatype Works = Works(readsHint: bool, readsProfile: bool, storesProfile: bool, storesHint: bool)

  function WriteIf(works: bool, store: Store, key: string, value: string, ttl: int, now: int): Store {
    if works then Written(store, key, value, ttl, now) else store
  }

  /** The user that the cache knows for the token; empty if it knows none. */
  function Hint(w: World, store: Store, token: string, now: int, works: Works): string {
    if Remaining(w, token, now) > 0 && works.readsHint then Read(store, HintKey(w.hash(token)), now) else ""
  }

  /** `cachedProfile`. */
  function Cached(w: World, store: Store, token: string, now: int, works: Works): Option<User> {
    var user := Hint(w, store, token, now, works);
    if user == "" || !works.readsProfile || Read(store, ProfileKey(user), now) == "" then None
    else w.decode(Read(store, ProfileKey(user), now))
  }

  /** The cache after the backend's answer. */
  function Filled(w: World, store: Store, token: string, now: int, answer: Option<User>, works: Works): Store {
    var remaining := Remaining(w, token, now);
    if answer == None || remaining <= 0 || answer.value.id == "" then store
    else
      var p, ttl := answer.value, Min(remaining, PROFILE_TTL);
      WriteIf(works.storesHint, WriteIf(works.storesProfile, store, ProfileKey(p.id), w.encode(p), ttl, now),
              HintKey(w.hash(token)), p.id, ttl, now)
  }

  /** The cache and the reply of an uninterrupted `GetUserProfile`; `asks` says whether the backend answers
      the question, if it comes to it. */
  function ProfileAlone(w: World, store: Store, users: map<string, User>, token: string, now: int, works: Works,
                        asks: bool): (Store, Option<User>)
  {
    if Cached(w, store, token, now, works).Some? then (store, Cached(w, store, token, now, works))
    else
      var answer := if asks then Backend(w, users, token, now) else None;
      (Filled(w, store, token, now, answer, works), answer)
  }

  /** What the network and the context do to the attempts of one call: attempt `k` fails on the wire with
      `net(k)`, or gets through to the backend, which refuses with the status `refusal` if it does refuse. */
  datatype Journey = Journey(net: nat -> Option<ErrorTranslation.WireError>, refusal: ErrorTranslation.WireError,
                             canceled: nat -> bool, contextErr: nat -> Sentinel)

  /** The error of one attempt, as the client translates it and the gateway wraps it. */
  function AttemptError(w: World, users: map<string, User>, token: string, now: int, j: Journey, k: nat): Option<Err> {
    var wire :=
      if j.net(k).Some? then j.net(k)
      else if Backend(w, users, token, now) == None then Some(j.refusal)
      else None;
    match ErrorTranslation.StatusToDomain(wire, UserNotFound)
    case None => None
    case Some(e) => Some(Wrapped("get profile: " + Text(e), e))
  }

  /** The attempts of one call, for the retry loop. */
  function Attempts(w: World, users: map<string, User>, token: string, now: int, j: Journey): Resilience.Call {
    Resilience.Call.Call((k: nat) => AttemptError(w, users, token, now, j, k), j.canceled, j.contextErr)
  }

  /** A call that ends without an error got through, and the backend accepted the token. */
  lemma RefusalIsAnError(w: World, users: map<string, User>, token: string, now: int, j: Journey, ending: Retry.Ending)
    ensures Backend(w, users, token, now) == None ==> FinalError(Attempts(w, users, token, now, j), ending).Some?
  {
  }

  /** What an attempt means to breaker and retry loop: a failed transport is an infrastructure failure; a token
      that the backend refuses under a message of its own is none; an accepted one is no error. */
  lemma AttemptsClassified(w: World, users: map<string, User>, token: string, now: int, j: Journey, k: nat)
    ensures var err := AttemptError(w, users, token, now, j, k);
            && (err == None <==> j.net(k) == None && Backend(w, users, token, now).Some?)
            && (j.net(k).Some? && j.net(k).value.Transport? ==> ErrorTranslation.IsInfraError(err.value))
            && (j.net(k) == None && Backend(w, users, token, now) == None && j.refusal.Status? &&
                ErrorTranslation.StatusMessageError(j.refusal.message) == Some(Unauthorized) ==>
                  !ErrorTranslation.IsInfraError(err.value) && Is(err.value, Unauthorized))
  {
    var wire := if j.net(k).Some? then j.net(k) else Some(j.refusal);
    var back := ErrorTranslation.StatusToDomain(wire, UserNotFound).value;
    WrappedIs("get profile: " + Text(back), back, ServiceUnavailable);
    WrappedIs("get profile: " + Text(back), back, DeadlineExceeded);
    WrappedIs("get profile: " + Text(back), back, Unauthorized);
    if wire.value.Transport? {
      JoinedIs(Message(ServiceUnavailable) + ": " + Text(wire.value.cause), Leaf(ServiceUnavailable), wire.value.cause,
               ServiceUnavailable);
    }
  }

  class AuthService {
    const cache: Cache
    const resilience: ServiceResilience

    constructor (defaultTtl: int, now: int)
      ensures fresh(cache) && cache.store == map[]
      ensures fresh(resilience) && fresh(resilience.breaker) && resilience.retry == SERVICE_RETRY
      ensures resilience.breaker.cfg == SERVICE_SETTINGS && resilience.breaker.View() == Fresh(now)
    {
      cache := new Cache(defaultTtl);
      resilience := new ServiceResilience(now);
    }

    /** A cached profile is served whatever the breaker's state, and leaves it alone. Otherwise the breaker is
        asked; refused, there is neither profile nor change; admitted, the answer is the backend's exactly
        when the retry loop ends without an error, and that ending is recorded. */
    method GetUserProfile(w: World, users: map<string, User>, token: string, now: int, works: Works, j: Journey,
                          recordedAt: int)
      returns (answer: Option<User>, err: Option<Err>, ending: Option<Retry.Ending>)
      modifies cache, resilience.breaker
      ensures (cache.store, answer) == ProfileAlone(w, old(cache.store), users, token, now, works, err == None)
      ensures answer == None <==> err.Some?
      ensures w.expiry(token).Some? && now >= w.expiry(token).value ==>
                answer == None && err.Some? && cache.store == old(cache.store)
      ensures Cached(w, old(cache.store), token, now, works).Some? ==>
                err == None && ending == None && resilience.breaker.View() == old(resilience.breaker.View())
      ensures Cached(w, old(cache.store), token, now, works) == None ==>
                (ending.Some? <==> Admits(resilience.breaker.cfg, old(resilience.breaker.View()), now))
      ensures Cached(w, old(cache.store), token, now, works) == None && ending == None ==>
                err == Some(Leaf(CircuitOpen)) && resilience.breaker.View() == old(resilience.breaker.View())
      ensures ending.Some? ==>
        && EndsWith(resilience.retry, Attempts(w, users, token, now, j), ending.value)
        && err == FinalError(Attempts(w, users, token, now, j), ending.value)
        && resilience.breaker.View() ==
             Served(resilience.breaker.cfg, old(resilience.breaker.View()), Classify(err), now, recordedAt)
    {
      var remaining := Remaining(w, token, now);
      var hintKey := HintKey(w.hash(token));
      if remaining > 0 {
        var userId, hintOk := cache.Get(hintKey, now, works.readsHint);
        if hintOk && userId != "" {
          var cached, cacheOk := cache.Get(ProfileKey(userId), now, works.readsProfile);
          if cacheOk && cached != "" {
            var profile := w.decode(cached);
            if profile.Some? {
              return profile, None, None;
            }
          }
        }
      }
      ending, err := resilience.ExecuteWithResilience(Attempts(w, users, token, now, j), now, recordedAt);
      if err.Some? {
        return None, err, ending;
      }
      RefusalIsAnError(w, users, token, now, j, ending.value);
      answer := Backend(w, users, token, now);
      if remaining > 0 && answer.value.id != "" {
        var ttl := Min(remaining, PROFILE_TTL);
        var _ := cache.Set(ProfileKey(answer.value.id), w.encode(answer.value), ttl, now, works.storesProfile);
        var _ := cache.Set(hintKey, answer.value.id, ttl, now, works.storesHint);
      }
    }
  }

  // ---------------------------------------------------------------- agreement with the interleaved model

  function TwoSteps(w: World, s: System, id: nat, a: bool, b: bool): System {
    Apply(w, Apply(w, s, Step(id, a)), Step(id, b))
  }

  function ThreeSteps(w: World, s: System, id: nat, a: bool, b: bool, c: bool): System {
    Apply(w, TwoSteps(w, s, id, a, b), Step(id, c))
  }

  /** The actions of one call, one right after the other: with a hint, the profile is read before the backend
      is asked. */
  function OneCall(w: World, s: System, id: nat, token: string, works: Works, asks: bool): System {
    var hinted := Apply(w, Apply(w, s, Arrive(id, token)), Step(id, works.readsHint));
    var ready := if Hint(w, s.store, token, s.clock, works) == "" then hinted
                 else Apply(w, hinted, Step(id, works.readsProfile));
    ThreeSteps(w, ready, id, asks, works.storesProfile, works.storesHint)
  }

  lemma AnsweredIdle(w: World, s: System, id: nat, works: bool)
    requires id in s.calls && s.calls[id].Answered?
    ensures Apply(w, s, Step(id, works)) == s
  {
  }

  /** The call is answered as `outcome` says, and the cache is as it says. */
  ghost predicate Ends(s: System, id: nat, token: string, outcome: (Store, Option<User>)) {
    s.store == outcome.0 && id in s.calls && s.calls[id].Answered? &&
    s.calls[id].token == token && s.calls[id].answer == outcome.1
  }

  lemma AskingAlone(w: World, s: System, id: nat, token: string, works: Works, asks: bool)
    requires id in s.calls && s.calls[id] == Asking(token, Remaining(w, token, s.clock))
    ensures var answer := if asks then Backend(w, s.users, token, s.clock) else None;
            Ends(ThreeSteps(w, s, id, asks, works.storesProfile, works.storesHint), id, token,
                 (Filled(w, s.store, token, s.clock, answer, works), answer))
  {
    var asked := Apply(w, s, Step(id, asks));
    if asked.calls[id].Answered? {
      AnsweredIdle(w, asked, id, works.storesProfile);
      AnsweredIdle(w, asked, id, works.storesHint);
    }
  }

  /** A call that nothing interrupts has the outcome of `GetUserProfile`. */
  lemma UninterruptedLookup(w: World, s: System, id: nat, token: string, works: Works, asks: bool)
    requires id !in s.calls
    ensures Ends(OneCall(w, s, id, token, works, asks), id, token,
                 ProfileAlone(w, s.store, s.users, token, s.clock, works, asks))
  {
    var arrived := Apply(w, s, Arrive(id, token));
    var hinted := Apply(w, arrived, Step(id, works.readsHint));
    if Hint(w, s.store, token, s.clock, works) == "" {
      AskingAlone(w, hinted, id, token, works, asks);
    } else {
      var read := Apply(w, hinted, Step(id, works.readsProfile));
      if Cached(w, s.store, token, s.clock, works) == None {
        AskingAlone(w, read, id, token, works, asks);
      } else {
        AnsweredIdle(w, read, id, asks);
        AnsweredIdle(w, read, id, works.storesProfile);
        AnsweredIdle(w, read, id, works.storesHint);
      }
    }
  }

  /** A second lookup of the same token within the stored lifetime is answered from the cache with the same
      profile, even while the backend does not answer. */
  lemma SecondLookupHits(w: World, store: Store, users: map<string, User>, token: string, now: int, later: int,
                         works: Works, again: Works, asks: bool)
    requires Lawful(w)
    requires works.storesProfile && works.storesHint && Cached(w, store, token, now, works) == None
    requires Backend(w, users, token, now).Some? && Backend(w, users, token, now).value.id != ""
    requires w.expiry(token).Some? && now <= later < w.expiry(token).value && later < now + 900000
    requires again.readsHint && again.readsProfile
    ensures var (after, answer) := ProfileAlone(w, store, users, token, now, works, true);
            && answer == Backend(w, users, token, now)
            && ProfileAlone(w, after, users, token, later, again, asks) == (after, answer)
  {
    var (after, answer) := ProfileAlone(w, store, users, token, now, works, true);
    var p, ttl := answer.value, Min(Remaining(w, token, now), PROFILE_TTL);
    var profileKey, hintKey := ProfileKey(p.id), HintKey(w.hash(token));
    assert profileKey[8] == 'u' && hintKey[8] == 't';
    ReadAfterWrite(store, profileKey, w.encode(p), ttl, now, profileKey, later);
    ReadAfterWrite(Written(store, profileKey, w.encode(p), ttl, now), hintKey, p.id, ttl, now, profileKey, later);
    ReadAfterWrite(Written(store, profileKey, w.encode(p), ttl, now), hintKey, p.id, ttl, now, hintKey, later);
    assert w.decode(w.encode(p)) == Some(p.(passwordHash := ""));
  }

  // ---------------------------------------------------------------- who gets which profile

  /** Without a cached profile, a lookup is answered exactly when the backend is reached, the token was issued
      for a stored user and it has not expired; and then with that user's profile. */
  lemma AnsweredExactly(w: World, store: Store, users: map<string, User>, token: string, now: int, works: Works,
                        asks: bool)
    requires Cached(w, store, token, now, works) == None
    ensures var answer := ProfileAlone(w, store, users, token, now, works, asks).1;
            && (answer.Some? <==> asks && w.owner(token).Some? && w.owner(token).value in users &&
                                  (w.expiry(token).None? || now < w.expiry(token).value))
            && (answer.Some? ==>
                  var u := users[w.owner(token).value];
                  && answer.value.id == u.id && answer.value.email == u.email && answer.value.username == u.username
                  && answer.value.createdAt == u.createdAt && answer.value.updatedAt == 0
                  && answer.value.passwordHash == "")
  {
  }

  /** An expired token gets nothing, whatever the cache holds, and leaves the cache alone. */
  lemma ExpiredAlone(w: World, store: Store, users: map<string, User>, token: string, now: int, works: Works, asks: bool)
    requires w.expiry(token).Some? && now >= w.expiry(token).value
    ensures ProfileAlone(w, store, users, token, now, works, asks) == (store, None)
  {
  }

  /** What a lookup writes is about its own token and its owner only, and expires with the token or in 15
      minutes, whichever is first; a token without an expiry is never cached. */
  lemma WritesExpireWithToken(w: World, store: Store, users: map<string, User>, token: string, now: int, works: Works,
                              asks: bool, key: string)
    requires var after := ProfileAlone(w, store, users, token, now, works, asks).0;
             key in after && (key !in store || after[key] != store[key])
    ensures var (after, answer) := ProfileAlone(w, store, users, token, now, works, asks);
            && answer.Some? && w.expiry(token).Some?
            && (key == HintKey(w.hash(token)) || key == ProfileKey(answer.value.id))
            && after[key].expiresAt ==
                 (if w.expiry(token).value <= now + 900000 then w.expiry(token).value else now + 900000)
  {
  }
}
