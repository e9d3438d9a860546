/** The gateway's profile cache under concurrency (internal/app/gateway.go): token hash to user id to profile,
    with reads and writes that fail, entries that expire or are evicted, and any number of lookups that
    interleave between their cache and backend operations. Times are milliseconds of one clock. A run is a
    list of actions; an action that is not possible changes nothing. */
module ProfileCache {
  import opened DomainErrors
  import opened RedisCache

  datatype User = User(id: string, email: string, username: string, passwordHash: string,
                       createdAt: int, updatedAt: int)

  /** The libraries: the token hash; the expiry an unverified parse of a token reads; the user for whom a
      token was issued, if its signature and use are right; and the JSON coding of a profile. */
  datatype World = World(hash: string -> string, expiry: string -> Option<int>, owner: string -> Option<string>,
                         encode: User -> string, decode: string -> Option<User>)

  /** Hashes do not collide, and a coded profile reads back but for the field that is not coded. */
  ghost predicate Lawful(w: World) {
    && (forall a, b :: w.hash(a) == w.hash(b) ==> a == b)
    && (forall u :: w.encode(u) != "" && w.decode(w.encode(u)) == Some(u.(passwordHash := "")))
  }

  const PROFILE_TTL := 900000

  function ProfileKey(user: string): string {
    "profile:user:" + user
  }

  function HintKey(hash: string): string {
    "profile:tok:" + hash
  }

  /** `accessTokenTTLRemaining`. */
  function Remaining(w: World, token: string, now: int): int {
    match w.expiry(token)
    case None => 0
    case Some(e) => if e - now <= 0 then 0 else e - now
  }

  /** The profile the gateway's client builds from the backend's answer. */
  function ClientProfile(u: User): User {
    u.(passwordHash := "", updatedAt := 0)
  }

  /** What the backend answers for a token: it verifies the token and reads the user. */
  function Backend(w: World, users: map<string, User>, token: string, now: int): Option<User> {
    match w.owner(token)
    case None => None
    case Some(id) =>
      if (w.expiry(token).None? || now < w.expiry(token).value) && id in users
      then Some(ClientProfile(users[id])) else None
  }

  function Min(a: int, b: int): int {
    if a <= b then a else b
  }

  function Max(a: int, b: int): int {
    if a >= b then a else b
  }

  /** How an answer was found: by asking the backend, or in the cache, with the times at which the token's
      expiry was checked, the profile was read, and it had been stored. */
  datatype Source = Asked | Hit(checkedAt: int, readAt: int, storedAt: int)

  datatype Call =
    | ReadingHint(token: string, remaining: int, checkedAt: int)
    | ReadingProfile(token: string, remaining: int, checkedAt: int, user: string)
    | Asking(token: string, remaining: int)
    | StoringProfile(token: string, remaining: int, profile: User, fetchedAt: int)
    | StoringHint(token: string, remaining: int, profile: User)
    | Answered(token: string, answer: Option<User>, source: Source)

  /** A backend call that accepted a token. */
  datatype Fetch = Fetch(token: string, user: string, at: int)

  /** `lag` is the longest time that any profile so far took from its fetch to its write into the cache;
      `arrivals` says when each call came in. */
  datatype System = System(store: Store, users: map<string, User>, clock: int, calls: map<nat, Call>,
                           fetches: set<Fetch>, lag: int, arrivals: map<nat, int>)

  datatype Action =
    | Enroll(user: User)
    | Arrive(id: nat, token: string)
    | Step(id: nat, works: bool)
    | Evict(key: string)
    | Tick(delay: nat)

  function Start(now: int): System {
    System(map[], map[], now, map[], {}, 0, map[])
  }

  function Reached(s: System, id: nat, call: Call): System {
    s.(calls := s.calls[id := call])
  }

  function AfterHint(w: World, s: System, call: Call, works: bool): Call
    requires call.ReadingHint?
  {
    var user := if works then Read(s.store, HintKey(w.hash(call.token)), s.clock) else "";
    if call.remaining <= 0 || user == "" then Asking(call.token, call.remaining)
    else ReadingProfile(call.token, call.remaining, call.checkedAt, user)
  }

  function AfterProfile(w: World, s: System, call: Call, works: bool): Call
    requires call.ReadingProfile?
  {
    var key := ProfileKey(call.user);
    var cached := if works then Read(s.store, key, s.clock) else "";
    if cached == "" || w.decode(cached) == None then Asking(call.token, call.remaining)
    else Answered(call.token, w.decode(cached), Hit(call.checkedAt, s.clock, s.store[key].storedAt))
  }

  /** The backend call, through breaker and retries: it does not get through, is refused, or is answered. */
  function Ask(w: World, s: System, id: nat, call: Call, works: bool): System
    requires call.Asking?
  {
    var answer := if works then Backend(w, s.users, call.token, s.clock) else None;
    if answer == None then Reached(s, id, Answered(call.token, None, Asked))
    else
      var t := s.(fetches := s.fetches + {Fetch(call.token, answer.value.id, s.clock)});
      Reached(t, id,
        if call.remaining > 0 && answer.value.id != ""
        then StoringProfile(call.token, call.remaining, answer.value, s.clock)
        else Answered(call.token, answer, Asked))
  }

  function StepCall(w: World, s: System, id: nat, works: bool): System
    requires id in s.calls
  {
    var call := s.calls[id];
    match call
    case ReadingHint(_, _, _) => Reached(s, id, AfterHint(w, s, call, works))
    case ReadingProfile(_, _, _, _) => Reached(s, id, AfterProfile(w, s, call, works))
    case Asking(_, _) => Ask(w, s, id, call, works)
    case StoringProfile(token, remaining, profile, fetchedAt) =>
      var t := Reached(s, id, StoringHint(token, remaining, profile));
      if works
      then t.(store := Written(s.store, ProfileKey(profile.id), w.encode(profile), Min(remaining, PROFILE_TTL), s.clock),
              lag := Max(s.lag, s.clock - fetchedAt))
      else t
    case StoringHint(token, remaining, profile) =>
      var t := Reached(s, id, Answered(token, Some(profile), Asked));
      if works
      then t.(store := Written(s.store, HintKey(w.hash(token)), profile.id, Min(remaining, PROFILE_TTL), s.clock))
      else t
    case Answered(_, _, _) => s
  }

  /** Users are created, never changed or deleted. */
  function Apply(w: World, s: System, a: Action): System {
    match a
    case Enroll(user) =>
      if user.id == "" || user.id in s.users then s else s.(users := s.users[user.id := user])
    case Arrive(id, token) =>
      if id in s.calls then s
      else
        Reached(s, id, ReadingHint(token, Remaining(w, token, s.clock), s.clock))
          .(arrivals := s.arrivals[id := s.clock])
    case Step(id, works) => if id in s.calls then StepCall(w, s, id, works) else s
    case Evict(key) => s.(store := s.store - {key})
    case Tick(delay) => s.(clock := s.clock + delay)
  }

  function Exec(w: World, s: System, run: seq<Action>): System {
    if run == [] then s else Apply(w, Exec(w, s, run[..|run| - 1]), run[|run| - 1])
  }
}
