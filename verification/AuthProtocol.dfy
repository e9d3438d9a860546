/** Refresh-token rotation under concurrency (internal/app/auth.go over internal/adapters/postgres/auth.go).

    A use case is a chain of repository statements; any number of them, and the background cleanup,
    interleave between statements. A call's state says which statement comes next. Each statement, and the
    rotation transaction as a whole, is one atomic step. A run is a list of actions; an action that is not
    possible changes nothing. Clock readings, database faults and generated tokens are oracles: each step
    takes its own, so no clock is assumed to agree with another. */
module AuthProtocol {
  import opened Faults
  import opened TokenTable

  datatype RefreshReply = Issued(token: Hash) | InvalidRefresh | RevokedRefresh | Failed

  datatype Call =
    // RefreshTokens
    | LookingUp(token: Hash)
    | Generating(token: Hash, user: UserId)
    | Rotating(token: Hash, user: UserId, newHash: Hash, expiresAt: int)
    | Rejecting(token: Hash, user: UserId)
    | Refreshed(token: Hash, reply: RefreshReply)
    // Logout
    | LoggingOut(token: Hash)
    | LoggedOut(token: Hash, done: bool)
    // Login and Register, from token generation on
    | Opening(user: UserId)
    | Storing(user: UserId, newHash: Hash, expiresAt: int)
    | Opened(user: UserId, done: bool)

  /** Per user: rows stored by login or registration, and live rows ended by logout, by revoke-all and by
      the cleanup of expired rows. */
  datatype Tally = Tally(stored: nat, loggedOut: nat, revokedAll: nat, expired: nat)

  /** `calls` keeps finished calls with their replies; `generated` holds the hashes of all tokens ever
      generated with the expiry each was generated with, and `issuedTo` the user of each that was ever
      stored, kept when its row is deleted;
      `owners[l]` is the user for whom lineage `l` was opened. */
  datatype System = System(table: Table, users: set<UserId>, calls: map<nat, Call>, generated: map<Hash, int>,
                           issuedTo: map<Hash, UserId>, owners: seq<UserId>, tallies: map<UserId, Tally>)

  datatype Env = Env(fault: Fault, now: int, newHash: Hash, expiresAt: int)

  datatype Action =
    | Enroll(user: UserId)
    | BeginRefresh(id: nat, token: Hash)
    | BeginLogout(id: nat, token: Hash)
    | BeginSession(id: nat, user: UserId)
    | Step(id: nat, env: Env)
    | Abandon(id: nat)
    | RunCleanup(now: int, fault: Fault)

  function Start(): System {
    System(map[], {}, map[], map[], map[], [], map[])
  }

  // ---------------------------------------------------------------- rows of one user

  function Active(table: Table, user: UserId): set<Hash> {
    set h | h in table && table[h].userId == user && !table[h].revoked
  }

  function Lapsed(table: Table, user: UserId, now: int): set<Hash> {
    set h | h in Active(table, user) && table[h].expiresAt < now
  }

  // ---------------------------------------------------------------- steps of a call

  function Reached(s: System, id: nat, call: Call): System {
    s.(calls := s.calls[id := call])
  }

  function LookUp(s: System, id: nat, token: Hash, env: Env): System {
    Reached(s, id,
      if env.fault != NoFault then Refreshed(token, Failed)
      else if token !in s.table then Refreshed(token, InvalidRefresh)
      else if s.table[token].revoked then Rejecting(token, s.table[token].userId)
      else if env.now > s.table[token].expiresAt then Refreshed(token, InvalidRefresh)
      else Generating(token, s.table[token].userId))
  }

  /** Finding the user and generating two tokens; the new refresh token's hash is new. */
  function Generate(s: System, id: nat, token: Hash, user: UserId, env: Env): System {
    if env.fault != NoFault || user !in s.users then Reached(s, id, Refreshed(token, Failed))
    else if env.newHash in s.generated then s
    else
      Reached(s, id, Rotating(token, user, env.newHash, env.expiresAt))
        .(generated := s.generated[env.newHash := env.expiresAt])
  }

  function RotateStep(s: System, id: nat, token: Hash, user: UserId, newHash: Hash, expiresAt: int, env: Env): System {
    var t := Reached(s, id,
               match RotateReply(s.table, token, newHash, user, env.now, env.fault)
               case InvalidToken => Rejecting(token, user)
               case DatabaseError => Refreshed(token, Failed)
               case Done => Refreshed(token, Issued(newHash)));
    if env.fault != FailsBefore && CanRotate(s.table, token, newHash, user, env.now)
    then
      t.(table := Rotate(s.table, token, newHash, expiresAt),
         issuedTo := s.issuedTo[newHash := s.table[token].userId])
    else t
  }

  function Reject(s: System, id: nat, token: Hash, user: UserId, env: Env): System {
    var ends := user != "" && env.fault != FailsBefore;
    Reached(s, id, Refreshed(token, if user == "" || env.fault == NoFault then RevokedRefresh else Failed))
      .(table := if ends then RevokeUser(s.table, user) else s.table,
        tallies := if ends then Adjust(s.tallies, user, Tally(0, 0, |Active(s.table, user)|, 0)) else s.tallies)
  }

  /** An absent or already revoked token makes logout succeed without effect. */
  function LogOut(s: System, id: nat, token: Hash, env: Env): System {
    var ends := env.fault != FailsBefore && IsLive(s.table, token);
    Reached(s, id, LoggedOut(token, env.fault == NoFault))
      .(table := if ends then Revoke(s.table, token) else s.table,
        tallies := if ends then Adjust(s.tallies, s.table[token].userId, Tally(0, 1, 0, 0)) else s.tallies)
  }

  function Open(s: System, id: nat, user: UserId, env: Env): System {
    if env.fault != NoFault then Reached(s, id, Opened(user, false))
    else if env.newHash in s.generated then s
    else
      Reached(s, id, Storing(user, env.newHash, env.expiresAt))
        .(generated := s.generated[env.newHash := env.expiresAt])
  }

  function Store(s: System, id: nat, user: UserId, newHash: Hash, expiresAt: int, env: Env): System {
    if env.fault == FailsBefore || newHash in s.table then Reached(s, id, Opened(user, false))
    else
      Reached(s, id, Opened(user, env.fault == NoFault))
        .(table := s.table[newHash := Row(user, expiresAt, false, |s.owners|)],
          issuedTo := s.issuedTo[newHash := user],
          owners := s.owners + [user],
          tallies := Adjust(s.tallies, user, Tally(1, 0, 0, 0)))
  }

  function Adjust(tallies: map<UserId, Tally>, user: UserId, more: Tally): map<UserId, Tally> {
    if user !in tallies then tallies
    else
      var t := tallies[user];
      tallies[user := Tally(t.stored + more.stored, t.loggedOut + more.loggedOut,
                            t.revokedAll + more.revokedAll, t.expired + more.expired)]
  }

  function Cleaned(s: System, now: int): System {
    s.(table := Cleanup(s.table, now),
       tallies := map u | u in s.tallies :: s.tallies[u].(expired := s.tallies[u].expired + |Lapsed(s.table, u, now)|))
  }

  function StepCall(s: System, id: nat, env: Env): System
    requires id in s.calls
  {
    match s.calls[id]
    case LookingUp(token) => LookUp(s, id, token, env)
    case Generating(token, user) => Generate(s, id, token, user, env)
    case Rotating(token, user, newHash, expiresAt) => RotateStep(s, id, token, user, newHash, expiresAt, env)
    case Rejecting(token, user) => Reject(s, id, token, user, env)
    case LoggingOut(token) => LogOut(s, id, token, env)
    case Opening(user) => Open(s, id, user, env)
    case Storing(user, newHash, expiresAt) => Store(s, id, user, newHash, expiresAt, env)
    case Refreshed(_, _) | LoggedOut(_, _) | Opened(_, _) => s
  }

  /** A call that is given up: its client went away, or a step without effect failed. */
  function GivenUp(call: Call): Call {
    match call
    case LookingUp(token) => Refreshed(token, Failed)
    case Generating(token, _) => Refreshed(token, Failed)
    case Rotating(token, _, _, _) => Refreshed(token, Failed)
    case Rejecting(token, _) => Refreshed(token, Failed)
    case LoggingOut(token) => LoggedOut(token, false)
    case Opening(user) => Opened(user, false)
    case Storing(user, _, _) => Opened(user, false)
    case Refreshed(_, _) | LoggedOut(_, _) | Opened(_, _) => call
  }

  function Apply(s: System, a: Action): System {
    match a
    case Enroll(user) =>
      if user == "" || user in s.users then s
      else s.(users := s.users + {user}, tallies := s.tallies[user := Tally(0, 0, 0, 0)])
    case BeginRefresh(id, token) => if id in s.calls then s else Reached(s, id, LookingUp(token))
    case BeginLogout(id, token) => if id in s.calls then s else Reached(s, id, LoggingOut(token))
    case BeginSession(id, user) => if id in s.calls || user !in s.users then s else Reached(s, id, Opening(user))
    case Step(id, env) => if id in s.calls then StepCall(s, id, env) else s
    case Abandon(id) => if id in s.calls then Reached(s, id, GivenUp(s.calls[id])) else s
    case RunCleanup(now, fault) => if fault == FailsBefore then s else Cleaned(s, now)
  }

  function Exec(s: System, run: seq<Action>): System {
    if run == [] then s else Apply(Exec(s, run[..|run| - 1]), run[|run| - 1])
  }
}
