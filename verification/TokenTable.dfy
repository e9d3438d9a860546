/** The `refresh_tokens` table and the statements that internal/adapters/postgres/auth.go runs on it. Rows
    are keyed by the token hash, which the schema makes unique; row ids and creation times, which no
    statement modelled here reads, are left out. */
module TokenTable {
  import opened Faults

  type Hash = string
  type UserId = string

  /** `lineage` numbers the login or registration whose token this one descends from. It is not a column:
      no statement reads it, and a rotation copies it from the consumed row to the new one. */
  datatype Row = Row(userId: UserId, expiresAt: int, revoked: bool, lineage: nat)

  type Table = map<Hash, Row>

  datatype Reply = Done | InvalidToken | DatabaseError

  function Answer(fault: Fault): Reply {
    if fault == NoFault then Done else DatabaseError
  }

  predicate IsLive(table: Table, h: Hash) {
    h in table && !table[h].revoked
  }

  /** The row that `tokenConsumeActiveQuery` matches. */
  predicate IsConsumable(table: Table, h: Hash, now: int) {
    IsLive(table, h) && table[h].expiresAt > now
  }

  function Revoke(table: Table, h: Hash): Table {
    if h in table then table[h := table[h].(revoked := true)] else table
  }

  function RevokeUser(table: Table, user: UserId): Table {
    map h | h in table :: if table[h].userId == user then table[h].(revoked := true) else table[h]
  }

  function Cleanup(table: Table, now: int): Table {
    map h | h in table && !(table[h].expiresAt < now || table[h].revoked) :: table[h]
  }

  /** The rotation transaction commits. */
  predicate CanRotate(table: Table, oldHash: Hash, newHash: Hash, user: UserId, now: int) {
    && IsConsumable(table, oldHash, now)
    && (user == "" || table[oldHash].userId == user)
    && newHash !in table
  }

  function Rotate(table: Table, oldHash: Hash, newHash: Hash, expiresAt: int): Table
    requires oldHash in table
  {
    Revoke(table, oldHash)[newHash := Row(table[oldHash].userId, expiresAt, false, table[oldHash].lineage)]
  }

  /** What the rotation transaction answers; a rollback answers before anything is committed. */
  function RotateReply(table: Table, oldHash: Hash, newHash: Hash, user: UserId, now: int, fault: Fault): Reply {
    if fault == FailsBefore then DatabaseError
    else if !IsConsumable(table, oldHash, now) || (user != "" && table[oldHash].userId != user) then InvalidToken
    else if newHash in table then DatabaseError
    else Answer(fault)
  }

  class TokenRepository {
    var rows: Table

    constructor ()
      ensures rows == map[]
    {
      rows := map[];
    }

    method FindByToken(h: Hash, fault: Fault) returns (reply: Reply, row: Row)
      ensures reply == Done <==> fault == NoFault && h in rows
      ensures reply == InvalidToken <==> fault == NoFault && h !in rows
      ensures reply == Done ==> row == rows[h]
    {
      row := Row("", 0, false, 0);
      if fault != NoFault {
        return DatabaseError, row;
      }
      if h !in rows {
        return InvalidToken, row;
      }
      return Done, rows[h];
    }

    /** The unique constraint refuses a hash that the table holds. */
    method StoreRefreshToken(h: Hash, row: Row, fault: Fault) returns (reply: Reply)
      modifies this
      ensures rows == if fault == FailsBefore || h in old(rows) then old(rows) else old(rows)[h := row]
      ensures reply == if h in old(rows) then DatabaseError else Answer(fault)
    {
      if fault == FailsBefore || h in rows {
        return DatabaseError;
      }
      rows := rows[h := row];
      reply := Answer(fault);
    }

    method RevokeToken(h: Hash, fault: Fault) returns (reply: Reply)
      modifies this
      ensures rows == if fault == FailsBefore then old(rows) else Revoke(old(rows), h)
      ensures reply == if fault == NoFault && h !in old(rows) then InvalidToken else Answer(fault)
    {
      if fault == FailsBefore {
        return DatabaseError;
      }
      var found := h in rows;
      if found {
        rows := rows[h := rows[h].(revoked := true)];
      }
      if fault == NoFault && !found {
        return InvalidToken;
      }
      reply := Answer(fault);
    }

    /** Consume the old row, check its owner, insert the new row, commit: an early return rolls back. */
    method RotateRefreshToken(oldHash: Hash, newHash: Hash, user: UserId, expiresAt: int, now: int, fault: Fault)
      returns (reply: Reply)
      modifies this
      ensures reply == RotateReply(old(rows), oldHash, newHash, user, now, fault)
      ensures rows == if fault != FailsBefore && CanRotate(old(rows), oldHash, newHash, user, now)
                      then Rotate(old(rows), oldHash, newHash, expiresAt) else old(rows)
    {
      if fault == FailsBefore {
        return DatabaseError;
      }
      var before := rows;
      if !IsConsumable(rows, oldHash, now) {
        return InvalidToken;
      }
      rows := rows[oldHash := rows[oldHash].(revoked := true)];
      var consumed := rows[oldHash];
      if user != "" && consumed.userId != user {
        rows := before;
        return InvalidToken;
      }
      if newHash in rows {
        rows := before;
        return DatabaseError;
      }
      rows := rows[newHash := Row(consumed.userId, expiresAt, false, consumed.lineage)];
      reply := Answer(fault);
    }

    method RevokeAllUserTokens(user: UserId, fault: Fault) returns (reply: Reply)
      modifies this
      ensures rows == if fault == FailsBefore then old(rows) else RevokeUser(old(rows), user)
      ensures reply == Answer(fault)
    {
      if fault != FailsBefore {
        rows := map h | h in rows ::
          if rows[h].userId == user && !rows[h].revoked then rows[h].(revoked := true) else rows[h];
      }
      reply := Answer(fault);
    }

    method CleanupExpiredTokens(now: int, fault: Fault) returns (reply: Reply)
      modifies this
      ensures rows == if fault == FailsBefore then old(rows) else Cleanup(old(rows), now)
      ensures reply == Answer(fault)
    {
      if fault != FailsBefore {
        rows := map h | h in rows && rows[h].expiresAt >= now && !rows[h].revoked :: rows[h];
      }
      reply := Answer(fault);
    }
  }

  /** The cleanup deletes nothing that a refresh could still use, at its own time or later, and leaves
      nothing revoked or expired behind. */
  lemma CleanupKeepsUsable(table: Table, now: int, later: int, h: Hash)
    requires now <= later
    ensures IsConsumable(Cleanup(table, now), h, later) <==> IsConsumable(table, h, later)
    ensures h in Cleanup(table, now) <==> IsLive(table, h) && table[h].expiresAt >= now
    ensures h in Cleanup(table, now) ==> Cleanup(table, now)[h] == table[h]
  {
  }

  /** Only the owner rotates a token, only while it is unrevoked and unexpired, and only to a new one. */
  lemma RotationOnlyByOwner(table: Table, oldHash: Hash, newHash: Hash, user: UserId, now: int, fault: Fault)
    requires RotateReply(table, oldHash, newHash, user, now, fault) == Done
    ensures && IsLive(table, oldHash) && now < table[oldHash].expiresAt && newHash !in table
            && (user == "" || table[oldHash].userId == user)
  {
  }
}
