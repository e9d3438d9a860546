/** The notes table, the statements on it (internal/adapters/postgres/notes.go) and the note use cases over
    them (internal/app/notes.go, internal/domain/general.go). Strings are sequences of bytes. */
module NoteStore {
  import opened DomainErrors
  import opened Faults
  import opened WhiteSpace

  datatype Row = Row(id: string, userId: string, title: string, content: string, createdAt: int, updatedAt: int)

  const MAX_TITLE := 255
  const MAX_CONTENT := 65536
  const DEFAULT_LIMIT := 10
  const MAX_LIMIT := 100

  // ---------------------------------------------------------------- statements

  function OwnRows(rows: seq<Row>, user: string): seq<Row> {
    if rows == [] then []
    else if rows[0].userId == user then [rows[0]] + OwnRows(rows[1..], user)
    else OwnRows(rows[1..], user)
  }

  function Get(rows: seq<Row>, id: string, user: string): Option<Row> {
    if rows == [] then None
    else if rows[0].id == id && rows[0].userId == user then Some(rows[0])
    else Get(rows[1..], id, user)
  }

  /** The trigger stamps the row's update time. */
  function Update(rows: seq<Row>, id: string, user: string, title: string, content: string, now: int): seq<Row> {
    if rows == [] then []
    else
      [if rows[0].id == id && rows[0].userId == user
       then rows[0].(title := title, content := content, updatedAt := now) else rows[0]]
      + Update(rows[1..], id, user, title, content, now)
  }

  function Delete(rows: seq<Row>, id: string, user: string): seq<Row> {
    if rows == [] then []
    else if rows[0].id == id && rows[0].userId == user then Delete(rows[1..], id, user)
    else [rows[0]] + Delete(rows[1..], id, user)
  }

  predicate HasId(rows: seq<Row>, id: string) {
    exists i | 0 <= i < |rows| :: rows[i].id == id
  }

  /** Latest update first; rows updated at the same time keep the table's order. */
  function InsertByTime(row: Row, sorted: seq<Row>): seq<Row> {
    if sorted == [] || row.updatedAt >= sorted[0].updatedAt then [row] + sorted
    else [sorted[0]] + InsertByTime(row, sorted[1..])
  }

  function ByTime(rows: seq<Row>): seq<Row> {
    if rows == [] then [] else InsertByTime(rows[0], ByTime(rows[1..]))
  }

  function Listing(rows: seq<Row>, user: string): seq<Row> {
    ByTime(OwnRows(rows, user))
  }

  /** LIMIT and OFFSET. */
  function Page<T>(listing: seq<T>, limit: nat, offset: nat): seq<T> {
    if offset >= |listing| then []
    else if |listing| - offset <= limit then listing[offset..]
    else listing[offset..offset + limit]
  }

  // ---------------------------------------------------------------- domain rules

  function TitleError(title: string): Option<Sentinel> {
    if Blank(title) then Some(EmptyNoteTitle)
    else if |title| > MAX_TITLE then Some(NoteTitleTooLong)
    else None
  }

  function NewNoteError(user: string, title: string, content: string): Option<Sentinel> {
    if user == "" then Some(EmptyUserID)
    else if TitleError(title).Some? then TitleError(title)
    else if |content| > MAX_CONTENT then Some(NoteContentTooLarge)
    else None
  }

  /** The note in memory after `ApplyUpdate`, and its error: the title is assigned before the content is
      checked. */
  function Applied(n: Row, title: Option<string>, content: Option<string>, now: int): (Row, Option<Sentinel>) {
    if title.Some? && TitleError(title.value).Some? then (n, TitleError(title.value))
    else
      var m := if title.Some? then n.(title := title.value) else n;
      if content.Some? && |content.value| > MAX_CONTENT then (m, Some(NoteContentTooLarge))
      else (m.(content := if content.Some? then content.value else m.content, updatedAt := now), None)
  }

  class Note {
    const id: string
    const userId: string
    const createdAt: int
    var title: string
    var content: string
    var updatedAt: int

    ghost function View(): Row
      reads this
    {
      Row(id, userId, title, content, createdAt, updatedAt)
    }

    constructor (row: Row)
      ensures View() == row
    {
      id, userId, createdAt := row.id, row.userId, row.createdAt;
      title, content, updatedAt := row.title, row.content, row.updatedAt;
    }

    method ApplyUpdate(newTitle: Option<string>, newContent: Option<string>, now: int) returns (err: Option<Sentinel>)
      modifies this
      ensures (View(), err) == Applied(old(View()), newTitle, newContent, now)
    {
      if newTitle.Some? {
        if Blank(newTitle.value) {
          return Some(EmptyNoteTitle);
        }
        if |newTitle.value| > MAX_TITLE {
          return Some(NoteTitleTooLong);
        }
        title := newTitle.value;
      }
      if newContent.Some? {
        if |newContent.value| > MAX_CONTENT {
          return Some(NoteContentTooLarge);
        }
        content := newContent.value;
      }
      updatedAt := now;
      err := None;
    }
  }

  // ---------------------------------------------------------------- use cases

  datatype Reply = OneNote(note: Row) | Notes(page: seq<Row>, total: nat) | Deleted | Refused(error: Sentinel) | Broken

  /** What the database and the clocks give to one use case: the faults of its first and its second statement,
      the new row's id, the application's time and the database's. */
  datatype Env = Env(first: Fault, second: Fault, newId: string, now: int, stamp: int)

  function EffectiveLimit(limit: int): nat {
    if limit <= 0 then DEFAULT_LIMIT else if limit > MAX_LIMIT then MAX_LIMIT else limit
  }

  function EffectiveOffset(offset: int): nat {
    if offset < 0 then 0 else offset
  }

  /** The reply to a write that took effect: its answer may be lost. */
  function Unless(fault: Fault, reply: Reply): Reply {
    if fault == NoFault then reply else Broken
  }

  function Created(rows: seq<Row>, user: string, title: string, content: string, env: Env): (seq<Row>, Reply) {
    if NewNoteError(user, title, content).Some? then (rows, Refused(NewNoteError(user, title, content).value))
    else if env.first == FailsBefore || HasId(rows, env.newId) then (rows, Broken)
    else
      var row := Row(env.newId, user, title, content, env.stamp, env.stamp);
      (rows + [row], Unless(env.first, OneNote(row)))
  }

  function Fetched(rows: seq<Row>, user: string, id: string, fault: Fault): Reply {
    if fault != NoFault then Broken
    else if Get(rows, id, user) == None then Refused(NoteNotFound)
    else OneNote(Get(rows, id, user).value)
  }

  /** The second half of `ListNotes`, after the first has counted: read one page. */
  function Paged(rows: seq<Row>, user: string, limit: int, offset: int, total: nat, fault: Fault): Reply {
    Unless(fault, Notes(Page(Listing(rows, user), EffectiveLimit(limit), EffectiveOffset(offset)), total))
  }

  function Listed(rows: seq<Row>, user: string, limit: int, offset: int, env: Env): Reply {
    if env.first != NoFault then Broken
    else Paged(rows, user, limit, offset, |OwnRows(rows, user)|, env.second)
  }

  function Removed(rows: seq<Row>, user: string, id: string, fault: Fault): (seq<Row>, Reply) {
    if fault == FailsBefore then (rows, Broken)
    else
      (Delete(rows, id, user),
       Unless(fault, if Get(rows, id, user) == None then Refused(NoteNotFoundOrNotOwned) else Deleted))
  }

  /** The first half of `UpdateNote`: read the note and change it in memory. */
  function Drafted(rows: seq<Row>, user: string, id: string, title: Option<string>, content: Option<string>, env: Env)
    : (Option<Row>, Reply)
  {
    if env.first != NoFault then (None, Broken)
    else if Get(rows, id, user) == None then (None, Refused(NoteNotFound))
    else
      var (draft, err) := Applied(Get(rows, id, user).value, title, content, env.now);
      if err.Some? then (None, Refused(err.value)) else (Some(draft), OneNote(draft))
  }

  /** The second half: write the changed note. */
  function Saved(rows: seq<Row>, user: string, draft: Row, fault: Fault, stamp: int): (seq<Row>, Reply) {
    if fault == FailsBefore then (rows, Broken)
    else
      (Update(rows, draft.id, user, draft.title, draft.content, stamp),
       Unless(fault, if Get(rows, draft.id, user) == None then Refused(NoteNotFoundOrNotOwned) else OneNote(draft)))
  }

  function Updated(rows: seq<Row>, user: string, id: string, title: Option<string>, content: Option<string>, env: Env)
    : (seq<Row>, Reply)
  {
    var (draft, reply) := Drafted(rows, user, id, title, content, env);
    if draft == None then (rows, reply) else Saved(rows, user, draft.value, env.second, env.stamp)
  }

  lemma {:induction false} GetFinds(rows: seq<Row>, id: string, user: string)
    ensures match Get(rows, id, user)
            case Some(r) => r in rows && r.id == id && r.userId == user
            case None => forall r | r in rows :: r.id != id || r.userId != user
  {
    if rows != [] {
      GetFinds(rows[1..], id, user);
      assert forall r :: r in rows <==> r == rows[0] || r in rows[1..];
    }
  }

  class NoteUseCase {
    var rows: seq<Row>

    constructor ()
      ensures rows == []
    {
      rows := [];
    }

    method CreateNote(user: string, title: string, content: string, env: Env) returns (reply: Reply)
      modifies this
      ensures (rows, reply) == Created(old(rows), user, title, content, env)
    {
      var err := NewNoteError(user, title, content);
      if err.Some? {
        return Refused(err.value);
      }
      if env.first == FailsBefore || HasId(rows, env.newId) {
        return Broken;
      }
      var row := Row(env.newId, user, title, content, env.stamp, env.stamp);
      rows := rows + [row];
      reply := if env.first == NoFault then OneNote(row) else Broken;
    }

    method GetNote(user: string, id: string, env: Env) returns (reply: Reply)
      ensures reply == Fetched(rows, user, id, env.first)
      ensures reply.OneNote? ==> reply.note in rows && reply.note.id == id && reply.note.userId == user
    {
      if env.first != NoFault {
        return Broken;
      }
      var found := Get(rows, id, user);
      if found == None {
        return Refused(NoteNotFound);
      }
      GetFinds(rows, id, user);
      reply := OneNote(found.value);
    }

    method ListNotes(user: string, limit: int, offset: int, env: Env) returns (reply: Reply)
      ensures reply == Listed(rows, user, limit, offset, env)
      ensures reply.Notes? ==> |reply.page| <= MAX_LIMIT
    {
      var effective, from := limit, offset;
      if effective <= 0 {
        effective := DEFAULT_LIMIT;
      }
      if effective > MAX_LIMIT {
        effective := MAX_LIMIT;
      }
      if from < 0 {
        from := 0;
      }
      if env.first != NoFault {
        return Broken;
      }
      var total := |OwnRows(rows, user)|;
      if env.second != NoFault {
        return Broken;
      }
      reply := Notes(Page(Listing(rows, user), effective, from), total);
    }

    method UpdateNote(user: string, id: string, title: Option<string>, content: Option<string>, env: Env)
      returns (reply: Reply)
      modifies this
      ensures (rows, reply) == Updated(old(rows), user, id, title, content, env)
    {
      if env.first != NoFault {
        return Broken;
      }
      var found := Get(rows, id, user);
      if found == None {
        return Refused(NoteNotFound);
      }
      var note := new Note(found.value);
      var err := note.ApplyUpdate(title, content, env.now);
      if err.Some? {
        return Refused(err.value);
      }
      if env.second == FailsBefore {
        return Broken;
      }
      var matched := Get(rows, note.id, user) != None;
      rows := Update(rows, note.id, user, note.title, note.content, env.stamp);
      if env.second != NoFault {
        return Broken;
      }
      if !matched {
        return Refused(NoteNotFoundOrNotOwned);
      }
      reply := OneNote(Row(note.id, note.userId, note.title, note.content, note.createdAt, note.updatedAt));
    }

    method DeleteNote(user: string, id: string, env: Env) returns (reply: Reply)
      modifies this
      ensures (rows, reply) == Removed(old(rows), user, id, env.first)
    {
      if env.first == FailsBefore {
        return Broken;
      }
      var matched := Get(rows, id, user) != None;
      rows := Delete(rows, id, user);
      if env.first != NoFault {
        return Broken;
      }
      reply := if matched then Deleted else Refused(NoteNotFoundOrNotOwned);
    }
  }
}
