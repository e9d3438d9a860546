/** What is written is read back: the note use cases against one another, on every table in which an id is
    stored once, which are all tables that runs reach. */
module NoteReadback {
  import opened DomainErrors
  import opened Faults
  import opened WhiteSpace
  import opened NoteStore
  import opened NoteIsolation

  // ---------------------------------------------------------------- inputs

  /** A title that the domain accepts, in its own terms. */
  ghost predicate GoodTitle(title: string) {
    !EncodesSpaces(title) && |title| <= 255
  }

  predicate GoodContent(content: string) {
    |content| <= 65536
  }

  /** Which new notes are accepted, and with which error the others are refused: the first that applies of
      no user, a title without text, one too long, and content too large. */
  lemma NewNoteChecked(user: string, title: string, content: string)
    ensures NewNoteError(user, title, content) == None <==> user != "" && GoodTitle(title) && GoodContent(content)
    ensures NewNoteError(user, title, content) == Some(EmptyUserID) <==> user == ""
    ensures NewNoteError(user, title, content) == Some(EmptyNoteTitle) <==> user != "" && EncodesSpaces(title)
    ensures NewNoteError(user, title, content) == Some(NoteTitleTooLong) <==>
            user != "" && !EncodesSpaces(title) && |title| > 255
    ensures NewNoteError(user, title, content) == Some(NoteContentTooLarge) <==>
            user != "" && GoodTitle(title) && |content| > 65536
  {
    BlankExactly(title);
  }

  /** Which updates are accepted, and what an accepted one does to the note in memory: the given title and
      content replace the old ones, what is not given stays, and so do id, owner and creation time. */
  lemma UpdateAccepted(n: Row, title: Option<string>, content: Option<string>, now: int)
    ensures Applied(n, title, content, now).1 == None <==>
            (title.Some? ==> GoodTitle(title.value)) && (content.Some? ==> GoodContent(content.value))
    ensures Applied(n, title, content, now).1 == None ==>
            var after := Applied(n, title, content, now).0;
            && after.title == (if title.Some? then title.value else n.title)
            && after.content == (if content.Some? then content.value else n.content)
            && after.id == n.id && after.userId == n.userId && after.createdAt == n.createdAt && after.updatedAt == now
  {
    if title.Some? {
      BlankExactly(title.value);
    }
  }

  // ---------------------------------------------------------------- statements on a row stored once

  /** The row at `i`, and no other, has this id. */
  predicate Once(rows: seq<Row>, i: nat, id: string) {
    i < |rows| && rows[i].id == id && forall j | 0 <= j < |rows| && j != i :: rows[j].id != id
  }

  lemma {:induction false} GetOnce(rows: seq<Row>, i: nat, id: string, user: string)
    requires Once(rows, i, id)
    ensures Get(rows, id, user) == if rows[i].userId == user then Some(rows[i]) else None
  {
    if i > 0 {
      assert forall j | 0 <= j < |rows[1..]| :: rows[1..][j] == rows[j + 1];
      GetOnce(rows[1..], i - 1, id, user);
    } else {
      GetFinds(rows[1..], id, user);
    }
  }

  lemma {:induction false} GetAbsent(rows: seq<Row>, id: string, user: string)
    requires forall j | 0 <= j < |rows| :: rows[j].id != id
    ensures Get(rows, id, user) == None
  {
    GetFinds(rows, id, user);
  }

  lemma UpdateOnce(rows: seq<Row>, i: nat, id: string, user: string, title: string, content: string, stamp: int)
    requires Once(rows, i, id) && rows[i].userId == user
    ensures Update(rows, id, user, title, content, stamp) == rows[i := Stamped(rows[i], title, content, stamp)]
  {
    var after, stamped := Update(rows, id, user, title, content, stamp), Stamped(rows[i], title, content, stamp);
    forall j: nat | j < |rows| ensures |after| == |rows| && after[j] == if j == i then stamped else rows[j] {
      UpdateAt(rows, id, user, title, content, stamp, j);
    }
    assert |rows| > 0 && i < |after|;
    assert after == rows[i := stamped];
  }

  lemma {:induction false} DeleteOnce(rows: seq<Row>, i: nat, id: string, user: string)
    requires Once(rows, i, id) && rows[i].userId == user
    ensures Delete(rows, id, user) == rows[..i] + rows[i + 1..]
  {
    assert forall j | 0 <= j < |rows[1..]| :: rows[1..][j] == rows[j + 1];
    if i > 0 {
      DeleteOnce(rows[1..], i - 1, id, user);
      assert [rows[0]] + rows[1..][..i - 1] == rows[..i] && rows[1..][i..] == rows[i + 1..];
    } else {
      GetAbsent(rows[1..], id, user);
      UnmatchedKeeps(rows[1..], id, user, "", "", 0);
      assert rows[..0] + rows[1..] == rows[1..];
    }
  }

  // ---------------------------------------------------------------- use cases against one another

  /** A note that has been created is the row appended, with what was given, and is read back. */
  lemma CreateReadsBack(rows: seq<Row>, user: string, title: string, content: string, env: Env)
    requires Created(rows, user, title, content, env).1.OneNote?
    ensures var (after, reply) := Created(rows, user, title, content, env);
            && reply.note.title == title && reply.note.content == content
            && reply.note.userId == user && reply.note.id == env.newId
            && reply.note.createdAt == reply.note.updatedAt == env.stamp
            && after == rows + [reply.note]
            && Fetched(after, user, env.newId, NoFault) == reply
  {
    var (after, reply) := Created(rows, user, title, content, env);
    assert Once(after, |rows|, env.newId);
    GetOnce(after, |rows|, env.newId, user);
  }

  /** When creating succeeds. */
  lemma CreateSucceedsExactly(rows: seq<Row>, user: string, title: string, content: string, env: Env)
    ensures Created(rows, user, title, content, env).1.OneNote? <==>
            && user != "" && GoodTitle(title) && GoodContent(content)
            && env.first == NoFault && forall r | r in rows :: r.id != env.newId
  {
    NewNoteChecked(user, title, content);
    assert HasId(rows, env.newId) <==> exists r :: r in rows && r.id == env.newId;
  }

  /** An update answered with a note is read back with the given title and content, or the old ones where none
      was given, under the same id, owner and creation time, stamped by the database; the reply differs at
      most in that stamp, and every other row is as it was. */
  lemma UpdateReadsBack(rows: seq<Row>, i: nat, user: string, id: string, title: Option<string>,
                        content: Option<string>, env: Env)
    requires Once(rows, i, id) && Updated(rows, user, id, title, content, env).1.OneNote?
    ensures var (after, reply) := Updated(rows, user, id, title, content, env);
            var newTitle := if title.Some? then title.value else rows[i].title;
            var newContent := if content.Some? then content.value else rows[i].content;
            && Fetched(after, user, id, NoFault) ==
                 OneNote(Row(id, user, newTitle, newContent, rows[i].createdAt, env.stamp))
            && reply.note == Row(id, user, newTitle, newContent, rows[i].createdAt, env.now)
            && |after| == |rows| && forall j | 0 <= j < |rows| && j != i :: after[j] == rows[j]
  {
    GetOnce(rows, i, id, user);
    UpdateAccepted(rows[i], title, content, env.now);
    var draft := Applied(rows[i], title, content, env.now).0;
    UpdateOnce(rows, i, id, user, draft.title, draft.content, env.stamp);
    var after := Updated(rows, user, id, title, content, env).0;
    assert Once(after, i, id);
    GetOnce(after, i, id, user);
  }

  /** When updating a stored note succeeds. */
  lemma UpdateSucceedsExactly(rows: seq<Row>, i: nat, user: string, id: string, title: Option<string>,
                              content: Option<string>, env: Env)
    requires Once(rows, i, id)
    ensures Updated(rows, user, id, title, content, env).1.OneNote? <==>
            && rows[i].userId == user && env.first == env.second == NoFault
            && (title.Some? ==> GoodTitle(title.value)) && (content.Some? ==> GoodContent(content.value))
  {
    GetOnce(rows, i, id, user);
    UpdateAccepted(rows[i], title, content, env.now);
  }

  /** An update whose note is deleted between its read and its write is refused, and brings nothing back. */
  lemma LateUpdateIsRefused(s: System, user: string, call: nat, env: Env)
    requires (user, call) in s.pending && s.pending[(user, call)].Draft? && env.second == NoFault
    requires forall r | r in s.rows :: r.id != s.pending[(user, call)].note.id
    ensures var t := Apply(s, Action(user, call, FinishUpdate, env));
            t.rows == s.rows && t.log == s.log + [(user, Refused(NoteNotFoundOrNotOwned))]
  {
    var d := s.pending[(user, call)].note;
    GetFinds(s.rows, d.id, user);
    UnmatchedKeeps(s.rows, d.id, user, d.title, d.content, env.stamp);
  }

  /** A deleted note is gone, and every other row stays, in order. */
  lemma DeleteForgets(rows: seq<Row>, i: nat, user: string, id: string)
    requires Once(rows, i, id) && Removed(rows, user, id, NoFault).1 == Deleted
    ensures var after := Removed(rows, user, id, NoFault).0;
            after == rows[..i] + rows[i + 1..] && Fetched(after, user, id, NoFault) == Refused(NoteNotFound)
  {
    GetOnce(rows, i, id, user);
    DeleteOnce(rows, i, id, user);
    GetAbsent(rows[..i] + rows[i + 1..], id, user);
  }

  /** A user can neither read nor change nor delete somebody else's note, and learns no more of it than of one
      that does not exist. */
  lemma ForeignNotesAreHidden(rows: seq<Row>, i: nat, user: string, id: string, title: Option<string>,
                              content: Option<string>, env: Env)
    requires Once(rows, i, id) && rows[i].userId != user && env.first == NoFault
    ensures Fetched(rows, user, id, env.first) == Refused(NoteNotFound)
    ensures Updated(rows, user, id, title, content, env) == (rows, Refused(NoteNotFound))
    ensures Removed(rows, user, id, env.first) == (rows, Refused(NoteNotFoundOrNotOwned))
    ensures forall others: seq<Row> | (forall r | r in others :: r.id != id) ::
              && Fetched(others, user, id, env.first) == Fetched(rows, user, id, env.first)
              && Updated(others, user, id, title, content, env).1 == Updated(rows, user, id, title, content, env).1
              && Removed(others, user, id, env.first).1 == Removed(rows, user, id, env.first).1
  {
    GetOnce(rows, i, id, user);
    UnmatchedKeeps(rows, id, user, "", "", 0);
    forall others: seq<Row> | (forall r | r in others :: r.id != id) ensures Get(others, id, user) == None {
      GetFinds(others, id, user);
    }
  }

  // ---------------------------------------------------------------- ids are stored once in every run

  predicate Distinct(rows: seq<Row>) {
    forall i, j | 0 <= i < j < |rows| :: rows[i].id != rows[j].id
  }

  lemma DeleteAddsNoId(rows: seq<Row>, id: string, user: string, other: string)
    ensures HasId(Delete(rows, id, user), other) ==> HasId(rows, other)
  {
    if HasId(Delete(rows, id, user), other) {
      DeleteKeepsIds(rows, id, user, other);
    }
  }

  lemma {:induction false} DeleteDistinct(rows: seq<Row>, id: string, user: string)
    requires Distinct(rows)
    ensures Distinct(Delete(rows, id, user))
  {
    if rows != [] {
      var rest := Delete(rows[1..], id, user);
      assert forall j | 0 <= j < |rows[1..]| :: rows[1..][j] == rows[j + 1];
      DeleteDistinct(rows[1..], id, user);
      DeleteAddsNoId(rows[1..], id, user, rows[0].id);
      assert forall j | 0 <= j < |rest| :: rest[j].id != rows[0].id;
    }
  }

  lemma UpdateDistinct(rows: seq<Row>, id: string, user: string, title: string, content: string, stamp: int)
    requires Distinct(rows)
    ensures Distinct(Update(rows, id, user, title, content, stamp))
  {
    var after := Update(rows, id, user, title, content, stamp);
    forall j: nat | j < |rows| ensures |after| == |rows| && after[j].id == rows[j].id {
      UpdateAt(rows, id, user, title, content, stamp, j);
    }
    if rows == [] {
      assert after == [];
    }
  }

  lemma StepDistinct(s: System, a: Action)
    requires Distinct(s.rows) && FreshId(s, a)
    ensures Distinct(Apply(s, a).rows)
  {
    match a.op
    case Remove(id) => DeleteDistinct(s.rows, id, a.user);
    case FinishUpdate =>
      if (a.user, a.call) in s.pending && s.pending[(a.user, a.call)].Draft? {
        var d := s.pending[(a.user, a.call)].note;
        UpdateDistinct(s.rows, d.id, a.user, d.title, d.content, a.env.stamp);
      }
    case _ =>
  }

  lemma {:induction false} RunDistinct(run: seq<Action>)
    requires IdsDiffer(run)
    ensures Distinct(Exec(run).rows)
  {
    if run != [] {
      RunDistinct(run[..|run| - 1]);
      NextIdIsFresh(run);
      StepDistinct(Exec(run[..|run| - 1]), run[|run| - 1]);
    }
  }

  /** In every reachable state every stored note has its id to itself, so the laws above hold of all notes. */
  lemma StoredOnce(run: seq<Action>, i: nat)
    requires IdsDiffer(run) && i < |Exec(run).rows|
    ensures Once(Exec(run).rows, i, Exec(run).rows[i].id)
  {
    RunDistinct(run);
  }
}
