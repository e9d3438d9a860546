/** Users' notes do not interfere. Use cases of any number of users interleave; `UpdateNote` is a read and a
    write, and `ListNotes` a count and a read, with anything in between. A run is a list of actions; one that
    is not possible changes nothing. */
module NoteIsolation {
  import opened DomainErrors
  import opened Faults
  import opened WhiteSpace
  import opened NoteStore

  datatype Op =
    | Create(title: string, content: string)
    | Fetch(id: string)
    | BeginList(limit: int, offset: int)
    | FinishList
    | BeginUpdate(id: string, newTitle: Option<string>, newContent: Option<string>)
    | FinishUpdate
    | Remove(id: string)

  datatype Action = Action(user: string, call: nat, op: Op, env: Env)

  /** What a use case carries from its first statement to its second: the note it has changed in memory, or
      the number of notes it has counted. */
  datatype Pending = Draft(note: Row) | Counted(limit: int, offset: int, total: nat)

  /** `pending` is by user and call. */
  datatype System = System(rows: seq<Row>, pending: map<(string, nat), Pending>, log: seq<(string, Reply)>)

  function Start(): System {
    System([], map[], [])
  }

  function Answered(s: System, user: string, outcome: (seq<Row>, Reply)): System {
    s.(rows := outcome.0, log := s.log + [(user, outcome.1)])
  }

  function Waits(s: System, user: string, call: nat, p: Pending): System {
    s.(pending := s.pending[(user, call) := p])
  }

  function Finishes(s: System, user: string, call: nat, outcome: (seq<Row>, Reply)): System {
    Answered(s, user, outcome).(pending := s.pending - {(user, call)})
  }

  function Apply(s: System, a: Action): System {
    var key := (a.user, a.call);
    match a.op
    case Create(title, content) => Answered(s, a.user, Created(s.rows, a.user, title, content, a.env))
    case Fetch(id) => Answered(s, a.user, (s.rows, Fetched(s.rows, a.user, id, a.env.first)))
    case Remove(id) => Answered(s, a.user, Removed(s.rows, a.user, id, a.env.first))
    case BeginList(limit, offset) =>
      if key in s.pending then s
      else if a.env.first != NoFault then Answered(s, a.user, (s.rows, Broken))
      else Waits(s, a.user, a.call, Counted(limit, offset, |OwnRows(s.rows, a.user)|))
    case FinishList =>
      if key !in s.pending || !s.pending[key].Counted? then s
      else
        var c := s.pending[key];
        Finishes(s, a.user, a.call, (s.rows, Paged(s.rows, a.user, c.limit, c.offset, c.total, a.env.second)))
    case BeginUpdate(id, title, content) =>
      if key in s.pending then s
      else
        var (draft, reply) := Drafted(s.rows, a.user, id, title, content, a.env);
        if draft == None then Answered(s, a.user, (s.rows, reply))
        else Waits(s, a.user, a.call, Draft(draft.value))
    case FinishUpdate =>
      if key !in s.pending || !s.pending[key].Draft? then s
      else Finishes(s, a.user, a.call, Saved(s.rows, a.user, s.pending[key].note, a.env.second, a.env.stamp))
  }

  function Exec(run: seq<Action>): System {
    if run == [] then Start() else Apply(Exec(run[..|run| - 1]), run[|run| - 1])
  }

  // ---------------------------------------------------------------- one user's share

  function OwnActions(run: seq<Action>, user: string): seq<Action> {
    if run == [] then []
    else OwnActions(run[..|run| - 1], user) + (if run[|run| - 1].user == user then [run[|run| - 1]] else [])
  }

  function OwnLog(log: seq<(string, Reply)>, user: string): seq<(string, Reply)> {
    if log == [] then []
    else OwnLog(log[..|log| - 1], user) + (if log[|log| - 1].0 == user then [log[|log| - 1]] else [])
  }

  function OwnPending(pending: map<(string, nat), Pending>, user: string): map<(string, nat), Pending> {
    map k | k in pending && k.0 == user :: pending[k]
  }

  function Share(s: System, user: string): System {
    System(OwnRows(s.rows, user), OwnPending(s.pending, user), OwnLog(s.log, user))
  }

  /** New row ids are not in use. */
  predicate FreshId(s: System, a: Action) {
    a.op.Create? ==> !HasId(s.rows, a.env.newId)
  }

  // ---------------------------------------------------------------- statements see the user's rows only

  lemma {:induction false} OwnAppend(rows: seq<Row>, row: Row, user: string)
    ensures OwnRows(rows + [row], user) == OwnRows(rows, user) + (if row.userId == user then [row] else [])
  {
    if rows == [] {
      assert [] + [row] == [row];
      assert [row][1..] == [];
    } else {
      OwnAppend(rows[1..], row, user);
      assert (rows + [row])[1..] == rows[1..] + [row];
    }
  }

  lemma {:induction false} OwnGet(rows: seq<Row>, id: string, user: string)
    ensures Get(OwnRows(rows, user), id, user) == Get(rows, id, user)
    ensures Get(rows, id, user).Some? ==> Get(rows, id, user).value.userId == user && Get(rows, id, user).value.id == id
  {
    if rows != [] {
      OwnGet(rows[1..], id, user);
      if rows[0].userId == user {
        assert OwnRows(rows, user)[1..] == OwnRows(rows[1..], user);
      }
    }
  }

  lemma {:induction false} OwnUpdate(rows: seq<Row>, id: string, writer: string, title: string, content: string, now: int,
                                     user: string)
    ensures OwnRows(Update(rows, id, writer, title, content, now), user) ==
            if writer == user then Update(OwnRows(rows, user), id, user, title, content, now) else OwnRows(rows, user)
  {
    if rows != [] {
      OwnUpdate(rows[1..], id, writer, title, content, now, user);
      assert Update(rows, id, writer, title, content, now)[1..] == Update(rows[1..], id, writer, title, content, now);
      if rows[0].userId == user {
        assert OwnRows(rows, user)[1..] == OwnRows(rows[1..], user);
      }
    }
  }

  lemma {:induction false} OwnDelete(rows: seq<Row>, id: string, writer: string, user: string)
    ensures OwnRows(Delete(rows, id, writer), user) ==
            if writer == user then Delete(OwnRows(rows, user), id, user) else OwnRows(rows, user)
  {
    if rows != [] {
      OwnDelete(rows[1..], id, writer, user);
      if !(rows[0].id == id && rows[0].userId == writer) {
        assert Delete(rows, id, writer)[1..] == Delete(rows[1..], id, writer);
      }
      if rows[0].userId == user {
        assert OwnRows(rows, user)[1..] == OwnRows(rows[1..], user);
      }
    }
  }

  lemma {:induction false} OwnTwice(rows: seq<Row>, user: string)
    ensures OwnRows(OwnRows(rows, user), user) == OwnRows(rows, user)
  {
    if rows != [] {
      OwnTwice(rows[1..], user);
      if rows[0].userId == user {
        assert OwnRows(rows, user)[1..] == OwnRows(rows[1..], user);
      }
    }
  }

  lemma {:induction false} OwnIds(rows: seq<Row>, user: string, id: string)
    requires !HasId(rows, id)
    ensures !HasId(OwnRows(rows, user), id)
  {
    if rows != [] {
      assert rows[0].id != id && forall i | 0 <= i < |rows[1..]| :: rows[1..][i].id == rows[i + 1].id;
      OwnIds(rows[1..], user, id);
    }
  }

  lemma OwnLogGrows(log: seq<(string, Reply)>, entry: (string, Reply), user: string)
    ensures OwnLog(log + [entry], user) == OwnLog(log, user) + (if entry.0 == user then [entry] else [])
  {
    assert (log + [entry])[..|log|] == log;
  }

  // ---------------------------------------------------------------- steps

  lemma OthersKeepRows(s: System, a: Action, user: string)
    requires a.user != user
    ensures OwnRows(Apply(s, a).rows, user) == OwnRows(s.rows, user)
  {
    match a.op
    case Create(title, content) => OwnAppend(s.rows, Row(a.env.newId, a.user, title, content, a.env.stamp, a.env.stamp), user);
    case Remove(id) => OwnDelete(s.rows, id, a.user, user);
    case FinishUpdate =>
      if (a.user, a.call) in s.pending && s.pending[(a.user, a.call)].Draft? {
        var d := s.pending[(a.user, a.call)].note;
        OwnUpdate(s.rows, d.id, a.user, d.title, d.content, a.env.stamp, user);
      }
    case _ =>
  }

  lemma OthersKeepPending(s: System, a: Action, user: string)
    requires a.user != user
    ensures OwnPending(Apply(s, a).pending, user) == OwnPending(s.pending, user)
  {
  }

  /** An action adds at most one reply, to its own user. */
  lemma LogGrows(s: System, a: Action)
    ensures Apply(s, a).log == s.log || exists r :: Apply(s, a).log == s.log + [(a.user, r)]
  {
  }

  lemma OthersKeepLog(s: System, a: Action, user: string)
    requires a.user != user
    ensures OwnLog(Apply(s, a).log, user) == OwnLog(s.log, user)
  {
    LogGrows(s, a);
    if r :| Apply(s, a).log == s.log + [(a.user, r)] {
      OwnLogGrows(s.log, (a.user, r), user);
    }
  }

  /** A step of somebody else leaves the user's share alone. */
  lemma OthersDoNotMatter(s: System, a: Action, user: string)
    requires a.user != user
    ensures Share(Apply(s, a), user) == Share(s, user)
  {
    OthersKeepRows(s, a, user);
    OthersKeepPending(s, a, user);
    OthersKeepLog(s, a, user);
  }

  /** The reply of an action on the whole is its reply on the user's share. */
  lemma OwnAnswer(s: System, user: string, rows: seq<Row>, reply: Reply)
    ensures Share(Answered(s, user, (rows, reply)), user) ==
            Answered(Share(s, user), user, (OwnRows(rows, user), reply))
  {
    OwnLogGrows(s.log, (user, reply), user);
  }

  lemma OwnCreate(s: System, a: Action)
    requires a.op.Create? && FreshId(s, a)
    ensures Share(Apply(s, a), a.user) == Apply(Share(s, a.user), a)
  {
    var (rows, reply) := Created(s.rows, a.user, a.op.title, a.op.content, a.env);
    OwnIds(s.rows, a.user, a.env.newId);
    OwnAppend(s.rows, Row(a.env.newId, a.user, a.op.title, a.op.content, a.env.stamp, a.env.stamp), a.user);
    OwnAnswer(s, a.user, rows, reply);
  }

  lemma OwnWaits(s: System, user: string, call: nat, p: Pending)
    ensures Share(Waits(s, user, call, p), user) == Waits(Share(s, user), user, call, p)
  {
    assert OwnPending(s.pending[(user, call) := p], user) == OwnPending(s.pending, user)[(user, call) := p];
  }

  lemma OwnFinishes(s: System, user: string, call: nat, rows: seq<Row>, reply: Reply)
    ensures Share(Finishes(s, user, call, (rows, reply)), user) ==
            Finishes(Share(s, user), user, call, (OwnRows(rows, user), reply))
  {
    OwnAnswer(s, user, rows, reply);
    assert OwnPending(s.pending - {(user, call)}, user) == OwnPending(s.pending, user) - {(user, call)};
  }

  lemma OwnFetch(s: System, a: Action)
    requires a.op.Fetch?
    ensures Share(Apply(s, a), a.user) == Apply(Share(s, a.user), a)
  {
    OwnGet(s.rows, a.op.id, a.user);
    OwnAnswer(s, a.user, s.rows, Fetched(s.rows, a.user, a.op.id, a.env.first));
  }

  lemma OwnBeginList(s: System, a: Action)
    requires a.op.BeginList?
    ensures Share(Apply(s, a), a.user) == Apply(Share(s, a.user), a)
  {
    OwnTwice(s.rows, a.user);
    OwnAnswer(s, a.user, s.rows, Broken);
    OwnWaits(s, a.user, a.call, Counted(a.op.limit, a.op.offset, |OwnRows(s.rows, a.user)|));
  }

  lemma OwnFinishList(s: System, a: Action)
    requires a.op.FinishList?
    ensures Share(Apply(s, a), a.user) == Apply(Share(s, a.user), a)
  {
    var key := (a.user, a.call);
    if key in s.pending && s.pending[key].Counted? {
      var c := s.pending[key];
      OwnTwice(s.rows, a.user);
      OwnFinishes(s, a.user, a.call, s.rows, Paged(s.rows, a.user, c.limit, c.offset, c.total, a.env.second));
    }
  }

  lemma OwnRemove(s: System, a: Action)
    requires a.op.Remove?
    ensures Share(Apply(s, a), a.user) == Apply(Share(s, a.user), a)
  {
    var (rows, reply) := Removed(s.rows, a.user, a.op.id, a.env.first);
    OwnGet(s.rows, a.op.id, a.user);
    OwnDelete(s.rows, a.op.id, a.user, a.user);
    OwnAnswer(s, a.user, rows, reply);
  }

  lemma OwnBegin(s: System, a: Action)
    requires a.op.BeginUpdate?
    ensures Share(Apply(s, a), a.user) == Apply(Share(s, a.user), a)
  {
    var (draft, reply) := Drafted(s.rows, a.user, a.op.id, a.op.newTitle, a.op.newContent, a.env);
    OwnGet(s.rows, a.op.id, a.user);
    if draft == None {
      OwnAnswer(s, a.user, s.rows, reply);
    } else {
      OwnWaits(s, a.user, a.call, Draft(draft.value));
    }
  }

  lemma OwnFinish(s: System, a: Action)
    requires a.op.FinishUpdate?
    ensures Share(Apply(s, a), a.user) == Apply(Share(s, a.user), a)
  {
    var key := (a.user, a.call);
    if key in s.pending && s.pending[key].Draft? {
      var d := s.pending[key].note;
      var (rows, reply) := Saved(s.rows, a.user, d, a.env.second, a.env.stamp);
      OwnGet(s.rows, d.id, a.user);
      OwnUpdate(s.rows, d.id, a.user, d.title, d.content, a.env.stamp, a.user);
      OwnFinishes(s, a.user, a.call, rows, reply);
    }
  }

  /** A step of the user does to the user's share what it does to the whole. */
  lemma OwnStep(s: System, a: Action)
    requires FreshId(s, a)
    ensures Share(Apply(s, a), a.user) == Apply(Share(s, a.user), a)
  {
    match a.op
    case Create(_, _) => OwnCreate(s, a);
    case Fetch(_) => OwnFetch(s, a);
    case BeginList(_, _) => OwnBeginList(s, a);
    case FinishList => OwnFinishList(s, a);
    case Remove(_) => OwnRemove(s, a);
    case BeginUpdate(_, _, _) => OwnBegin(s, a);
    case FinishUpdate => OwnFinish(s, a);
  }

  /** The ids that the database gave out in the run differ from one another. */
  ghost predicate IdsDiffer(run: seq<Action>) {
    forall i, j | 0 <= i < j < |run| && run[i].op.Create? && run[j].op.Create? ::
      run[i].env.newId != run[j].env.newId
  }

  predicate GaveId(run: seq<Action>, id: string) {
    exists i | 0 <= i < |run| :: run[i].op.Create? && run[i].env.newId == id
  }

  lemma {:induction false} UpdateKeepsIds(rows: seq<Row>, id: string, user: string, title: string, content: string,
                                          now: int, other: string)
    requires HasId(Update(rows, id, user, title, content, now), other)
    ensures HasId(rows, other)
  {
    if rows != [] {
      var after := Update(rows, id, user, title, content, now);
      var i :| 0 <= i < |after| && after[i].id == other;
      if i == 0 {
        assert rows[0].id == other;
      } else {
        assert after[1..] == Update(rows[1..], id, user, title, content, now);
        assert after[1..][i - 1].id == other;
        UpdateKeepsIds(rows[1..], id, user, title, content, now, other);
        var k :| 0 <= k < |rows[1..]| && rows[1..][k].id == other;
        assert rows[k + 1].id == other;
      }
    }
  }

  lemma {:induction false} DeleteKeepsIds(rows: seq<Row>, id: string, user: string, other: string)
    requires HasId(Delete(rows, id, user), other)
    ensures HasId(rows, other)
  {
    if rows != [] {
      var after := Delete(rows, id, user);
      var i :| 0 <= i < |after| && after[i].id == other;
      var rest := Delete(rows[1..], id, user);
      if after[i] == rows[0] {
        assert rows[0].id == other;
      } else {
        assert HasId(rest, other) by {
          if |after| > |rest| {
            assert after[1..] == rest && rest[i - 1].id == other;
          } else {
            assert after == rest;
          }
        }
        DeleteKeepsIds(rows[1..], id, user, other);
        var k :| 0 <= k < |rows[1..]| && rows[1..][k].id == other;
        assert rows[k + 1].id == other;
      }
    }
  }

  lemma StepIds(s: System, a: Action, id: string)
    requires HasId(Apply(s, a).rows, id)
    ensures HasId(s.rows, id) || (a.op.Create? && a.env.newId == id)
  {
    var rows := Apply(s, a).rows;
    match a.op
    case Create(_, _) =>
      var i :| 0 <= i < |rows| && rows[i].id == id;
      assert i < |s.rows| ==> s.rows[i].id == id;
    case Remove(target) => if rows != s.rows { DeleteKeepsIds(s.rows, target, a.user, id); }
    case FinishUpdate =>
      if rows != s.rows {
        var d := s.pending[(a.user, a.call)].note;
        UpdateKeepsIds(s.rows, d.id, a.user, d.title, d.content, a.env.stamp, id);
      }
    case _ =>
  }

  lemma {:induction false} RowsHaveGivenIds(run: seq<Action>, id: string)
    ensures HasId(Exec(run).rows, id) ==> GaveId(run, id)
  {
    if run != [] && HasId(Exec(run).rows, id) {
      var n := |run| - 1;
      StepIds(Exec(run[..n]), run[n], id);
      RowsHaveGivenIds(run[..n], id);
      if HasId(Exec(run[..n]).rows, id) {
        var i :| 0 <= i < n && run[..n][i].op.Create? && run[..n][i].env.newId == id;
        assert run[i].op.Create? && run[i].env.newId == id;
      } else {
        assert run[n].op.Create? && run[n].env.newId == id;
      }
    }
  }

  lemma NextIdIsFresh(run: seq<Action>)
    requires IdsDiffer(run) && run != []
    ensures FreshId(Exec(run[..|run| - 1]), run[|run| - 1])
  {
    var n := |run| - 1;
    RowsHaveGivenIds(run[..n], run[n].env.newId);
    if run[n].op.Create? {
      forall i | 0 <= i < n && run[..n][i].op.Create? ensures run[..n][i].env.newId != run[n].env.newId {
        assert run[..n][i] == run[i];
      }
    }
  }

  // ---------------------------------------------------------------- theorems

  /** Non-interference: removing everybody else's actions from any run changes neither the user's rows, nor
      the use cases the user has in flight, nor any reply the user ever got. */
  lemma {:induction false} NonInterference(run: seq<Action>, user: string)
    requires IdsDiffer(run)
    ensures Share(Exec(run), user) == Exec(OwnActions(run, user))
  {
    if run == [] {
      assert OwnPending(map[], user) == map[];
    } else {
      var n := |run| - 1;
      var s, a := Exec(run[..n]), run[n];
      NonInterference(run[..n], user);
      if a.user != user {
        OthersDoNotMatter(s, a, user);
        assert OwnActions(run, user) == OwnActions(run[..n], user);
      } else {
        NextIdIsFresh(run);
        OwnStep(s, a);
        var mine := OwnActions(run[..n], user);
        assert OwnActions(run, user) == mine + [a];
        assert (mine + [a])[..|mine|] == mine;
      }
    }
  }

  /** An update that nothing interrupts has the outcome of `UpdateNote`. */
  lemma UninterruptedUpdate(s: System, user: string, call: nat, id: string, title: Option<string>,
                            content: Option<string>, env: Env)
    requires (user, call) !in s.pending
    ensures var t := Apply(Apply(s, Action(user, call, BeginUpdate(id, title, content), env)),
                           Action(user, call, FinishUpdate, env));
            t == Answered(s, user, Updated(s.rows, user, id, title, content, env))
  {
    var begun := Apply(s, Action(user, call, BeginUpdate(id, title, content), env));
    var t := Apply(begun, Action(user, call, FinishUpdate, env));
    if (user, call) in begun.pending {
      assert t.pending == s.pending;
    }
  }

  /** A listing that nothing interrupts has the outcome of `ListNotes`. */
  lemma UninterruptedList(s: System, user: string, call: nat, limit: int, offset: int, env: Env)
    requires (user, call) !in s.pending
    ensures var t := Apply(Apply(s, Action(user, call, BeginList(limit, offset), env)),
                           Action(user, call, FinishList, env));
            t == Answered(s, user, (s.rows, Listed(s.rows, user, limit, offset, env)))
  {
    var begun := Apply(s, Action(user, call, BeginList(limit, offset), env));
    var t := Apply(begun, Action(user, call, FinishList, env));
    if (user, call) in begun.pending {
      assert t.pending == s.pending;
    }
  }

  // ---------------------------------------------------------------- failures

  /** The step got this reply. */
  ghost predicate Replies(s: System, a: Action, reply: Reply) {
    Apply(s, a).log == s.log + [(a.user, reply)]
  }

  lemma {:induction false} UnmatchedKeeps(rows: seq<Row>, id: string, user: string, title: string, content: string,
                                          stamp: int)
    requires Get(rows, id, user) == None
    ensures Update(rows, id, user, title, content, stamp) == rows && Delete(rows, id, user) == rows
  {
    if rows != [] {
      UnmatchedKeeps(rows[1..], id, user, title, content, stamp);
      assert rows == [rows[0]] + rows[1..];
    }
  }

  lemma {:induction false} DeleteShrinks(rows: seq<Row>, id: string, user: string)
    ensures |Delete(rows, id, user)| <= |rows|
    ensures Get(rows, id, user).Some? ==> |Delete(rows, id, user)| < |rows|
  {
    if rows != [] {
      DeleteShrinks(rows[1..], id, user);
    }
  }

  /** The row as the update statement and the trigger leave it. */
  function Stamped(r: Row, title: string, content: string, stamp: int): Row {
    r.(title := title, content := content, updatedAt := stamp)
  }

  /** The update statement matches a row and gives it a value that it did not have. */
  ghost predicate Alters(rows: seq<Row>, id: string, user: string, title: string, content: string, stamp: int) {
    exists i | 0 <= i < |rows| ::
      rows[i].id == id && rows[i].userId == user && rows[i] != Stamped(rows[i], title, content, stamp)
  }

  lemma {:induction false} UpdateAt(rows: seq<Row>, id: string, user: string, title: string, content: string, stamp: int,
                                    i: nat)
    requires i < |rows|
    ensures |Update(rows, id, user, title, content, stamp)| == |rows|
    ensures Update(rows, id, user, title, content, stamp)[i] ==
            if rows[i].id == id && rows[i].userId == user then Stamped(rows[i], title, content, stamp) else rows[i]
  {
    if i > 0 {
      UpdateAt(rows[1..], id, user, title, content, stamp, i - 1);
    } else if |rows| > 1 {
      UpdateAt(rows[1..], id, user, title, content, stamp, 0);
    }
  }

  lemma UpdateAltersExactly(rows: seq<Row>, id: string, user: string, title: string, content: string, stamp: int)
    ensures Update(rows, id, user, title, content, stamp) != rows <==> Alters(rows, id, user, title, content, stamp)
  {
    forall i: nat | i < |rows|
      ensures |Update(rows, id, user, title, content, stamp)| == |rows|
      ensures Update(rows, id, user, title, content, stamp)[i] ==
              if rows[i].id == id && rows[i].userId == user then Stamped(rows[i], title, content, stamp) else rows[i]
    {
      UpdateAt(rows, id, user, title, content, stamp, i);
    }
  }

  /** A refused use case leaves the table as it was, although the note in memory may already carry the new
      title, and although a write that matches nothing has been sent. */
  lemma RefusalChangesNoRow(s: System, a: Action, error: Sentinel)
    requires Replies(s, a, Refused(error))
    ensures Apply(s, a).rows == s.rows
  {
    assert Apply(s, a).log[|s.log|] == (a.user, Refused(error));
    match a.op
    case Remove(id) => if a.env.first == NoFault { UnmatchedKeeps(s.rows, id, a.user, "", "", 0); }
    case FinishUpdate =>
      if (a.user, a.call) in s.pending && s.pending[(a.user, a.call)].Draft? && a.env.second == NoFault {
        var d := s.pending[(a.user, a.call)].note;
        UnmatchedKeeps(s.rows, d.id, a.user, d.title, d.content, a.env.stamp);
      }
    case _ =>
  }

  /** A write that matched took effect, and its answer was lost. */
  ghost predicate AnswerLost(s: System, a: Action) {
    match a.op
    case Create(title, content) =>
      a.env.first == FailsAfter && NewNoteError(a.user, title, content) == None && !HasId(s.rows, a.env.newId)
    case Remove(id) => a.env.first == FailsAfter && Get(s.rows, id, a.user).Some?
    case FinishUpdate =>
      && a.env.second == FailsAfter
      && (a.user, a.call) in s.pending && s.pending[(a.user, a.call)].Draft?
      && var d := s.pending[(a.user, a.call)].note;
         Alters(s.rows, d.id, a.user, d.title, d.content, a.env.stamp)
    case _ => false
  }

  /** The same step, with statements that work. */
  function Working(a: Action): Action {
    a.(env := a.env.(first := NoFault, second := NoFault))
  }

  /** A use case that ends in a database error has changed the table exactly when a write that matched took
      effect and its answer was lost; and then it has changed it as a success would have. */
  lemma BrokenChangesExactly(s: System, a: Action)
    requires Replies(s, a, Broken)
    ensures Apply(s, a).rows != s.rows <==> AnswerLost(s, a)
    ensures Apply(s, a).rows != s.rows ==> Apply(s, a).rows == Apply(s, Working(a)).rows
  {
    assert Apply(s, a).log[|s.log|] == (a.user, Broken);
    match a.op
    case Create(_, _) =>
      assert |Apply(s, a).rows| > |s.rows| <==> AnswerLost(s, a);
    case Remove(id) =>
      UnmatchedOrShorter(s.rows, id, a.user);
    case FinishUpdate =>
      if (a.user, a.call) in s.pending && s.pending[(a.user, a.call)].Draft? {
        var d := s.pending[(a.user, a.call)].note;
        UpdateAltersExactly(s.rows, d.id, a.user, d.title, d.content, a.env.stamp);
      }
    case _ =>
  }

  lemma UnmatchedOrShorter(rows: seq<Row>, id: string, user: string)
    ensures Delete(rows, id, user) != rows <==> Get(rows, id, user).Some?
  {
    DeleteShrinks(rows, id, user);
    if Get(rows, id, user) == None {
      UnmatchedKeeps(rows, id, user, "", "", 0);
    }
  }

  /** A refused `ApplyUpdate` has changed nothing but the title, and that exactly when the content was
      refused after a new title had been accepted. */
  lemma RefusedUpdateInMemory(n: Row, title: Option<string>, content: Option<string>, now: int)
    requires Applied(n, title, content, now).1.Some?
    ensures var (after, err) := Applied(n, title, content, now);
            after == if err == Some(NoteContentTooLarge) && title.Some? then n.(title := title.value) else n
    ensures Applied(n, title, content, now).1 == Some(NoteContentTooLarge) <==>
            (title.Some? ==> TitleError(title.value) == None) && content.Some? && |content.value| > MAX_CONTENT
  {
  }

  /** Titles and contents in the table always satisfy the domain's rules. */
  ghost predicate RowValid(r: Row) {
    !Blank(r.title) && |r.title| <= 255 && |r.content| <= 65536 && r.userId != ""
  }

  ghost predicate AllValid(s: System) {
    (forall i | 0 <= i < |s.rows| :: RowValid(s.rows[i])) && (forall k | k in s.pending && s.pending[k].Draft? :: RowValid(s.pending[k].note))
  }

  lemma {:induction false} UpdateValid(rows: seq<Row>, id: string, user: string, title: string, content: string, now: int)
    requires forall i | 0 <= i < |rows| :: RowValid(rows[i])
    requires TitleError(title) == None && |content| <= MAX_CONTENT
    ensures forall i | 0 <= i < |Update(rows, id, user, title, content, now)| ::
              RowValid(Update(rows, id, user, title, content, now)[i])
  {
    if rows != [] {
      UpdateValid(rows[1..], id, user, title, content, now);
    }
  }

  lemma {:induction false} DeleteValid(rows: seq<Row>, id: string, user: string)
    requires forall i | 0 <= i < |rows| :: RowValid(rows[i])
    ensures forall i | 0 <= i < |Delete(rows, id, user)| :: RowValid(Delete(rows, id, user)[i])
  {
    if rows != [] {
      DeleteValid(rows[1..], id, user);
    }
  }

  lemma {:induction false} GetValid(rows: seq<Row>, id: string, user: string)
    requires forall i | 0 <= i < |rows| :: RowValid(rows[i])
    ensures Get(rows, id, user).Some? ==> RowValid(Get(rows, id, user).value)
  {
    if rows != [] {
      GetValid(rows[1..], id, user);
    }
  }

  lemma StepValid(s: System, a: Action)
    requires AllValid(s)
    ensures AllValid(Apply(s, a))
  {
    match a.op
    case Remove(id) => DeleteValid(s.rows, id, a.user);
    case BeginUpdate(id, _, _) => GetValid(s.rows, id, a.user);
    case FinishUpdate =>
      if (a.user, a.call) in s.pending && s.pending[(a.user, a.call)].Draft? {
        var d := s.pending[(a.user, a.call)].note;
        UpdateValid(s.rows, d.id, a.user, d.title, d.content, a.env.stamp);
      }
    case _ =>
  }

  /** In every reachable state every note keeps the domain's rules, although updates in flight write what
      they read earlier. */
  lemma {:induction false} NotesAlwaysValid(run: seq<Action>)
    ensures AllValid(Exec(run))
  {
    if run != [] {
      NotesAlwaysValid(run[..|run| - 1]);
      StepValid(Exec(run[..|run| - 1]), run[|run| - 1]);
    }
  }
}
