/** What the task store (server/agent-task-store.ts) keeps of a request, said of the requests and the records
    themselves; and that one owner never notices another. */
module TaskEffects {
  import opened Options
  import opened AgentTaskStore

  // ---------------------------------------------------------------- one request

  /** No request of this owner was accepted under this key. */
  ghost predicate IsUnused(db: Db, owner: Owner, key: Key) {
    forall i :: 0 <= i < |db.retries| ==> !(db.retries[i].owner == owner && db.retries[i].request.key == key)
  }

  lemma {:induction false} UnusedExactly(retries: seq<RetryRow>, owner: Owner, key: Key)
    ensures Receipt(retries, owner, key).None? <==>
              forall i :: 0 <= i < |retries| ==> !(retries[i].owner == owner && retries[i].request.key == key)
  {
    if retries != [] {
      UnusedExactly(retries[1..], owner, key);
      assert forall i :: 0 < i < |retries| ==> retries[i] == retries[1..][i - 1];
      if Receipt(retries, owner, key).None? {
        ReceiptNone(retries, owner, key);
      } else if Receipt(retries[1..], owner, key).Some? {
        var i :| 0 <= i < |retries[1..]| && retries[1..][i].owner == owner && retries[1..][i].request.key == key;
        assert retries[i + 1] == retries[1..][i];
      }
    }
  }

  /** A task is blocked, and no longer a draft, exactly if it was given an objective, an execution and a
      workspace. */
  ghost predicate IsConfigured(record: Record) {
    var d := record.definition;
    record.configuration == Blocked <==>
      d.execution.Some? && d.workspace.Some? && exists i :: 0 <= i < |d.objective| && !Blank(d.objective[i])
  }

  /** What an executed save stores. */
  ghost predicate HoldsTheSave(request: Request, history: seq<Record>, now: Time, record: Record)
    requires request.Save?
  {
    && record.taskId == request.taskId && record.revision == request.expected + 1
    && record.definition == request.definition && !record.deleted && IsConfigured(record)
    && record.updatedAt == now && record.createdAt == if history == [] then now else history[|history| - 1].createdAt
  }

  /** What an executed removal stores: the newest record, deleted. */
  ghost predicate HoldsTheRemoval(request: Request, history: seq<Record>, now: Time, record: Record)
    requires request.Remove? && history != []
  {
    var last := history[|history| - 1];
    && record.taskId == request.taskId && record.revision == request.expected + 1 && record.deleted
    && record.definition == last.definition && record.configuration == last.configuration
    && record.createdAt == last.createdAt && record.updatedAt == now
  }

  /** Both tables take exactly one row. */
  ghost predicate TakesOne(db: Db, t: Db, owner: Owner, request: Request, record: Record) {
    && t.revisions == db.revisions + [RevisionRow(owner, record)]
    && t.retries == db.retries + [RetryRow(owner, request, record)]
  }

  lemma {:induction false} NewestIsFirst(db: Db, owner: Owner, taskId: TaskId)
    requires Inv(db)
    ensures var h := History(db.revisions, owner, taskId);
            h != [] ==> h[|h| - 1].revision == |h| && h[|h| - 1].taskId == taskId
  {
    var h := History(db.revisions, owner, taskId);
    assert Chain(h);
    if h != [] { HistoryIsRows(db.revisions, owner, taskId, h[|h| - 1]); }
    hide History;
  }

  /** A save under an unused key is executed exactly if it names the newest revision of a task that is not
      deleted, and an existing profile revision by its hash; the task then reads as what was asked. */
  lemma {:induction false} SavingExactly(db: Db, owner: Owner, request: Request, env: Env)
    requires Inv(db) && request.Save? && IsUnused(db, owner, request.key)
    ensures var (t, answer) := Apply(db, owner, request, env);
            var h := History(db.revisions, owner, request.taskId);
            var profile := request.definition.profile;
            var id := (owner, profile.profileId, profile.revision);
            var expects := request.expected == |h| && (h == [] || !h[|h| - 1].deleted);
            && (answer.Ok? <==> expects && id in env.profiles && env.profiles[id] == profile.contentHash)
            && (answer.Err? ==> t == db)
            && (!expects ==> answer == Err(RevisionConflict))
            && (expects && id !in env.profiles ==> answer == Err(ProfileNotFound))
            && (expects && id in env.profiles && env.profiles[id] != profile.contentHash ==> answer == Err(HashConflict))
            && (answer.Ok? ==>
                  && HoldsTheSave(request, h, env.now, answer.value)
                  && TakesOne(db, t, owner, request, answer.value)
                  && Get(t.revisions, owner, request.taskId) == Some(answer.value))
  {
    hide Inv;
    hide History;
    hide Get;
    hide Head;
    hide At;
    hide Receipt;
    hide Blank;
    UnusedExactly(db.retries, owner, request.key);
    ReadersSeeHistory(db, owner, request.taskId);
    NewestIsFirst(db, owner, request.taskId);
    var saved := Execute(db, owner, request, env);
    ApplyKeeps(db, owner, request, env);
    if saved.Ok? {
      ExecutesNext(db, owner, request, env);
      var t := Apply(db, owner, request, env).0;
      HistoryAppend(db.revisions, RevisionRow(owner, saved.value), owner, request.taskId);
      ReadersSeeHistory(t, owner, request.taskId);
    }
  }

  /** A removal under an unused key is executed exactly if it names the newest revision of a task that is not
      deleted; the task then reads as absent. */
  lemma {:induction false} RemovingExactly(db: Db, owner: Owner, request: Request, env: Env)
    requires Inv(db) && request.Remove? && IsUnused(db, owner, request.key)
    ensures var (t, answer) := Apply(db, owner, request, env);
            var h := History(db.revisions, owner, request.taskId);
            var exists_ := h != [] && !h[|h| - 1].deleted;
            && (answer.Ok? <==> exists_ && request.expected == |h|)
            && (answer.Err? ==> t == db)
            && (!exists_ ==> answer == Err(TaskNotFound))
            && (exists_ && request.expected != |h| ==> answer == Err(RevisionConflict))
            && (answer.Ok? ==>
                  && HoldsTheRemoval(request, h, env.now, answer.value)
                  && TakesOne(db, t, owner, request, answer.value)
                  && Get(t.revisions, owner, request.taskId) == None)
  {
    hide Inv;
    hide History;
    hide Get;
    hide Head;
    hide At;
    hide Receipt;
    UnusedExactly(db.retries, owner, request.key);
    ReadersSeeHistory(db, owner, request.taskId);
    NewestIsFirst(db, owner, request.taskId);
    var removed := Execute(db, owner, request, env);
    ApplyKeeps(db, owner, request, env);
    if removed.Ok? {
      ExecutesNext(db, owner, request, env);
      var t := Apply(db, owner, request, env).0;
      HistoryAppend(db.revisions, RevisionRow(owner, removed.value), owner, request.taskId);
      ReadersSeeHistory(t, owner, request.taskId);
    }
  }

  // ---------------------------------------------------------------- every record of a run

  /** A record holds what its request asked: a save its definition, a removal the definition of the revision
      it removed. */
  ghost predicate HoldsItsRequest(db: Db, i: nat)
    requires i < |db.retries|
  {
    var (owner, request, record) := (db.retries[i].owner, db.retries[i].request, db.retries[i].result);
    && record.taskId == request.taskId && record.revision == request.expected + 1
    && match request
       case Save(_, _, _, definition) => record.definition == definition && !record.deleted && IsConfigured(record)
       case Remove(_, _, _) =>
         && record.deleted
         && exists j :: 0 <= j < i && db.retries[j].owner == owner && db.retries[j].result.taskId == record.taskId
                        && db.retries[j].result.revision == request.expected
                        && db.retries[j].result.definition == record.definition
                        && db.retries[j].result.createdAt == record.createdAt
  }

  ghost predicate AllHold(db: Db) {
    forall i :: 0 <= i < |db.retries| ==> HoldsItsRequest(db, i)
  }

  lemma {:induction false} OldRecordsHold(db: Db, t: Db, owner: Owner, request: Request, record: Record)
    requires AllHold(db) && TakesOne(db, t, owner, request, record)
    ensures forall i :: 0 <= i < |db.retries| ==> HoldsItsRequest(t, i)
  {
    hide IsConfigured;
    forall i | 0 <= i < |db.retries| ensures HoldsItsRequest(t, i) {
      assert HoldsItsRequest(db, i) && t.retries[i] == db.retries[i];
      if db.retries[i].request.Remove? {
        var (result, asked) := (db.retries[i].result, db.retries[i].request);
        var j :| 0 <= j < i && db.retries[j].owner == db.retries[i].owner && db.retries[j].result.taskId == result.taskId
                 && db.retries[j].result.revision == asked.expected && db.retries[j].result.definition == result.definition
                 && db.retries[j].result.createdAt == result.createdAt;
        assert t.retries[j] == db.retries[j];
      }
    }
  }

  /** The receipt of the newest record of a task. */
  lemma {:induction false} ReceiptOfTheNewest(db: Db, owner: Owner, taskId: TaskId) returns (j: nat)
    requires Inv(db) && History(db.revisions, owner, taskId) != []
    ensures var h := History(db.revisions, owner, taskId);
            && j < |db.retries| && db.retries[j].owner == owner && db.retries[j].result == h[|h| - 1]
            && h[|h| - 1].taskId == taskId && h[|h| - 1].revision == |h|
  {
    var h := History(db.revisions, owner, taskId);
    assert Chain(h);
    HistoryIsRows(db.revisions, owner, taskId, h[|h| - 1]);
    assert h[|h| - 1] in h;
    hide History;
    var i :| 0 <= i < |db.revisions| && db.revisions[i] == RevisionRow(owner, h[|h| - 1]);
    j := i;
  }

  lemma {:induction false} StepHolds(db: Db, owner: Owner, request: Request, env: Env)
    requires Inv(db) && AllHold(db)
    ensures AllHold(Apply(db, owner, request, env).0)
  {
    var (t, answer) := Apply(db, owner, request, env);
    if t != db {
      var h := History(db.revisions, owner, request.taskId);
      UnusedExactly(db.retries, owner, request.key);
      if request.Save? {
        SavingExactly(db, owner, request, env);
        OldRecordsHold(db, t, owner, request, answer.value);
      } else {
        RemovingExactly(db, owner, request, env);
        OldRecordsHold(db, t, owner, request, answer.value);
        var j := ReceiptOfTheNewest(db, owner, request.taskId);
        assert t.retries[j] == db.retries[j];
      }
      hide History;
      hide Inv;
      hide Apply;
      hide IsConfigured;
      assert HoldsItsRequest(t, |db.retries|);
    }
  }

  lemma {:induction false} RunHolds(db: Db, items: seq<Item>)
    requires Inv(db) && AllHold(db)
    ensures AllHold(Run(db, items).0)
    decreases |items|
  {
    if items != [] {
      StepHolds(db, items[0].owner, items[0].request, items[0].env);
      ApplyKeeps(db, items[0].owner, items[0].request, items[0].env);
      hide Inv;
      hide AllHold;
      hide Apply;
      RunHolds(Apply(db, items[0].owner, items[0].request, items[0].env).0, items[1..]);
    }
  }

  /** In every reachable database each record holds what the request of its receipt asked. */
  lemma {:induction false} RecordsHoldTheirRequests(items: seq<Item>, db: Db, i: nat)
    requires db == Run(EMPTY, items).0 && i < |db.retries|
    ensures |db.revisions| == |db.retries| && db.revisions[i] == RevisionRow(db.retries[i].owner, db.retries[i].result)
    ensures HoldsItsRequest(db, i)
  {
    assert Inv(EMPTY) && AllHold(EMPTY);
    RunHolds(EMPTY, items);
    RunKeeps(EMPTY, items);
    hide Run;
    hide HoldsItsRequest;
  }

  // ---------------------------------------------------------------- owners are apart

  function RowsOf(rows: seq<RevisionRow>, owner: Owner): seq<RevisionRow> {
    if rows == [] then []
    else RowsOf(rows[..|rows| - 1], owner) + if rows[|rows| - 1].owner == owner then [rows[|rows| - 1]] else []
  }

  function RetriesOf(rows: seq<RetryRow>, owner: Owner): seq<RetryRow> {
    if rows == [] then []
    else RetriesOf(rows[..|rows| - 1], owner) + if rows[|rows| - 1].owner == owner then [rows[|rows| - 1]] else []
  }

  /** The tables as if this owner were the only one. */
  function Own(db: Db, owner: Owner): Db {
    Db(RowsOf(db.revisions, owner), RetriesOf(db.retries, owner))
  }

  function Mine(items: seq<Item>, owner: Owner): seq<Item> {
    if items == [] then [] else (if items[0].owner == owner then [items[0]] else []) + Mine(items[1..], owner)
  }

  /** The answers to the items of this owner. */
  function MyAnswers(items: seq<Item>, answers: seq<Result<Record, Error>>, owner: Owner): seq<Result<Record, Error>>
    requires |answers| == |items|
  {
    if items == [] then []
    else (if items[0].owner == owner then [answers[0]] else []) + MyAnswers(items[1..], answers[1..], owner)
  }

  lemma {:induction false} HeadIsOwn(rows: seq<RevisionRow>, owner: Owner, taskId: TaskId)
    ensures Head(RowsOf(rows, owner), owner, taskId) == Head(rows, owner, taskId)
  {
    if rows != [] {
      var (init, last) := (rows[..|rows| - 1], rows[|rows| - 1]);
      HeadIsOwn(init, owner, taskId);
      if last.owner == owner {
        assert (RowsOf(init, owner) + [last])[..|RowsOf(init, owner)|] == RowsOf(init, owner);
      } else {
        assert RowsOf(init, owner) + [] == RowsOf(init, owner);
      }
    }
  }

  lemma {:induction false} AtOfTwo(a: seq<RevisionRow>, b: seq<RevisionRow>, owner: Owner, taskId: TaskId, revision: nat)
    ensures At(a + b, owner, taskId, revision)
         == if At(a, owner, taskId, revision).Some? then At(a, owner, taskId, revision) else At(b, owner, taskId, revision)
  {
    if a == [] {
      assert a + b == b;
    } else {
      assert (a + b)[1..] == a[1..] + b;
      AtOfTwo(a[1..], b, owner, taskId, revision);
    }
  }

  lemma {:induction false} AtIsOwn(rows: seq<RevisionRow>, owner: Owner, taskId: TaskId, revision: nat)
    ensures At(RowsOf(rows, owner), owner, taskId, revision) == At(rows, owner, taskId, revision)
  {
    if rows != [] {
      var (init, last) := (rows[..|rows| - 1], rows[|rows| - 1]);
      AtIsOwn(init, owner, taskId, revision);
      AtOfTwo(init, [last], owner, taskId, revision);
      AtOfTwo(RowsOf(init, owner), if last.owner == owner then [last] else [], owner, taskId, revision);
      assert rows == init + [last];
    }
  }

  lemma {:induction false} ReceiptIsOwn(retries: seq<RetryRow>, owner: Owner, key: Key)
    ensures Receipt(RetriesOf(retries, owner), owner, key) == Receipt(retries, owner, key)
  {
    if retries != [] {
      var (init, last) := (retries[..|retries| - 1], retries[|retries| - 1]);
      ReceiptIsOwn(init, owner, key);
      ReceiptAppend(init, last, owner, key);
      ReceiptAppend(RetriesOf(init, owner), last, owner, key);
      assert retries == init + [last];
      assert RetriesOf(init, owner) + [] == RetriesOf(init, owner);
    }
  }

  lemma {:induction false} ExecutesAlone(db: Db, owner: Owner, request: Request, env: Env)
    ensures Execute(Own(db, owner), owner, request, env) == Execute(db, owner, request, env)
  {
    HeadIsOwn(db.revisions, owner, request.taskId);
    AtIsOwn(db.revisions, owner, request.taskId, Head(db.revisions, owner, request.taskId));
    hide Head;
    hide At;
    hide RowsOf;
  }

  /** One row more in both tables. */
  lemma {:induction false} OwnOfMore(db: Db, row: RevisionRow, retry: RetryRow, owner: Owner)
    requires row.owner == retry.owner
    ensures Own(Db(db.revisions + [row], db.retries + [retry]), owner)
         == if row.owner == owner then Db(Own(db, owner).revisions + [row], Own(db, owner).retries + [retry])
            else Own(db, owner)
  {
    assert (db.revisions + [row])[..|db.revisions|] == db.revisions;
    assert (db.retries + [retry])[..|db.retries|] == db.retries;
  }

  lemma {:induction false} OneOfMany(db: Db, asker: Owner, request: Request, env: Env, owner: Owner)
    ensures var (t, answer) := Apply(db, asker, request, env);
            if asker == owner then Apply(Own(db, owner), owner, request, env) == (Own(t, owner), answer)
            else Own(t, owner) == Own(db, owner)
  {
    hide Execute;
    hide Receipt;
    hide At;
    hide RowsOf;
    hide RetriesOf;
    ReceiptIsOwn(db.retries, owner, request.key);
    ExecutesAlone(db, owner, request, env);
    var saved := Execute(db, asker, request, env);
    if saved.Ok? {
      AtIsOwn(db.revisions, owner, saved.value.taskId, saved.value.revision);
      OwnOfMore(db, RevisionRow(asker, saved.value), RetryRow(asker, request, saved.value), owner);
    }
  }

  lemma {:induction false} RunUnfolds(db: Db, items: seq<Item>)
    requires items != []
    ensures var (next, answer) := Apply(db, items[0].owner, items[0].request, items[0].env);
            && Run(db, items).0 == Run(next, items[1..]).0
            && Run(db, items).1 == [answer] + Run(next, items[1..]).1
  {
    hide Apply;
  }

  /** No owner notices another: the answers an owner gets, and its rows, are those of the run in which it is
      alone. */
  lemma {:induction false} OwnersAreApart(db: Db, items: seq<Item>, owner: Owner)
    ensures |Run(db, items).1| == |items|
    ensures Run(Own(db, owner), Mine(items, owner)).0 == Own(Run(db, items).0, owner)
    ensures Run(Own(db, owner), Mine(items, owner)).1 == MyAnswers(items, Run(db, items).1, owner)
    decreases |items|
  {
    if items != [] {
      hide Apply;
      hide Own;
      var item := items[0];
      var (next, answer) := Apply(db, item.owner, item.request, item.env);
      OneOfMany(db, item.owner, item.request, item.env, owner);
      OwnersAreApart(next, items[1..], owner);
      RunUnfolds(db, items);
      var (mine, answers) := (Mine(items[1..], owner), Run(next, items[1..]).1);
      assert Run(db, items).1[1..] == answers;
      if item.owner == owner {
        assert Mine(items, owner) == [item] + mine && ([item] + mine)[1..] == mine;
        RunUnfolds(Own(db, owner), [item] + mine);
      } else {
        assert Mine(items, owner) == mine;
        assert MyAnswers(items, Run(db, items).1, owner) == MyAnswers(items[1..], answers, owner);
      }
    }
  }
}
