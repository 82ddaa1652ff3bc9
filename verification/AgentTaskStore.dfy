/** Task revisions and retry receipts (server/agent-task-store.ts): two append-only tables written in
    one transaction.  A fingerprint is injective, so a receipt keeps the request itself. */
module AgentTaskStore {
  import opened Options

  type Owner = string
  type TaskId = string
  type Key = string
  type Time = nat

  datatype Profile = Profile(profileId: string, revision: nat, contentHash: string)

  datatype Definition = Definition(
    name: string, objective: string, profile: Profile, execution: Option<string>, workspace: Option<string>)

  datatype Configuration = Draft | Blocked

  datatype Record = Record(
    taskId: TaskId, revision: nat, definition: Definition, configuration: Configuration,
    deleted: bool, createdAt: Time, updatedAt: Time)

  datatype Request =
    | Save(taskId: TaskId, expected: nat, key: Key, definition: Definition)
    | Remove(taskId: TaskId, expected: nat, key: Key)

  datatype RevisionRow = RevisionRow(owner: Owner, record: Record)
  datatype RetryRow = RetryRow(owner: Owner, request: Request, result: Record)

  datatype Db = Db(revisions: seq<RevisionRow>, retries: seq<RetryRow>)

  const EMPTY := Db([], [])

  /** The clock, and the content hashes of the profile revisions that exist for each owner. */
  datatype Env = Env(now: Time, profiles: map<(Owner, string, nat), string>)

  datatype Error = KeyConflict | RevisionConflict | TaskNotFound | ProfileNotFound | HashConflict | RowExists

  // ---------------------------------------------------------------- reading the tables

  predicate Of(row: RevisionRow, owner: Owner, taskId: TaskId) {
    row.owner == owner && row.record.taskId == taskId
  }

  /** `MAX(revision)` of a task, 0 when it has none. */
  function Head(rows: seq<RevisionRow>, owner: Owner, taskId: TaskId): nat {
    if rows == [] then 0
    else
      var row := rows[|rows| - 1];
      var rest := Head(rows[..|rows| - 1], owner, taskId);
      if Of(row, owner, taskId) && row.record.revision > rest then row.record.revision else rest
  }

  /** The row of one revision. */
  function At(rows: seq<RevisionRow>, owner: Owner, taskId: TaskId, revision: nat): Option<Record> {
    if rows == [] then None
    else if Of(rows[0], owner, taskId) && rows[0].record.revision == revision then Some(rows[0].record)
    else At(rows[1..], owner, taskId, revision)
  }

  /** `get` without a revision: the newest row, unless it is a deletion. */
  function Get(rows: seq<RevisionRow>, owner: Owner, taskId: TaskId): Option<Record> {
    var newest := At(rows, owner, taskId, Head(rows, owner, taskId));
    if newest.Some? && newest.value.deleted then None else newest
  }

  function Receipt(retries: seq<RetryRow>, owner: Owner, key: Key): Option<RetryRow> {
    if retries == [] then None
    else if retries[0].owner == owner && retries[0].request.key == key then Some(retries[0])
    else Receipt(retries[1..], owner, key)
  }

  // ---------------------------------------------------------------- writing them

  /** White space and line ends, as `trim` knows them. */
  predicate Blank(c: char) {
    || '\t' <= c <= '\r' || c == ' ' || c == '\U{A0}' || c == '\U{1680}' || '\U{2000}' <= c <= '\U{200A}'
    || c == '\U{2028}' || c == '\U{2029}' || c == '\U{202F}' || c == '\U{205F}' || c == '\U{3000}' || c == '\U{FEFF}'
  }

  /** Whether a text is empty once trimmed. */
  predicate IsBlank(text: string) {
    forall i :: 0 <= i < |text| ==> Blank(text[i])
  }

  function Configure(d: Definition): Configuration {
    if IsBlank(d.objective) || d.execution.None? || d.workspace.None? then Draft else Blocked
  }

  /** The body of `save` and `remove` inside the transaction. */
  function Execute(db: Db, owner: Owner, request: Request, env: Env): Result<Record, Error> {
    var current := Get(db.revisions, owner, request.taskId);
    match request
    case Save(taskId, expected, _, definition) =>
      var head := Head(db.revisions, owner, taskId);
      var profile := (owner, definition.profile.profileId, definition.profile.revision);
      if head != expected || (head != 0 && current.None?) then Err(RevisionConflict)
      else if profile !in env.profiles then Err(ProfileNotFound)
      else if env.profiles[profile] != definition.profile.contentHash then Err(HashConflict)
      else Ok(Record(taskId, expected + 1, definition, Configure(definition), false,
                     if current.Some? then current.value.createdAt else env.now, env.now))
    case Remove(taskId, expected, _) =>
      if current.None? then Err(TaskNotFound)
      else if current.value.revision != expected then Err(RevisionConflict)
      else Ok(current.value.(revision := current.value.revision + 1, deleted := true, updatedAt := env.now))
  }

  /** One request: answered from its receipt, or executed and recorded in both tables. */
  function Apply(db: Db, owner: Owner, request: Request, env: Env): (Db, Result<Record, Error>) {
    var prior := Receipt(db.retries, owner, request.key);
    if prior.Some? then
      (db, if prior.value.request == request then Ok(prior.value.result) else Err(KeyConflict))
    else
      var saved := Execute(db, owner, request, env);
      if saved.Err? then (db, saved)
      else if At(db.revisions, owner, saved.value.taskId, saved.value.revision).Some? then (db, Err(RowExists))
      else (Db(db.revisions + [RevisionRow(owner, saved.value)],
               db.retries + [RetryRow(owner, request, saved.value)]), saved)
  }

  datatype Item = Item(owner: Owner, request: Request, env: Env)

  function Run(db: Db, items: seq<Item>): (Db, seq<Result<Record, Error>>)
    decreases |items|
  {
    if items == [] then (db, [])
    else
      var (next, answer) := Apply(db, items[0].owner, items[0].request, items[0].env);
      var (last, answers) := Run(next, items[1..]);
      (last, [answer] + answers)
  }

  // ---------------------------------------------------------------- exactly once

  /** `drop` marks repeats only: a marked item asks what an item accepted before it asked. */
  predicate Thins(db: Db, items: seq<Item>, drop: seq<bool>, accepted: set<(Owner, Request)>)
    decreases |items|
  {
    && |drop| == |items|
    && (items == []
        || (var asked := (items[0].owner, items[0].request);
            var (next, answer) := Apply(db, items[0].owner, items[0].request, items[0].env);
            && (drop[0] ==> asked in accepted)
            && Thins(next, items[1..], drop[1..], if answer.Ok? then accepted + {asked} else accepted)))
  }

  function Keep<T>(items: seq<T>, drop: seq<bool>): seq<T>
    requires |drop| == |items|
  {
    if items == [] then []
    else (if drop[0] then [] else [items[0]]) + Keep(items[1..], drop[1..])
  }

  ghost predicate Receipted(db: Db, accepted: set<(Owner, Request)>) {
    forall asked :: asked in accepted ==>
      var row := Receipt(db.retries, asked.0, asked.1.key);
      row.Some? && row.value.request == asked.1
  }

  lemma {:induction false} ReceiptAppend(retries: seq<RetryRow>, row: RetryRow, owner: Owner, key: Key)
    ensures Receipt(retries + [row], owner, key)
         == if Receipt(retries, owner, key).Some? then Receipt(retries, owner, key)
            else if row.owner == owner && row.request.key == key then Some(row) else None
  {
    if retries != [] {
      assert (retries + [row])[1..] == retries[1..] + [row];
      ReceiptAppend(retries[1..], row, owner, key);
    }
  }

  lemma {:induction false} AcceptedIsReceipted(
    db: Db, owner: Owner, request: Request, env: Env, accepted: set<(Owner, Request)>)
    requires Receipted(db, accepted)
    ensures var (next, answer) := Apply(db, owner, request, env);
            Receipted(next, if answer.Ok? then accepted + {(owner, request)} else accepted)
  {
    var (next, answer) := Apply(db, owner, request, env);
    if next.retries != db.retries {
      var row := next.retries[|db.retries|];
      forall asked | asked in accepted + {(owner, request)}
        ensures var r := Receipt(next.retries, asked.0, asked.1.key); r.Some? && r.value.request == asked.1
      {
        ReceiptAppend(db.retries, row, asked.0, asked.1.key);
      }
    }
  }

  /** Deleting repeats of accepted requests from any trace, whatever the clock and the profiles were
      when they were repeated, leaves both tables and every other answer as they were. */
  lemma {:induction false} ExactlyOnce(db: Db, items: seq<Item>, drop: seq<bool>, accepted: set<(Owner, Request)>)
    requires Receipted(db, accepted) && Thins(db, items, drop, accepted)
    ensures Run(db, Keep(items, drop)).0 == Run(db, items).0
    ensures |Run(db, items).1| == |items|
    ensures Run(db, Keep(items, drop)).1 == Keep(Run(db, items).1, drop)
    decreases |items|
  {
    if items != [] {
      var (next, answer) := Apply(db, items[0].owner, items[0].request, items[0].env);
      var asked := (items[0].owner, items[0].request);
      AcceptedIsReceipted(db, items[0].owner, items[0].request, items[0].env, accepted);
      var accepted' := if answer.Ok? then accepted + {asked} else accepted;
      ExactlyOnce(next, items[1..], drop[1..], accepted');
      var rest := Keep(items[1..], drop[1..]);
      assert Run(db, items).1[1..] == Run(next, items[1..]).1;
      if drop[0] {
        assert next == db;
        assert Keep(items, drop) == rest;
      } else {
        assert Keep(items, drop) == [items[0]] + rest;
        assert ([items[0]] + rest)[1..] == rest;
      }
    }
  }

  lemma {:induction false} KeyStays(db: Db, items: seq<Item>, owner: Owner, key: Key)
    requires Receipt(db.retries, owner, key).Some?
    ensures Receipt(Run(db, items).0.retries, owner, key) == Receipt(db.retries, owner, key)
    decreases |items|
  {
    if items != [] {
      var next := Apply(db, items[0].owner, items[0].request, items[0].env).0;
      if next.retries != db.retries {
        ReceiptAppend(db.retries, next.retries[|db.retries|], owner, key);
      }
      KeyStays(next, items[1..], owner, key);
    }
  }

  /** Once a request was answered, its key belongs to it for ever: whatever requests follow, it gets
      the same record again and every other request with the key is refused, neither changing anything. */
  lemma {:induction false} KeyBelongsToItsRequest(
    db: Db, owner: Owner, first: Request, a: Env, items: seq<Item>, other: Request, b: Env)
    requires Apply(db, owner, first, a).1.Ok? && other.key == first.key
    ensures var (after, answer) := Apply(db, owner, first, a);
            var later := Run(after, items).0;
            Apply(later, owner, other, b) == (later, if other == first then answer else Err(KeyConflict))
  {
    var after := Apply(db, owner, first, a).0;
    if Receipt(db.retries, owner, first.key).None? {
      ReceiptAppend(db.retries, after.retries[|db.retries|], owner, first.key);
    }
    KeyStays(after, items, owner, first.key);
  }

  // ---------------------------------------------------------------- the shape of the log

  /** The revisions of one task, in the order they were written. */
  function History(rows: seq<RevisionRow>, owner: Owner, taskId: TaskId): seq<Record> {
    if rows == [] then []
    else
      var row := rows[|rows| - 1];
      History(rows[..|rows| - 1], owner, taskId) + if Of(row, owner, taskId) then [row.record] else []
  }

  lemma {:induction false} HistoryAppend(rows: seq<RevisionRow>, row: RevisionRow, owner: Owner, taskId: TaskId)
    ensures History(rows + [row], owner, taskId)
         == History(rows, owner, taskId) + if Of(row, owner, taskId) then [row.record] else []
  {
    assert (rows + [row])[..|rows|] == rows;
  }

  /** Exactly 1..n, created once, deleted at most by the last one. */
  ghost predicate Chain(h: seq<Record>) {
    && (forall k :: 0 <= k < |h| ==> h[k].revision == k + 1 && h[k].createdAt == h[0].createdAt)
    && (forall k :: 0 <= k < |h| - 1 ==> !h[k].deleted)
  }

  ghost predicate Chained(rows: seq<RevisionRow>) {
    forall owner, taskId :: Chain(History(rows, owner, taskId))
  }

  /** Receipts and revisions in bijection, keys unique. */
  ghost predicate Matched(db: Db) {
    && |db.retries| == |db.revisions|
    && (forall i :: 0 <= i < |db.retries| ==>
          db.retries[i].owner == db.revisions[i].owner && db.retries[i].result == db.revisions[i].record)
    && (forall i, j :: 0 <= i < j < |db.retries| ==>
          (db.retries[i].owner, db.retries[i].request.key) != (db.retries[j].owner, db.retries[j].request.key))
  }

  ghost predicate Inv(db: Db) {
    Chained(db.revisions) && Matched(db)
  }

  lemma {:induction false} HistoryIsRows(rows: seq<RevisionRow>, owner: Owner, taskId: TaskId, record: Record)
    ensures record in History(rows, owner, taskId) <==> RevisionRow(owner, record) in rows && record.taskId == taskId
  {
    if rows != [] {
      var n := |rows| - 1;
      HistoryIsRows(rows[..n], owner, taskId, record);
      assert rows == rows[..n] + [rows[n]];
    }
  }

  lemma {:induction false} HeadIsLength(rows: seq<RevisionRow>, owner: Owner, taskId: TaskId)
    requires Chain(History(rows, owner, taskId))
    ensures Head(rows, owner, taskId) == |History(rows, owner, taskId)|
  {
    if rows != [] {
      var n := |rows| - 1;
      var shorter := History(rows[..n], owner, taskId);
      var h := History(rows, owner, taskId);
      assert forall k :: 0 <= k < |shorter| ==> h[k] == shorter[k];
      assert |shorter| > 0 ==> h[0] == shorter[0];
      HeadIsLength(rows[..n], owner, taskId);
      if Of(rows[n], owner, taskId) {
        assert h[|h| - 1] == rows[n].record;
      }
    }
  }

  lemma {:induction false} AtIsRow(rows: seq<RevisionRow>, owner: Owner, taskId: TaskId, revision: nat)
    ensures match At(rows, owner, taskId, revision)
            case Some(r) => RevisionRow(owner, r) in rows && r.taskId == taskId && r.revision == revision
            case None => forall r: Record :: r.taskId == taskId && r.revision == revision ==> RevisionRow(owner, r) !in rows
  {
    if rows != [] {
      AtIsRow(rows[1..], owner, taskId, revision);
      assert rows == [rows[0]] + rows[1..];
    }
  }

  /** In a reachable database a revision lookup is an index into that history. */
  lemma {:induction false} AtIsIndex(rows: seq<RevisionRow>, owner: Owner, taskId: TaskId, revision: nat)
    requires Chain(History(rows, owner, taskId))
    ensures var h := History(rows, owner, taskId);
            At(rows, owner, taskId, revision) == if 1 <= revision <= |h| then Some(h[revision - 1]) else None
  {
    var h := History(rows, owner, taskId);
    AtIsRow(rows, owner, taskId, revision);
    var found := At(rows, owner, taskId, revision);
    if 1 <= revision <= |h| {
      HistoryIsRows(rows, owner, taskId, h[revision - 1]);
      assert h[revision - 1] in h;
    }
    if found.Some? {
      HistoryIsRows(rows, owner, taskId, found.value);
      var k :| 0 <= k < |h| && h[k] == found.value;
    }
    hide History;
  }

  /** What the readers see, in terms of the history. */
  lemma {:induction false} ReadersSeeHistory(db: Db, owner: Owner, taskId: TaskId)
    requires Inv(db)
    ensures var h := History(db.revisions, owner, taskId);
            && Head(db.revisions, owner, taskId) == |h|
            && Get(db.revisions, owner, taskId)
               == (if h == [] || h[|h| - 1].deleted then None else Some(h[|h| - 1]))
  {
    HeadIsLength(db.revisions, owner, taskId);
    AtIsIndex(db.revisions, owner, taskId, Head(db.revisions, owner, taskId));
    hide History;
  }

  lemma {:induction false} ReceiptNone(retries: seq<RetryRow>, owner: Owner, key: Key)
    requires Receipt(retries, owner, key).None?
    ensures forall i :: 0 <= i < |retries| ==> (retries[i].owner, retries[i].request.key) != (owner, key)
  {
    if retries != [] {
      ReceiptNone(retries[1..], owner, key);
      forall i | 0 <= i < |retries| ensures (retries[i].owner, retries[i].request.key) != (owner, key) {
        if i > 0 {
          assert retries[i] == retries[1..][i - 1];
        }
      }
    }
  }

  /** A successful execution names the next free revision of its task. */
  lemma {:induction false} ExecutesNext(db: Db, owner: Owner, request: Request, env: Env)
    requires Inv(db) && Execute(db, owner, request, env).Ok?
    ensures var h := History(db.revisions, owner, request.taskId);
            var saved := Execute(db, owner, request, env).value;
            && saved.taskId == request.taskId && Chain(h + [saved])
            && At(db.revisions, owner, saved.taskId, saved.revision).None?
  {
    var h := History(db.revisions, owner, request.taskId);
    ReadersSeeHistory(db, owner, request.taskId);
    var saved := Execute(db, owner, request, env).value;
    AtIsIndex(db.revisions, owner, request.taskId, saved.revision);
    if h != [] {
      var last := h[|h| - 1];
      HistoryIsRows(db.revisions, owner, request.taskId, last);
      assert last in h;
    }
    hide History;
    hide Head;
  }

  lemma {:induction false} ChainedAppend(rows: seq<RevisionRow>, row: RevisionRow)
    requires Chained(rows) && Chain(History(rows, row.owner, row.record.taskId) + [row.record])
    ensures Chained(rows + [row])
  {
    forall owner, taskId ensures Chain(History(rows + [row], owner, taskId)) {
      HistoryAppend(rows, row, owner, taskId);
      assert Chain(History(rows, owner, taskId));
    }
    hide History;
    hide Chain;
  }

  lemma {:induction false} MatchedAppend(db: Db, owner: Owner, request: Request, saved: Record)
    requires Matched(db) && Receipt(db.retries, owner, request.key).None?
    ensures Matched(Db(db.revisions + [RevisionRow(owner, saved)], db.retries + [RetryRow(owner, request, saved)]))
  {
    ReceiptNone(db.retries, owner, request.key);
    hide Receipt;
  }

  lemma {:induction false} ApplyKeeps(db: Db, owner: Owner, request: Request, env: Env)
    requires Inv(db)
    ensures Inv(Apply(db, owner, request, env).0)
    ensures Apply(db, owner, request, env).1 != Err(RowExists)
  {
    ExecuteNeverCollides(db, owner, request, env);
    if Receipt(db.retries, owner, request.key).None? && Execute(db, owner, request, env).Ok? {
      ExecutesNext(db, owner, request, env);
      var saved := Execute(db, owner, request, env).value;
      ChainedAppend(db.revisions, RevisionRow(owner, saved));
      MatchedAppend(db, owner, request, saved);
    }
    hide Chained;
    hide Matched;
    hide Execute;
    hide Receipt;
    hide At;
  }

  lemma {:induction false} ExecuteNeverCollides(db: Db, owner: Owner, request: Request, env: Env)
    ensures Execute(db, owner, request, env) != Err(RowExists)
  {
    hide Get;
    hide Head;
  }

  lemma {:induction false} RunKeeps(db: Db, items: seq<Item>)
    requires Inv(db)
    ensures Inv(Run(db, items).0)
    decreases |items|
  {
    if items != [] {
      ApplyKeeps(db, items[0].owner, items[0].request, items[0].env);
      hide Inv;
      hide Apply;
      RunKeeps(Apply(db, items[0].owner, items[0].request, items[0].env).0, items[1..]);
    }
  }

  /** In every reachable database: each task's revisions are 1..n with one creation time and only the
      last one deleted, and the receipts match the revisions one to one, with equal records. */
  lemma {:induction false} LogShape(items: seq<Item>, db: Db, owner: Owner, taskId: TaskId)
    requires db == Run(EMPTY, items).0
    ensures Chain(History(db.revisions, owner, taskId))
    ensures Matched(db)
  {
    assert Inv(EMPTY);
    RunKeeps(EMPTY, items);
  }

  ghost predicate Deleted(h: seq<Record>) {
    h != [] && h[|h| - 1].deleted
  }

  lemma {:induction false} DeletedRefuses(db: Db, owner: Owner, request: Request, env: Env)
    requires Inv(db) && Deleted(History(db.revisions, owner, request.taskId))
    ensures Execute(db, owner, request, env).Err?
  {
    ReadersSeeHistory(db, owner, request.taskId);
    hide History;
  }

  lemma {:induction false} DeletedStays(db: Db, asker: Owner, request: Request, env: Env, owner: Owner, taskId: TaskId)
    requires Inv(db) && Deleted(History(db.revisions, owner, taskId))
    ensures History(Apply(db, asker, request, env).0.revisions, owner, taskId) == History(db.revisions, owner, taskId)
  {
    var saved := Execute(db, asker, request, env);
    if saved.Ok? {
      ExecutesNext(db, asker, request, env);
      HistoryAppend(db.revisions, RevisionRow(asker, saved.value), owner, taskId);
      if asker == owner && request.taskId == taskId {
        DeletedRefuses(db, asker, request, env);
      }
    }
    hide History;
    hide Inv;
    hide Execute;
  }

  /** Nothing follows a deletion: no sequence of later requests extends that task's history. */
  lemma {:induction false} DeletedForEver(db: Db, items: seq<Item>, owner: Owner, taskId: TaskId)
    requires Inv(db) && Deleted(History(db.revisions, owner, taskId))
    ensures History(Run(db, items).0.revisions, owner, taskId) == History(db.revisions, owner, taskId)
    decreases |items|
  {
    if items != [] {
      var item := items[0];
      var next := Apply(db, item.owner, item.request, item.env).0;
      ApplyKeeps(db, item.owner, item.request, item.env);
      DeletedStays(db, item.owner, item.request, item.env, owner, taskId);
      hide Inv;
      hide Apply;
      hide History;
      DeletedForEver(next, items[1..], owner, taskId);
    }
  }

  // ---------------------------------------------------------------- the order of the list

  /** The order of the task ids, whose characters are ASCII. */
  predicate Before(a: TaskId, b: TaskId) {
    b != [] && (a == [] || a[0] < b[0] || (a[0] == b[0] && Before(a[1..], b[1..])))
  }

  ghost predicate Ordered(records: seq<Record>) {
    forall i, j :: 0 <= i < j < |records| ==> Before(records[i].taskId, records[j].taskId)
  }

  lemma {:induction false} BeforeIsTotal(a: TaskId, b: TaskId)
    ensures !(Before(a, b) && Before(b, a))
    ensures a == b || Before(a, b) || Before(b, a)
    ensures Before(a, b) ==> a != b
  {
    if a != [] && b != [] && a[0] == b[0] {
      BeforeIsTotal(a[1..], b[1..]);
      assert a == [a[0]] + a[1..] && b == [b[0]] + b[1..];
    }
  }

  lemma {:induction false} BeforeIsTransitive(a: TaskId, b: TaskId, c: TaskId)
    requires Before(a, b) && Before(b, c)
    ensures Before(a, c)
  {
    if a != [] && a[0] == b[0] && b[0] == c[0] {
      BeforeIsTransitive(a[1..], b[1..], c[1..]);
    }
  }

  lemma {:induction false} OrderedAreDistinct(records: seq<Record>)
    requires Ordered(records)
    ensures forall i, j :: 0 <= i < j < |records| ==> records[i].taskId != records[j].taskId
  {
    forall i, j | 0 <= i < j < |records| ensures records[i].taskId != records[j].taskId {
      BeforeIsTotal(records[i].taskId, records[j].taskId);
    }
  }

  lemma {:induction false} PlacedIsOrdered(records: seq<Record>, k: nat, r: Record)
    requires k <= |records| && Ordered(records)
    requires forall i :: 0 <= i < k ==> Before(records[i].taskId, r.taskId)
    requires k < |records| ==> Before(r.taskId, records[k].taskId)
    ensures Ordered(records[..k] + [r] + records[k..])
  {
    forall j | k <= j < |records| ensures Before(r.taskId, records[j].taskId) {
      if k < j {
        BeforeIsTransitive(r.taskId, records[k].taskId, records[j].taskId);
      }
    }
    hide Before;
  }

  /** Puts the record of one more task where the order wants it. */
  method Place(records: seq<Record>, r: Record) returns (placed: seq<Record>)
    requires Ordered(records)
    requires forall i :: 0 <= i < |records| ==> records[i].taskId != r.taskId
    ensures Ordered(placed)
    ensures forall other: Record :: other in placed <==> other in records || other == r
  {
    var k := 0;
    while k < |records| && Before(records[k].taskId, r.taskId)
      invariant 0 <= k <= |records|
      invariant forall i :: 0 <= i < k ==> Before(records[i].taskId, r.taskId)
    {
      k := k + 1;
    }
    if k < |records| {
      BeforeIsTotal(records[k].taskId, r.taskId);
    }
    PlacedIsOrdered(records, k, r);
    assert records == records[..k] + records[k..];
    placed := records[..k] + [r] + records[k..];
  }

  // ---------------------------------------------------------------- the store object

  class AgentTaskStore {
    var revisions: seq<RevisionRow>
    var retries: seq<RetryRow>

    ghost function View(): Db
      reads this
    {
      Db(revisions, retries)
    }

    constructor ()
      ensures View() == EMPTY && Inv(View())
    {
      revisions, retries := [], [];
    }

    /** `SELECT MAX(revision)`. */
    method MaxRevision(owner: Owner, taskId: TaskId) returns (head: nat)
      ensures head == Head(revisions, owner, taskId)
    {
      head := 0;
      for i := 0 to |revisions|
        invariant head == Head(revisions[..i], owner, taskId)
      {
        assert revisions[..i + 1][..i] == revisions[..i];
        if Of(revisions[i], owner, taskId) && revisions[i].record.revision > head {
          head := revisions[i].record.revision;
        }
      }
      assert revisions[..|revisions|] == revisions;
    }

    method ReadRevision(owner: Owner, taskId: TaskId, revision: nat) returns (r: Option<Record>)
      ensures r == At(revisions, owner, taskId, revision)
    {
      var i := |revisions|;
      r := None;
      while i > 0
        invariant 0 <= i <= |revisions|
        invariant r == At(revisions[i..], owner, taskId, revision)
      {
        i := i - 1;
        assert revisions[i..][1..] == revisions[i + 1..];
        if Of(revisions[i], owner, taskId) && revisions[i].record.revision == revision {
          r := Some(revisions[i].record);
        }
      }
    }

    method Current(owner: Owner, taskId: TaskId) returns (r: Option<Record>)
      ensures r == Get(revisions, owner, taskId)
    {
      var head := MaxRevision(owner, taskId);
      r := ReadRevision(owner, taskId, head);
      if r.Some? && r.value.deleted {
        r := None;
      }
    }

    /** The newest record of each task of the owner that is not deleted, in the order of their ids:
        the non-null answers of `Current`, each task once. */
    method List(owner: Owner) returns (records: seq<Record>)
      requires Inv(View())
      ensures forall r: Record :: r in records <==> Get(revisions, owner, r.taskId) == Some(r)
      ensures Ordered(records)
      ensures forall i, j :: 0 <= i < j < |records| ==> records[i].taskId != records[j].taskId
    {
      records := [];
      for i := 0 to |revisions|
        invariant forall r: Record :: r in records <==>
                    RevisionRow(owner, r) in revisions[..i] && Get(revisions, owner, r.taskId) == Some(r)
        invariant Ordered(records)
      {
        var row := revisions[i];
        var newest := Current(owner, row.record.taskId);
        assert revisions[..i + 1] == revisions[..i] + [row];
        hide Get;
        hide Ordered;
        if row.owner == owner && newest == Some(row.record) && row.record !in records {
          records := Place(records, row.record);
        }
      }
      assert revisions[..|revisions|] == revisions;
      OrderedAreDistinct(records);
      forall r: Record | Get(revisions, owner, r.taskId) == Some(r) ensures RevisionRow(owner, r) in revisions {
        AtIsRow(revisions, owner, r.taskId, Head(revisions, owner, r.taskId));
      }
    }

    method FindReceipt(owner: Owner, key: Key) returns (r: Option<RetryRow>)
      ensures r == Receipt(retries, owner, key)
    {
      var i := |retries|;
      r := None;
      while i > 0
        invariant 0 <= i <= |retries|
        invariant r == Receipt(retries[i..], owner, key)
      {
        i := i - 1;
        assert retries[i..][1..] == retries[i + 1..];
        if retries[i].owner == owner && retries[i].request.key == key {
          r := Some(retries[i]);
        }
      }
    }

    /** The receipt for this key, if there is one, decides the answer. */
    method Replay(owner: Owner, request: Request) returns (answer: Option<Result<Record, Error>>)
      ensures answer == match Receipt(retries, owner, request.key)
                        case None => None
                        case Some(row) => Some(if row.request == request then Ok(row.result) else Err(KeyConflict))
    {
      var prior := FindReceipt(owner, request.key);
      if prior.None? {
        return None;
      }
      return Some(if prior.value.request == request then Ok(prior.value.result) else Err(KeyConflict));
    }

    /** Both inserts of the transaction. */
    method Insert(owner: Owner, request: Request, saved: Record) returns (answer: Result<Record, Error>)
      requires Inv(View()) && Receipt(retries, owner, request.key).None?
      requires At(revisions, owner, saved.taskId, saved.revision).None?
      modifies this
      ensures answer == Ok(saved)
      ensures revisions == old(revisions) + [RevisionRow(owner, saved)]
      ensures retries == old(retries) + [RetryRow(owner, request, saved)]
    {
      revisions := revisions + [RevisionRow(owner, saved)];
      retries := retries + [RetryRow(owner, request, saved)];
      return Ok(saved);
    }

    method Save(owner: Owner, taskId: TaskId, expected: nat, key: Key, definition: Definition, env: Env)
      returns (answer: Result<Record, Error>)
      requires Inv(View())
      modifies this
      ensures var request := Request.Save(taskId, expected, key, definition);
              (View(), answer) == Apply(old(View()), owner, request, env)
      ensures Inv(View())
    {
      var request := Request.Save(taskId, expected, key, definition);
      ApplyKeeps(View(), owner, request, env);
      hide Inv;
      var replay := Replay(owner, request);
      if replay.Some? {
        return replay.value;
      }
      var head := MaxRevision(owner, taskId);
      var current := Current(owner, taskId);
      hide Get;
      hide Head;
      if head != expected || (head != 0 && current.None?) {
        return Err(RevisionConflict);
      }
      var profile := (owner, definition.profile.profileId, definition.profile.revision);
      if profile !in env.profiles {
        return Err(ProfileNotFound);
      }
      if env.profiles[profile] != definition.profile.contentHash {
        return Err(HashConflict);
      }
      var created := if current.Some? then current.value.createdAt else env.now;
      answer := Insert(owner, request,
                       Record(taskId, expected + 1, definition, Configure(definition), false, created, env.now));
    }

    method Remove(owner: Owner, taskId: TaskId, expected: nat, key: Key, env: Env)
      returns (answer: Result<Record, Error>)
      requires Inv(View())
      modifies this
      ensures var request := Request.Remove(taskId, expected, key);
              (View(), answer) == Apply(old(View()), owner, request, env)
      ensures Inv(View())
    {
      var request := Request.Remove(taskId, expected, key);
      ApplyKeeps(View(), owner, request, env);
      hide Inv;
      var replay := Replay(owner, request);
      if replay.Some? {
        return replay.value;
      }
      var current := Current(owner, taskId);
      hide Get;
      hide Head;
      if current.None? {
        return Err(TaskNotFound);
      }
      if current.value.revision != expected {
        return Err(RevisionConflict);
      }
      answer := Insert(owner, request,
                       current.value.(revision := current.value.revision + 1, deleted := true, updatedAt := env.now));
    }
  }
}
