/** The bounded log of successful account uses (server/account-use-store.ts): one row per account
    route and model, upserted with the newest time, cut back to a fixed number of rows after every
    insertion.  It stands for the log that is never cut back. */
module AccountUse {
  import opened Options

  type Model = string

  datatype Route = Route(accountId: string, provider: string, profileRevision: string)
  datatype Key = Key(route: Route, model: Model)
  datatype Row = Row(time: nat, rowid: nat)

  type Table = map<Key, Row>
  type Times = map<Key, nat>

  const LIMIT: nat := 1000
  const MAX_SAFE_INTEGER := 9007199254740991
  const NO_MODEL: Model := ""

  datatype Error = InvalidUseTimestamp

  /** A binding may name no model. */
  datatype Binding = Binding(route: Route, model: Option<Model>)

  function KeyOf(binding: Binding): Key {
    Key(binding.route, if binding.model.Some? then binding.model.value else NO_MODEL)
  }

  predicate ValidTime(time: int) {
    0 <= time <= MAX_SAFE_INTEGER
  }

  function Max(a: nat, b: nat): nat {
    if a < b then b else a
  }

  // ---------------------------------------------------------------- one insertion

  lemma {:induction false} GreatestExists(s: set<nat>) returns (m: nat)
    requires s != {}
    ensures m in s && forall x :: x in s ==> x <= m
  {
    var x :| x in s;
    if s == {x} {
      m := x;
    } else {
      m := GreatestExists(s - {x});
      m := Max(m, x);
      assert forall y :: y in s ==> y == x || y in s - {x};
    }
  }

  function Greatest(s: set<nat>): (m: nat)
    requires s != {}
    ensures m in s && forall x :: x in s ==> x <= m
  {
    assert exists m :: m in s && forall x :: x in s ==> x <= m by { var m := GreatestExists(s); }
    var m :| m in s && forall x :: x in s ==> x <= m;
    m
  }

  /** The database numbers a new row one past the greatest number in use. */
  function NextRowid(rows: Table): (id: nat)
    ensures forall k :: k in rows ==> rows[k].rowid < id
  {
    var used := set k | k in rows :: rows[k].rowid;
    assert forall k :: k in rows ==> rows[k].rowid in used;
    if used == {} then 1 else Greatest(used) + 1
  }

  /** The insertion, or on a repeated key the later of the two times. */
  function Upsert(rows: Table, key: Key, time: nat): Table {
    rows[key := if key in rows then rows[key].(time := Max(rows[key].time, time)) else Row(time, NextRowid(rows))]
  }

  /** Newest first, the later inserted row first among equal times. */
  predicate Before(rows: Table, a: Key, b: Key)
    requires a in rows && b in rows
  {
    rows[a].time > rows[b].time || (rows[a].time == rows[b].time && rows[a].rowid > rows[b].rowid)
  }

  function Ahead(rows: Table, key: Key): set<Key>
    requires key in rows
  {
    set other | other in rows && Before(rows, other, key)
  }

  /** The rows whose place in the order is below the limit. */
  function Prune(rows: Table): Table {
    map key | key in rows && |Ahead(rows, key)| < LIMIT :: rows[key]
  }

  function Recorded(rows: Table, binding: Binding, time: int): Table {
    if !ValidTime(time) then rows else Prune(Upsert(rows, KeyOf(binding), time))
  }

  /** The log that is never cut back. */
  function RecordedAll(full: Times, binding: Binding, time: int): Times {
    if !ValidTime(time) then full
    else
      var key := KeyOf(binding);
      full[key := if key in full then Max(full[key], time) else time]
  }

  datatype Use = Use(binding: Binding, time: int)

  function Run(rows: Table, uses: seq<Use>): Table
    decreases |uses|
  {
    if uses == [] then rows else Run(Recorded(rows, uses[0].binding, uses[0].time), uses[1..])
  }

  function RunAll(full: Times, uses: seq<Use>): Times
    decreases |uses|
  {
    if uses == [] then full else RunAll(RecordedAll(full, uses[0].binding, uses[0].time), uses[1..])
  }

  // ---------------------------------------------------------------- cutting back

  ghost predicate UniqueRowids(rows: Table) {
    forall a, b :: a in rows && b in rows && rows[a].rowid == rows[b].rowid ==> a == b
  }

  lemma {:induction false} SubsetIsNoLarger<T>(a: set<T>, b: set<T>)
    requires a <= b
    ensures |a| <= |b|
    ensures |a| == |b| ==> a == b
  {
    assert b == a + (b - a) && |b| == |a| + |b - a|;
    if |a| == |b| {
      assert b - a == {};
      assert forall x :: x in b && x !in a ==> x in b - a;
    }
  }

  lemma {:induction false} LastExists(rows: Table) returns (last: Key)
    requires rows != map[] && UniqueRowids(rows)
    ensures last in rows && forall k :: k in rows && k != last ==> Before(rows, k, last)
    decreases |rows|
  {
    var key :| key in rows;
    var rest := rows - {key};
    assert rest.Keys == rows.Keys - {key};
    if rest == map[] {
      last := key;
    } else {
      UniqueWithout(rows, key);
      var other := LastExists(rest);
      last := if Before(rows, other, key) then key else other;
      forall k | k in rows && k != last ensures Before(rows, k, last) {
        assert k == key || k == other || Before(rest, k, other);
      }
    }
  }

  /** `kept` holds the first LIMIT rows of `rows`, all of them when there are no more. */
  ghost predicate IsCut(rows: Table, kept: Table) {
    && |kept| == (if |rows| <= LIMIT then |rows| else LIMIT)
    && (|rows| <= LIMIT ==> kept == rows)
    && kept.Keys <= rows.Keys
    && (forall k :: k in kept ==> kept[k] == rows[k])
    && (forall j :: j in rows && j !in kept ==> Last(rows, kept, j))
  }

  ghost predicate Last(rows: Table, kept: Table, j: Key)
    requires j in rows && kept.Keys <= rows.Keys
  {
    forall k :: k in kept ==> Before(rows, k, j)
  }

  /** Cutting back n rows leaves min(n, LIMIT) of them, and every row it keeps comes before every row
      it drops. */
  lemma {:induction false} PruneKeepsTheNewest(rows: Table)
    requires UniqueRowids(rows)
    ensures IsCut(rows, Prune(rows))
  {
    PruneSize(rows);
    forall k, j | k in Prune(rows) && j in rows && j !in Prune(rows) ensures Before(rows, k, j) {
      if !Before(rows, k, j) { SubsetIsNoLarger(Ahead(rows, j), Ahead(rows, k)); }
    }
  }

  lemma {:induction false} PruneSize(rows: Table)
    requires UniqueRowids(rows)
    ensures |Prune(rows)| == if |rows| <= LIMIT then |rows| else LIMIT
    ensures |rows| <= LIMIT ==> Prune(rows) == rows
    decreases |rows|
  {
    if |rows| <= LIMIT {
      PruneNothing(rows);
    } else {
      hide Prune;
      hide Before;
      var last := LastExists(rows);
      PruneWithoutLast(rows, last);
      UniqueWithout(rows, last);
      hide UniqueRowids;
      PruneSize(rows - {last});
    }
  }

  lemma {:induction false} PruneNothing(rows: Table)
    requires |rows| <= LIMIT
    ensures Prune(rows) == rows
  {
    forall k | k in rows ensures |Ahead(rows, k)| < LIMIT {
      SubsetIsNoLarger(Ahead(rows, k) + {k}, rows.Keys);
    }
  }

  lemma {:induction false} UniqueWithout(rows: Table, key: Key)
    requires UniqueRowids(rows) && key in rows
    ensures UniqueRowids(rows - {key}) && |rows - {key}| == |rows| - 1
  {
    assert (rows - {key}).Keys == rows.Keys - {key};
  }

  /** The last of too many rows goes, and the others are cut as if it had never been there. */
  lemma {:induction false} PruneWithoutLast(rows: Table, last: Key)
    requires |rows| > LIMIT && last in rows && forall k :: k in rows && k != last ==> Before(rows, k, last)
    ensures Prune(rows) == Prune(rows - {last})
  {
    var rest := rows - {last};
    assert rest.Keys == rows.Keys - {last} && |rest| == |rows| - 1;
    assert Ahead(rows, last) == rest.Keys;
    forall k | k in rest ensures Ahead(rows, k) == Ahead(rest, k) {
      assert forall j :: j in rest ==> (Before(rows, j, k) <==> Before(rest, j, k));
    }
    hide Before;
    hide Ahead;
    assert last !in Prune(rows);
  }

  // ---------------------------------------------------------------- the invariant

  /** Every row that is not held is at most as new as `time`. */
  ghost predicate Covers(time: nat, full: Times, held: set<Key>) {
    forall p :: p in full && p !in held ==> full[p] <= time
  }

  /** The cut-back log holds min(n, LIMIT) of the n rows of the full log, unchanged, and no row it is
      missing is newer than a row it holds. */
  ghost predicate Stands(rows: Table, full: Times) {
    UniqueRowids(rows) && Sized(rows, full) && Agrees(rows, full) && Covered(rows, full)
  }

  ghost predicate Sized(rows: Table, full: Times) {
    |rows| == if |full| <= LIMIT then |full| else LIMIT
  }

  ghost predicate Agrees(rows: Table, full: Times) {
    rows.Keys <= full.Keys && forall k :: k in rows ==> rows[k].time == full[k]
  }

  ghost predicate Covered(rows: Table, full: Times) {
    forall k :: k in rows ==> Covers(rows[k].time, full, rows.Keys)
  }

  /** `next` is `rows` with a row of `key`. */
  ghost predicate IsEntry(rows: Table, next: Table, key: Key) {
    && next.Keys == rows.Keys + {key}
    && forall k :: k in rows && k != key ==> next[k] == rows[k]
  }

  lemma {:induction false} UpsertOutcome(rows: Table, key: Key, time: nat)
    requires UniqueRowids(rows)
    ensures var next := Upsert(rows, key, time);
            && UniqueRowids(next) && IsEntry(rows, next, key)
            && next[key].time == if key in rows then Max(rows[key].time, time) else time
  {
  }

  /** A use of a row that is present changes its time only. */
  lemma {:induction false} RepeatKeeps(rows: Table, full: Times, key: Key, time: nat)
    requires Stands(rows, full) && key in rows
    ensures Stands(Prune(Upsert(rows, key, time)), full[key := Max(full[key], time)])
  {
    var next := Upsert(rows, key, time);
    UpsertOutcome(rows, key, time);
    hide Upsert;
    assert next.Keys == rows.Keys;
    assert full[key := Max(full[key], time)].Keys == full.Keys;
    PruneSize(next);
    hide Prune;
    hide UniqueRowids;
    RepeatCovered(rows, full, next, key, time);
    hide Covered;
  }

  lemma {:induction false} RepeatCovered(rows: Table, full: Times, next: Table, key: Key, time: nat)
    requires Agrees(rows, full) && Covered(rows, full) && key in rows && IsEntry(rows, next, key)
    requires next[key].time == Max(full[key], time)
    ensures Covered(next, full[key := Max(full[key], time)])
  {
    forall k | k in next ensures Covers(next[k].time, full[key := Max(full[key], time)], next.Keys) {
      assert Covers(rows[k].time, full, rows.Keys);
    }
  }

  lemma {:induction false} OldReturnGoesLast(rows: Table, full: Times, key: Key, time: nat)
    requires Stands(rows, full) && key !in rows && key in full && time < full[key]
    ensures forall j :: j in rows ==> !Before(Upsert(rows, key, time), key, j)
  {
    UpsertOutcome(rows, key, time);
    hide Upsert;
    hide UniqueRowids;
  }

  /** A use of a row that was cut away, older than the time that was lost with it, is cut away again. */
  lemma {:induction false} OldReturnKeeps(rows: Table, full: Times, key: Key, time: nat)
    requires Stands(rows, full) && key !in rows && key in full && time < full[key]
    ensures Prune(Upsert(rows, key, time)) == rows
  {
    hide Upsert;
    hide Prune;
    hide UniqueRowids;
    hide Before;
    var next := Upsert(rows, key, time);
    var kept := Prune(next);
    OldReturnGoesLast(rows, full, key, time);
    UpsertOutcome(rows, key, time);
    FullWhenCut(rows, full, key);
    PruneKeepsTheNewest(next);
    var gone := DroppedRow(next, kept);
    assert Last(next, kept, gone);
    assert key !in kept;
    OnlyOneWent(rows, next, kept, key);
  }

  lemma {:induction false} OnlyOneWent(rows: Table, next: Table, kept: Table, key: Key)
    requires key !in rows && key !in kept && IsEntry(rows, next, key) && IsCut(next, kept)
    requires |kept| == |rows|
    ensures kept == rows
  {
    assert forall k :: k in kept ==> k in rows.Keys + {key};
    SubsetIsNoLarger(kept.Keys, rows.Keys);
  }

  lemma {:induction false} FullWhenCut(rows: Table, full: Times, key: Key)
    requires Stands(rows, full) && key in full && key !in rows
    ensures |rows| == LIMIT < |full|
  {
    SubsetIsNoLarger(rows.Keys, full.Keys);
  }

  /** Any other use enters as a new row. */
  lemma {:induction false} EntryKeeps(rows: Table, full: Times, key: Key, time: nat)
    requires Stands(rows, full) && key !in rows && (key in full ==> full[key] <= time)
    ensures Stands(Prune(Upsert(rows, key, time)), full[key := time])
  {
    var next := Upsert(rows, key, time);
    var kept := Prune(next);
    UpsertOutcome(rows, key, time);
    PruneKeepsTheNewest(next);
    hide Upsert;
    hide Prune;
    CutUnique(next, kept);
    EntrySized(rows, full, next, kept, key);
    EntryAgrees(rows, full, next, kept, key);
    EntryCovered(rows, full, next, kept, key);
    hide UniqueRowids;
    hide Sized;
    hide Agrees;
    hide Covered;
    hide IsCut;
    hide IsEntry;
  }

  lemma {:induction false} CutUnique(next: Table, kept: Table)
    requires UniqueRowids(next) && IsCut(next, kept)
    ensures UniqueRowids(kept)
  {
    hide Before;
  }

  lemma {:induction false} EntrySized(rows: Table, full: Times, next: Table, kept: Table, key: Key)
    requires Stands(rows, full) && key !in rows && IsEntry(rows, next, key) && IsCut(next, kept)
    ensures Sized(kept, full[key := next[key].time])
    ensures |rows| == LIMIT ==> |kept| == LIMIT
  {
    hide UniqueRowids;
    hide Covered;
    hide Agrees;
    hide Before;
    assert full[key := next[key].time].Keys == full.Keys + {key};
    if key in full {
      FullWhenCut(rows, full, key);
      assert full.Keys + {key} == full.Keys;
    }
  }

  lemma {:induction false} EntryAgrees(rows: Table, full: Times, next: Table, kept: Table, key: Key)
    requires Agrees(rows, full) && key !in rows && IsEntry(rows, next, key) && IsCut(next, kept)
    ensures Agrees(kept, full[key := next[key].time])
  {
    hide Last;
  }

  lemma {:induction false} EntryCovered(rows: Table, full: Times, next: Table, kept: Table, key: Key)
    requires Stands(rows, full) && key !in rows && IsEntry(rows, next, key) && IsCut(next, kept)
    requires key in full ==> full[key] <= next[key].time
    ensures Covered(kept, full[key := next[key].time])
  {
    hide UniqueRowids;
    var longer := full[key := next[key].time];
    forall k | k in kept ensures Covers(kept[k].time, longer, kept.Keys) {
      forall p | p in longer && p !in kept.Keys ensures longer[p] <= kept[k].time {
        EntryCovers(rows, full, next, kept, key, k, p);
      }
    }
  }

  lemma {:induction false} EntryCovers(rows: Table, full: Times, next: Table, kept: Table, key: Key, k: Key, p: Key)
    requires Stands(rows, full) && key !in rows && IsEntry(rows, next, key) && IsCut(next, kept)
    requires k in kept && p !in kept && (p == key || p in full)
    ensures (if p == key then next[key].time else full[p]) <= kept[k].time
  {
    hide UniqueRowids;
    if p in next {
      assert Last(next, kept, p) && Before(next, k, p);
    } else if k == key {
      EntrySized(rows, full, next, kept, key);
      FullWhenCut(rows, full, p);
      var gone := DroppedRow(next, kept);
      assert Last(next, kept, gone) && Before(next, key, gone) && Covers(rows[gone].time, full, rows.Keys);
    } else {
      assert Covers(rows[k].time, full, rows.Keys);
    }
  }

  lemma {:induction false} DroppedRow(next: Table, kept: Table) returns (gone: Key)
    requires |kept| < |next|
    ensures gone in next && gone !in kept
  {
    if next.Keys <= kept.Keys { SubsetIsNoLarger(next.Keys, kept.Keys); }
    gone :| gone in next && gone !in kept;
  }

  lemma {:induction false} RecordKeeps(rows: Table, full: Times, binding: Binding, time: int)
    requires Stands(rows, full)
    ensures Stands(Recorded(rows, binding, time), RecordedAll(full, binding, time))
  {
    if ValidTime(time) {
      var key := KeyOf(binding);
      if key in rows {
        RepeatKeeps(rows, full, key, time);
      } else if key in full && time < full[key] {
        OldReturnKeeps(rows, full, key, time);
        assert full[key := full[key]] == full;
      } else {
        EntryKeeps(rows, full, key, time);
      }
      hide Stands;
    }
  }

  /** In every run the cut-back log stands for the full one. */
  lemma {:induction false} BoundedLogStandsForTheFullOne(rows: Table, full: Times, uses: seq<Use>)
    requires Stands(rows, full)
    ensures Stands(Run(rows, uses), RunAll(full, uses))
    decreases |uses|
  {
    hide Stands;
    hide Recorded;
    hide RecordedAll;
    if uses == [] {
    } else {
      RecordKeeps(rows, full, uses[0].binding, uses[0].time);
      BoundedLogStandsForTheFullOne(
        Recorded(rows, uses[0].binding, uses[0].time), RecordedAll(full, uses[0].binding, uses[0].time), uses[1..]);
    }
  }

  // ---------------------------------------------------------------- the latest use

  function TimesOf(rows: Table): Times {
    map k | k in rows :: rows[k].time
  }

  /** A row without a model always answers. */
  predicate Answers(key: Key, route: Route, allowed: seq<Model>) {
    allowed != [] && key.route == route && (key.model == NO_MODEL || key.model in allowed)
  }

  datatype Latest = Latest(model: Model, time: nat)

  /** The newest answering row; rows of equal time are equally good. */
  ghost predicate IsLatest(times: Times, route: Route, allowed: seq<Model>, answer: Option<Latest>) {
    match answer
    case None => forall k :: k in times ==> !Answers(k, route, allowed)
    case Some(use) =>
      var key := Key(route, use.model);
      && key in times && times[key] == use.time && Answers(key, route, allowed)
      && forall k :: k in times && Answers(k, route, allowed) ==> times[k] <= use.time
  }

  /** The answer of the cut-back log is never stale: an answer is one of the cut-back log if and only if
      it is one of the full log whose row is still held, which it is unless no older row is. */
  lemma {:induction false} LatestIsNeverStale(uses: seq<Use>, route: Route, allowed: seq<Model>, answer: Latest)
    ensures var rows := Run(map[], uses);
            var full := RunAll(map[], uses);
            && (IsLatest(TimesOf(rows), route, allowed, Some(answer))
                <==> IsLatest(full, route, allowed, Some(answer)) && Key(route, answer.model) in rows)
            && (IsLatest(full, route, allowed, None) ==> IsLatest(TimesOf(rows), route, allowed, None))
            && (IsLatest(full, route, allowed, Some(answer))
                && (|full| <= LIMIT || exists k :: k in rows && rows[k].time < answer.time)
                ==> IsLatest(TimesOf(rows), route, allowed, Some(answer)))
  {
    BoundedLogStandsForTheFullOne(map[], map[], uses);
    var rows := Run(map[], uses);
    var full := RunAll(map[], uses);
    hide Run;
    hide RunAll;
    hide Answers;
    if |full| <= LIMIT { SubsetIsNoLarger(rows.Keys, full.Keys); }
  }

  /** What the database may return for one route: each of its rows once, newest first. */
  ghost predicate Listing(rows: Table, route: Route, listing: seq<Latest>) {
    && (forall i :: 0 <= i < |listing| ==>
          Key(route, listing[i].model) in rows && rows[Key(route, listing[i].model)].time == listing[i].time)
    && (forall k :: k in rows && k.route == route ==> Latest(k.model, rows[k].time) in listing)
    && (forall i, j :: 0 <= i < j < |listing| ==> listing[i].time >= listing[j].time)
  }

  // ---------------------------------------------------------------- said of the uses themselves

  /** A valid use of this route and model, `""` when it names none. */
  ghost predicate IsUseOf(use: Use, route: Route, model: Model) {
    && 0 <= use.time <= MAX_SAFE_INTEGER && use.binding.route == route
    && model == match use.binding.model case Some(m) => m case None => ""
  }

  /** One use raises the time of its own route and model to at least its own, and no other. */
  lemma {:induction false} OneUse(full: Times, use: Use, route: Route, model: Model)
    ensures var key := Key(route, model);
            var after := RecordedAll(full, use.binding, use.time);
            && (key in after <==> key in full || IsUseOf(use, route, model))
            && (!IsUseOf(use, route, model) && key in full ==> after[key] == full[key])
            && (IsUseOf(use, route, model) ==>
                  after[key] == if key in full && use.time < full[key] then full[key] else use.time)
  {}

  /** The full log holds exactly the routes and models that were used, each with the time of its latest use. */
  lemma {:induction false} FullLogIsTheLatestUses(full: Times, uses: seq<Use>, route: Route, model: Model)
    ensures var key := Key(route, model);
            var after := RunAll(full, uses);
            && (key in after <==> key in full || exists i :: 0 <= i < |uses| && IsUseOf(uses[i], route, model))
            && (key in after ==>
                  || (key in full && after[key] == full[key])
                  || exists i :: 0 <= i < |uses| && IsUseOf(uses[i], route, model) && uses[i].time == after[key])
            && (key in full ==> full[key] <= after[key])
            && (forall i :: 0 <= i < |uses| && IsUseOf(uses[i], route, model) ==> uses[i].time <= after[key])
    decreases |uses|
  {
    if uses != [] {
      OneUse(full, uses[0], route, model);
      var (next, rest) := (RecordedAll(full, uses[0].binding, uses[0].time), uses[1..]);
      hide RecordedAll;
      FullLogIsTheLatestUses(next, rest, route, model);
      hide IsUseOf;
      forall i | 0 <= i < |uses| && IsUseOf(uses[i], route, model)
        ensures Key(route, model) in RunAll(full, uses) && uses[i].time <= RunAll(full, uses)[Key(route, model)]
      {
        if i > 0 { assert rest[i - 1] == uses[i]; }
      }
    }
  }

  /** An answer of the full log is the latest use of the route among those without a model and those of an
      allowed one. */
  lemma {:induction false} LatestUseIsExact(uses: seq<Use>, route: Route, allowed: seq<Model>, answer: Latest)
    ensures IsLatest(RunAll(map[], uses), route, allowed, Some(answer)) <==>
              && allowed != [] && (answer.model == "" || answer.model in allowed)
              && (exists i :: 0 <= i < |uses| && IsUseOf(uses[i], route, answer.model) && uses[i].time == answer.time)
              && (forall j, m :: 0 <= j < |uses| && IsUseOf(uses[j], route, m) && (m == "" || m in allowed) ==>
                    uses[j].time <= answer.time)
  {
    var full := RunAll(map[], uses);
    forall m ensures
        && (Key(route, m) in full <==> exists i :: 0 <= i < |uses| && IsUseOf(uses[i], route, m))
        && (Key(route, m) in full ==>
              exists i :: 0 <= i < |uses| && IsUseOf(uses[i], route, m) && uses[i].time == full[Key(route, m)])
        && (forall i :: 0 <= i < |uses| && IsUseOf(uses[i], route, m) ==> uses[i].time <= full[Key(route, m)])
    {
      FullLogIsTheLatestUses(map[], uses, route, m);
    }
    hide RunAll;
    hide IsUseOf;
    var key := Key(route, answer.model);
    if IsLatest(full, route, allowed, Some(answer)) {
      forall j, m | 0 <= j < |uses| && IsUseOf(uses[j], route, m) && (m == "" || m in allowed)
        ensures uses[j].time <= answer.time
      {
        assert Answers(Key(route, m), route, allowed);
      }
    } else if key in full && full[key] == answer.time && Answers(key, route, allowed) {
      var k :| k in full && Answers(k, route, allowed) && full[k] > answer.time;
      assert k == Key(route, k.model);
      var i :| 0 <= i < |uses| && IsUseOf(uses[i], route, k.model) && uses[i].time == full[Key(route, k.model)];
    } else if i :| 0 <= i < |uses| && IsUseOf(uses[i], route, answer.model) && uses[i].time == answer.time {
      assert key in full && answer.time <= full[key];
      var n :| 0 <= n < |uses| && IsUseOf(uses[n], route, answer.model) && uses[n].time == full[key];
      assert Answers(key, route, allowed) <==> allowed != [] && (answer.model == "" || answer.model in allowed);
    }
  }

  /** In the table a use writes its own row only: a new one numbered after all others, or the old one with
      the later time and its number. */
  lemma {:induction false} OneRow(rows: Table, binding: Binding, time: nat)
    ensures var key := Key(binding.route, match binding.model case Some(m) => m case None => "");
            var next := Upsert(rows, KeyOf(binding), time);
            && next.Keys == rows.Keys + {key}
            && (forall k :: k in rows && k != key ==> next[k] == rows[k])
            && (key in rows ==> next[key] == Row(if rows[key].time < time then time else rows[key].time, rows[key].rowid))
            && (key !in rows ==> next[key].time == time && forall k :: k in rows ==> rows[k].rowid < next[key].rowid)
  {}

  /** Beyond a thousand rows the oldest go, of equally old ones those inserted first. */
  lemma {:induction false} TheOldestGo(rows: Table, k: Key, j: Key)
    requires UniqueRowids(rows) && k in Prune(rows) && j in rows && j !in Prune(rows)
    ensures |rows| > 1000 && |Prune(rows)| == 1000 && k in rows && Prune(rows)[k] == rows[k]
    ensures rows[j].time < rows[k].time || (rows[j].time == rows[k].time && rows[j].rowid < rows[k].rowid)
  {
    PruneKeepsTheNewest(rows);
    hide Prune;
    assert Last(rows, Prune(rows), j);
  }

  // ---------------------------------------------------------------- the store object

  class AccountUseStore {
    var rows: Table

    constructor ()
      ensures rows == map[]
    {
      rows := map[];
    }

    method Record(binding: Binding, succeededAt: int) returns (error: Option<Error>)
      modifies this
      ensures error.Some? <==> !ValidTime(succeededAt)
      ensures rows == Recorded(old(rows), binding, succeededAt)
    {
      if succeededAt > MAX_SAFE_INTEGER || succeededAt < 0 { return Some(InvalidUseTimestamp); }
      var key := Key(binding.route, match binding.model case Some(m) => m case None => NO_MODEL);
      if key in rows {
        if succeededAt > rows[key].time { rows := rows[key := rows[key].(time := succeededAt)]; }
        assert rows == Upsert(old(rows), key, succeededAt);
      } else {
        rows := rows[key := Row(succeededAt, NextRowid(rows))];
      }
      var beyond := set k | k in rows && |Ahead(rows, k)| >= LIMIT;
      assert Prune(rows) == rows - beyond;
      rows := rows - beyond;
      error := None;
    }

    /** `listing` is the database's answer for the route. */
    method LatestUse(route: Route, allowed: seq<Model>, listing: seq<Latest>)
      returns (found: bool, model: Option<Model>, succeededAt: nat)
      requires Listing(rows, route, listing)
      ensures !found ==> IsLatest(TimesOf(rows), route, allowed, None)
      ensures found ==> model != Some(NO_MODEL)
      ensures found ==> IsLatest(TimesOf(rows), route, allowed,
                                 Some(Latest(if model.Some? then model.value else NO_MODEL, succeededAt)))
    {
      found, model, succeededAt := false, None, 0;
      if allowed == [] { return; }
      var i := 0;
      while i < |listing| && !(listing[i].model == NO_MODEL || listing[i].model in allowed)
        invariant 0 <= i <= |listing|
        invariant forall j :: 0 <= j < i ==> !Answers(Key(route, listing[j].model), route, allowed)
      {
        i := i + 1;
      }
      assert forall k :: k in rows && Answers(k, route, allowed) ==>
          exists j :: i <= j < |listing| && listing[j] == Latest(k.model, rows[k].time);
      if i < |listing| {
        found, succeededAt := true, listing[i].time;
        model := if listing[i].model == NO_MODEL then None else Some(listing[i].model);
        assert Answers(Key(route, listing[i].model), route, allowed);
      }
    }
  }
}
