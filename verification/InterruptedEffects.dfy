/** Settling the effects of an interrupted native turn (server/codex-interrupted-effects.ts): its items
    are read one per page, and a proof of settlement is minted only when every item is settled and the
    turn has not moved meanwhile.  The server may answer anything. */
module InterruptedEffects {
  import opened Options

  const MAX_INTERRUPTED_ITEMS: nat := 128
  const MAX_CURSOR: nat := 4096

  datatype Target = Target(threadId: string, turnId: string)

  datatype Turn = Turn(id: string, status: string, errorIsNull: bool)

  /** Replies that do not fit their schema, and calls that fail, are `Unusable`. */
  datatype TurnReply = TurnUnusable | Turns(data: seq<Turn>)

  datatype Kind =
    | Narrative
    | Command(status: string, exitCode: Option<int>)
    | FileChange(status: string, changes: nat, changesAreKnown: bool)
    | NativeRead(reported: Option<string>, subjectIsGiven: bool)
    | HostTool(namespaceIsNull: bool, status: string, success: Option<bool>, tool: string,
               argumentsHash: Option<string>, readOnly: bool)
    | Unsupported

  datatype Item = Item(id: string, kind: Kind)
  datatype Entry = Entry(turnId: string, item: Item)
  datatype Reply = Unusable | Page(data: seq<Entry>, next: Option<string>)

  /** Everything a run can meet: whether the caller still allows read number k, and what the server
      answers to it. */
  datatype Server = Server(
    first: TurnReply, page: (nat, Option<string>) -> Reply, last: TurnReply, allowed: nat -> bool)

  datatype HostCall = HostCall(
    callId: string, toolName: string, requestHash: string, isError: bool, readOnly: bool)

  datatype Error =
    | BadReply
    | ProviderActive
    | ProviderIdentity
    | TurnHasError
    | NotAllowed
    | IncompletePage
    | OtherTurn
    | DuplicateItem
    | Unsettled
    | DuplicateCursor
    | BudgetExceeded
    | TurnMoved

  // ---------------------------------------------------------------- one item

  predicate Settled(kind: Kind) {
    match kind
    case Narrative => true
    case Command(status, exit) =>
      || (status == "completed" && exit == Some(0))
      || (status == "failed" && exit.Some? && 1 <= exit.value <= 255)
    case FileChange(status, changes, known) => status == "completed" && changes >= 1 && known
    case NativeRead(reported, given) =>
      given && (reported.None? || reported.value == "completed" || reported.value == "failed")
    case HostTool(noNamespace, status, success, tool, arguments, _) =>
      && noNamespace && tool != "" && arguments.Some?
      && ((status == "completed" && success == Some(true)) || (status == "failed" && success == Some(false)))
    case Unsupported => false
  }

  function CallOf(item: Item): seq<HostCall>
    requires Settled(item.kind)
  {
    match item.kind
    case HostTool(_, _, success, tool, arguments, readOnly) =>
      [HostCall(item.id, tool, arguments.value, !success.value, readOnly)]
    case _ => []
  }

  predicate Usable(reply: Reply) {
    && reply.Page? && |reply.data| <= 1
    && (reply.data != [] ==> reply.data[0].item.id != "")
    && (reply.next.Some? ==> 1 <= |reply.next.value| <= MAX_CURSOR)
  }

  // ---------------------------------------------------------------- the scan

  datatype Scan = Scan(calls: seq<HostCall>, ids: set<string>, cursors: set<string>, cursor: Option<string>)

  const START := Scan([], {}, {}, None)

  /** What one usable page adds. */
  function Turned(s: Scan, target: Target, reply: Reply): Result<Scan, Error>
    requires Usable(reply)
  {
    if reply.data == [] && reply.next.Some? then Err(IncompletePage)
    else if reply.data != [] && reply.data[0].turnId != target.turnId then Err(OtherTurn)
    else if reply.data != [] && reply.data[0].item.id in s.ids then Err(DuplicateItem)
    else if reply.data != [] && !Settled(reply.data[0].item.kind) then Err(Unsettled)
    else if reply.next.Some? && reply.next.value in s.cursors then Err(DuplicateCursor)
    else
      var calls := if reply.data == [] then s.calls else s.calls + CallOf(reply.data[0].item);
      var ids := if reply.data == [] then s.ids else s.ids + {reply.data[0].item.id};
      if reply.next.None? then Ok(Scan(calls, ids, s.cursors, s.cursor))
      else Ok(Scan(calls, ids, s.cursors + {reply.next.value}, reply.next))
  }

  datatype Scanned = Scanned(result: Result<seq<HostCall>, Error>, pages: nat)

  /** The reads from number `count` on; the number of calls made is part of the result. */
  function ScanFrom(server: Server, target: Target, s: Scan, count: nat): (r: Scanned)
    requires count <= MAX_INTERRUPTED_ITEMS
    ensures r.pages <= MAX_INTERRUPTED_ITEMS - count
    decreases MAX_INTERRUPTED_ITEMS - count
  {
    if count == MAX_INTERRUPTED_ITEMS then Scanned(Err(BudgetExceeded), 0)
    else if !server.allowed(count) then Scanned(Err(NotAllowed), 0)
    else
      var reply := server.page(count, s.cursor);
      if !Usable(reply) then Scanned(Err(BadReply), 1)
      else
        var next := Turned(s, target, reply);
        if next.Err? then Scanned(Err(next.error), 1)
        else if reply.next.None? then Scanned(Ok(next.value.calls), 1)
        else
          var rest := ScanFrom(server, target, next.value, count + 1);
          Scanned(rest.result, rest.pages + 1)
  }

  predicate Terminal(status: string) {
    status == "completed" || status == "failed" || status == "interrupted"
  }

  /** The first look at the thread: the newest turn must be the target and must have ended. */
  function FirstLook(reply: TurnReply, target: Target): Result<Turn, Error> {
    if reply.TurnUnusable? then Err(BadReply)
    else if reply.data == [] || exists i :: 0 <= i < |reply.data| && !Terminal(reply.data[i].status)
    then Err(ProviderActive)
    else if |reply.data| != 1 || reply.data[0].id != target.turnId then Err(ProviderIdentity)
    else Ok(reply.data[0])
  }

  predicate StillInterrupted(reply: TurnReply, target: Target) {
    && reply.Turns? && |reply.data| == 1 && reply.data[0].id == target.turnId
    && reply.data[0].status == "interrupted" && reply.data[0].errorIsNull
  }

  /** `calls` is present when a proof is minted. */
  datatype Answer = Answer(status: string, calls: Option<seq<HostCall>>)
  datatype Observation = Observation(result: Result<Answer, Error>, rpcs: nat)

  /** At most 130 calls are made, whatever the server answers. */
  function Observe(server: Server, target: Target, inspect: bool): (o: Observation)
    ensures 1 <= o.rpcs <= MAX_INTERRUPTED_ITEMS + 2
  {
    var first := FirstLook(server.first, target);
    if first.Err? then Observation(Err(first.error), 1)
    else if !inspect || first.value.status != "interrupted" then Observation(Ok(Answer(first.value.status, None)), 1)
    else if !first.value.errorIsNull then Observation(Err(TurnHasError), 1)
    else
      var scanned := ScanFrom(server, target, START, 0);
      var rpcs := 1 + scanned.pages;
      if scanned.result.Err? then Observation(Err(scanned.result.error), rpcs)
      else if !server.allowed(MAX_INTERRUPTED_ITEMS) then Observation(Err(NotAllowed), rpcs)
      else if server.last.TurnUnusable? then Observation(Err(BadReply), rpcs + 1)
      else if !StillInterrupted(server.last, target) then Observation(Err(TurnMoved), rpcs + 1)
      else Observation(Ok(Answer("interrupted", Some(scanned.result.value))), rpcs + 1)
  }

  // ---------------------------------------------------------------- whatever the server does

  /** The items some pages hold, and the host calls among them. */
  predicate AllSettled(items: seq<Item>) {
    forall i :: 0 <= i < |items| ==> Settled(items[i].kind)
  }

  predicate DistinctIds(items: seq<Item>) {
    forall i, j :: 0 <= i < j < |items| ==> items[i].id != items[j].id
  }

  function CallsOf(items: seq<Item>): seq<HostCall>
    requires AllSettled(items)
  {
    if items == [] then [] else CallOf(items[0]) + CallsOf(items[1..])
  }

  /** Following the cursors from read number `count` to the null cursor yields these items. */
  ghost predicate Yields(server: Server, target: Target, cursor: Option<string>, count: nat, items: seq<Item>)
    decreases MAX_INTERRUPTED_ITEMS - count
  {
    && count < MAX_INTERRUPTED_ITEMS
    && var reply := server.page(count, cursor);
       && Usable(reply)
       && if reply.data == [] then reply.next.None? && items == []
          else
            && items != [] && items[0] == reply.data[0].item && reply.data[0].turnId == target.turnId
            && if reply.next.None? then |items| == 1
               else Yields(server, target, reply.next, count + 1, items[1..])
  }

  lemma {:induction false} TurnedHolds(s: Scan, target: Target, reply: Reply)
    requires Usable(reply) && Turned(s, target, reply).Ok?
    ensures var next := Turned(s, target, reply).value;
            && next.cursor == (if reply.next.None? then s.cursor else reply.next)
            && (reply.data == [] ==> reply.next.None? && next.calls == s.calls)
            && (reply.data != [] ==>
                  && reply.data[0].turnId == target.turnId && Settled(reply.data[0].item.kind)
                  && reply.data[0].item.id !in s.ids && next.ids == s.ids + {reply.data[0].item.id}
                  && next.calls == s.calls + CallOf(reply.data[0].item))
  {
  }

  lemma {:induction false} AddFirst(first: Item, rest: seq<Item>, seen: set<string>)
    requires Settled(first.kind) && AllSettled(rest) && DistinctIds(rest)
    requires first.id !in seen && forall i :: 0 <= i < |rest| ==> rest[i].id !in seen + {first.id}
    ensures var items := [first] + rest;
            && AllSettled(items) && DistinctIds(items) && CallsOf(items) == CallOf(first) + CallsOf(rest)
            && forall i :: 0 <= i < |items| ==> items[i].id !in seen
  {
    hide Settled;
    assert ([first] + rest)[1..] == rest;
  }

  lemma {:induction false} ScanIsEarned(server: Server, target: Target, s: Scan, count: nat) returns (items: seq<Item>)
    requires count <= MAX_INTERRUPTED_ITEMS && ScanFrom(server, target, s, count).result.Ok?
    ensures Yields(server, target, s.cursor, count, items) && AllSettled(items) && DistinctIds(items)
    ensures forall i :: 0 <= i < |items| ==> items[i].id !in s.ids
    ensures ScanFrom(server, target, s, count).result.value == s.calls + CallsOf(items)
    decreases MAX_INTERRUPTED_ITEMS - count
  {
    hide Settled;
    hide CallOf;
    hide Turned;
    var reply := server.page(count, s.cursor);
    var next := Turned(s, target, reply).value;
    TurnedHolds(s, target, reply);
    items := [];
    if reply.data != [] {
      var rest: seq<Item> := [];
      if reply.next.Some? { rest := ScanIsEarned(server, target, next, count + 1); }
      AddFirst(reply.data[0].item, rest, s.ids);
      items := [reply.data[0].item] + rest;
      assert items[1..] == rest;
      hide AllSettled;
      hide DistinctIds;
    }
    hide Usable;
  }

  /** Whatever the server answers, a proof means: the turn was the newest, interrupted and free of
      errors before and after, its pages led to the null cursor within the budget, and every item on
      them was settled under its own identifier; the proof holds exactly their host calls. */
  lemma {:induction false} ProofIsEarned(server: Server, target: Target, inspect: bool) returns (items: seq<Item>)
    requires var r := Observe(server, target, inspect).result; r.Ok? && r.value.calls.Some?
    ensures inspect && StillInterrupted(server.first, target) && StillInterrupted(server.last, target)
    ensures Yields(server, target, None, 0, items) && AllSettled(items) && DistinctIds(items)
    ensures Observe(server, target, inspect).result == Ok(Answer("interrupted", Some(CallsOf(items))))
  {
    items := ScanIsEarned(server, target, START, 0);
    assert START.calls + CallsOf(items) == CallsOf(items);
    hide ScanFrom;
    hide Yields;
  }

  /** A call tells of one host tool item: its identifier, its tool, its arguments, and an error exactly
      when the item failed. */
  predicate Tells(call: HostCall, item: Item) {
    && item.kind.HostTool? && call.callId == item.id && call.toolName == item.kind.tool
    && item.kind.argumentsHash == Some(call.requestHash) && call.readOnly == item.kind.readOnly
    && (call.isError <==> item.kind.status == "failed")
  }

  /** The host tool items of a turn, in order. */
  function HostTools(items: seq<Item>): seq<Item> {
    if items == [] then []
    else (if items[0].kind.HostTool? then [items[0]] else []) + HostTools(items[1..])
  }

  /** The calls are exactly the host tool items of the turn, in their order. */
  lemma {:induction false} CallsAreTheHostTools(items: seq<Item>)
    requires AllSettled(items)
    ensures |CallsOf(items)| == |HostTools(items)|
    ensures forall k :: 0 <= k < |CallsOf(items)| ==> Tells(CallsOf(items)[k], HostTools(items)[k])
  {
    if items == [] {
    } else {
      CallsAreTheHostTools(items[1..]);
      assert Settled(items[0].kind);
    }
  }

  // ---------------------------------------------------------------- a server that pages a turn

  /** The page that holds item number i. */
  function PageAt(target: Target, items: seq<Item>, cursors: seq<string>, i: nat): Reply
    requires i <= |items| && |cursors| == |items|
  {
    if i == |items| then Page([], None)
    else Page([Entry(target.turnId, items[i])], if i + 1 == |items| then None else Some(cursors[i]))
  }

  /** One item per page in order, a distinct cursor to each next page, a null cursor at the end, and
      one empty page for a turn without items. */
  ghost predicate PagesTurn(server: Server, target: Target, items: seq<Item>, cursors: seq<string>) {
    && |cursors| == |items|
    && (forall k :: server.allowed(k))
    && (forall i :: 0 <= i < |items| ==> items[i].id != "" && 1 <= |cursors[i]| <= MAX_CURSOR)
    && (forall i, j :: 0 <= i < j < |cursors| ==> cursors[i] != cursors[j])
    && (forall k :: server.page(k, None) == PageAt(target, items, cursors, 0))
    && (forall k, i :: 0 <= i < |items| - 1 ==> server.page(k, Some(cursors[i])) == PageAt(target, items, cursors, i + 1))
  }

  function Ids(items: seq<Item>): set<string> {
    set i | 0 <= i < |items| :: items[i].id
  }

  /** The scan after i pages of a well-behaved server. */
  ghost predicate After(s: Scan, items: seq<Item>, cursors: seq<string>, i: nat)
    requires i <= |items| == |cursors|
  {
    && s.ids == Ids(items[..i])
    && s.cursors == (set j | 0 <= j < i :: cursors[j])
    && s.cursor == (if i == 0 then None else Some(cursors[i - 1]))
  }

  lemma {:induction false} NextPage(
    server: Server, target: Target, items: seq<Item>, cursors: seq<string>, s: Scan, i: nat)
    requires PagesTurn(server, target, items, cursors) && i < |items| && After(s, items, cursors, i)
    ensures var reply := PageAt(target, items, cursors, i);
            && server.page(i, s.cursor) == reply && Usable(reply)
            && var r := Turned(s, target, reply);
               && (r.Ok? <==> items[i].id !in Ids(items[..i]) && Settled(items[i].kind))
               && (r.Ok? ==> r.value.calls == s.calls + CallOf(items[i]))
               && (r.Ok? && i + 1 < |items| ==> After(r.value, items, cursors, i + 1))
  {
    assert Ids(items[..i + 1]) == Ids(items[..i]) + {items[i].id} by {
      forall n | n in Ids(items[..i]) ensures n in Ids(items[..i + 1]) {
        var j :| 0 <= j < i && items[..i][j].id == n;
        assert items[..i + 1][j].id == n;
      }
      assert items[..i + 1][i] == items[i];
      assert forall j :: 0 <= j < i ==> items[..i + 1][j] == items[..i][j];
    }
    if i > 0 { assert server.page(i, Some(cursors[i - 1])) == PageAt(target, items, cursors, i - 1 + 1); }
  }

  ghost predicate FreshFrom(items: seq<Item>, i: nat) {
    forall j :: i <= j < |items| ==> items[j].id !in Ids(items[..j])
  }

  lemma {:induction false} ScanIsExact(
    server: Server, target: Target, items: seq<Item>, cursors: seq<string>, s: Scan, i: nat)
    requires PagesTurn(server, target, items, cursors) && i <= MAX_INTERRUPTED_ITEMS
    requires i < |items| && After(s, items, cursors, i)
    ensures var r := ScanFrom(server, target, s, i).result;
            && (r.Ok? <==> |items| <= MAX_INTERRUPTED_ITEMS && AllSettled(items[i..]) && FreshFrom(items, i))
            && (r.Ok? ==> r.value == s.calls + CallsOf(items[i..]))
    decreases MAX_INTERRUPTED_ITEMS - i
  {
    if i == MAX_INTERRUPTED_ITEMS {
    } else {
      NextPage(server, target, items, cursors, s, i);
      AlwaysAllowed(server, target, items, cursors, i);
      ScanUnfold(server, target, s, i);
      SettledFrom(items, i);
      FreshSplit(items, i);
      var r := Turned(s, target, PageAt(target, items, cursors, i));
      hide Turned;
      hide Usable;
      hide Settled;
      hide PagesTurn;
      hide AllSettled;
      hide FreshFrom;
      hide Ids;
      hide CallOf;
      hide ScanFrom;
      hide After;
      if i + 1 == |items| {
        LastOne(items, i);
      } else if r.Ok? {
        ScanIsExact(server, target, items, cursors, r.value, i + 1);
      }
      hide CallsOf;
      if AllSettled(items[i..]) {
        Regroup(s.calls, CallOf(items[i]), CallsOf(items[i + 1..]));
      }
    }
  }

  lemma {:induction false} Regroup(a: seq<HostCall>, b: seq<HostCall>, c: seq<HostCall>)
    ensures a + (b + c) == a + b + c
    ensures c == [] ==> a + b + c == a + b
  {
  }

  lemma {:induction false} FreshSplit(items: seq<Item>, i: nat)
    requires i < |items|
    ensures FreshFrom(items, i) <==> items[i].id !in Ids(items[..i]) && FreshFrom(items, i + 1)
  {
  }

  /** One read of the scan. */
  lemma {:induction false} ScanUnfold(server: Server, target: Target, s: Scan, i: nat)
    requires i < MAX_INTERRUPTED_ITEMS && server.allowed(i) && Usable(server.page(i, s.cursor))
    ensures var reply := server.page(i, s.cursor);
            var next := Turned(s, target, reply);
            var r := ScanFrom(server, target, s, i).result;
            && (next.Err? ==> r.Err?)
            && (next.Ok? && reply.next.None? ==> r == Ok(next.value.calls))
            && (next.Ok? && reply.next.Some? ==> r == ScanFrom(server, target, next.value, i + 1).result)
  {
    hide Turned;
    hide Usable;
  }

  lemma {:induction false} LastOne(items: seq<Item>, i: nat)
    requires i + 1 == |items|
    ensures AllSettled(items[i + 1..]) && FreshFrom(items, i + 1) && CallsOf(items[i + 1..]) == []
  {
  }

  lemma {:induction false} AlwaysAllowed(server: Server, target: Target, items: seq<Item>, cursors: seq<string>, k: nat)
    requires PagesTurn(server, target, items, cursors)
    ensures server.allowed(k)
  {
  }

  lemma {:induction false} SettledFrom(items: seq<Item>, i: nat)
    requires i < |items|
    ensures AllSettled(items[i..]) <==> Settled(items[i].kind) && AllSettled(items[i + 1..])
    ensures AllSettled(items[i..]) ==> CallsOf(items[i..]) == CallOf(items[i]) + CallsOf(items[i + 1..])
  {
    hide Settled;
    assert items[i..][1..] == items[i + 1..];
    assert items[i..][0] == items[i];
    assert forall j :: 0 <= j < |items[i..]| ==> items[i..][j] == items[i + j];
    assert items[i..] == [items[i]] + items[i + 1..];
  }

  lemma {:induction false} DistinctByPrefix(items: seq<Item>)
    ensures DistinctIds(items) <==> FreshFrom(items, 0)
  {
    if DistinctIds(items) {
    } else {
      var i, j :| 0 <= i < j < |items| && items[i].id == items[j].id;
      assert items[..j][i].id == items[j].id;
    }
  }

  lemma {:induction false} WholeScanIsExact(server: Server, target: Target, items: seq<Item>, cursors: seq<string>)
    requires PagesTurn(server, target, items, cursors)
    ensures var r := ScanFrom(server, target, START, 0).result;
            && (r.Ok? <==> |items| <= MAX_INTERRUPTED_ITEMS && DistinctIds(items) && AllSettled(items))
            && (r.Ok? ==> r.value == CallsOf(items))
  {
    if items == [] {
      AlwaysAllowed(server, target, items, cursors, 0);
      assert server.page(0, None) == Page([], None);
    } else {
      assert After(START, items, cursors, 0);
      DistinctByPrefix(items);
      hide PagesTurn;
      hide After;
      hide DistinctIds;
      hide AllSettled;
      ScanIsExact(server, target, items, cursors, START, 0);
      hide ScanFrom;
      assert items[0..] == items;
    }
  }

  /** The first look lets an inspection begin exactly when the last look would let it end. */
  lemma {:induction false} BothLooksAgree(reply: TurnReply, target: Target)
    ensures StillInterrupted(reply, target) <==>
              var first := FirstLook(reply, target);
              first.Ok? && first.value.status == "interrupted" && first.value.errorIsNull
    ensures StillInterrupted(reply, target) ==> reply.Turns?
  {
  }

  /** Against a server that pages a turn of any length the settlement is exact. */
  lemma {:induction false} SettlementIsExact(server: Server, target: Target, items: seq<Item>, cursors: seq<string>)
    requires PagesTurn(server, target, items, cursors)
    ensures var r := Observe(server, target, true).result;
            && (r.Ok? && r.value.calls.Some? <==>
                  && StillInterrupted(server.first, target) && StillInterrupted(server.last, target)
                  && |items| <= MAX_INTERRUPTED_ITEMS && DistinctIds(items) && AllSettled(items))
            && (r.Ok? && r.value.calls.Some? ==> r.value.calls.value == CallsOf(items))
  {
    WholeScanIsExact(server, target, items, cursors);
    AlwaysAllowed(server, target, items, cursors, MAX_INTERRUPTED_ITEMS);
    BothLooksAgree(server.first, target);
    hide PagesTurn;
    hide ScanFrom;
    hide AllSettled;
    hide DistinctIds;
    hide FirstLook;
    hide StillInterrupted;
  }

  // ---------------------------------------------------------------- the observation and its proofs

  type Proof = nat

  datatype Record = Record(conversationId: string, target: Target, calls: seq<HostCall>)

  /** The process-wide table of minted proofs; a proof is a fresh object. */
  class RecoveryObservations {
    var observations: map<Proof, Record>
    var nextProof: Proof

    ghost predicate Valid()
      reads this
    {
      forall p :: p in observations ==> p < nextProof
    }

    constructor ()
      ensures Valid() && observations == map[]
    {
      observations, nextProof := map[], 0;
    }

    method TurnPage(s: Scan, target: Target, reply: Reply) returns (r: Result<Scan, Error>)
      requires Usable(reply)
      ensures r == Turned(s, target, reply)
    {
      var calls, ids, cursors := s.calls, s.ids, s.cursors;
      if reply.data == [] && reply.next.Some? { return Err(IncompletePage); }
      if reply.data != [] {
        var entry := reply.data[0];
        if entry.turnId != target.turnId { return Err(OtherTurn); }
        if entry.item.id in ids { return Err(DuplicateItem); }
        ids := ids + {entry.item.id};
        if !Settled(entry.item.kind) { return Err(Unsettled); }
        match entry.item.kind {
          case HostTool(_, _, success, tool, arguments, readOnly) =>
            calls := calls + [HostCall(entry.item.id, tool, arguments.value, !success.value, readOnly)];
          case _ =>
            assert calls == s.calls + CallOf(entry.item);
        }
      }
      if reply.next.None? { return Ok(Scan(calls, ids, cursors, s.cursor)); }
      if reply.next.value in cursors { return Err(DuplicateCursor); }
      cursors := cursors + {reply.next.value};
      r := Ok(Scan(calls, ids, cursors, reply.next));
    }

    /** The loop over the item pages, with the number of calls made. */
    method ScanItems(server: Server, target: Target) returns (r: Result<seq<HostCall>, Error>, pages: nat)
      ensures Scanned(r, pages) == ScanFrom(server, target, START, 0)
    {
      var scan := START;
      var count := 0;
      ghost var all := ScanFrom(server, target, START, 0);
      hide Turned;
      hide Usable;
      while count < MAX_INTERRUPTED_ITEMS
        invariant 0 <= count <= MAX_INTERRUPTED_ITEMS
        invariant var rest := ScanFrom(server, target, scan, count);
                  all == Scanned(rest.result, rest.pages + count)
      {
        if !server.allowed(count) { return Err(NotAllowed), count; }
        var reply := server.page(count, scan.cursor);
        if !Usable(reply) { return Err(BadReply), count + 1; }
        var turned := TurnPage(scan, target, reply);
        if turned.Err? { return Err(turned.error), count + 1; }
        scan := turned.value;
        if reply.next.None? { return Ok(scan.calls), count + 1; }
        count := count + 1;
      }
      return Err(BudgetExceeded), count;
    }

    /** A successful inspection mints one new proof and leaves every older one as it was. */
    method ObserveRecoveryTurn(server: Server, conversationId: string, target: Target, inspect: bool)
      returns (r: Result<string, Error>, proof: Option<Proof>, rpcs: nat)
      requires Valid()
      modifies this
      ensures Valid()
      ensures rpcs == Observe(server, target, inspect).rpcs
      ensures var o := Observe(server, target, inspect).result;
              if o.Err? then r == Err(o.error) && proof.None?
              else r == Ok(o.value.status) && (proof.Some? <==> o.value.calls.Some?)
      ensures proof.None? ==> observations == old(observations)
      ensures proof.Some? ==>
                && proof.value !in old(observations)
                && observations == old(observations)[proof.value :=
                     Record(conversationId, target, Observe(server, target, inspect).result.value.calls.value)]
    {
      rpcs, proof := 1, None;
      if server.first.TurnUnusable? { return Err(BadReply), None, 1; }
      var page := server.first.data;
      if page == [] || exists i :: 0 <= i < |page| && !Terminal(page[i].status) { return Err(ProviderActive), None, 1; }
      if |page| != 1 || page[0].id != target.turnId { return Err(ProviderIdentity), None, 1; }
      if !inspect || page[0].status != "interrupted" { return Ok(page[0].status), None, 1; }
      if !page[0].errorIsNull { return Err(TurnHasError), None, 1; }
      var calls, pages := ScanItems(server, target);
      rpcs := rpcs + pages;
      if calls.Err? { return Err(calls.error), None, rpcs; }
      if !server.allowed(MAX_INTERRUPTED_ITEMS) { return Err(NotAllowed), None, rpcs; }
      rpcs := rpcs + 1;
      if server.last.TurnUnusable? { return Err(BadReply), None, rpcs; }
      if !StillInterrupted(server.last, target) { return Err(TurnMoved), None, rpcs; }
      observations := observations[nextProof := Record(conversationId, target, calls.value)];
      proof := Some(nextProof);
      nextProof := nextProof + 1;
      r := Ok("interrupted");
    }

    /** The host calls of a proof, for the conversation and the turn it was minted for only. */
    method InterruptedEffectCalls(proof: Proof, conversationId: string, target: Target)
      returns (calls: Option<seq<HostCall>>)
      ensures calls.Some? <==>
                proof in observations && observations[proof].conversationId == conversationId
                && observations[proof].target == target
      ensures calls.Some? ==> calls.value == observations[proof].calls
    {
      if proof !in observations || observations[proof].conversationId != conversationId
         || observations[proof].target != target {
        return None;
      }
      calls := Some(observations[proof].calls);
    }
  }
}
