/** When an interrupted turn is settled (server/codex-interrupted-effects.ts), against any server at all, said
    of its replies themselves. */
module SettlementRules {
  import opened Options
  import opened InterruptedEffects

  // ---------------------------------------------------------------- one item

  /** An item whose outcome is known: a command that ended with its exit code, a change with all its parts, a
      read that reported nothing unusual, a host call that ended as it says. */
  ghost predicate HasEnded(kind: Kind) {
    || kind.Narrative?
    || (kind.Command? && kind.exitCode.Some?
        && ((kind.status == "completed" && kind.exitCode.value == 0)
            || (kind.status == "failed" && 1 <= kind.exitCode.value <= 255)))
    || (kind.FileChange? && kind.status == "completed" && kind.changes > 0 && kind.changesAreKnown)
    || (kind.NativeRead? && kind.subjectIsGiven
        && kind.reported in {None, Some("completed"), Some("failed")})
    || (kind.HostTool? && kind.namespaceIsNull && kind.tool != "" && kind.argumentsHash.Some? && kind.success.Some?
        && kind.status == if kind.success.value then "completed" else "failed")
  }

  lemma {:induction false} EndedExactly(kind: Kind)
    ensures Settled(kind) <==> HasEnded(kind)
  {}

  /** Only a host call is an effect: under its own identifier, tool and arguments, failed if it says so. */
  lemma {:induction false} EffectOfAnItem(item: Item)
    requires HasEnded(item.kind)
    ensures Settled(item.kind)
    ensures if item.kind.HostTool?
            then CallOf(item) == [HostCall(item.id, item.kind.tool, item.kind.argumentsHash.value,
                                           item.kind.status == "failed", item.kind.readOnly)]
            else CallOf(item) == []
  {
    EndedExactly(item.kind);
  }

  // ---------------------------------------------------------------- the pages

  /** A page with this item of the turn, not seen before. */
  ghost predicate Holds(reply: Reply, target: Target, item: Item, seen: set<string>) {
    && reply.Page? && reply.data == [Entry(target.turnId, item)]
    && item.id != "" && item.id !in seen && HasEnded(item.kind)
  }

  /** From read number `count` on the server is asked with `cursor`, and then with `cursors` one after the other;
      each page but the last holds one more item and leads on, the last holds the last item or none. */
  ghost predicate Pages(server: Server, target: Target, seen: set<string>, used: set<string>, cursor: Option<string>,
                        count: nat, items: seq<Item>, cursors: seq<string>)
    decreases |cursors|
  {
    && count < 128 && server.allowed(count)
    && var reply := server.page(count, cursor);
       && reply.Page?
       && if cursors == []
          then reply.next == None && ((reply.data == [] && items == [])
                                      || (|items| == 1 && Holds(reply, target, items[0], seen)))
          else
            && items != [] && Holds(reply, target, items[0], seen)
            && reply.next == Some(cursors[0]) && 1 <= |cursors[0]| <= 4096 && cursors[0] !in used
            && Pages(server, target, seen + {items[0].id}, used + {cursors[0]}, Some(cursors[0]),
                     count + 1, items[1..], cursors[1..])
  }

  /** One page turned over. */
  lemma {:induction false} TurnsOver(s: Scan, target: Target, reply: Reply, item: Item)
    ensures Holds(reply, target, item, s.ids)
            && (reply.next.Some? ==> 1 <= |reply.next.value| <= 4096 && reply.next.value !in s.cursors) <==>
              && Usable(reply) && |reply.data| == 1 && reply.data[0].item == item && Turned(s, target, reply).Ok?
    ensures Usable(reply) && |reply.data| == 1 && reply.data[0].item == item && Turned(s, target, reply).Ok? ==>
              && Settled(item.kind)
              && Turned(s, target, reply).value
                 == Scan(s.calls + CallOf(item), s.ids + {item.id},
                         if reply.next.Some? then s.cursors + {reply.next.value} else s.cursors,
                         if reply.next.Some? then reply.next else s.cursor)
  {
    EndedExactly(item.kind);
    hide Settled;
    hide HasEnded;
    hide CallOf;
  }

  /** One read of the scan. */
  lemma {:induction false} ReadsOne(server: Server, target: Target, s: Scan, count: nat, item: Item)
    requires count < 128 && server.allowed(count) && Holds(server.page(count, s.cursor), target, item, s.ids)
    requires var next := server.page(count, s.cursor).next;
             next.Some? ==> 1 <= |next.value| <= 4096 && next.value !in s.cursors
    ensures Settled(item.kind)
    ensures var reply := server.page(count, s.cursor);
            var r := ScanFrom(server, target, s, count).result;
            if reply.next.None? then r == Ok(s.calls + CallOf(item))
            else r == ScanFrom(server, target, Scan(s.calls + CallOf(item), s.ids + {item.id},
                                                    s.cursors + {reply.next.value}, reply.next), count + 1).result
  {
    hide Settled;
    hide HasEnded;
    hide CallOf;
    hide Turned;
    TurnsOver(s, target, server.page(count, s.cursor), item);
  }

  lemma {:induction false} CallsOfMore(item: Item, rest: seq<Item>, calls: seq<HostCall>)
    requires Settled(item.kind) && AllSettled(rest)
    ensures AllSettled([item] + rest)
    ensures calls + CallsOf([item] + rest) == calls + CallOf(item) + CallsOf(rest)
  {
    hide Settled;
    hide CallOf;
    assert ([item] + rest)[1..] == rest;
  }

  /** Pages of this kind are read to their end. */
  lemma {:induction false} PagesAreRead(server: Server, target: Target, s: Scan, count: nat, items: seq<Item>, cursors: seq<string>)
    requires Pages(server, target, s.ids, s.cursors, s.cursor, count, items, cursors) && count <= 128
    ensures AllSettled(items) && ScanFrom(server, target, s, count).result == Ok(s.calls + CallsOf(items))
    decreases |cursors|
  {
    hide Settled;
    hide HasEnded;
    if items != [] {
      hide CallOf;
      hide Turned;
      hide Usable;
      hide Holds;
      hide ScanFrom;
      ReadsOne(server, target, s, count, items[0]);
      var rest := items[1..];
      if cursors != [] {
        var next := Scan(s.calls + CallOf(items[0]), s.ids + {items[0].id}, s.cursors + {cursors[0]}, Some(cursors[0]));
        PagesAreRead(server, target, next, count + 1, rest, cursors[1..]);
      } else {
        assert rest == [] && s.calls + CallOf(items[0]) + [] == s.calls + CallOf(items[0]);
      }
      assert items == [items[0]] + rest;
      CallsOfMore(items[0], rest, s.calls);
    } else {
      assert s.calls + [] == s.calls;
    }
  }

  /** Whatever is read to its end was pages of this kind. */
  lemma {:induction false} ReadsArePages(server: Server, target: Target, s: Scan, count: nat)
    returns (items: seq<Item>, cursors: seq<string>)
    requires count <= 128 && ScanFrom(server, target, s, count).result.Ok?
    ensures Pages(server, target, s.ids, s.cursors, s.cursor, count, items, cursors)
    decreases 128 - count
  {
    var reply := server.page(count, s.cursor);
    if reply.data == [] {
      items, cursors := [], [];
    } else {
      var item := reply.data[0].item;
      TurnsOver(s, target, reply, item);
      hide Settled;
      hide HasEnded;
      hide CallOf;
      hide Turned;
      if reply.next.None? {
        items, cursors := [item], [];
      } else {
        var rest, more := ReadsArePages(server, target, Turned(s, target, reply).value, count + 1);
        items, cursors := [item] + rest, [reply.next.value] + more;
        assert items[1..] == rest && cursors[1..] == more;
      }
    }
  }

  // ---------------------------------------------------------------- the whole observation

  /** The only turn the server names is the target. */
  ghost predicate IsNewest(reply: TurnReply, target: Target, status: string) {
    reply.Turns? && |reply.data| == 1 && reply.data[0].id == target.turnId && reply.data[0].status == status
  }

  /** The turn is the newest, interrupted, and without an error. */
  ghost predicate IsInterrupted(reply: TurnReply, target: Target) {
    IsNewest(reply, target, "interrupted") && reply.data[0].errorIsNull
  }

  /** Against any server: a proof is minted exactly if the turn is inspected, newest, interrupted and free of
      errors before and after, and its pages lead through ended items to their end within 128 reads; the proof
      holds the host calls among these items. */
  lemma {:induction false} ProofsExactly(server: Server, target: Target, inspect: bool, calls: seq<HostCall>)
    ensures Observe(server, target, inspect).result == Ok(Answer("interrupted", Some(calls))) <==>
              && inspect && IsInterrupted(server.first, target) && IsInterrupted(server.last, target)
              && server.allowed(128)
              && exists items, cursors :: Pages(server, target, {}, {}, None, 0, items, cursors)
                   && AllSettled(items) && calls == CallsOf(items)
  {
    var scanned := ScanFrom(server, target, START, 0).result;
    if scanned.Ok? {
      var items, cursors := ReadsArePages(server, target, START, 0);
      PagesAreRead(server, target, START, 0, items, cursors);
      assert [] + CallsOf(items) == CallsOf(items);
    }
    forall items, cursors | Pages(server, target, {}, {}, None, 0, items, cursors)
      ensures AllSettled(items) && scanned == Ok(CallsOf(items))
    {
      PagesAreRead(server, target, START, 0, items, cursors);
      assert [] + CallsOf(items) == CallsOf(items);
    }
    hide ScanFrom;
    hide Pages;
    hide AllSettled;
    hide CallsOf;
  }

  /** Without an inspection, or for a turn that ended otherwise, the status of the newest turn is answered. */
  lemma {:induction false} StatusExactly(server: Server, target: Target, inspect: bool, status: string)
    ensures Observe(server, target, inspect).result == Ok(Answer(status, None)) <==>
              && IsNewest(server.first, target, status) && status in {"completed", "failed", "interrupted"}
              && (inspect ==> status != "interrupted")
  {
    hide ScanFrom;
  }

  /** A provider that reports no turn, or one that has not ended, is still active; one that reports another turn
      is refused for its identity. */
  lemma {:induction false} RefusalsExactly(server: Server, target: Target, inspect: bool)
    ensures var r := Observe(server, target, inspect).result;
            server.first.Turns? ==>
              var data := server.first.data;
              var running := exists i :: 0 <= i < |data| && data[i].status !in {"completed", "failed", "interrupted"};
              && (data == [] || running <==> r == Err(ProviderActive))
              && (data != [] && !running && (|data| > 1 || data[0].id != target.turnId) <==> r == Err(ProviderIdentity))
              && (inspect && IsNewest(server.first, target, "interrupted") && !data[0].errorIsNull <==> r == Err(TurnHasError))
  {
    ScanRefusals(server, target, START, 0);
    hide ScanFrom;
    if server.first.Turns? {
      var data := server.first.data;
      assert forall i :: 0 <= i < |data| ==>
          (Terminal(data[i].status) <==> data[i].status in {"completed", "failed", "interrupted"});
    }
  }

  /** The scan itself never answers with these. */
  lemma {:induction false} ScanRefusals(server: Server, target: Target, s: Scan, count: nat)
    requires count <= 128
    ensures ScanFrom(server, target, s, count).result !in {Err(ProviderActive), Err(ProviderIdentity), Err(TurnHasError)}
    decreases 128 - count
  {
    if count < 128 && Usable(server.page(count, s.cursor)) {
      var next := Turned(s, target, server.page(count, s.cursor));
      hide Settled;
      if next.Ok? { ScanRefusals(server, target, next.value, count + 1); }
    }
  }
}
