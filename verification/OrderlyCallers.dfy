/** Which callers of a borrowed search get a full cleanup from `close` (server/codex-borrowed-search.ts):
    exactly those that never have two thread/start or two turn/start requests out at once. */
module OrderlyCallers {
  import opened Options
  import opened BorrowedSearch

  /** Whatever an orderly caller and the transport do from here: a close that resolves has cleaned up. */
  ghost predicate AlwaysClosesClean(s: State, parent: Id) {
    forall later :: Orderly(s, parent, later) && Run(s, parent, later).closing.Resolved? ==>
      CleanedUp(Run(s, parent, later))
  }

  // ---------------------------------------------------------------- orderly from the beginning

  lemma {:induction false} OrderlyParts(s: State, parent: Id, a: seq<Event>, b: seq<Event>)
    ensures Orderly(s, parent, a + b) <==> Orderly(s, parent, a) && Orderly(Run(s, parent, a), parent, b)
    decreases |a|
  {
    hide SendsAlone;
    hide Step;
    if a == [] {
      assert a + b == b;
    } else {
      assert (a + b)[1..] == a[1..] + b;
      OrderlyParts(Step(s, parent, a[0]), parent, a[1..], b);
    }
  }

  lemma {:induction false} OrderlyIsSafe(parent: Id, events: seq<Event>)
    requires Orderly(INITIAL, parent, events)
    ensures AlwaysClosesClean(Run(INITIAL, parent, events), parent)
  {
    var s := Run(INITIAL, parent, events);
    hide Run;
    hide Orderly;
    hide CleanedUp;
    forall later | Orderly(s, parent, later) && Run(s, parent, later).closing.Resolved?
      ensures CleanedUp(Run(s, parent, later))
    {
      OrderlyParts(INITIAL, parent, events, later);
      RunParts(INITIAL, parent, events, later);
      OrderlyClosesClean(parent, events + later, Run(s, parent, later));
    }
  }

  // ---------------------------------------------------------------- a close that resolves

  /** Whatever phase they are in, these events settle the first requests, and send nothing. */
  function SettleAll(n: nat): seq<Event> {
    if n == 0 then [] else SettleAll(n - 1) + [Checked(n - 1, false), Receipt(n - 1, None), Rechecked(n - 1)]
  }

  predicate SendsNothing(events: seq<Event>) {
    forall k :: 0 <= k < |events| ==> !(events[k].Checked? && events[k].current)
  }

  lemma {:induction false} NothingSentIsOrderly(s: State, parent: Id, events: seq<Event>)
    requires SendsNothing(events)
    ensures Orderly(s, parent, events)
    decreases |events|
  {
    if events != [] {
      assert forall k :: 0 <= k < |events| - 1 ==> events[1..][k] == events[k + 1];
      hide Step;
      NothingSentIsOrderly(Step(s, parent, events[0]), parent, events[1..]);
    }
  }

  lemma {:induction false} SettlesOne(s: State, parent: Id, i: nat)
    requires i < |s.requests|
    ensures Run(s, parent, [Checked(i, false), Receipt(i, None), Rechecked(i)])
         == s.(requests := s.requests[i := s.requests[i].(phase := Done)])
  {
    RunThree(s, parent, Checked(i, false), Receipt(i, None), Rechecked(i));
    hide Run;
    hide Settled;
  }

  lemma {:induction false} Settles(s: State, parent: Id, n: nat)
    requires n <= |s.requests|
    ensures var t := Run(s, parent, SettleAll(n));
            && t == s.(requests := t.requests) && |t.requests| == |s.requests| && Settled(t, n)
    ensures SendsNothing(SettleAll(n))
  {
    if n > 0 {
      Settles(s, parent, n - 1);
      var t := Run(s, parent, SettleAll(n - 1));
      RunParts(s, parent, SettleAll(n - 1), [Checked(n - 1, false), Receipt(n - 1, None), Rechecked(n - 1)]);
      SettlesOne(t, parent, n - 1);
    }
    hide Step;
  }

  const CLOSE: seq<Event> := [CloseCalled, Drained, InterruptReply(true), UnsubscribeReply(true)]

  /** A close called when everything has settled, with a child and no turn of unknown outcome. */
  lemma {:induction false} CloseFinishes(s: State, parent: Id)
    requires s.closing.Open? && Settled(s, |s.requests|) && s.threadId.Some? && (s.turnRequested ==> s.turnId.Some?)
    ensures Run(s, parent, CLOSE).closing.Resolved? && Run(s, parent, CLOSE).terminalTurns == s.terminalTurns
  {
    FourSteps(s, parent, CloseCalled, Drained, InterruptReply(true), UnsubscribeReply(true));
    hide Run;
  }

  /** A way to a resolved close, without a request or a notification. */
  lemma {:induction false} CanResolve(s: State, parent: Id) returns (later: seq<Event>)
    requires s.closing.Open? && s.threadId.Some? && (s.turnRequested ==> s.turnId.Some?)
    ensures SendsNothing(later)
    ensures Run(s, parent, later).closing.Resolved? && Run(s, parent, later).terminalTurns == s.terminalTurns
  {
    later := SettleAll(|s.requests|) + CLOSE;
    Settles(s, parent, |s.requests|);
    RunParts(s, parent, SettleAll(|s.requests|), CLOSE);
    CloseFinishes(Run(s, parent, SettleAll(|s.requests|)), parent);
    hide Run;
  }

  // ---------------------------------------------------------------- two requests of a kind

  lemma {:induction false} SomeLength(ids: set<Id>) returns (n: nat)
    ensures forall id :: id in ids ==> |id| < n
  {
    if ids == {} {
      n := 0;
    } else {
      var id :| id in ids;
      n := SomeLength(ids - {id});
      n := if n <= |id| then |id| + 1 else n;
      assert forall other :: other in ids ==> other == id || other in ids - {id};
    }
  }

  /** Two identities that have not occurred. */
  lemma {:induction false} FreshIds(ids: set<Id>) returns (a: Id, b: Id)
    ensures a != b && a !in ids && b !in ids
  {
    var n := SomeLength(ids);
    a := seq(n + 1, _ => 'x');
    b := seq(n + 2, _ => 'x');
    assert |a| < |b|;
  }

  /** Two requests of one kind are out, and a close still can resolve once both are acknowledged. */
  ghost predicate TwoOut(s: State, i: nat, j: nat, kind: Method) {
    && i != j && InPhase(s, i, Sent) && InPhase(s, j, Sent)
    && s.requests[i].kind == kind && s.requests[j].kind == kind && IsStart(kind)
    && s.closing.Open? && (kind == ThreadStart ==> !s.turnRequested) && (kind == TurnStart ==> s.threadId.Some?)
  }

  /** What an orderly caller's first lapse looks like. */
  lemma {:induction false} LapseIsTwoOut(s: State, parent: Id, e: Event) returns (i: nat, j: nat, kind: Method)
    requires AloneOk(s) && RequestsOk(s) && !SendsAlone(s, e)
    ensures TwoOut(Step(s, parent, e), i, j, kind)
  {
    j := e.index;
    kind := s.requests[j].kind;
    i :| 0 <= i < |s.requests| && s.requests[i].phase == Sent && s.requests[i].kind == kind;
    hide Settled;
    hide Finishing;
    hide Interrupted;
  }

  /** From there both may be acknowledged and a close resolve, with one of them not cleaned up. */
  lemma {:induction false} TwoOutLeak(before: seq<Event>, parent: Id, i: nat, j: nat, kind: Method)
    requires TwoOut(Run(INITIAL, parent, before), i, j, kind)
    ensures !AlwaysClosesClean(Run(INITIAL, parent, before), parent)
  {
    var s := Run(INITIAL, parent, before);
    var a, b := FreshIds(s.terminalTurns + {parent});
    var receipts := [Receipt(i, Some(a)), Receipt(j, Some(b))];
    var s2 := Step(Step(s, parent, receipts[0]), parent, receipts[1]);
    BothAcknowledged(s, parent, i, j, kind, a, b);
    var close := CanResolve(s2, parent);
    var later := receipts + close;
    TwoThen(s, parent, receipts[0], receipts[1], close);
    hide Step;
    hide Settled;
    var t := Run(s, parent, later);
    assert t == Run(s2, parent, close);
    assert SendsNothing(later);
    NothingSentIsOrderly(s, parent, later);
    RunParts(INITIAL, parent, before, later);
    RunKeeps(INITIAL, parent, before + later);
    hide Run;
    assert Terminal(a) !in t.log && Terminal(b) !in t.log by {
      assert LogOk(t);
    }
    if kind == ThreadStart {
      OverlappingThreadsLeak(before, parent, i, j, a, b, close);
    } else {
      OverlappingTurnsLeak(before, parent, i, j, a, b, close);
    }
    assert Orderly(s, parent, later) && t.closing.Resolved? && !CleanedUp(t);
  }

  lemma {:induction false} BothAcknowledged(s: State, parent: Id, i: nat, j: nat, kind: Method, a: Id, b: Id)
    requires TwoOut(s, i, j, kind) && a != parent && b != parent
    ensures var t := Step(Step(s, parent, Receipt(i, Some(a))), parent, Receipt(j, Some(b)));
            && t.closing.Open? && t.threadId.Some? && (t.turnRequested ==> t.turnId.Some?)
            && t.terminalTurns == s.terminalTurns
  {
  }

  // ---------------------------------------------------------------- the exact condition

  /** The first step that is out of order. */
  lemma {:induction false} FirstLapse(s: State, parent: Id, events: seq<Event>) returns (k: nat)
    requires !Orderly(s, parent, events)
    ensures k < |events| && Orderly(s, parent, events[..k]) && !SendsAlone(Run(s, parent, events[..k]), events[k])
    decreases |events|
  {
    hide Step;
    hide SendsAlone;
    if SendsAlone(s, events[0]) {
      k := FirstLapse(Step(s, parent, events[0]), parent, events[1..]);
      k := k + 1;
      assert events[..k][1..] == events[1..][..k - 1] && events[1..][k - 1] == events[k];
    } else {
      k := 0;
      assert events[..0] == [];
    }
  }

  lemma {:induction false} OrderlyHolds(parent: Id, events: seq<Event>)
    requires Orderly(INITIAL, parent, events)
    ensures AloneOk(Run(INITIAL, parent, events)) && RequestsOk(Run(INITIAL, parent, events))
  {
    assert Inv(INITIAL);
    RunKeeps(INITIAL, parent, events);
    OrderlyRuns(INITIAL, parent, events);
    hide Run;
    hide Orderly;
    hide LogOk;
  }

  lemma {:induction false} LapseLeaks(parent: Id, events: seq<Event>, k: nat)
    requires k < |events| && Orderly(INITIAL, parent, events[..k])
    requires !SendsAlone(Run(INITIAL, parent, events[..k]), events[k])
    ensures !AlwaysClosesClean(Run(INITIAL, parent, events[..k + 1]), parent)
  {
    hide *;
    var s := Run(INITIAL, parent, events[..k]);
    OrderlyHolds(parent, events[..k]);
    var i, j, kind := LapseIsTwoOut(s, parent, events[k]);
    assert events[..k + 1] == events[..k] + [events[k]];
    RunParts(INITIAL, parent, events[..k], [events[k]]);
    RunOne(s, parent, events[k]);
    TwoOutLeak(events[..k + 1], parent, i, j, kind);
  }

  lemma {:induction false} RunOne(s: State, parent: Id, e: Event)
    ensures Run(s, parent, [e]) == Step(s, parent, e)
  {
    hide Step;
    assert [e][1..] == [];
    assert Run(Step(s, parent, e), parent, []) == Step(s, parent, e);
  }

  /** A run is orderly if and only if at each of its points every orderly continuation in which a close
      resolves has cleaned up all that was ever acknowledged. */
  lemma {:induction false} OrderlyExactly(parent: Id, events: seq<Event>)
    ensures Orderly(INITIAL, parent, events)
       <==> forall k :: 0 <= k <= |events| ==> AlwaysClosesClean(Run(INITIAL, parent, events[..k]), parent)
  {
    hide Run;
    hide Orderly;
    hide AlwaysClosesClean;
    if Orderly(INITIAL, parent, events) {
      forall k | 0 <= k <= |events| ensures AlwaysClosesClean(Run(INITIAL, parent, events[..k]), parent) {
        assert events == events[..k] + events[k..];
        OrderlyParts(INITIAL, parent, events[..k], events[k..]);
        OrderlyIsSafe(parent, events[..k]);
      }
    } else {
      var k := FirstLapse(INITIAL, parent, events);
      LapseLeaks(parent, events, k);
    }
  }
}
