/** One search-only child thread on a borrowed transport (server/codex-borrowed-search.ts).

    An event is one section that runs without an `await`.  A request is four events: the caller asks,
    the ownership check returns, the receipt arrives, the second ownership check returns. */
module BorrowedSearch {
  import opened Options

  type Id = s: string | s != "" witness "id"

  datatype Method = ConfigRead | ThreadStart | TurnStart | Unlisted

  datatype Rpc =
    | Work(kind: Method, thread: Option<Id>)
    | Interrupt(child: Id, turn: Id)
    | Unsubscribe(child: Id)

  /** What crosses the transport, in order: requests out, terminal notifications in. */
  datatype Entry = Out(rpc: Rpc) | Terminal(turn: Id)

  datatype Phase = Checking | Sent | Received | Done

  datatype Request = Request(kind: Method, thread: Option<Id>, phase: Phase)

  datatype Closing =
    | Open
    | Draining(upTo: nat)
    | Interrupting
    | Unsubscribing(interrupted: bool)
    | Resolved(interrupted: bool)
    | Rejected

  datatype State = State(
    threadId: Option<Id>,
    turnId: Option<Id>,
    turnRequested: bool,
    terminalTurns: set<Id>,
    requests: seq<Request>,
    closing: Closing,
    closed: bool,
    log: seq<Entry>,
    // every child thread and every turn a receipt ever reported, in order
    accepted: seq<Id>,
    turns: seq<Id>)

  datatype Event =
    | Ask(kind: Method, thread: Option<Id>)
    | Checked(index: nat, current: bool)
    | Receipt(index: nat, id: Option<Id>)
    | Rechecked(index: nat)
    | Notification(child: Id, turn: Option<Id>)
    | TransportClosed
    | CloseCalled
    | Drained
    | InterruptReply(ok: bool)
    | UnsubscribeReply(ok: bool)

  const INITIAL := State(None, None, false, {}, [], Open, false, [], [], [])

  function Phased(s: State, i: nat, phase: Phase): seq<Request> {
    if i < |s.requests| then s.requests[i := s.requests[i].(phase := phase)] else s.requests
  }

  predicate InPhase(s: State, i: nat, phase: Phase) {
    i < |s.requests| && s.requests[i].phase == phase
  }

  /** The admission rule of a request whose first ownership check passed. */
  predicate Admits(s: State, r: Request) {
    && !s.closed && r.kind != Unlisted
    && (r.kind == ThreadStart ==> s.threadId.None?)
    && (r.kind == TurnStart ==> s.threadId.Some? && r.thread == s.threadId && s.turnId.None?)
  }

  function ReceiptStep(s: State, parent: Id, i: nat, id: Option<Id>): State {
    if !InPhase(s, i, Sent) then s
    else if id.None? || (s.requests[i].kind == ThreadStart && id.value == parent)
    then s.(requests := Phased(s, i, Done))
    else
      var s1 := s.(requests := Phased(s, i, Received));
      match s.requests[i].kind
      case ThreadStart => s1.(threadId := id, accepted := s.accepted + [id.value])
      case TurnStart => s1.(turnId := id, turns := s.turns + [id.value])
      case _ => s1
  }

  predicate Settled(s: State, upTo: nat) {
    forall i :: 0 <= i < upTo && i < |s.requests| ==> s.requests[i].phase == Done
  }

  /** The body of `close` once every outstanding receipt has settled. */
  function DrainedStep(s: State): State {
    if !s.closing.Draining? || !Settled(s, s.closing.upTo) then s
    else if s.threadId.None? then s.(closing := Resolved(false))
    else if s.turnRequested && s.turnId.None? then s.(closing := Rejected)
    else if s.turnId.Some? && s.turnId.value !in s.terminalTurns then
      s.(closing := Interrupting, log := s.log + [Out(Interrupt(s.threadId.value, s.turnId.value))])
    else s.(closing := Unsubscribing(false), log := s.log + [Out(Unsubscribe(s.threadId.value))])
  }

  function Step(s: State, parent: Id, e: Event): State {
    match e
    case Ask(kind, thread) =>
      if s.closed then s else s.(requests := s.requests + [Request(kind, thread, Checking)])
    case Checked(i, current) =>
      if !InPhase(s, i, Checking) then s
      else if !current || !Admits(s, s.requests[i]) then s.(requests := Phased(s, i, Done))
      else s.(requests := Phased(s, i, Sent),
              turnRequested := s.turnRequested || s.requests[i].kind == TurnStart,
              log := s.log + [Out(Work(s.requests[i].kind, s.requests[i].thread))])
    case Receipt(i, id) => ReceiptStep(s, parent, i, id)
    case Rechecked(i) => if InPhase(s, i, Received) then s.(requests := Phased(s, i, Done)) else s
    case Notification(child, turn) =>
      if s.threadId != Some(child) || turn.None? then s
      else s.(terminalTurns := s.terminalTurns + {turn.value}, log := s.log + [Terminal(turn.value)])
    case TransportClosed => s.(closed := true)
    case CloseCalled => if s.closing != Open then s else s.(closed := true, closing := Draining(|s.requests|))
    case Drained => DrainedStep(s)
    case InterruptReply(ok) =>
      if s.closing != Interrupting then s
      else if !ok || s.threadId.None? then s.(closing := Rejected)
      else s.(closing := Unsubscribing(true), log := s.log + [Out(Unsubscribe(s.threadId.value))])
    case UnsubscribeReply(ok) =>
      if !s.closing.Unsubscribing? then s
      else s.(closing := if ok then Resolved(s.closing.interrupted) else Rejected)
  }

  function Run(s: State, parent: Id, events: seq<Event>): State
    decreases |events|
  {
    if events == [] then s else Run(Step(s, parent, events[0]), parent, events[1..])
  }

  // ---------------------------------------------------------------- after close begins

  predicate IsWork(e: Entry) {
    e.Out? && e.rpc.Work?
  }

  /** `later` extends `log` without a single request for work. */
  ghost predicate OnlyCleanup(log: seq<Entry>, later: seq<Entry>) {
    && log <= later
    && forall k :: |log| <= k < |later| ==> !IsWork(later[k])
  }

  /** Once closed, whatever requests were already in flight: no work is sent any more. */
  lemma {:induction false} NoWorkAfterClose(s: State, parent: Id, events: seq<Event>)
    requires s.closed
    ensures Run(s, parent, events).closed
    ensures OnlyCleanup(s.log, Run(s, parent, events).log)
    decreases |events|
  {
    if events != [] {
      var s1 := Step(s, parent, events[0]);
      assert s1.closed && OnlyCleanup(s.log, s1.log);
      NoWorkAfterClose(s1, parent, events[1..]);
    }
  }

  // ---------------------------------------------------------------- who is named

  /** Work on a turn, interrupts and unsubscribes name a child. */
  predicate NamesChild(e: Entry, parent: Id) {
    match e
    case Terminal(_) => true
    case Out(Work(kind, thread)) => kind == TurnStart ==> thread.Some? && thread.value != parent
    case Out(Interrupt(child, _)) => child != parent
    case Out(Unsubscribe(child)) => child != parent
  }

  ghost predicate Named(s: State, parent: Id) {
    && s.threadId != Some(parent)
    && forall k :: 0 <= k < |s.log| ==> NamesChild(s.log[k], parent)
  }

  lemma {:induction false} NamedStep(s: State, parent: Id, e: Event)
    requires Named(s, parent)
    ensures Named(Step(s, parent, e), parent)
  {
    hide Settled;
    var t := Step(s, parent, e);
    assert |t.log| <= |s.log| + 1 && forall k :: 0 <= k < |s.log| ==> t.log[k] == s.log[k];
    if |t.log| > |s.log| { assert NamesChild(t.log[|s.log|], parent); }
  }

  lemma {:induction false} NamedRuns(s: State, parent: Id, events: seq<Event>)
    requires Named(s, parent)
    ensures Named(Run(s, parent, events), parent)
    decreases |events|
  {
    if events != [] {
      NamedStep(s, parent, events[0]);
      hide Named;
      hide Step;
      NamedRuns(Step(s, parent, events[0]), parent, events[1..]);
    }
  }

  /** In every run, overlapping requests included: no turn is started on the parent, and no interrupt
      and no unsubscribe names it. */
  lemma {:induction false} ParentIsNeverNamed(parent: Id, events: seq<Event>, k: nat)
    requires k < |Run(INITIAL, parent, events).log|
    ensures NamesChild(Run(INITIAL, parent, events).log[k], parent)
  {
    NamedRuns(INITIAL, parent, events);
  }

  // ---------------------------------------------------------------- cleanup

  function Cleanup(log: seq<Entry>): seq<Rpc> {
    if log == [] then []
    else
      var last := log[|log| - 1];
      Cleanup(log[..|log| - 1]) + if last.Out? && !last.rpc.Work? then [last.rpc] else []
  }

  lemma {:induction false} CleanupAppend(log: seq<Entry>, e: Entry)
    ensures Cleanup(log + [e]) == Cleanup(log) + if e.Out? && !e.rpc.Work? then [e.rpc] else []
  {
    assert (log + [e])[..|log|] == log;
  }

  function Last(ids: seq<Id>): Option<Id> {
    if ids == [] then None else Some(ids[|ids| - 1])
  }

  /** What holds of the requests at every await point of every run. */
  ghost predicate RequestsOk(s: State) {
    && (forall i :: 0 <= i < |s.requests| && s.requests[i].phase == Sent && s.requests[i].kind == TurnStart ==>
          s.turnRequested)
    && s.threadId == Last(s.accepted) && s.turnId == Last(s.turns)
    && (s.turnRequested ==> s.threadId.Some?)
    && (s.turnId.Some? ==> s.turnRequested)
    && (s.closing != Open ==> s.closed)
    && (s.closing.Draining? ==> s.closing.upTo == |s.requests|)
    && (s.closing.Interrupting? || s.closing.Unsubscribing? ==> s.threadId.Some?)
    && (Interrupted(s.closing) ==> s.threadId.Some? && s.turnId.Some?)
    && (Finishing(s.closing) ==> Settled(s, |s.requests|) && (s.turnRequested ==> s.turnId.Some?))
  }

  predicate Finishing(c: Closing) {
    c.Interrupting? || c.Unsubscribing? || c.Resolved?
  }

  /** An interrupt has gone out. */
  predicate Interrupted(c: Closing) {
    c.Interrupting? || (c.Unsubscribing? && c.interrupted) || (c.Resolved? && c.interrupted)
  }

  /** The cleanup requests sent so far by a close that has not been rejected, in order. */
  function Expected(s: State): seq<Rpc> {
    if s.threadId.None? || s.closing.Open? || s.closing.Draining? then []
    else
      (if Interrupted(s.closing) && s.turnId.Some? then [Interrupt(s.threadId.value, s.turnId.value)] else [])
      + if s.closing.Interrupting? then [] else [Unsubscribe(s.threadId.value)]
  }

  predicate IsInterrupt(e: Entry) {
    e.Out? && e.rpc.Interrupt?
  }

  predicate IsUnsubscribe(e: Entry) {
    e.Out? && e.rpc.Unsubscribe?
  }

  predicate IsTurnStart(e: Entry) {
    e.Out? && e.rpc.Work? && e.rpc.kind == TurnStart
  }

  /** Interrupts go out before their turn is known to be terminal; unsubscribing without one, after. */
  ghost predicate Timely(log: seq<Entry>, turn: Id, interrupted: bool) {
    && (forall k :: 0 <= k < |log| && IsInterrupt(log[k]) ==> Terminal(turn) !in log[..k])
    && (!interrupted ==>
          forall k :: 0 <= k < |log| && IsUnsubscribe(log[k]) ==> Terminal(turn) in log[..k])
  }

  ghost predicate TurnSent(log: seq<Entry>) {
    exists k :: 0 <= k < |log| && IsTurnStart(log[k])
  }

  /** What the log records of the state. */
  ghost predicate LogOk(s: State) {
    && (forall u :: u in s.terminalTurns <==> Terminal(u) in s.log)
    && (s.turnRequested <==> TurnSent(s.log))
    && (!s.closing.Rejected? ==> Cleanup(s.log) == Expected(s))
    && (s.turnId.Some? && !s.closing.Rejected? ==> Timely(s.log, s.turnId.value, Interrupted(s.closing)))
  }

  ghost predicate Inv(s: State) {
    RequestsOk(s) && LogOk(s)
  }

  /** The log as one entry is added. */
  lemma {:induction false} LogGrows(log: seq<Entry>, e: Entry)
    ensures Cleanup(log + [e]) == Cleanup(log) + if e.Out? && !e.rpc.Work? then [e.rpc] else []
    ensures forall u :: Terminal(u) in log + [e] <==> Terminal(u) in log || e == Terminal(u)
    ensures TurnSent(log + [e]) <==> IsTurnStart(e) || TurnSent(log)
  {
    CleanupAppend(log, e);
    if IsTurnStart(e) {
      assert (log + [e])[|log|] == e;
    }
    if k :| 0 <= k < |log| && IsTurnStart(log[k]) {
      assert (log + [e])[k] == log[k];
    }
  }

  lemma {:induction false} TimelyGrows(log: seq<Entry>, e: Entry, turn: Id, before: bool, after: bool)
    requires Timely(log, turn, before) && (before ==> after)
    requires IsInterrupt(e) ==> Terminal(turn) !in log
    requires IsUnsubscribe(e) && !after ==> Terminal(turn) in log
    ensures Timely(log + [e], turn, after)
  {
    forall k | 0 <= k <= |log| ensures (log + [e])[..k] == log[..k] {}
    assert log[..|log|] == log;
  }

  /** Before any cleanup the timing clause is vacuous, whichever turn is recorded. */
  lemma {:induction false} TimelyWithoutCleanup(log: seq<Entry>, turn: Id)
    requires Cleanup(log) == []
    ensures Timely(log, turn, false)
  {
    forall k | 0 <= k < |log| ensures !IsInterrupt(log[k]) && !IsUnsubscribe(log[k]) {
      if IsInterrupt(log[k]) || IsUnsubscribe(log[k]) {
        CleanupOut(log, k);
      }
    }
  }

  lemma {:induction false} CleanupOut(log: seq<Entry>, k: nat)
    requires k < |log| && log[k].Out? && !log[k].rpc.Work?
    ensures log[k].rpc in Cleanup(log)
  {
    if k < |log| - 1 {
      assert log[..|log| - 1][k] == log[k];
      CleanupOut(log[..|log| - 1], k);
    }
  }

  lemma {:induction false} CheckedKeeps(s: State, parent: Id, i: nat, current: bool)
    requires Inv(s)
    ensures LogOk(Step(s, parent, Checked(i, current)))
  {
    hide Cleanup;
    hide TurnSent;
    hide Timely;
    hide RequestsOk;
    hide Settled;
    if InPhase(s, i, Checking) && current && Admits(s, s.requests[i]) {
      var e := Out(Work(s.requests[i].kind, s.requests[i].thread));
      LogGrows(s.log, e);
      if s.turnId.Some? && !s.closing.Rejected? {
        TimelyGrows(s.log, e, s.turnId.value, Interrupted(s.closing), Interrupted(s.closing));
      }
    }
  }

  lemma {:induction false} NotificationKeeps(s: State, parent: Id, child: Id, turn: Option<Id>)
    requires Inv(s)
    ensures LogOk(Step(s, parent, Notification(child, turn)))
  {
    hide Cleanup;
    hide TurnSent;
    hide Timely;
    hide RequestsOk;
    if s.threadId == Some(child) && turn.Some? {
      var e := Terminal(turn.value);
      LogGrows(s.log, e);
      if s.turnId.Some? && !s.closing.Rejected? {
        TimelyGrows(s.log, e, s.turnId.value, Interrupted(s.closing), Interrupted(s.closing));
      }
      var t := Step(s, parent, Notification(child, turn));
      assert t == s.(terminalTurns := s.terminalTurns + {turn.value}, log := s.log + [e]);
      assert Expected(t) == Expected(s);
      hide Step;
      hide Expected;
    }
  }

  lemma {:induction false} ReceiptKeeps(s: State, parent: Id, i: nat, id: Option<Id>)
    requires Inv(s)
    ensures LogOk(ReceiptStep(s, parent, i, id))
  {
    hide Cleanup;
    hide TurnSent;
    hide Timely;
    if InPhase(s, i, Sent) && id.Some? {
      // No cleanup has gone out while a request is outstanding.
      OutstandingIsUnfinished(s, i);
      if s.requests[i].kind == TurnStart && !s.closing.Rejected? { TimelyWithoutCleanup(s.log, id.value); }
    }
    hide RequestsOk;
    hide Settled;
  }

  lemma {:induction false} DrainedKeeps(s: State)
    requires Inv(s)
    ensures LogOk(DrainedStep(s))
  {
    hide Cleanup;
    hide TurnSent;
    hide Timely;
    var t := DrainedStep(s);
    if t.log != s.log {
      var e := t.log[|s.log|];
      LogGrows(s.log, e);
      if s.turnId.Some? {
        TimelyGrows(s.log, e, s.turnId.value, false, Interrupted(t.closing));
      }
    }
    hide Settled;
  }

  lemma {:induction false} InterruptReplyKeeps(s: State, parent: Id, ok: bool)
    requires Inv(s)
    ensures LogOk(Step(s, parent, InterruptReply(ok)))
  {
    hide Cleanup;
    hide TurnSent;
    hide Timely;
    hide Settled;
    if s.closing.Interrupting? && ok {
      var e := Out(Unsubscribe(s.threadId.value));
      LogGrows(s.log, e);
      TimelyGrows(s.log, e, s.turnId.value, true, true);
    }
  }

  /** Moving one request on, without a new one being sent. */
  lemma {:induction false} PhasedKeeps(s: State, i: nat, phase: Phase)
    requires RequestsOk(s) && i < |s.requests| && s.requests[i].phase != Done && phase != Sent
    requires !Finishing(s.closing)
    ensures RequestsOk(s.(requests := Phased(s, i, phase)))
  {}

  lemma {:induction false} OutstandingIsUnfinished(s: State, i: nat)
    requires RequestsOk(s) && i < |s.requests| && s.requests[i].phase != Done
    ensures !Finishing(s.closing)
  {}

  lemma {:induction false} ReceiptRequests(s: State, parent: Id, i: nat, id: Option<Id>)
    requires RequestsOk(s)
    ensures RequestsOk(ReceiptStep(s, parent, i, id))
  {
    if InPhase(s, i, Sent) {
      OutstandingIsUnfinished(s, i);
      PhasedKeeps(s, i, Done);
      PhasedKeeps(s, i, Received);
    }
  }

  lemma {:induction false} CheckedRequests(s: State, parent: Id, i: nat, current: bool)
    requires RequestsOk(s)
    ensures RequestsOk(Step(s, parent, Checked(i, current)))
  {
    if InPhase(s, i, Checking) {
      OutstandingIsUnfinished(s, i);
      PhasedKeeps(s, i, Done);
    }
  }

  lemma {:induction false} RequestsKept(s: State, parent: Id, e: Event)
    requires RequestsOk(s)
    ensures RequestsOk(Step(s, parent, e))
  {
    match e
    case Checked(i, current) => CheckedRequests(s, parent, i, current);
    case Receipt(i, id) => ReceiptRequests(s, parent, i, id);
    case Rechecked(i) =>
      if InPhase(s, i, Received) {
        OutstandingIsUnfinished(s, i);
        PhasedKeeps(s, i, Done);
      }
    case Drained =>
      assert s.closing.Draining? ==> s.closing.upTo == |s.requests|;
    case _ =>
  }

  lemma {:induction false} LogKept(s: State, parent: Id, e: Event)
    requires Inv(s)
    ensures LogOk(Step(s, parent, e))
  {
    hide Timely;
    hide Cleanup;
    hide TurnSent;
    match e
    case Checked(i, current) => CheckedKeeps(s, parent, i, current);
    case Receipt(i, id) => ReceiptKeeps(s, parent, i, id);
    case Notification(child, turn) => NotificationKeeps(s, parent, child, turn);
    case Drained => DrainedKeeps(s);
    case InterruptReply(ok) => InterruptReplyKeeps(s, parent, ok);
    case _ => hide RequestsOk;
  }

  lemma {:induction false} StepKeeps(s: State, parent: Id, e: Event)
    requires Inv(s)
    ensures Inv(Step(s, parent, e))
  {
    RequestsKept(s, parent, e);
    LogKept(s, parent, e);
    hide RequestsOk;
    hide LogOk;
    hide Step;
  }

  lemma {:induction false} RunKeeps(s: State, parent: Id, events: seq<Event>)
    requires Inv(s)
    ensures Inv(Run(s, parent, events))
    decreases |events|
  {
    if events != [] {
      StepKeeps(s, parent, events[0]);
      hide Inv;
      hide Step;
      RunKeeps(Step(s, parent, events[0]), parent, events[1..]);
    }
  }

  /** What `close` does, in every run, overlapping requests included.  When it resolves, every request
      has settled, and the cleanup sent is exactly one unsubscribe of the last child accepted, preceded by
      one interrupt of the last turn acknowledged or by nothing. */
  lemma {:induction false} CloseResolves(parent: Id, events: seq<Event>, t: State)
    requires t == Run(INITIAL, parent, events) && t.closing.Resolved?
    ensures Settled(t, |t.requests|)
    ensures t.threadId == Last(t.accepted) && t.turnId == Last(t.turns)
    ensures t.threadId.None? ==> t.turns == [] && Cleanup(t.log) == []
    ensures t.threadId.Some? ==>
              && (t.turnRequested ==> t.turnId.Some?)
              && (|| Cleanup(t.log) == [Unsubscribe(t.threadId.value)]
                  || (t.turnId.Some? &&
                      Cleanup(t.log) == [Interrupt(t.threadId.value, t.turnId.value), Unsubscribe(t.threadId.value)]))
  {
    RunKeeps(INITIAL, parent, events);
  }

  lemma {:induction false} FirstCleanupKind(t: State, k: nat)
    requires Inv(t) && t.closing.Resolved? && t.turnId.Some?
    requires k < |t.log| && (IsInterrupt(t.log[k]) || IsUnsubscribe(t.log[k])) && Cleanup(t.log[..k]) == []
    ensures IsInterrupt(t.log[k]) <==> Terminal(t.turnId.value) !in t.log[..k]
  {
    FirstCleanup(t.log, k);
    hide Cleanup;
    hide TurnSent;
    hide Settled;
  }

  /** The interrupt is sent exactly when the turn was not yet known to be terminal: the first cleanup
      request is an interrupt iff no terminal notification of the recorded turn precedes it. */
  lemma {:induction false} InterruptIffNotTerminal(parent: Id, events: seq<Event>, t: State, k: nat)
    requires t == Run(INITIAL, parent, events)
    requires t.closing.Resolved? && t.turnId.Some?
    requires k < |t.log| && (IsInterrupt(t.log[k]) || IsUnsubscribe(t.log[k])) && Cleanup(t.log[..k]) == []
    ensures IsInterrupt(t.log[k]) <==> Terminal(t.turnId.value) !in t.log[..k]
  {
    RunKeeps(INITIAL, parent, events);
    hide Inv;
    hide Run;
    hide Cleanup;
    FirstCleanupKind(t, k);
  }

  lemma {:induction false} FirstCleanup(log: seq<Entry>, k: nat)
    requires k < |log| && (IsInterrupt(log[k]) || IsUnsubscribe(log[k])) && Cleanup(log[..k]) == []
    ensures Cleanup(log) != [] && Cleanup(log)[0] == log[k].rpc
  {
    hide Cleanup;
    assert log[..k + 1] == log[..k] + [log[k]];
    CleanupAppend(log[..k], log[k]);
    CleanupPrefix(log, k + 1);
  }

  lemma {:induction false} CleanupPrefix(log: seq<Entry>, k: nat)
    requires k <= |log|
    ensures Cleanup(log[..k]) <= Cleanup(log)
  {
    if k < |log| {
      assert log[..|log| - 1][..k] == log[..k];
      CleanupPrefix(log[..|log| - 1], k);
    } else {
      assert log[..k] == log;
    }
  }

  /** Once drained, `close` refuses exactly when a turn/start went out and no turn was acknowledged. */
  lemma {:induction false} MissingReceiptRefuses(parent: Id, events: seq<Event>, t: State)
    requires t == Run(INITIAL, parent, events)
    requires t.closing.Draining? && Settled(t, |t.requests|)
    ensures Step(t, parent, Drained).closing.Rejected? <==> t.turnId.None? && TurnSent(t.log)
  {
    RunKeeps(INITIAL, parent, events);
    hide Run;
    DrainOutcome(t, parent);
    hide Inv;
  }

  lemma {:induction false} DrainOutcome(t: State, parent: Id)
    requires Inv(t) && t.closing.Draining? && Settled(t, |t.requests|)
    ensures Step(t, parent, Drained).closing.Rejected? <==> t.turnId.None? && TurnSent(t.log)
  {
    hide Cleanup;
    hide TurnSent;
    hide Timely;
  }

  // ---------------------------------------------------------------- which callers get a full cleanup

  predicate IsStart(kind: Method) {
    kind == ThreadStart || kind == TurnStart
  }

  /** Nothing of this kind is out without a receipt. */
  predicate NoneOut(s: State, kind: Method) {
    forall j :: 0 <= j < |s.requests| && s.requests[j].phase == Sent ==> s.requests[j].kind != kind
  }

  /** This event does not send a thread/start or turn/start beside another of its kind. */
  predicate SendsAlone(s: State, e: Event) {
    (e.Checked? && e.current && InPhase(s, e.index, Checking) && Admits(s, s.requests[e.index])
     && IsStart(s.requests[e.index].kind)) ==> NoneOut(s, s.requests[e.index].kind)
  }

  /** No two thread/start and no two turn/start requests are out at once; anything else may overlap. */
  predicate Orderly(s: State, parent: Id, events: seq<Event>)
    decreases |events|
  {
    events == [] || (SendsAlone(s, events[0]) && Orderly(Step(s, parent, events[0]), parent, events[1..]))
  }

  ghost predicate AloneOk(s: State) {
    && |s.accepted| <= 1 && |s.turns| <= 1
    && (forall i, j :: 0 <= i < j < |s.requests| && s.requests[i].phase == s.requests[j].phase == Sent ==>
          s.requests[i].kind != s.requests[j].kind || !IsStart(s.requests[i].kind))
    && (forall i :: 0 <= i < |s.requests| && s.requests[i].phase == Sent ==>
          && (s.requests[i].kind == ThreadStart ==> s.accepted == [])
          && (s.requests[i].kind == TurnStart ==> s.turns == []))
  }

  lemma {:induction false} AloneChecked(s: State, parent: Id, i: nat, current: bool)
    requires AloneOk(s) && RequestsOk(s) && SendsAlone(s, Checked(i, current))
    ensures AloneOk(Step(s, parent, Checked(i, current)))
  {
    hide Settled;
    hide Finishing;
    hide Interrupted;
  }

  lemma {:induction false} AloneReceipt(s: State, parent: Id, i: nat, id: Option<Id>)
    requires AloneOk(s)
    ensures AloneOk(ReceiptStep(s, parent, i, id))
  {
  }

  lemma {:induction false} AloneKept(s: State, parent: Id, e: Event)
    requires AloneOk(s) && RequestsOk(s) && SendsAlone(s, e)
    ensures AloneOk(Step(s, parent, e))
  {
    match e
    case Checked(i, current) =>
      AloneChecked(s, parent, i, current);
      hide *;
    case Receipt(i, id) =>
      AloneReceipt(s, parent, i, id);
      hide RequestsOk;
      hide AloneOk;
      hide ReceiptStep;
    case _ =>
      hide RequestsOk;
      hide SendsAlone;
      hide Settled;
  }

  lemma {:induction false} OrderlyRuns(s: State, parent: Id, events: seq<Event>)
    requires AloneOk(s) && RequestsOk(s) && Orderly(s, parent, events)
    ensures AloneOk(Run(s, parent, events))
    decreases |events|
  {
    if events != [] {
      AloneKept(s, parent, events[0]);
      RequestsKept(s, parent, events[0]);
      hide AloneOk;
      hide RequestsOk;
      hide Step;
      hide SendsAlone;
      OrderlyRuns(Step(s, parent, events[0]), parent, events[1..]);
    }
  }

  /** Every child a receipt ever reported was unsubscribed, and every turn was interrupted or is known
      to be terminal. */
  ghost predicate CleanedUp(t: State) {
    && (forall child :: child in t.accepted ==> Unsubscribe(child) in Cleanup(t.log))
    && (forall turn :: turn in t.turns ==>
          Terminal(turn) in t.log || (t.threadId.Some? && Interrupt(t.threadId.value, turn) in Cleanup(t.log)))
  }

  /** The promise of `close`: for an orderly caller a resolved close has cleaned up everything that was
      ever accepted, and there was at most one child and one turn of it. */
  lemma {:induction false} OrderlyClosesClean(parent: Id, events: seq<Event>, t: State)
    requires Orderly(INITIAL, parent, events) && t == Run(INITIAL, parent, events) && t.closing.Resolved?
    ensures CleanedUp(t) && |t.accepted| <= 1 && |t.turns| <= 1
  {
    OrderlyRuns(INITIAL, parent, events);
    RunKeeps(INITIAL, parent, events);
    hide Orderly;
    hide Run;
    ResolvedCleansUp(t);
    hide Inv;
    hide CleanedUp;
  }

  lemma {:induction false} ResolvedCleansUp(t: State)
    requires Inv(t) && t.closing.Resolved? && |t.accepted| <= 1 && |t.turns| <= 1
    ensures CleanedUp(t)
  {
    hide Cleanup;
    hide TurnSent;
    if t.threadId.Some? {
      var child := t.threadId.value;
      assert t.accepted == [child];
      if t.turnId.Some? && !t.closing.interrupted {
        var k := UnsubscribeIsIn(t.log, child);
        assert Terminal(t.turnId.value) in t.log[..k];
      }
    }
  }

  lemma {:induction false} UnsubscribeIsIn(log: seq<Entry>, child: Id) returns (k: nat)
    requires Unsubscribe(child) in Cleanup(log)
    ensures k < |log| && log[k] == Out(Unsubscribe(child))
    decreases |log|
  {
    var init := log[..|log| - 1];
    if Unsubscribe(child) in Cleanup(init) {
      k := UnsubscribeIsIn(init, child);
    } else {
      k := |log| - 1;
    }
  }

  /** The discipline is what is needed.  As soon as two thread/start requests are out at once, the
      receipts may name two children, and then no close that resolves unsubscribes both. */
  lemma {:induction false} OverlappingThreadsLeak(
      before: seq<Event>, parent: Id, i: nat, j: nat, a: Id, b: Id, later: seq<Event>)
    requires var s := Run(INITIAL, parent, before);
             && i != j && InPhase(s, i, Sent) && InPhase(s, j, Sent)
             && s.requests[i].kind == ThreadStart && s.requests[j].kind == ThreadStart
    requires a != b && a != parent && b != parent
    ensures var t := Run(INITIAL, parent, before + ([Receipt(i, Some(a)), Receipt(j, Some(b))] + later));
            t.closing.Resolved? ==> a in t.accepted && b in t.accepted && !CleanedUp(t)
  {
    var s := Run(INITIAL, parent, before);
    var s1 := Step(s, parent, Receipt(i, Some(a)));
    var s2 := Step(s1, parent, Receipt(j, Some(b)));
    var all := before + ([Receipt(i, Some(a)), Receipt(j, Some(b))] + later);
    var t := Run(INITIAL, parent, all);
    assert a in s2.accepted && b in s2.accepted by {
      assert s2.accepted == s.accepted + [a] + [b];
    }
    TwoThen(s, parent, Receipt(i, Some(a)), Receipt(j, Some(b)), later);
    RunParts(INITIAL, parent, before, [Receipt(i, Some(a)), Receipt(j, Some(b))] + later);
    hide Run;
    hide Step;
    TracesGrow(s2, parent, later);
    if t.closing.Resolved? {
      CloseResolves(parent, all, t);
      hide Cleanup;
    }
  }

  /** The same of turns: only the last one acknowledged is ever interrupted. */
  lemma {:induction false} OverlappingTurnsLeak(
      before: seq<Event>, parent: Id, i: nat, j: nat, u: Id, v: Id, later: seq<Event>)
    requires var s := Run(INITIAL, parent, before);
             && i != j && InPhase(s, i, Sent) && InPhase(s, j, Sent)
             && s.requests[i].kind == TurnStart && s.requests[j].kind == TurnStart
    requires u != v
    ensures var t := Run(INITIAL, parent, before + ([Receipt(i, Some(u)), Receipt(j, Some(v))] + later));
            && (t.closing.Resolved? ==> u in t.turns && v in t.turns)
            && (t.closing.Resolved? && Terminal(u) !in t.log && Terminal(v) !in t.log ==> !CleanedUp(t))
  {
    var s := Run(INITIAL, parent, before);
    var s1 := Step(s, parent, Receipt(i, Some(u)));
    var s2 := Step(s1, parent, Receipt(j, Some(v)));
    var all := before + ([Receipt(i, Some(u)), Receipt(j, Some(v))] + later);
    var t := Run(INITIAL, parent, all);
    assert u in s2.turns && v in s2.turns by {
      assert s2.turns == s.turns + [u] + [v];
    }
    TwoThen(s, parent, Receipt(i, Some(u)), Receipt(j, Some(v)), later);
    RunParts(INITIAL, parent, before, [Receipt(i, Some(u)), Receipt(j, Some(v))] + later);
    hide Run;
    hide Step;
    TracesGrow(s2, parent, later);
    if t.closing.Resolved? {
      CloseResolves(parent, all, t);
      hide Cleanup;
    }
  }

  lemma {:induction false} TwoThen(s: State, parent: Id, e: Event, f: Event, later: seq<Event>)
    ensures Run(s, parent, [e, f] + later) == Run(Step(Step(s, parent, e), parent, f), parent, later)
  {
    hide Step;
    assert ([e, f] + later)[1..] == [f] + later && ([f] + later)[1..] == later;
    assert Run(Step(s, parent, e), parent, [f] + later) == Run(Step(Step(s, parent, e), parent, f), parent, later);
  }

  lemma {:induction false} TracesGrow(s: State, parent: Id, events: seq<Event>)
    ensures s.accepted <= Run(s, parent, events).accepted && s.turns <= Run(s, parent, events).turns
    decreases |events|
  {
    if events != [] {
      var s1 := Step(s, parent, events[0]);
      assert s.accepted <= s1.accepted && s.turns <= s1.turns;
      hide Step;
      TracesGrow(s1, parent, events[1..]);
    }
  }

  /** A caller that asks only when its last request has settled is orderly. */
  predicate OneAtATime(s: State, parent: Id, events: seq<Event>)
    decreases |events|
  {
    events == []
    || (&& (events[0].Ask? ==> Settled(s, |s.requests|))
        && OneAtATime(Step(s, parent, events[0]), parent, events[1..]))
  }

  ghost predicate OnlyOne(s: State) {
    forall i, j :: 0 <= i < j < |s.requests| ==> s.requests[i].phase == Done || s.requests[j].phase == Done
  }

  lemma {:induction false} OneAtATimeIsOrderly(s: State, parent: Id, events: seq<Event>)
    requires OnlyOne(s) && OneAtATime(s, parent, events)
    ensures Orderly(s, parent, events)
    decreases |events|
  {
    if events != [] {
      OnlyOneKept(s, parent, events[0]);
      hide Step;
      hide OnlyOne;
      hide SendsAlone;
      OneAtATimeIsOrderly(Step(s, parent, events[0]), parent, events[1..]);
    }
  }

  lemma {:induction false} OnlyOneKept(s: State, parent: Id, e: Event)
    requires OnlyOne(s) && (e.Ask? ==> Settled(s, |s.requests|))
    ensures OnlyOne(Step(s, parent, e)) && SendsAlone(s, e)
  {
    hide Admits;
  }

  // ---------------------------------------------------------------- requests whose receipt is lost

  function Starts(log: seq<Entry>, kind: Method): nat {
    if log == [] then 0
    else
      var last := log[|log| - 1];
      Starts(log[..|log| - 1], kind) + if last.Out? && last.rpc.Work? && last.rpc.kind == kind then 1 else 0
  }

  lemma {:induction false} TurnsAreCounted(log: seq<Entry>)
    ensures TurnSent(log) <==> Starts(log, TurnStart) > 0
  {
    if log != [] {
      var (init, e) := (log[..|log| - 1], log[|log| - 1]);
      assert log == init + [e];
      LogGrows(init, e);
      hide TurnSent;
      TurnsAreCounted(init);
    }
  }

  /** What a resolved close of an orderly caller knows: one turn if any turn/start was sent, so that all of
      them were acknowledged if and only if at most one was sent (a second one can only follow a first
      whose receipt was lost); one child or none; and no turn/start was sent without a child. */
  lemma {:induction false} WhatACloseKnows(parent: Id, events: seq<Event>, t: State)
    requires Orderly(INITIAL, parent, events) && t == Run(INITIAL, parent, events) && t.closing.Resolved?
    ensures |t.turns| == if Starts(t.log, TurnStart) == 0 then 0 else 1
    ensures |t.accepted| == if t.threadId.Some? then 1 else 0
    ensures t.accepted == [] ==> Starts(t.log, TurnStart) == 0
  {
    OrderlyRuns(INITIAL, parent, events);
    RunKeeps(INITIAL, parent, events);
    TurnsAreCounted(t.log);
    hide Orderly;
    hide Run;
    hide Starts;
    hide Cleanup;
    hide Timely;
    hide TurnSent;
  }

  lemma {:induction false} RunParts(s: State, parent: Id, a: seq<Event>, b: seq<Event>)
    ensures Run(s, parent, a + b) == Run(Run(s, parent, a), parent, b)
    decreases |a|
  {
    if a == [] {
      assert a + b == b;
    } else {
      assert (a + b)[1..] == a[1..] + b;
      RunParts(Step(s, parent, a[0]), parent, a[1..], b);
    }
  }

  lemma {:induction false} RunThree(s: State, parent: Id, e: Event, f: Event, g: Event)
    ensures Run(s, parent, [e, f, g]) == Step(Step(Step(s, parent, e), parent, f), parent, g)
  {
    hide Step;
    assert [e, f, g][1..] == [f, g] && [f, g][1..] == [g] && [g][1..] == [];
    var s1 := Step(s, parent, e);
    var s2 := Step(s1, parent, f);
    assert Run(s2, parent, [g]) == Run(Step(s2, parent, g), parent, []);
    assert Run(s1, parent, [f, g]) == Run(s2, parent, [g]);
    assert Run(s, parent, [e, f, g]) == Run(s1, parent, [f, g]);
  }

  /** Two overlapping thread starts: both pass the check before either receipt arrives. */
  function Overlap(): seq<Event> {
    [Ask(ThreadStart, None), Ask(ThreadStart, None), Checked(0, true)]
    + [Checked(1, true), Receipt(0, Some("a")), Receipt(1, Some("b"))]
    + [Rechecked(0), Rechecked(1), CloseCalled]
    + [Drained, UnsubscribeReply(true), UnsubscribeReply(true)]
  }

  const CHILD := Request(ThreadStart, None, Checking)
  const WORK := Out(Work(ThreadStart, None))

  /** Both requests out, the first receipt in, then the second. */
  const BOTH_ACCEPTED := State(
    Some("b"), None, false, {}, [CHILD.(phase := Received), CHILD.(phase := Received)],
    Open, false, [WORK, WORK], ["a", "b"], [])

  const CLOSED_OVERLAP := BOTH_ACCEPTED.(
    requests := [CHILD.(phase := Done), CHILD.(phase := Done)], closed := true, closing := Draining(2))

  lemma {:induction false} OverlapOpens(parent: Id)
    requires parent != "a" && parent != "b"
    ensures Run(Run(INITIAL, parent, [Ask(ThreadStart, None), Ask(ThreadStart, None), Checked(0, true)]), parent,
                [Checked(1, true), Receipt(0, Some("a")), Receipt(1, Some("b"))]) == BOTH_ACCEPTED
  {
    RunThree(INITIAL, parent, Ask(ThreadStart, None), Ask(ThreadStart, None), Checked(0, true));
    var s := Run(INITIAL, parent, [Ask(ThreadStart, None), Ask(ThreadStart, None), Checked(0, true)]);
    assert s == INITIAL.(requests := [CHILD.(phase := Sent), CHILD], log := [WORK]);
    OverlapAccepts(s, parent);
    hide Run;
    hide Step;
  }

  lemma {:induction false} OverlapAccepts(s: State, parent: Id)
    requires s == INITIAL.(requests := [CHILD.(phase := Sent), CHILD], log := [WORK])
    requires parent != "a" && parent != "b"
    ensures Run(s, parent, [Checked(1, true), Receipt(0, Some("a")), Receipt(1, Some("b"))]) == BOTH_ACCEPTED
  {
    RunThree(s, parent, Checked(1, true), Receipt(0, Some("a")), Receipt(1, Some("b")));
    hide Run;
    hide Settled;
  }

  lemma {:induction false} OverlapCloses(parent: Id)
    ensures Run(BOTH_ACCEPTED, parent, [Rechecked(0), Rechecked(1), CloseCalled]) == CLOSED_OVERLAP
    ensures Run(CLOSED_OVERLAP, parent, [Drained, UnsubscribeReply(true), UnsubscribeReply(true)])
         == CLOSED_OVERLAP.(closing := Resolved(false), log := [WORK, WORK] + [Out(Unsubscribe("b"))])
  {
    RunThree(BOTH_ACCEPTED, parent, Rechecked(0), Rechecked(1), CloseCalled);
    RunThree(CLOSED_OVERLAP, parent, Drained, UnsubscribeReply(true), UnsubscribeReply(true));
    hide Run;
  }

  /** Such a run from the beginning: with overlapping requests `close` resolves although the first child
      was accepted and never unsubscribed. */
  lemma {:induction false} OverlapLeaksChild(parent: Id)
    requires parent != "a" && parent != "b"
    ensures var t := Run(INITIAL, parent, Overlap());
            && t.closing.Resolved? && t.accepted == ["a", "b"] && Cleanup(t.log) == [Unsubscribe("b")]
  {
    var e := [Ask(ThreadStart, None), Ask(ThreadStart, None), Checked(0, true)];
    var f := [Checked(1, true), Receipt(0, Some("a")), Receipt(1, Some("b"))];
    var g := [Rechecked(0), Rechecked(1), CloseCalled];
    var h := [Drained, UnsubscribeReply(true), UnsubscribeReply(true)];
    RunParts(INITIAL, parent, e + f + g, h);
    RunParts(INITIAL, parent, e + f, g);
    RunParts(INITIAL, parent, e, f);
    hide Run;
    OverlapOpens(parent);
    OverlapCloses(parent);
    var none: seq<Entry> := [];
    CleanupAppend(none, WORK);
    assert none + [WORK] == [WORK];
    CleanupAppend([WORK], WORK);
    assert [WORK] + [WORK] == [WORK, WORK];
    CleanupAppend([WORK, WORK], Out(Unsubscribe("b")));
    assert Cleanup([WORK, WORK]) == [];
    assert Overlap() == e + f + g + h;
  }

  // ---------------------------------------------------------------- a run that loses a receipt

  const THREAD_DONE := Request(ThreadStart, None, Done)
  const TURN := Request(TurnStart, Some("c"), Checking)
  const THREAD_OUT := Out(Work(ThreadStart, None))
  const TURN_OUT := Out(Work(TurnStart, Some("c")))

  /** The child is accepted. */
  const CHILD_OPEN := State(
    Some("c"), None, false, {}, [THREAD_DONE], Open, false, [THREAD_OUT], ["c"], [])

  /** A turn was started and its receipt never came. */
  const TURN_LOST := CHILD_OPEN.(
    turnRequested := true, requests := [THREAD_DONE, TURN.(phase := Done)], log := [THREAD_OUT, TURN_OUT])

  /** A second one was admitted and acknowledged. */
  const TURN_AGAIN := TURN_LOST.(
    turnId := Some("u"), turns := ["u"], requests := [THREAD_DONE, TURN.(phase := Done), TURN.(phase := Done)],
    log := [THREAD_OUT, TURN_OUT, TURN_OUT])

  const LOSES_A_RECEIPT: seq<Event> :=
    [Ask(ThreadStart, None), Checked(0, true), Receipt(0, Some("c")), Rechecked(0)]
    + [Ask(TurnStart, Some("c")), Checked(1, true), Receipt(1, None), Rechecked(1)]
    + [Ask(TurnStart, Some("c")), Checked(2, true), Receipt(2, Some("u")), Rechecked(2)]
    + [CloseCalled, Drained, InterruptReply(true), UnsubscribeReply(true)]

  lemma {:induction false} FourSteps(s: State, parent: Id, e: Event, f: Event, g: Event, h: Event)
    ensures Run(s, parent, [e, f, g, h]) == Step(Step(Step(Step(s, parent, e), parent, f), parent, g), parent, h)
    ensures OneAtATime(s, parent, [e, f, g, h])
        <== (f.Checked? || f.Drained?) && !g.Ask? && !h.Ask? && (e.Ask? ==> Settled(s, |s.requests|))
  {
    hide Step;
    assert [e, f, g, h] == [e, f, g] + [h];
    RunParts(s, parent, [e, f, g], [h]);
    RunThree(s, parent, e, f, g);
    var s3 := Run(s, parent, [e, f, g]);
    assert [h][1..] == [];
    assert Run(s3, parent, [h]) == Run(Step(s3, parent, h), parent, []);
    var (s1, s2) := (Step(s, parent, e), Step(Step(s, parent, e), parent, f));
    assert [e, f, g, h][1..] == [f, g, h] && [f, g, h][1..] == [g, h] && [g, h][1..] == [h];
    assert !h.Ask? ==> OneAtATime(Step(s2, parent, g), parent, [h]);
    assert !h.Ask? && !g.Ask? ==> OneAtATime(s2, parent, [g, h]);
  }

  lemma {:induction false} LostThread(parent: Id)
    requires parent != "c"
    ensures var events := [Ask(ThreadStart, None), Checked(0, true), Receipt(0, Some("c")), Rechecked(0)];
            Run(INITIAL, parent, events) == CHILD_OPEN && OneAtATime(INITIAL, parent, events)
  {
    FourSteps(INITIAL, parent, Ask(ThreadStart, None), Checked(0, true), Receipt(0, Some("c")), Rechecked(0));
    hide Run;
    hide OneAtATime;
  }

  lemma {:induction false} LostTurn(parent: Id)
    ensures var events := [Ask(TurnStart, Some("c")), Checked(1, true), Receipt(1, None), Rechecked(1)];
            Run(CHILD_OPEN, parent, events) == TURN_LOST && OneAtATime(CHILD_OPEN, parent, events)
  {
    FourSteps(CHILD_OPEN, parent, Ask(TurnStart, Some("c")), Checked(1, true), Receipt(1, None), Rechecked(1));
    hide Run;
    hide OneAtATime;
  }

  lemma {:induction false} SecondTurn(parent: Id)
    ensures var events := [Ask(TurnStart, Some("c")), Checked(2, true), Receipt(2, Some("u")), Rechecked(2)];
            Run(TURN_LOST, parent, events) == TURN_AGAIN && OneAtATime(TURN_LOST, parent, events)
  {
    FourSteps(TURN_LOST, parent, Ask(TurnStart, Some("c")), Checked(2, true), Receipt(2, Some("u")), Rechecked(2));
    hide Run;
    hide OneAtATime;
  }

  lemma {:induction false} CloseOfTheSecond(parent: Id)
    ensures var events := [CloseCalled, Drained, InterruptReply(true), UnsubscribeReply(true)];
            && OneAtATime(TURN_AGAIN, parent, events)
            && Run(TURN_AGAIN, parent, events) == TURN_AGAIN.(
                 closed := true, closing := Resolved(true),
                 log := TURN_AGAIN.log + [Out(Interrupt("c", "u"))] + [Out(Unsubscribe("c"))])
  {
    FourSteps(TURN_AGAIN, parent, CloseCalled, Drained, InterruptReply(true), UnsubscribeReply(true));
    hide Run;
    hide OneAtATime;
  }

  lemma {:induction false} OneAtATimeParts(s: State, parent: Id, a: seq<Event>, b: seq<Event>)
    requires OneAtATime(s, parent, a) && OneAtATime(Run(s, parent, a), parent, b)
    ensures OneAtATime(s, parent, a + b)
    decreases |a|
  {
    if a == [] {
      assert a + b == b;
    } else {
      assert (a + b)[1..] == a[1..] + b;
      OneAtATimeParts(Step(s, parent, a[0]), parent, a[1..], b);
    }
  }

  lemma {:induction false} Appended(s: State, parent: Id, a: seq<Event>, b: seq<Event>)
    requires OneAtATime(s, parent, a) && OneAtATime(Run(s, parent, a), parent, b)
    ensures Run(s, parent, a + b) == Run(Run(s, parent, a), parent, b) && OneAtATime(s, parent, a + b)
  {
    RunParts(s, parent, a, b);
    OneAtATimeParts(s, parent, a, b);
  }

  /** A caller that asks one request at a time, and a turn/start whose receipt is lost: a second one is
      admitted, and `close` resolves after interrupting the second turn only.  It refuses for a missing
      receipt only if no turn at all was acknowledged. */
  lemma {:induction false} LostReceiptIsForgotten(parent: Id)
    requires parent != "c"
    ensures OneAtATime(INITIAL, parent, LOSES_A_RECEIPT)
    ensures var t := Run(INITIAL, parent, LOSES_A_RECEIPT);
            && t.closing.Resolved? && Starts(t.log, TurnStart) == 2 && t.turns == ["u"]
            && Interrupt("c", "u") in Cleanup(t.log)
  {
    var a := [Ask(ThreadStart, None), Checked(0, true), Receipt(0, Some("c")), Rechecked(0)];
    var b := [Ask(TurnStart, Some("c")), Checked(1, true), Receipt(1, None), Rechecked(1)];
    var c := [Ask(TurnStart, Some("c")), Checked(2, true), Receipt(2, Some("u")), Rechecked(2)];
    var d := [CloseCalled, Drained, InterruptReply(true), UnsubscribeReply(true)];
    assert LOSES_A_RECEIPT == a + b + c + d;
    LostThread(parent);
    LostTurn(parent);
    SecondTurn(parent);
    CloseOfTheSecond(parent);
    hide Run;
    hide OneAtATime;
    Appended(INITIAL, parent, a, b);
    Appended(INITIAL, parent, a + b, c);
    Appended(INITIAL, parent, a + b + c, d);
    LostLog();
    hide Starts;
    hide Cleanup;
  }

  lemma {:induction false} StartsAppend(log: seq<Entry>, e: Entry, kind: Method)
    ensures Starts(log + [e], kind) == Starts(log, kind) + if e.Out? && e.rpc.Work? && e.rpc.kind == kind then 1 else 0
  {
    assert (log + [e])[..|log|] == log;
  }

  lemma {:induction false} LostLog()
    ensures var log := TURN_AGAIN.log + [Out(Interrupt("c", "u"))] + [Out(Unsubscribe("c"))];
            Starts(log, TurnStart) == 2 && Interrupt("c", "u") in Cleanup(log)
  {
    var e, f := Out(Interrupt("c", "u")), Out(Unsubscribe("c"));
    var none: seq<Entry> := [];
    assert TURN_AGAIN.log == none + [THREAD_OUT] + [TURN_OUT] + [TURN_OUT];
    StartsAppend(none, THREAD_OUT, TurnStart);
    StartsAppend(none + [THREAD_OUT], TURN_OUT, TurnStart);
    StartsAppend(none + [THREAD_OUT] + [TURN_OUT], TURN_OUT, TurnStart);
    StartsAppend(TURN_AGAIN.log, e, TurnStart);
    StartsAppend(TURN_AGAIN.log + [e], f, TurnStart);
    CleanupAppend(TURN_AGAIN.log, e);
    CleanupAppend(TURN_AGAIN.log + [e], f);
    hide Starts;
    hide Cleanup;
    assert Starts(none, TurnStart) == 0 by { NoStarts(TurnStart); }
  }

  lemma {:induction false} NoStarts(kind: Method)
    ensures Starts([], kind) == 0
  {
  }

  // ---------------------------------------------------------------- the object

  /** The adapter itself: its methods take exactly the steps above. */
  class BorrowedCodexSearch {
    const parentThreadId: Id
    var threadId: Option<Id>
    var turnId: Option<Id>
    var turnRequested: bool
    var terminalTurns: set<Id>
    var requests: seq<Request>
    var closing: Closing
    var closed: bool
    ghost var log: seq<Entry>
    ghost var accepted: seq<Id>
    ghost var turns: seq<Id>

    ghost function View(): State
      reads this
    {
      State(threadId, turnId, turnRequested, terminalTurns, requests, closing, closed, log, accepted, turns)
    }

    constructor (parentThreadId: Id)
      ensures View() == INITIAL && this.parentThreadId == parentThreadId
    {
      this.parentThreadId := parentThreadId;
      threadId, turnId, turnRequested, terminalTurns := None, None, false, {};
      requests, closing, closed := [], Open, false;
      log, accepted, turns := [], [], [];
    }

    /** A request starts; a closed adapter rejects it without sending anything. */
    method Ask(kind: Method, thread: Option<Id>) returns (index: Option<nat>)
      modifies this`requests
      ensures View() == Step(old(View()), parentThreadId, Event.Ask(kind, thread))
      ensures index.Some? <==> !closed
      ensures index.Some? ==> index.value == |old(requests)|
    {
      if closed {
        return None;
      }
      index := Some(|requests|);
      requests := requests + [Request(kind, thread, Checking)];
    }

    /** The first ownership check of request `i` returns. */
    method Checked(i: nat, current: bool)
      modifies this`requests, this`turnRequested, this`log
      ensures View() == Step(old(View()), parentThreadId, Event.Checked(i, current))
    {
      if i >= |requests| || requests[i].phase != Checking {
        return;
      }
      var r := requests[i];
      if !current || closed || r.kind == Unlisted
         || (r.kind == ThreadStart && threadId.Some?)
         || (r.kind == TurnStart && (threadId.None? || r.thread != threadId || turnId.Some?))
      {
        requests := requests[i := r.(phase := Done)];
        return;
      }
      if r.kind == TurnStart {
        turnRequested := true;
      }
      log := log + [Out(Work(r.kind, r.thread))];
      requests := requests[i := r.(phase := Sent)];
    }

    /** The receipt of request `i`; identities are recorded even after a close. */
    method Receipt(i: nat, id: Option<Id>)
      modifies this`requests, this`threadId, this`turnId, this`accepted, this`turns
      ensures View() == Step(old(View()), parentThreadId, Event.Receipt(i, id))
    {
      if i >= |requests| || requests[i].phase != Sent {
        return;
      }
      var r := requests[i];
      if id.None? || (r.kind == ThreadStart && id.value == parentThreadId) {
        requests := requests[i := r.(phase := Done)];
        return;
      }
      if r.kind == ThreadStart {
        threadId := id;
        accepted := accepted + [id.value];
      }
      if r.kind == TurnStart {
        turnId := id;
        turns := turns + [id.value];
      }
      requests := requests[i := r.(phase := Received)];
    }

    method Rechecked(i: nat)
      modifies this`requests
      ensures View() == Step(old(View()), parentThreadId, Event.Rechecked(i))
    {
      if i < |requests| && requests[i].phase == Received {
        requests := requests[i := requests[i].(phase := Done)];
      }
    }

    /** Returns whether the notification belongs to the child. */
    method Notification(child: Id, turn: Option<Id>) returns (owned: bool)
      modifies this`terminalTurns, this`log
      ensures View() == Step(old(View()), parentThreadId, Event.Notification(child, turn))
      ensures owned <==> threadId == Some(child)
    {
      owned := threadId == Some(child);
      if owned && turn.Some? {
        terminalTurns := terminalTurns + {turn.value};
        log := log + [Terminal(turn.value)];
      }
    }

    method TransportClosed()
      modifies this`closed
      ensures View() == Step(old(View()), parentThreadId, Event.TransportClosed)
    {
      closed := true;
    }

    method Close()
      modifies this`closed, this`closing
      ensures View() == Step(old(View()), parentThreadId, CloseCalled)
    {
      if closing == Open {
        closed := true;
        closing := Draining(|requests|);
      }
    }

    /** Whether every request outstanding at `close` has settled. */
    method HasDrained() returns (drained: bool)
      ensures drained <==> closing.Draining? && Settled(View(), closing.upTo)
    {
      if !closing.Draining? {
        return false;
      }
      var i := 0;
      while i < closing.upTo && i < |requests|
        invariant i <= |requests|
        invariant forall k :: 0 <= k < i ==> requests[k].phase == Done
      {
        if requests[i].phase != Done {
          return false;
        }
        i := i + 1;
      }
      return true;
    }

    /** The body of `close` after its first await. */
    method Drained()
      modifies this`closing, this`log
      ensures View() == Step(old(View()), parentThreadId, Event.Drained)
    {
      var ready := HasDrained();
      if !ready {
        return;
      }
      if threadId.None? {
        closing := Resolved(false);
      } else if turnRequested && turnId.None? {
        closing := Rejected;
      } else if turnId.Some? && turnId.value !in terminalTurns {
        closing := Interrupting;
        log := log + [Out(Interrupt(threadId.value, turnId.value))];
      } else {
        closing := Unsubscribing(false);
        log := log + [Out(Unsubscribe(threadId.value))];
      }
    }

    method InterruptReply(ok: bool)
      modifies this`closing, this`log
      ensures View() == Step(old(View()), parentThreadId, Event.InterruptReply(ok))
    {
      if closing != Interrupting {
        return;
      }
      if !ok || threadId.None? {
        closing := Rejected;
      } else {
        closing := Unsubscribing(true);
        log := log + [Out(Unsubscribe(threadId.value))];
      }
    }

    method UnsubscribeReply(ok: bool)
      modifies this`closing
      ensures View() == Step(old(View()), parentThreadId, Event.UnsubscribeReply(ok))
    {
      if closing.Unsubscribing? {
        closing := if ok then Resolved(closing.interrupted) else Rejected;
      }
    }
  }
}
