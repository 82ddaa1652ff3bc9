/** What each section of a borrowed search (server/codex-borrowed-search.ts) does, said of its requests, the
    identities it recorded and what it sent. */
module SearchEffects {
  import opened Options
  import opened BorrowedSearch

  /** Request `i` goes on to a phase, and nothing else of the requests changes. */
  ghost predicate GoesOn(s: State, t: State, i: nat, phase: Phase) {
    i < |s.requests| && t.requests == s.requests[i := Request(s.requests[i].kind, s.requests[i].thread, phase)]
  }

  /** A request is taken by an open search only; it is sent, answered and checked again in this order, each
      once, and what comes out of turn changes nothing. */
  lemma {:induction false} RequestsMoveOn(
    s: State, parent: Id, kind: Method, thread: Option<Id>, i: nat, current: bool, id: Option<Id>)
    ensures Step(s, parent, Ask(kind, thread))
         == if s.closed then s else s.(requests := s.requests + [Request(kind, thread, Checking)])
    ensures i >= |s.requests| || s.requests[i].phase != Checking ==> Step(s, parent, Checked(i, current)) == s
    ensures i >= |s.requests| || s.requests[i].phase != Sent ==> Step(s, parent, Receipt(i, id)) == s
    ensures var t := Step(s, parent, Rechecked(i));
            && t == s.(requests := t.requests)
            && if i < |s.requests| && s.requests[i].phase == Received then GoesOn(s, t, i, Done)
               else t.requests == s.requests
  {}

  /** A request whose caller is still the owner is sent exactly if the search is open and it reads the
      configuration, or starts the only child, or starts the only turn of that child; it is sent as it was
      asked.  Any other one settles unsent. */
  lemma {:induction false} SendingExactly(s: State, parent: Id, i: nat, current: bool)
    requires i < |s.requests| && s.requests[i].phase == Checking
    ensures var t := Step(s, parent, Checked(i, current));
            var (kind, thread) := (s.requests[i].kind, s.requests[i].thread);
            var sends := current && !s.closed
              && (|| kind == ConfigRead
                  || (kind == ThreadStart && s.threadId == None)
                  || (kind == TurnStart && s.threadId != None && thread == s.threadId && s.turnId == None));
            && (sends <==> t.log != s.log)
            && (sends ==> t.log == s.log + [Out(Work(kind, thread))] && GoesOn(s, t, i, Sent))
            && (!sends ==> GoesOn(s, t, i, Done))
            && (t.turnRequested <==> s.turnRequested || (sends && kind == TurnStart))
            && t == s.(requests := t.requests, log := t.log, turnRequested := t.turnRequested)
  {}

  /** An answer records the child or the turn it names, also after the search was closed; an answer that names
      none, or the parent as a child, fails the request. */
  lemma {:induction false} ReceivingExactly(s: State, parent: Id, i: nat, id: Option<Id>)
    requires i < |s.requests| && s.requests[i].phase == Sent
    ensures var t := Step(s, parent, Receipt(i, id));
            var kind := s.requests[i].kind;
            var good := id.Some? && !(kind == ThreadStart && id.value == parent);
            && GoesOn(s, t, i, if good then Received else Done)
            && t.threadId == (if good && kind == ThreadStart then id else s.threadId)
            && t.turnId == (if good && kind == TurnStart then id else s.turnId)
            && t.accepted == (if good && kind == ThreadStart then s.accepted + [id.value] else s.accepted)
            && t.turns == (if good && kind == TurnStart then s.turns + [id.value] else s.turns)
            && t == s.(requests := t.requests, threadId := t.threadId, turnId := t.turnId, accepted := t.accepted,
                       turns := t.turns)
  {}

  /** Only the end of a turn of the recorded child is remembered. */
  lemma {:induction false} NotingExactly(s: State, parent: Id, child: Id, turn: Option<Id>)
    ensures var t := Step(s, parent, Notification(child, turn));
            var own := s.threadId.Some? && s.threadId.value == child && turn.Some?;
            && (!own ==> t == s)
            && (own ==>
                  && t == s.(terminalTurns := t.terminalTurns, log := s.log + [Terminal(turn.value)])
                  && forall other :: other in t.terminalTurns <==> other in s.terminalTurns || other == turn.value)
  {}

  /** Once every request has settled, a close with no child is done; one with a turn of unknown outcome is
      refused; one with a turn that has not ended interrupts it first; any other unsubscribes the child. */
  lemma {:induction false} DrainingExactly(s: State, parent: Id)
    ensures var t := Step(s, parent, Drained);
            var drained := s.closing.Draining?
              && forall i :: 0 <= i < s.closing.upTo && i < |s.requests| ==> s.requests[i].phase == Done;
            && (!drained ==> t == s)
            && (drained && s.threadId.None? ==> t == s.(closing := Resolved(false)))
            && (drained && s.threadId.Some? && s.turnRequested && s.turnId.None? ==> t == s.(closing := Rejected))
            && (drained && s.threadId.Some? && s.turnId.Some? && s.turnId.value !in s.terminalTurns ==>
                  t == s.(closing := Interrupting, log := s.log + [Out(Interrupt(s.threadId.value, s.turnId.value))]))
            && (drained && s.threadId.Some?
                && (if s.turnId.Some? then s.turnId.value in s.terminalTurns else !s.turnRequested) ==>
                  t == s.(closing := Unsubscribing(false), log := s.log + [Out(Unsubscribe(s.threadId.value))]))
  {}

  /** Closing begins once, with all requests there are; a transport that goes away closes without it.  After a
      good reply to the interrupt the child is unsubscribed, after a good reply to that the close is done; a
      bad reply refuses it. */
  lemma {:induction false} ClosingExactly(s: State, parent: Id, ok: bool)
    requires s.closing.Interrupting? ==> s.threadId.Some?
    ensures Step(s, parent, TransportClosed) == s.(closed := true)
    ensures Step(s, parent, CloseCalled)
         == if s.closing == Open then s.(closed := true, closing := Draining(|s.requests|)) else s
    ensures Step(s, parent, InterruptReply(ok))
         == if !s.closing.Interrupting? then s
            else if ok then s.(closing := Unsubscribing(true), log := s.log + [Out(Unsubscribe(s.threadId.value))])
            else s.(closing := Rejected)
    ensures Step(s, parent, UnsubscribeReply(ok))
         == if !s.closing.Unsubscribing? then s
            else s.(closing := if ok then Resolved(s.closing.interrupted) else Rejected)
  {}
}
