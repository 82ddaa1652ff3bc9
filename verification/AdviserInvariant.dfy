/** What holds at every await point of every run, and that every section keeps it. */
module AdviserInvariant {
  import opened Options
  import opened AdviserState
  import opened AdviserBook

  // ---------------------------------------------------------------- calls in flight

  /** A refresh or recovery that other callers join. */
  predicate Shared(call: Call) {
    call.Refreshing? || call.Rediscovering? || call.Verifying? || call.Relisting?
  }

  predicate Signing(call: Call) {
    call.Completing? || call.Discovering?
  }

  /** What a waiting call may rely on about the objects and the generation it captured. */
  ghost predicate Captured(b: Book, g: nat, call: Call) {
    match call
    case Completing(_, generation, target, clientId) =>
      generation <= g && (target.Some? ==> target.value < |b.rows| && clientId == b.rows[target.value].clientId)
    case Discovering(_, generation, row) =>
      && generation <= g && row < |b.rows|
      && (generation == g ==> b.rows[row].state != Disconnected)
    case Refreshing(row, original, submitted, _, _) =>
      && row < |b.rows| && original != Disconnected
      && (b.rows[row].state != Disconnected ==> b.rows[row].refreshToken == submitted)
    case Rediscovering(row, original, _, _) => row < |b.rows| && original != Disconnected
    case Verifying(row, _, _) => row < |b.rows|
    case Relisting(row, _, _) => row < |b.rows|
    case Disconnecting(row) => row < |b.rows| && b.rows[row].state == Disconnected
    case Waiting(_, _, _) => true
    case Settled(_) => true
  }

  /** Single flight: a shared call is the one its account id points at. */
  ghost predicate Flying(b: Book, refreshes: map<AccountId, CallRef>, c: CallRef, call: Call) {
    Shared(call) ==>
      At(b.rows, call.row).id in refreshes && refreshes[At(b.rows, call.row).id] == c
  }

  ghost predicate CallsOk(b: Book, g: nat, w: Work) {
    && (forall c :: 0 <= c < |w.calls| ==> Captured(b, g, w.calls[c]) && Flying(b, w.refreshes, c, w.calls[c]))
    && (forall id :: id in w.refreshes ==> w.refreshes[id] < |w.calls|)
  }

  /** The row of an unfinished sign-in is out of reach of every other call. */
  ghost predicate QuietOk(b: Book, w: Work) {
    forall c :: 0 <= c < |w.calls| && w.calls[c].Discovering? ==>
      && At(b.rows, w.calls[c].row).state != Connected
      && forall d :: 0 <= d < |w.calls| && Shared(w.calls[d]) ==> w.calls[d].row != w.calls[c].row
  }

  // ---------------------------------------------------------------- the single sign-in

  ghost predicate Codes(i: SignIn) {
    && (forall k :: 0 <= k < |i.codes| ==> i.codes[k] < i.tickets)
    && (forall j, k :: 0 <= j < k < |i.codes| ==> i.codes[j] != i.codes[k])
  }

  /** `size` is the number of published accounts. */
  ghost predicate SignInOk(i: SignIn, calls: seq<Call>, size: nat) {
    && Codes(i)
    && (i.pending.Some? ==> !i.exchange && i.pending.value.ticket < i.tickets && i.pending.value.ticket !in i.codes)
    && (i.pending.Some? && i.pending.value.target.None? ==> size < MAX_ACCOUNTS)
    && (forall c :: 0 <= c < |calls| && Signing(calls[c]) ==> i.exchange && calls[c].ticket in i.codes)
    && (forall c, d :: 0 <= c < d < |calls| ==> !(Signing(calls[c]) && Signing(calls[d])))
    && (forall c :: 0 <= c < |calls| && calls[c].Completing? && calls[c].target.None? ==> size < MAX_ACCOUNTS)
  }

  ghost predicate PendingInRange(i: SignIn, b: Book) {
    i.pending.Some? && i.pending.value.target.Some? ==> i.pending.value.target.value < |b.rows|
  }

  // ---------------------------------------------------------------- what the run has done

  /** Created by this process: by a saved rotation or by a saved sign-in. */
  ghost predicate Born(tr: Trace, r: RowRef) {
    || (exists k :: 0 <= k < |tr.rotations| && tr.rotations[k].successor == r)
    || (exists k :: 0 <= k < |tr.registrations| && tr.registrations[k].row == r)
  }

  ghost predicate Spent(b: Book, w: Work, rotation: Rotation) {
    && rotation.replaced < |b.rows| && rotation.replaced !in b.accounts
    && b.rows[rotation.replaced].state != Disconnected
    && b.rows[rotation.replaced].refreshToken == rotation.submitted
    && rotation.call < |w.calls| && !w.calls[rotation.call].Refreshing?
  }

  ghost predicate RotationsOk(b: Book, w: Work, tr: Trace) {
    && (forall k :: 0 <= k < |tr.rotations| ==> Spent(b, w, tr.rotations[k]))
    && (forall j, k :: 0 <= j < k < |tr.rotations| ==>
          tr.rotations[j].replaced != tr.rotations[k].replaced && tr.rotations[j].call != tr.rotations[k].call)
  }

  /** Facts about the past of a run: how many rows the constructor found, and rows signed out since. */
  datatype Past = Past(loaded: nat, gone: set<RowRef>)

  /** Rows found at start are stale; published rows are those or born since; leases are on born rows. */
  ghost predicate OriginsOk(b: Book, tr: Trace, past: Past) {
    && past.loaded <= |b.rows|
    && (forall r :: 0 <= r < past.loaded ==> b.rows[r].state == Disconnected || b.rows[r].expiresAt <= 1)
    && (forall r :: r in past.gone ==> r < |b.rows| && b.rows[r].state == Disconnected)
    && (forall r :: r in b.accounts ==> r < past.loaded || Born(tr, r))
    && (forall r :: Born(tr, r) ==> past.loaded <= r)
    && (forall k :: 0 <= k < |tr.leases| ==> Born(tr, tr.leases[k].row))
  }

  ghost predicate Inv(s: State, past: Past) {
    && BookOk(s.book)
    && CallsOk(s.book, s.fence.generation, s.work)
    && QuietOk(s.book, s.work)
    && SignInOk(s.signIn, s.work.calls, |s.book.accounts|)
    && PendingInRange(s.signIn, s.book)
    && RotationsOk(s.book, s.work, s.trace)
    && OriginsOk(s.book, s.trace, past)
  }

  // ---------------------------------------------------------------- carrying each group

  lemma {:induction false} CapturedCarries(b: Book, g: nat, c: Book, h: nat, back: int, call: Call)
    requires Captured(b, g, call) && Moves(b, g, c, h, back)
    ensures Captured(c, h, call)
  {
    if call.Refreshing? || call.Rediscovering? || call.Verifying? || call.Relisting? || call.Discovering? || call.Disconnecting? {
      assert RowEvolves(b.rows[call.row], c.rows[call.row]);
    } else if call.Completing? && call.target.Some? {
      assert RowEvolves(b.rows[call.target.value], c.rows[call.target.value]);
    }
  }

  lemma {:induction false} CallsCarry(b: Book, g: nat, c: Book, h: nat, back: int, w: Work)
    requires CallsOk(b, g, w) && Moves(b, g, c, h, back)
    ensures CallsOk(c, h, w)
  {
    forall k | 0 <= k < |w.calls| ensures Captured(c, h, w.calls[k]) && Flying(c, w.refreshes, k, w.calls[k]) {
      CapturedCarries(b, g, c, h, back, w.calls[k]);
      assert Flying(b, w.refreshes, k, w.calls[k]);
      if Shared(w.calls[k]) {
        assert RowEvolves(b.rows[w.calls[k].row], c.rows[w.calls[k].row]);
      }
    }
  }

  lemma {:induction false} CallsSet(b: Book, g: nat, w: Work, k: CallRef, call: Call)
    requires CallsOk(b, g, w) && Captured(b, g, call) && Flying(b, w.refreshes, k, call)
    ensures CallsOk(b, g, SetCall(w, k, call))
  {}

  lemma {:induction false} CallsAppend(b: Book, g: nat, w: Work, call: Call)
    requires CallsOk(b, g, w) && Captured(b, g, call) && !Shared(call)
    ensures CallsOk(b, g, w.(calls := w.calls + [call]))
  {}

  lemma {:induction false} CallsStart(b: Book, g: nat, w: Work, id: AccountId, call: Call)
    requires CallsOk(b, g, w) && Captured(b, g, call) && id !in w.refreshes
    requires Shared(call) ==> At(b.rows, call.row).id == id
    ensures CallsOk(b, g, Work(w.refreshes[id := |w.calls|], w.calls + [call]))
  {
    var w' := Work(w.refreshes[id := |w.calls|], w.calls + [call]);
    forall c | 0 <= c < |w'.calls| ensures Captured(b, g, w'.calls[c]) && Flying(b, w'.refreshes, c, w'.calls[c]) {
      if c < |w.calls| {
        assert Captured(b, g, w.calls[c]) && Flying(b, w.refreshes, c, w.calls[c]);
      }
    }
  }

  lemma {:induction false} QuietCarries(b: Book, g: nat, c: Book, h: nat, back: int, w: Work)
    requires CallsOk(b, g, w) && QuietOk(b, w) && Moves(b, g, c, h, back)
    requires forall k :: 0 <= k < |w.calls| && w.calls[k].Discovering? ==> w.calls[k].row != back
    ensures QuietOk(c, w)
  {
    forall k | 0 <= k < |w.calls| && w.calls[k].Discovering? ensures At(c.rows, w.calls[k].row).state != Connected {
      assert Captured(b, g, w.calls[k]);
    }
  }

  /** Replacing a call by one that claims no row the old one did not claim. */
  lemma {:induction false} QuietSet(b: Book, w: Work, k: CallRef, call: Call)
    requires QuietOk(b, w) && !call.Discovering?
    requires Shared(call) ==> k < |w.calls| && Shared(w.calls[k]) && w.calls[k].row == call.row
    ensures QuietOk(b, SetCall(w, k, call))
  {}

  lemma {:induction false} QuietAppend(b: Book, w: Work, refreshes: map<AccountId, CallRef>, call: Call)
    requires QuietOk(b, w) && !call.Discovering?
    requires Shared(call) ==>
               forall c :: 0 <= c < |w.calls| && w.calls[c].Discovering? ==> w.calls[c].row != call.row
    ensures QuietOk(b, Work(refreshes, w.calls + [call]))
  {}

  lemma {:induction false} SignInSet(i: SignIn, calls: seq<Call>, size: nat, k: CallRef, call: Call)
    requires SignInOk(i, calls, size) && !Signing(call) && k < |calls|
    ensures SignInOk(i, calls[k := call], size)
  {}

  lemma {:induction false} SignInAppend(i: SignIn, calls: seq<Call>, size: nat, call: Call)
    requires SignInOk(i, calls, size) && !Signing(call)
    ensures SignInOk(i, calls + [call], size)
  {}

  lemma {:induction false} RotationsCarry(b: Book, g: nat, c: Book, h: nat, back: int, w: Work, tr: Trace)
    requires RotationsOk(b, w, tr) && Moves(b, g, c, h, back)
    ensures RotationsOk(c, w, tr)
  {
    forall k | 0 <= k < |tr.rotations| ensures Spent(c, w, tr.rotations[k]) {
      assert Spent(b, w, tr.rotations[k]);
      assert RowEvolves(b.rows[tr.rotations[k].replaced], c.rows[tr.rotations[k].replaced]);
    }
  }

  lemma {:induction false} RotationsWork(b: Book, w: Work, w': Work, tr: Trace)
    requires RotationsOk(b, w, tr) && |w.calls| <= |w'.calls|
    requires forall c :: 0 <= c < |w.calls| && w'.calls[c].Refreshing? ==> w.calls[c].Refreshing?
    ensures RotationsOk(b, w', tr)
  {
    forall k | 0 <= k < |tr.rotations| ensures Spent(b, w', tr.rotations[k]) {
      assert Spent(b, w, tr.rotations[k]);
    }
  }

  lemma {:induction false} OriginsCarry(b: Book, g: nat, c: Book, h: nat, back: int, tr: Trace, past: Past)
    requires OriginsOk(b, tr, past) && Moves(b, g, c, h, back)
    requires forall r :: r in c.accounts ==> r in b.accounts
    ensures OriginsOk(c, tr, past)
  {
    hide Born;
    forall r | 0 <= r < past.loaded ensures c.rows[r].state == Disconnected || c.rows[r].expiresAt <= 1 {
      assert RowEvolves(b.rows[r], c.rows[r]);
    }
    forall r | r in past.gone ensures r < |c.rows| && c.rows[r].state == Disconnected {
      assert RowEvolves(b.rows[r], c.rows[r]);
    }
  }
}
