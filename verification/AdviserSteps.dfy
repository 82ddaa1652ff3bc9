/** Every section keeps the invariant. */
module AdviserSteps {
  import opened Options
  import opened AdviserState
  import opened AdviserBook
  import opened AdviserInvariant

  // ---------------------------------------------------------------- combined carriers

  /** A section that only moved the book and the fences. */
  lemma {:induction false} Carry(s: State, b: Book, f: Fence, past: Past, back: int)
    requires Inv(s, past) && BookOk(b)
    requires Moves(s.book, s.fence.generation, b, f.generation, back)
    requires |b.accounts| == |s.book.accounts|
    requires forall r :: r in b.accounts ==> r in s.book.accounts
    requires forall k :: 0 <= k < |s.work.calls| && s.work.calls[k].Discovering? ==> s.work.calls[k].row != back
    ensures Inv(s.(book := b, fence := f), past)
  {
    hide BookOk;
    hide QuietOk;
    hide SignInOk;
    CallsCarry(s.book, s.fence.generation, b, f.generation, back, s.work);
    QuietCarries(s.book, s.fence.generation, b, f.generation, back, s.work);
    RotationsCarry(s.book, s.fence.generation, b, f.generation, back, s.work, s.trace);
    OriginsCarry(s.book, s.fence.generation, b, f.generation, back, s.trace, past);
    hide CallsOk;
    hide RotationsOk;
    hide OriginsOk;
  }

  lemma {:induction false} CarryFence(s: State, f: Fence, past: Past)
    requires Inv(s, past) && s.fence.generation <= f.generation
    ensures Inv(s.(fence := f), past)
  {
    MovesNot(s.book, s.fence.generation, f.generation);
    hide Inv;
    Carry2(s, f, past);
  }

  lemma {:induction false} Carry2(s: State, f: Fence, past: Past)
    requires Inv(s, past) && s.fence.generation <= f.generation
    requires Moves(s.book, s.fence.generation, s.book, f.generation, NONE)
    ensures Inv(s.(fence := f), past)
  {
    hide Moves;
    Carry(s, s.book, f, past, NONE);
  }

  lemma {:induction false} CarrySettle(s: State, c: CallRef, result: Option<RowRef>, past: Past)
    requires Inv(s, past)
    ensures Inv(s.(work := Settle(s.work, c, result)), past)
  {
    if c < |s.work.calls| {
      CallsSet(s.book, s.fence.generation, s.work, c, Settled(result));
      QuietSet(s.book, s.work, c, Settled(result));
      SignInSet(s.signIn, s.work.calls, |s.book.accounts|, c, Settled(result));
      RotationsWork(s.book, s.work, Settle(s.work, c, result), s.trace);
      hide BookOk;
      hide CallsOk;
      hide QuietOk;
      hide SignInOk;
      hide RotationsOk;
      hide OriginsOk;
    }
  }

  lemma {:induction false} CarryAppend(s: State, call: Call, past: Past)
    requires Inv(s, past) && !Shared(call) && !Signing(call)
    requires Captured(s.book, s.fence.generation, call)
    ensures Inv(s.(work := s.work.(calls := s.work.calls + [call])), past)
  {
    CallsAppend(s.book, s.fence.generation, s.work, call);
    QuietAppend(s.book, s.work, s.work.refreshes, call);
    SignInAppend(s.signIn, s.work.calls, |s.book.accounts|, call);
    RotationsWork(s.book, s.work, s.work.(calls := s.work.calls + [call]), s.trace);
    hide BookOk;
    hide CallsOk;
    hide QuietOk;
    hide SignInOk;
    hide RotationsOk;
    hide OriginsOk;
  }

  lemma {:induction false} CarryStart(s: State, id: AccountId, call: Call, past: Past)
    requires Inv(s, past) && !Signing(call) && id !in s.work.refreshes
    requires Captured(s.book, s.fence.generation, call)
    requires Shared(call) ==> At(s.book.rows, call.row).id == id
    requires Shared(call) ==>
               forall c :: 0 <= c < |s.work.calls| && s.work.calls[c].Discovering? ==> s.work.calls[c].row != call.row
    ensures Inv(s.(work := Work(s.work.refreshes[id := |s.work.calls|], s.work.calls + [call])), past)
  {
    CallsStart(s.book, s.fence.generation, s.work, id, call);
    QuietAppend(s.book, s.work, s.work.refreshes[id := |s.work.calls|], call);
    SignInAppend(s.signIn, s.work.calls, |s.book.accounts|, call);
    RotationsWork(s.book, s.work, Work(s.work.refreshes[id := |s.work.calls|], s.work.calls + [call]), s.trace);
    hide BookOk;
    hide CallsOk;
    hide QuietOk;
    hide SignInOk;
    hide RotationsOk;
    hide OriginsOk;
  }

  lemma {:induction false} OwnGrows(f: Fence, owned: bool)
    ensures f.generation <= Own(f, owned).generation
    ensures Own(f, owned).closed || Own(f, owned) == f
  {}

  // ---------------------------------------------------------------- refresh

  lemma {:induction false} RefreshFailedKeeps(s: State, c: CallRef, owner: RowRef, save: Save, past: Past)
    requires Inv(s, past)
    ensures Inv(RefreshFailed(s, c, owner, save), past)
  {
    if Owns(s.book, owner) {
      var f := PersistFence(AbortOne(s.fence, At(s.book.rows, owner).id), save);
      LapseKeeps(s.book, owner, save, s.fence.generation);
      var b := Lapse(s.book, owner, save);
      MovesNot(b, s.fence.generation, f.generation);
      MovesTwice(s.book, s.fence.generation, b, s.fence.generation, b, f.generation, NONE);
      hide Inv;
      hide Lapse;
      Carry(s, b, f, past, NONE);
      CarrySettle(s.(book := b, fence := f), c, None, past);
    } else {
      hide Inv;
      CarrySettle(s, c, None, past);
    }
  }

  lemma {:induction false} ProbeKeeps(s: State, owned: bool, past: Past)
    requires Inv(s, past)
    ensures Inv(s.(fence := Own(s.fence, owned)), past)
  {
    hide Inv;
    CarryFence(s, Own(s.fence, owned), past);
  }

  /** Failing the call is the same whatever phase the call had reached. */
  lemma {:induction false} RefreshFailedAnyPhase(s: State, c: CallRef, phase: Call, owner: RowRef, save: Save)
    ensures RefreshFailed(s, c, owner, save)
         == RefreshFailed(s.(work := SetCall(s.work, c, phase)), c, owner, save)
  {
    if c < |s.work.calls| {
      assert s.work.calls[c := phase][c := Settled(None)] == s.work.calls[c := Settled(None)];
    }
  }

  /** The saved half of a refresh, before the recovery fence is looked at. */
  function RotatedState(s: State, c: CallRef, call: Call, g: Grant, f: Fence): State
    requires call.Refreshing?
  {
    State(Rotate(s.book, call.row, g, Confirmed), f, s.signIn,
          SetCall(s.work, c, Rediscovering(|s.book.rows|, call.original, call.controller, call.recovery)),
          s.trace.(rotations := s.trace.rotations + [Rotation(c, call.row, |s.book.rows|, call.submitted)]))
  }

  lemma {:induction false} RotationRecorded(s: State, c: CallRef, g: Grant, f: Fence, past: Past)
    requires Inv(s, past) && CallAt(s.work, c).Refreshing? && f.generation >= s.fence.generation
    requires CallAt(s.work, c).row in s.book.accounts
    requires At(s.book.rows, CallAt(s.work, c).row).state == CallAt(s.work, c).original
    ensures RotationsOk(RotatedState(s, c, CallAt(s.work, c), g, f).book,
                        RotatedState(s, c, CallAt(s.work, c), g, f).work,
                        RotatedState(s, c, CallAt(s.work, c), g, f).trace)
  {
    var call := s.work.calls[c];
    var t := RotatedState(s, c, call, g, f);
    assert Captured(s.book, s.fence.generation, call);
    RotateKeeps(s.book, call.row, g, Confirmed, s.fence.generation);
    ReplaceListable(s.book, call.row, Rotated(At(s.book.rows, call.row), g));
    RotationsCarry(s.book, s.fence.generation, t.book, s.fence.generation, NONE, s.work, s.trace);
    RotationsWork(t.book, s.work, t.work, s.trace);
    hide BookOk;
    hide CallsOk;
    hide QuietOk;
    hide SignInOk;
    hide OriginsOk;
    hide Rotate;
    var n := |s.trace.rotations|;
    assert Spent(t.book, t.work, t.trace.rotations[n]);
    forall k | 0 <= k < n
      ensures s.trace.rotations[k].replaced != call.row && s.trace.rotations[k].call != c
    {
      assert Spent(s.book, s.work, s.trace.rotations[k]);
    }
  }

  lemma {:induction false} BornGrows(tr: Trace, tu: Trace, r: RowRef)
    requires Born(tr, r) && tr.rotations <= tu.rotations && tr.registrations <= tu.registrations
    ensures Born(tu, r)
  {
    if k :| 0 <= k < |tr.rotations| && tr.rotations[k].successor == r {
      assert tu.rotations[k].successor == r;
    } else {
      var k :| 0 <= k < |tr.registrations| && tr.registrations[k].row == r;
      assert tu.registrations[k].row == r;
    }
  }

  /** Publishing one new object that the trace now accounts for. */
  lemma {:induction false} OriginsExtend(b: Book, g: nat, c: Book, tr: Trace, tu: Trace, past: Past)
    requires OriginsOk(b, tr, past) && Moves(b, g, c, g, NONE)
    requires tr.rotations <= tu.rotations && tr.registrations <= tu.registrations && tr.leases == tu.leases
    requires Born(tu, |b.rows|) && forall r :: Born(tu, r) ==> Born(tr, r) || r == |b.rows|
    requires forall r :: r in c.accounts ==> r in b.accounts || r == |b.rows|
    ensures OriginsOk(c, tu, past)
  {
    forall r | Born(tu, r) ensures past.loaded <= r {
      assert Born(tr, r) || r == |b.rows|;
    }
    hide Born;
    forall r | 0 <= r < past.loaded ensures c.rows[r].state == Disconnected || c.rows[r].expiresAt <= 1 {
      assert RowEvolves(b.rows[r], c.rows[r]);
    }
    forall r | r in past.gone ensures r < |c.rows| && c.rows[r].state == Disconnected {
      assert RowEvolves(b.rows[r], c.rows[r]);
    }
    forall r | r in c.accounts ensures r < past.loaded || Born(tu, r) {
      if r in b.accounts && !(r < past.loaded) {
        BornGrows(tr, tu, r);
      }
    }
    forall k | 0 <= k < |tu.leases| ensures Born(tu, tu.leases[k].row) {
      BornGrows(tr, tu, tr.leases[k].row);
    }
  }

  lemma {:induction false} RotatedCalls(s: State, c: CallRef, g: Grant, f: Fence, past: Past)
    requires Inv(s, past) && CallAt(s.work, c).Refreshing? && f.generation >= s.fence.generation
    requires CallAt(s.work, c).row in s.book.accounts
    requires At(s.book.rows, CallAt(s.work, c).row).state == CallAt(s.work, c).original
    ensures var t := RotatedState(s, c, CallAt(s.work, c), g, f);
            && CallsOk(t.book, t.fence.generation, t.work) && QuietOk(t.book, t.work)
            && BookOk(t.book) && Moves(s.book, s.fence.generation, t.book, s.fence.generation, NONE)
            && |t.book.rows| == |s.book.rows| + 1 && |t.book.accounts| == |s.book.accounts|
            && forall r :: r in t.book.accounts ==> r in s.book.accounts || r == |s.book.rows|
  {
    hide SignInOk;
    hide RotationsOk;
    hide OriginsOk;
    hide QuietOk;
    var call := s.work.calls[c];
    var t := RotatedState(s, c, call, g, f);
    assert Captured(s.book, s.fence.generation, call) && Flying(s.book, s.work.refreshes, c, call);
    RotateKeeps(s.book, call.row, g, Confirmed, s.fence.generation);
    ReplaceListable(s.book, call.row, Rotated(At(s.book.rows, call.row), g));
    MovesNot(t.book, s.fence.generation, f.generation);
    MovesTwice(s.book, s.fence.generation, t.book, s.fence.generation, t.book, f.generation, NONE);
    CallsCarry(s.book, s.fence.generation, t.book, f.generation, NONE, s.work);
    var phase := t.work.calls[c];
    assert Captured(t.book, f.generation, phase) && Flying(t.book, s.work.refreshes, c, phase);
    CallsSet(t.book, f.generation, s.work, c, phase);
    QuietRotated(s, t, c);
  }

  lemma {:induction false} RotatedKeeps(s: State, c: CallRef, g: Grant, f: Fence, past: Past)
    requires Inv(s, past) && CallAt(s.work, c).Refreshing? && f.generation >= s.fence.generation
    requires CallAt(s.work, c).row in s.book.accounts
    requires At(s.book.rows, CallAt(s.work, c).row).state == CallAt(s.work, c).original
    ensures Inv(RotatedState(s, c, CallAt(s.work, c), g, f), past)
  {
    hide BookOk;
    hide CallsOk;
    hide QuietOk;
    hide SignInOk;
    hide RotationsOk;
    hide OriginsOk;
    var call := s.work.calls[c];
    var t := RotatedState(s, c, call, g, f);
    RotatedCalls(s, c, g, f, past);
    RotationRecorded(s, c, g, f, past);
    assert t.trace.rotations[|s.trace.rotations|].successor == |s.book.rows|;
    OriginsExtend(s.book, s.fence.generation, t.book, s.trace, t.trace, past);
    SignInSet(s.signIn, s.work.calls, |s.book.accounts|, c, t.work.calls[c]);
  }

  lemma {:induction false} QuietRotated(s: State, t: State, c: CallRef)
    requires CallsOk(s.book, s.fence.generation, s.work) && QuietOk(s.book, s.work)
    requires c < |s.work.calls|
    requires Moves(s.book, s.fence.generation, t.book, s.fence.generation, NONE)
    requires |t.work.calls| == |s.work.calls| && t.work.calls == s.work.calls[c := t.work.calls[c]]
    requires t.work.calls[c].Rediscovering? && t.work.calls[c].row == |s.book.rows|
    ensures QuietOk(t.book, t.work)
  {
    QuietCarries(s.book, s.fence.generation, t.book, s.fence.generation, NONE, s.work);
    forall k | 0 <= k < |s.work.calls| && s.work.calls[k].Discovering? ensures s.work.calls[k].row < |s.book.rows| {
      assert Captured(s.book, s.fence.generation, s.work.calls[k]);
    }
  }

  lemma {:induction false} RefreshExchangedKeeps(s: State, c: CallRef, reply: Option<Grant>, env: Env, past: Past)
    requires Inv(s, past)
    ensures Inv(RefreshExchangedStep(s, c, reply, env), past)
  {
    hide Inv;
    hide Rotate;
    hide RecoveryCurrent;
    var call := CallAt(s.work, c);
    if !call.Refreshing? {
    } else if reply.None? {
      RefreshFailedKeeps(s, c, call.row, env.again, past);
    } else {
      var f := Own(s.fence, env.owned);
      OwnGrows(s.fence, env.owned);
      CarryFence(s, f, past);
      if !MayRotate(s, f, call, reply.value, env.live) {
        RefreshFailedKeeps(s.(fence := f), c, call.row, env.again, past);
      } else if env.save.Confirmed? {
        var f1 := if call.recovery.Some? then Own(f, env.stillOwned) else f;
        OwnGrows(f, env.stillOwned);
        RotatedKeeps(s, c, reply.value, f1, past);
        var t := RotatedState(s, c, call, reply.value, f1);
        RefreshFailedKeeps(t, c, |s.book.rows|, env.again, past);
        RefreshFailedAnyPhase(t.(work := s.work), c, t.work.calls[c], |s.book.rows|, env.again);
      } else {
        UnsavedRotationKeeps(s, c, reply.value, f, env, past);
      }
    }
  }

  lemma {:induction false} UnsavedRotationKeeps(s: State, c: CallRef, g: Grant, f: Fence, env: Env, past: Past)
    requires Inv(s, past) && CallAt(s.work, c).Refreshing? && f.generation >= s.fence.generation
    requires MayRotate(s, f, CallAt(s.work, c), g, env.live) && !env.save.Confirmed?
    ensures Inv(RefreshFailed(s.(book := Rotate(s.book, CallAt(s.work, c).row, g, env.save),
                                 fence := PersistFence(f, env.save)), c, CallAt(s.work, c).row, env.again), past)
  {
    var call := s.work.calls[c];
    assert Captured(s.book, s.fence.generation, call);
    var b := Rotate(s.book, call.row, g, env.save);
    var f1 := PersistFence(f, env.save);
    RotateKeeps(s.book, call.row, g, env.save, s.fence.generation);
    MovesNot(b, s.fence.generation, f1.generation);
    MovesTwice(s.book, s.fence.generation, b, s.fence.generation, b, f1.generation, NONE);
    hide Inv;
    hide Rotate;
    Carry(s, b, f1, past, NONE);
    RefreshFailedKeeps(s.(book := b, fence := f1), c, call.row, env.again, past);
  }

  /** A connecting save on the row of a shared call. */
  lemma {:induction false} ConnectedKeeps(s: State, r: RowRef, models: Catalog, f: Fence, save: Save, past: Past)
    requires Inv(s, past) && f.generation >= s.fence.generation
    requires At(s.book.rows, r).state != Disconnected || r >= |s.book.rows|
    requires forall k :: 0 <= k < |s.work.calls| && s.work.calls[k].Discovering? ==> s.work.calls[k].row != r
    ensures Inv(s.(book := Connect(s.book, r, models, save), fence := PersistFence(f, save)), past)
  {
    var b := Connect(s.book, r, models, save);
    var f1 := PersistFence(f, save);
    ConnectKeeps(s.book, r, models, save, s.fence.generation);
    MovesNot(b, s.fence.generation, f1.generation);
    assert Moves(b, s.fence.generation, b, f1.generation, r);
    MovesTwice(s.book, s.fence.generation, b, s.fence.generation, b, f1.generation, r);
    hide Inv;
    hide Connect;
    hide Moves;
    Carry(s, b, f1, past, r);
  }

  lemma {:induction false} SharedIsQuiet(s: State, c: CallRef, past: Past)
    requires Inv(s, past) && Shared(CallAt(s.work, c))
    ensures forall k :: 0 <= k < |s.work.calls| && s.work.calls[k].Discovering? ==>
              s.work.calls[k].row != CallAt(s.work, c).row
  {}

  lemma {:induction false} CatalogWrittenKeeps(s: State, r: RowRef, models: Catalog, past: Past)
    requires Inv(s, past)
    ensures Inv(s.(book := Update(s.book, r, At(s.book.rows, r).(models := models))), past)
  {
    UpdateModelsKeeps(s.book, r, models, s.fence.generation);
    var b := Update(s.book, r, At(s.book.rows, r).(models := models));
    hide Inv;
    Carry(s, b, s.fence, past, NONE);
    assert s.(book := b, fence := s.fence) == s.(book := b);
  }

  lemma {:induction false} RediscoveringFits(s: State, c: CallRef, past: Past)
    requires Inv(s, past) && CallAt(s.work, c).Rediscovering?
    ensures var call := CallAt(s.work, c);
            call.row < |s.book.rows| && call.original != Disconnected
    ensures forall k :: 0 <= k < |s.work.calls| && s.work.calls[k].Discovering? ==>
              s.work.calls[k].row != CallAt(s.work, c).row
  {
    assert Captured(s.book, s.fence.generation, s.work.calls[c]);
    SharedIsQuiet(s, c, past);
  }

  lemma {:induction false} RefreshDiscoveredKeeps(s: State, c: CallRef, catalog: Option<Catalog>, env: Env, past: Past)
    requires Inv(s, past)
    ensures Inv(RefreshDiscoveredStep(s, c, catalog, env), past)
  {
    hide Inv;
    hide Connect;
    hide RefreshFailed;
    hide RecoveryCurrent;
    var call := CallAt(s.work, c);
    if !call.Rediscovering? {
    } else if catalog.None? {
      RefreshFailedKeeps(s, c, call.row, env.again, past);
    } else {
      RediscoveringFits(s, c, past);
      CatalogWrittenKeeps(s, call.row, catalog.value, past);
      var b := Update(s.book, call.row, At(s.book.rows, call.row).(models := catalog.value));
      var s1 := s.(book := b);
      RefreshFailedKeeps(s1, c, call.row, env.again, past);
      var f0 := Own(s.fence, env.owned);
      var f := if call.recovery.Some? then Own(f0, env.stillOwned) else f0;
      OwnGrows(s.fence, env.owned);
      OwnGrows(f0, env.stillOwned);
      CarryFence(s1, f, past);
      RefreshFailedKeeps(s1.(fence := f), c, call.row, env.again, past);
      if MayReconnect(b, f, call, env) {
        ConnectedKeeps(s1.(fence := f), call.row, catalog.value, f, env.save, past);
        var s2 := s.(book := Connect(b, call.row, catalog.value, env.save), fence := PersistFence(f, env.save));
        RefreshFailedKeeps(s2, c, call.row, env.again, past);
        CarrySettle(s2, c, Some(call.row), past);
      }
    }
  }

  // ---------------------------------------------------------------- recovery and leases

  lemma {:induction false} PublishedInRange(b: Book, id: AccountId)
    requires BookOk(b) && Find(b, id).Some?
    ensures Find(b, id).value in b.accounts && Find(b, id).value < |b.rows|
    ensures b.rows[Find(b, id).value].id == id
  {
    FindInRow(b.rows, b.accounts, id);
    var i :| 0 <= i < |b.accounts| && b.accounts[i] == Find(b, id).value;
  }

  lemma {:induction false} IdleHasNoSignIn(s: State, past: Past)
    requires Inv(s, past) && !s.signIn.exchange
    ensures forall c :: 0 <= c < |s.work.calls| ==> !Signing(s.work.calls[c])
  {}

  lemma {:induction false} RetryStartKeeps(s: State, id: AccountId, permitted: bool, env: Env, past: Past)
    requires Inv(s, past)
    ensures Inv(RetryStartStep(s, id, permitted, env), past)
  {
    var f := Own(s.fence, env.owned);
    OwnGrows(s.fence, env.owned);
    CarryFence(s, f, past);
    var found := Find(s.book, id);
    if !(f.closed || !env.live || found.None? || At(s.book.rows, found.value).state == Disconnected
         || s.signIn.pending.Some? || s.signIn.exchange || id in s.work.refreshes)
    {
      PublishedInRange(s.book, id);
      IdleHasNoSignIn(s, past);
      var f1 := EnsureController(f, id);
      var f2 := Own(f1, env.stillOwned);
      OwnGrows(f1, env.stillOwned);
      CarryFence(s, f2, past);
      var call := RetryCall(found.value, At(s.book.rows, found.value), f2, f1.generation, permitted, env.now);
      assert Captured(s.book, f2.generation, call);
      hide Inv;
      CarryStart(s.(fence := f2), id, call, past);
    }
  }

  lemma {:induction false} RetryVerifiedKeeps(s: State, c: CallRef, subject: Option<string>, env: Env, past: Past)
    requires Inv(s, past)
    ensures Inv(RetryVerifiedStep(s, c, subject, env), past)
  {
    var call := CallAt(s.work, c);
    if call.Verifying? {
      CarrySettle(s, c, None, past);
      var f := Own(s.fence, env.owned);
      OwnGrows(s.fence, env.owned);
      CarryFence(s, f, past);
      CarrySettle(s.(fence := f), c, None, past);
      var next := Relisting(call.row, call.generation, call.controller);
      RelistingKeeps(s.(fence := f), c, next, past);
      hide Inv;
    }
  }

  lemma {:induction false} RelistingKeeps(s: State, c: CallRef, next: Call, past: Past)
    requires Inv(s, past) && CallAt(s.work, c).Verifying? && next.Relisting? && next.row == CallAt(s.work, c).row
    ensures Inv(s.(work := SetCall(s.work, c, next)), past)
  {
    assert Captured(s.book, s.fence.generation, s.work.calls[c]);
    assert Flying(s.book, s.work.refreshes, c, s.work.calls[c]);
    CallsSet(s.book, s.fence.generation, s.work, c, next);
    QuietSet(s.book, s.work, c, next);
    SignInSet(s.signIn, s.work.calls, |s.book.accounts|, c, next);
    RotationsWork(s.book, s.work, SetCall(s.work, c, next), s.trace);
    hide BookOk;
    hide CallsOk;
    hide QuietOk;
    hide SignInOk;
    hide RotationsOk;
    hide OriginsOk;
  }

  lemma {:induction false} RetryListedKeeps(s: State, c: CallRef, catalog: Option<Catalog>, env: Env, past: Past)
    requires Inv(s, past)
    ensures Inv(RetryListedStep(s, c, catalog, env), past)
  {
    var call := CallAt(s.work, c);
    if call.Relisting? {
      SharedIsQuiet(s, c, past);
      hide Inv;
      CarrySettle(s, c, None, past);
      if catalog.Some? {
        var f := Own(s.fence, env.owned);
        OwnGrows(s.fence, env.owned);
        CarryFence(s, f, past);
        CarrySettle(s.(fence := f), c, None, past);
        if RetryCurrent(s.book, f, call.row, call.generation, call.controller, env.live) {
          ConnectedKeeps(s.(fence := f), call.row, catalog.value, f, env.save, past);
          hide Connect;
          CarrySettle(s.(book := Connect(s.book, call.row, catalog.value, env.save), fence := PersistFence(f, env.save)),
                      c, if env.save.Confirmed? then Some(call.row) else None, past);
        }
      }
    }
  }

  lemma {:induction false} GrantLeaseKeeps(s: State, lease: Lease, model: string, owned: bool, env: Env, past: Past)
    requires Inv(s, past)
    ensures Inv(GrantLease(s, lease, model, owned, env), past)
  {
    var f := Own(s.fence, owned);
    OwnGrows(s.fence, owned);
    CarryFence(s, f, past);
    if LeaseCurrent(s.book, f, lease, env.live, env.now) {
      LeasedKeeps(s.(fence := f), lease, env.now, past);
    }
    hide Inv;
  }

  /** A row found at start is stale, so a lease never stands on one. */
  lemma {:induction false} LeasedKeeps(s: State, lease: Lease, now: Clock, past: Past)
    requires Inv(s, past) && LeaseCurrent(s.book, s.fence, lease, true, now)
    ensures Inv(s.(trace := s.trace.(leases := s.trace.leases + [lease])), past)
  {
    var tu := s.trace.(leases := s.trace.leases + [lease]);
    var i :| 0 <= i < |s.book.accounts| && s.book.accounts[i] == lease.row;
    assert Born(s.trace, lease.row);
    forall r ensures Born(tu, r) <==> Born(s.trace, r) {
      assert tu.rotations == s.trace.rotations && tu.registrations == s.trace.registrations;
    }
    hide BookOk;
    hide CallsOk;
    hide QuietOk;
    hide SignInOk;
    hide Born;
    assert OriginsOk(s.book, tu, past);
    assert RotationsOk(s.book, s.work, tu);
  }

  lemma {:induction false} ReadyStartKeeps(s: State, id: AccountId, model: string, env: Env, past: Past)
    requires Inv(s, past)
    ensures Inv(ReadyStartStep(s, id, model, env), past)
  {
    var f := Own(s.fence, env.owned);
    OwnGrows(s.fence, env.owned);
    CarryFence(s, f, past);
    var found := Find(s.book, id);
    if !(f.closed || !env.live || found.None? || At(s.book.rows, found.value).state != Connected
         || (id !in s.work.refreshes && model !in At(s.book.rows, found.value).models))
    {
      var row := found.value;
      PublishedInRange(s.book, id);
      var f1 := EnsureController(f, id);
      CarryFence(s, f1, past);
      var controller := ControllerOf(f1, id);
      var c := |s.work.calls|;
      var s1 := s.(fence := f1);
      if id in s.work.refreshes {
        hide Inv;
        CarryAppend(s1, Waiting(s.work.refreshes[id], controller, model), past);
      } else if Expiring(At(s.book.rows, row), env.now) {
        var call := Refreshing(row, Connected, At(s.book.rows, row).refreshToken, controller, None);
        assert Captured(s.book, f1.generation, call);
        hide Inv;
        CarryStart(s1, id, call, past);
        var s2 := s1.(work := Work(s.work.refreshes[id := c], s.work.calls + [call]));
        CarryAppend(s2, Waiting(c, controller, model), past);
        assert s.work.calls + [call] + [Waiting(c, controller, model)]
            == s.work.calls + [call, Waiting(c, controller, model)];
      } else {
        hide Inv;
        GrantLeaseKeeps(s1, Lease(row, controller), model, env.stillOwned, env, past);
      }
    }
  }

  lemma {:induction false} ReadyResumedKeeps(s: State, c: CallRef, env: Env, past: Past)
    requires Inv(s, past)
    ensures Inv(ReadyResumedStep(s, c, env), past)
  {
    hide Inv;
    var call := CallAt(s.work, c);
    if call.Waiting? && CallAt(s.work, call.on).Settled? {
      CarrySettle(s, c, None, past);
      var shared := CallAt(s.work, call.on).result;
      if shared.Some? {
        GrantLeaseKeeps(s.(work := Settle(s.work, c, None)), Lease(shared.value, call.controller),
                        call.model, env.owned, env, past);
      }
    }
  }

  lemma {:induction false} ReapKeeps(s: State, id: AccountId, past: Past)
    requires Inv(s, past)
    ensures Inv(ReapStep(s, id), past)
  {
    var t := ReapStep(s, id);
    assert CallsOk(t.book, t.fence.generation, t.work) by {
      forall c | 0 <= c < |t.work.calls|
        ensures Captured(t.book, t.fence.generation, t.work.calls[c]) && Flying(t.book, t.work.refreshes, c, t.work.calls[c])
      {
        assert Captured(s.book, s.fence.generation, s.work.calls[c]);
        assert Flying(s.book, s.work.refreshes, c, s.work.calls[c]);
      }
    }
    RotationsWork(s.book, s.work, t.work, s.trace);
    hide BookOk;
    hide CallsOk;
    hide RotationsOk;
    hide OriginsOk;
  }

  // ---------------------------------------------------------------- sign-in

  lemma {:induction false} CarrySignIn(s: State, i: SignIn, past: Past)
    requires Inv(s, past) && SignInOk(i, s.work.calls, |s.book.accounts|) && PendingInRange(i, s.book)
    ensures Inv(s.(signIn := i), past)
  {}

  lemma {:induction false} BeginKeeps(s: State, owner: string, selected: Option<AccountId>, env: Env, past: Past)
    requires Inv(s, past)
    ensures Inv(BeginStep(s, owner, selected, env), past)
  {
    var f := Own(s.fence, env.owned);
    OwnGrows(s.fence, env.owned);
    CarryFence(s, f, past);
    var t := BeginStep(s, owner, selected, env);
    if t.signIn != s.signIn {
      if selected.Some? {
        PublishedInRange(s.book, selected.value);
      }
      CarrySignIn(s.(fence := f), t.signIn, past);
    }
  }

  /** Dropping the pending sign-in. */
  lemma {:induction false} DropPendingKeeps(s: State, past: Past)
    requires Inv(s, past)
    ensures Inv(s.(signIn := s.signIn.(pending := None)), past)
  {
    CarrySignIn(s, s.signIn.(pending := None), past);
  }

  lemma {:induction false} CancelKeeps(s: State, owner: string, past: Past)
    requires Inv(s, past)
    ensures Inv(CancelStep(s, owner), past)
  {
    DropPendingKeeps(s, past);
    hide Inv;
    CarryFence(s.(signIn := s.signIn.(pending := None)), s.fence.(generation := s.fence.generation + 1), past);
  }

  lemma {:induction false} CloseKeeps(s: State, past: Past)
    requires Inv(s, past)
    ensures Inv(CloseStep(s), past)
  {
    hide Inv;
    DropPendingKeeps(s, past);
    CarryFence(s.(signIn := s.signIn.(pending := None)), Trip(s.fence).(closed := true), past);
  }

  lemma {:induction false} CompleteStartKeeps(s: State, owner: string, accepted: bool, clientId: Option<string>,
                           wellFormed: bool, env: Env, past: Past)
    requires Inv(s, past)
    ensures Inv(CompleteStartStep(s, owner, accepted, clientId, wellFormed, env), past)
  {
    if !(s.signIn.pending.None? || s.signIn.pending.value.owner != owner || !accepted) {
      var p := s.signIn.pending.value;
      var f := Own(s.fence, env.owned);
      OwnGrows(s.fence, env.owned);
      CarryFence(s, f, past);
      var s1 := s.(fence := f);
      var issued := IssuedClient(s.book.rows, p.target, clientId);
      if f.closed || !env.live || !wellFormed || issued.None? {
        CarrySignIn(s1, EndExchange(s.signIn.(pending := None)), past);
      } else {
        var call := Completing(p.ticket, f.generation, p.target, issued.value);
        SendingKeeps(s1, owner, call, past);
      }
    }
  }

  /** A code goes out: its ticket leaves the pending slot for good. */
  lemma {:induction false} SendingKeeps(s: State, owner: string, call: Call, past: Past)
    requires Inv(s, past) && s.signIn.pending.Some? && call.Completing?
    requires call.ticket == s.signIn.pending.value.ticket && call.target == s.signIn.pending.value.target
    requires Captured(s.book, s.fence.generation, call)
    ensures Inv(s.(signIn := s.signIn.(pending := None, exchange := true, exchangingOwner := Some(owner),
                                       codes := s.signIn.codes + [call.ticket]),
                   work := s.work.(calls := s.work.calls + [call])), past)
  {
    CallsAppend(s.book, s.fence.generation, s.work, call);
    QuietAppend(s.book, s.work, s.work.refreshes, call);
    RotationsWork(s.book, s.work, s.work.(calls := s.work.calls + [call]), s.trace);
    hide BookOk;
    hide CallsOk;
    hide QuietOk;
    hide RotationsOk;
    hide OriginsOk;
    var i := s.signIn.(pending := None, exchange := true, exchangingOwner := Some(owner),
                       codes := s.signIn.codes + [call.ticket]);
    assert SignInOk(i, s.work.calls + [call], |s.book.accounts|);
  }

  lemma {:induction false} DeclinedKeeps(s: State, c: CallRef, past: Past)
    requires Inv(s, past) && Signing(CallAt(s.work, c))
    ensures Inv(Declined(s, c), past)
  {
    SettledSignInKeeps(s, c, None, past);
  }

  lemma {:induction false} SettledSignInKeeps(s: State, c: CallRef, result: Option<RowRef>, past: Past)
    requires Inv(s, past) && Signing(CallAt(s.work, c))
    ensures Inv(s.(signIn := EndExchange(s.signIn), work := Settle(s.work, c, result)), past)
  {
    CarrySettle(s, c, result, past);
    var s1 := s.(work := Settle(s.work, c, result));
    forall d | 0 <= d < |s1.work.calls| ensures !Signing(s1.work.calls[d]) {
      if d != c {
        assert s1.work.calls[d] == s.work.calls[d];
      }
    }
    CarrySignIn(s1, EndExchange(s.signIn), past);
    hide Inv;
  }

  lemma {:induction false} MayRegisterFits(s: State, f: Fence, c: CallRef, g: Grant, live: bool, past: Past)
    requires Inv(s, past) && CallAt(s.work, c).Completing? && MayRegister(s, f, CallAt(s.work, c), g, live)
    ensures var a := SignedIn(s.book.rows, CallAt(s.work, c).target, CallAt(s.work, c).clientId, g);
            |s.book.accounts| < MAX_ACCOUNTS
            || exists r :: r in s.book.accounts && At(s.book.rows, r).id == a.id
  {
    var call := s.work.calls[c];
    assert Captured(s.book, s.fence.generation, call);
    if call.target.Some? {
      var t := call.target.value;
      assert s.book.rows[t].id == AccountId(s.book.rows[t].clientId, s.book.rows[t].subject);
    }
  }

  lemma {:induction false} CompleteExchangedKeeps(s: State, c: CallRef, reply: Option<Grant>, env: Env, past: Past)
    requires Inv(s, past)
    ensures Inv(CompleteExchangedStep(s, c, reply, env), past)
  {
    var call := CallAt(s.work, c);
    if !call.Completing? {
    } else if reply.None? {
      DeclinedKeeps(s, c, past);
    } else {
      var f := Own(s.fence, env.owned);
      OwnGrows(s.fence, env.owned);
      CarryFence(s, f, past);
      if !MayRegister(s, f, call, reply.value, env.live) {
        hide Inv;
        DeclinedKeeps(s.(fence := f), c, past);
      } else {
        var row := SignedIn(s.book.rows, call.target, call.clientId, reply.value);
        MayRegisterFits(s, f, c, reply.value, env.live, past);
        var f1 := AbortOne(f, row.id).(controllers := f.controllers - {row.id});
        if env.save.Confirmed? {
          RegisteredKeeps(s, c, row, f1, past);
          hide Inv;
          hide Register;
        } else {
          UnsavedSignInKeeps(s, c, row, f1, env.save, past);
          hide Inv;
          hide Register;
          DeclinedKeeps(s.(book := Register(s.book, row, env.save), fence := PersistFence(f1, env.save)), c, past);
        }
      }
    }
  }

  lemma {:induction false} UnsavedSignInKeeps(s: State, c: CallRef, row: Account, f: Fence, save: Save, past: Past)
    requires Inv(s, past) && s.fence.generation <= f.generation && !save.Confirmed?
    requires RowMeetsSchema(row) && row.id == AccountId(row.clientId, row.subject)
    requires |s.book.accounts| < MAX_ACCOUNTS
             || exists r :: r in s.book.accounts && At(s.book.rows, r).id == row.id
    ensures Inv(s.(book := Register(s.book, row, save), fence := PersistFence(f, save)), past)
  {
    RegisterKeeps(s.book, row, save, s.fence.generation);
    var b := Register(s.book, row, save);
    var f1 := PersistFence(f, save);
    MovesNot(b, s.fence.generation, f1.generation);
    MovesTwice(s.book, s.fence.generation, b, s.fence.generation, b, f1.generation, NONE);
    hide Inv;
    hide Register;
    hide Moves;
    Carry(s, b, f1, past, NONE);
  }

  lemma {:induction false} RegisteredKeeps(s: State, c: CallRef, row: Account, f: Fence, past: Past)
    requires Inv(s, past) && CallAt(s.work, c).Completing?
    requires s.fence.generation <= f.generation && f.generation == CallAt(s.work, c).generation
    requires RowMeetsSchema(row) && row.id == AccountId(row.clientId, row.subject) && row.state == ReauthRequired
    requires |s.book.accounts| < MAX_ACCOUNTS
             || exists r :: r in s.book.accounts && At(s.book.rows, r).id == row.id
    ensures Inv(State(Register(s.book, row, Confirmed), f, s.signIn,
                      SetCall(s.work, c, Discovering(s.work.calls[c].ticket, s.work.calls[c].generation, |s.book.rows|)),
                      s.trace.(registrations := s.trace.registrations + [Registration(c, |s.book.rows|)])), past)
  {
    hide QuietOk;
    hide SignInOk;
    hide OriginsOk;
    hide Without;
    var call := s.work.calls[c];
    var next := Discovering(call.ticket, call.generation, |s.book.rows|);
    var b := Register(s.book, row, Confirmed);
    var tu := s.trace.(registrations := s.trace.registrations + [Registration(c, |s.book.rows|)]);
    RegisterKeeps(s.book, row, Confirmed, s.fence.generation);
    assert tu.registrations[|s.trace.registrations|].row == |s.book.rows|;
    OriginsExtend(s.book, s.fence.generation, b, s.trace, tu, past);
    MovesNot(b, s.fence.generation, f.generation);
    MovesTwice(s.book, s.fence.generation, b, s.fence.generation, b, f.generation, NONE);
    CallsCarry(s.book, s.fence.generation, b, f.generation, NONE, s.work);
    CallsSet(b, f.generation, s.work, c, next);
    QuietRegistered(s, b, c, next);
    RotationsCarry(s.book, s.fence.generation, b, f.generation, NONE, s.work, s.trace);
    RotationsWork(b, s.work, SetCall(s.work, c, next), s.trace);
    SignInRegistered(s, c, next, |b.accounts|);
  }

  lemma {:induction false} QuietRegistered(s: State, b: Book, c: CallRef, next: Call)
    requires CallsOk(s.book, s.fence.generation, s.work) && QuietOk(s.book, s.work) && c < |s.work.calls|
    requires SignInOk(s.signIn, s.work.calls, |s.book.accounts|) && s.work.calls[c].Completing?
    requires next.Discovering? && next.row == |s.book.rows|
    requires |b.rows| == |s.book.rows| + 1 && b.rows[|s.book.rows|].state != Connected
    ensures QuietOk(b, SetCall(s.work, c, next))
  {
    forall d | 0 <= d < |s.work.calls| && Shared(s.work.calls[d]) ensures s.work.calls[d].row < |s.book.rows| {
      assert Captured(s.book, s.fence.generation, s.work.calls[d]);
    }
    forall d | 0 <= d < |s.work.calls| && d != c ensures !s.work.calls[d].Discovering? {
      assert !(Signing(s.work.calls[c]) && Signing(s.work.calls[d]));
    }
  }

  lemma {:induction false} SignInRegistered(s: State, c: CallRef, next: Call, size: nat)
    requires SignInOk(s.signIn, s.work.calls, |s.book.accounts|) && c < |s.work.calls|
    requires s.work.calls[c].Completing? && next.Discovering? && next.ticket == s.work.calls[c].ticket
    ensures SignInOk(s.signIn, s.work.calls[c := next], size)
  {
    forall d | 0 <= d < |s.work.calls| && d != c ensures !Signing(s.work.calls[d]) {
      assert !(Signing(s.work.calls[c]) && Signing(s.work.calls[d]));
    }
  }

  lemma {:induction false} CompleteDiscoveredKeeps(s: State, c: CallRef, catalog: Option<Catalog>, env: Env, past: Past)
    requires Inv(s, past)
    ensures Inv(CompleteDiscoveredStep(s, c, catalog, env), past)
  {
    var call := CallAt(s.work, c);
    if !call.Discovering? {
    } else if catalog.None? {
      DeclinedKeeps(s, c, past);
    } else {
      var f := Own(s.fence, env.owned);
      OwnGrows(s.fence, env.owned);
      CarryFence(s, f, past);
      if f.closed || !env.live || f.generation != call.generation {
        hide Inv;
        DeclinedKeeps(s.(fence := f), c, past);
      } else {
        var f1 := PersistFence(f, env.save);
        var f2 := if env.save.Confirmed? then Own(f1, env.stillOwned) else f1;
        OwnGrows(f1, env.stillOwned);
        var result := if env.save.Confirmed? && !f2.closed then Some(call.row) else None;
        ActivatedKeeps(s, c, catalog.value, env.save, f2, result, past);
        hide Inv;
        hide Connect;
      }
    }
  }

  /** The sign-in settles in the same section that connects its row. */
  lemma {:induction false} ActivatedKeeps(
    s: State, c: CallRef, models: Catalog, save: Save, f: Fence, result: Option<RowRef>, past: Past)
    requires Inv(s, past) && CallAt(s.work, c).Discovering? && s.fence.generation <= f.generation
    requires s.fence.generation == CallAt(s.work, c).generation
    ensures Inv(State(Connect(s.book, CallAt(s.work, c).row, models, save), f,
                      EndExchange(s.signIn), Settle(s.work, c, result), s.trace), past)
  {
    var r := s.work.calls[c].row;
    assert Captured(s.book, s.fence.generation, s.work.calls[c]);
    SettledSignInKeeps(s, c, result, past);
    var s1 := s.(signIn := EndExchange(s.signIn), work := Settle(s.work, c, result));
    IdleHasNoSignIn(s1, past);
    var b := Connect(s.book, r, models, save);
    ConnectKeeps(s.book, r, models, save, s.fence.generation);
    MovesNot(b, s.fence.generation, f.generation);
    assert Moves(b, s.fence.generation, b, f.generation, r);
    MovesTwice(s.book, s.fence.generation, b, s.fence.generation, b, f.generation, r);
    hide Inv;
    hide Connect;
    hide Moves;
    Carry(s1, b, f, past, r);
  }

  // ---------------------------------------------------------------- disconnect

  lemma {:induction false} UnselectKeeps(s: State, id: AccountId, past: Past)
    requires Inv(s, past)
    ensures Inv(s.(signIn := Unselect(s.signIn, s.book, id)), past)
  {
    hide Inv;
    DropPendingKeeps(s, past);
    assert Unselect(s.signIn, s.book, id) == s.signIn ==> s.(signIn := Unselect(s.signIn, s.book, id)) == s;
  }

  lemma {:induction false} ErasedKeeps(s: State, r: RowRef, revoked: bool, save: Save, past: Past)
    requires Inv(s, past) && At(s.book.rows, r).state == Disconnected
    ensures Inv(s.(book := Erase(s.book, r, revoked, save), fence := PersistFence(s.fence, save)), past)
  {
    var b := Erase(s.book, r, revoked, save);
    var f := PersistFence(s.fence, save);
    EraseKeeps(s.book, r, revoked, save, s.fence.generation);
    MovesNot(b, s.fence.generation, f.generation);
    MovesTwice(s.book, s.fence.generation, b, s.fence.generation, b, f.generation, NONE);
    hide Inv;
    hide Erase;
    hide Moves;
    Carry(s, b, f, past, NONE);
  }

  lemma {:induction false} WithdrawnIsCaptured(b: Book, r: RowRef, save: Save, g: nat)
    requires BookOk(b) && r in b.accounts
    ensures Captured(Withdraw(b, r, save), g, Disconnecting(r))
    ensures At(Withdraw(b, r, save).rows, r).state == Disconnected
  {
    var i :| 0 <= i < |b.accounts| && b.accounts[i] == r;
    WithdrawKeeps(b, r, save, g, g + 1);
    hide Withdraw;
    hide Moves;
  }

  lemma {:induction false} WithdrawnKeeps(s: State, r: RowRef, f: Fence, save: Save, past: Past)
    requires Inv(s, past) && r in s.book.accounts && s.fence.generation < f.generation
    ensures Inv(s.(book := Withdraw(s.book, r, save), fence := f), past)
    ensures Captured(Withdraw(s.book, r, save), f.generation, Disconnecting(r))
    ensures At(Withdraw(s.book, r, save).rows, r).state == Disconnected
  {
    var b := Withdraw(s.book, r, save);
    assert BookOk(s.book);
    hide Inv;
    hide Withdraw;
    hide Moves;
    hide BookOk;
    WithdrawnIsCaptured(s.book, r, save, f.generation);
    hide Captured;
    WithdrawKeeps(s.book, r, save, s.fence.generation, f.generation);
    Carry(s, b, f, past, NONE);
  }

  lemma {:induction false} DisconnectRowKeeps(s: State, id: AccountId, r: RowRef, f: Fence, env: Env, past: Past)
    requires Inv(s, past) && r in s.book.accounts && s.fence.generation <= f.generation
    ensures Inv(DisconnectRow(s, id, r, f, env), past)
  {
    hide Inv;
    var f1 := PersistFence(AbortOne(f, id).(generation := f.generation + 1), env.save);
    UnselectKeeps(s, id, past);
    var s1 := s.(signIn := Unselect(s.signIn, s.book, id));
    WithdrawnKeeps(s1, r, f1, env.save, past);
    hide Withdraw;
    hide Erase;
    hide Unselect;
    var s2 := s1.(book := Withdraw(s.book, r, env.save), fence := f1);
    ErasedKeeps(s2, r, false, env.again, past);
    CarryAppend(s2, Disconnecting(r), past);
  }

  lemma {:induction false} DisconnectStartKeeps(s: State, id: AccountId, env: Env, past: Past)
    requires Inv(s, past)
    ensures Inv(DisconnectStartStep(s, id, env), past)
  {
    var f := Own(s.fence, env.owned);
    OwnGrows(s.fence, env.owned);
    CarryFence(s, f, past);
    if !f.closed && Find(s.book, id).Some? {
      PublishedInRange(s.book, id);
      hide Inv;
      hide DisconnectRow;
      DisconnectRowKeeps(s, id, Find(s.book, id).value, f, env, past);
    }
  }

  lemma {:induction false} DisconnectFinishKeeps(s: State, c: CallRef, revoked: bool, env: Env, past: Past)
    requires Inv(s, past)
    ensures Inv(DisconnectFinishStep(s, c, revoked, env), past)
  {
    var call := CallAt(s.work, c);
    if call.Disconnecting? {
      assert Captured(s.book, s.fence.generation, call);
      hide Inv;
      ErasedKeeps(s, call.row, revoked, env.save, past);
      hide Erase;
      CarrySettle(s.(book := Erase(s.book, call.row, revoked, env.save), fence := PersistFence(s.fence, env.save)),
                  c, None, past);
    }
  }

  // ---------------------------------------------------------------- all sections

  lemma {:induction false} StepKeeps(s: State, e: Event, past: Past)
    requires Inv(s, past)
    ensures Inv(Step(s, e), past)
  {
    hide Inv;
    hide BeginStep;
    hide CancelStep;
    hide CompleteStartStep;
    hide CompleteExchangedStep;
    hide CompleteDiscoveredStep;
    hide RefreshExchangedStep;
    hide RefreshDiscoveredStep;
    hide RetryStartStep;
    hide RetryVerifiedStep;
    hide RetryListedStep;
    hide ReadyStartStep;
    hide ReadyResumedStep;
    hide DisconnectStartStep;
    hide DisconnectFinishStep;
    hide ReapStep;
    hide CloseStep;
    match e
    case Begin(owner, selected, env) => BeginKeeps(s, owner, selected, env, past);
    case Cancel(owner) => CancelKeeps(s, owner, past);
    case CompleteStart(owner, accepted, clientId, wellFormed, env) =>
      CompleteStartKeeps(s, owner, accepted, clientId, wellFormed, env, past);
    case CompleteExchanged(c, reply, env) => CompleteExchangedKeeps(s, c, reply, env, past);
    case CompleteDiscovered(c, catalog, env) => CompleteDiscoveredKeeps(s, c, catalog, env, past);
    case RefreshExchanged(c, reply, env) => RefreshExchangedKeeps(s, c, reply, env, past);
    case RefreshDiscovered(c, catalog, env) => RefreshDiscoveredKeeps(s, c, catalog, env, past);
    case RetryStart(id, permitted, env) => RetryStartKeeps(s, id, permitted, env, past);
    case RetryVerified(c, subject, env) => RetryVerifiedKeeps(s, c, subject, env, past);
    case RetryListed(c, catalog, env) => RetryListedKeeps(s, c, catalog, env, past);
    case ReadyStart(id, model, env) => ReadyStartKeeps(s, id, model, env, past);
    case ReadyResumed(c, env) => ReadyResumedKeeps(s, c, env, past);
    case DisconnectStart(id, env) => DisconnectStartKeeps(s, id, env, past);
    case DisconnectFinish(c, revoked, env) => DisconnectFinishKeeps(s, c, revoked, env, past);
    case Reap(id) => ReapKeeps(s, id, past);
    case Probe(env) => ProbeKeeps(s, env.owned, past);
    case Close => CloseKeeps(s, past);
  }

  lemma {:induction false} LoadedBookIsOk(stored: seq<Account>)
    requires MeetsSchema(stored)
    ensures BookOk(Load(stored).book)
  {}

  lemma {:induction false} LoadKeeps(stored: seq<Account>)
    requires MeetsSchema(stored)
    ensures Inv(Load(stored), Past(|stored|, {}))
  {
    hide BookOk;
    hide MeetsSchema;
    LoadedBookIsOk(stored);
  }

  /** The invariant holds after every run, from every restart. */
  lemma {:induction false} RunKeeps(s: State, events: seq<Event>, past: Past)
    requires Inv(s, past)
    ensures Inv(Run(s, events), past)
    decreases |events|
  {
    if events != [] {
      StepKeeps(s, events[0], past);
      RunKeeps(Step(s, events[0]), events[1..], past);
    }
  }
}
