/** The promises of the adviser accounts, over every interleaving. */
module AdviserTheorems {
  import opened Options
  import opened AdviserState
  import opened AdviserBook
  import opened AdviserInvariant
  import opened AdviserSteps

  // ---------------------------------------------------------------- what one section may do

  /** Generations only grow, calls are only added, and no old call turns into a code exchange. */
  ghost predicate Onward(s: State, t: State) {
    && s.fence.generation <= t.fence.generation
    && |s.work.calls| <= |t.work.calls|
    && (forall d :: 0 <= d < |s.work.calls| && t.work.calls[d].Completing? ==> t.work.calls[d] == s.work.calls[d])
  }

  lemma {:induction false} PersistPublishes(b: Book, next: seq<RowRef>, save: Save)
    ensures Persist(b, next, save).accounts == if save.Confirmed? then next else b.accounts
  {}

  lemma {:induction false} RefreshFailedOnward(s: State, c: CallRef, owner: RowRef, save: Save)
    ensures Onward(s, RefreshFailed(s, c, owner, save))
    ensures RefreshFailed(s, c, owner, save).book.accounts == s.book.accounts
    ensures RefreshFailed(s, c, owner, save).trace == s.trace
  {
    hide Demote;
    hide Image;
    hide Find;
  }

  /** A refresh either leaves the list and the rotation log alone, or passes its fences, swaps its
      own row for the successor and logs exactly that. */
  lemma {:induction false} RefreshExchangedOnward(s: State, c: CallRef, reply: Option<Grant>, env: Env)
    ensures Onward(s, RefreshExchangedStep(s, c, reply, env))
    ensures var t := RefreshExchangedStep(s, c, reply, env);
            var call := CallAt(s.work, c);
            || (t.book.accounts == s.book.accounts && t.trace.rotations == s.trace.rotations)
            || (&& call.Refreshing? && reply.Some?
                && MayRotate(s, Own(s.fence, env.owned), call, reply.value, env.live)
                && t.book.accounts == Replace(s.book.accounts, call.row, |s.book.rows|)
                && t.trace.rotations
                   == s.trace.rotations + [Rotation(c, call.row, |s.book.rows|, call.submitted)])
  {
    hide RefreshFailed;
    hide Replace;
    hide MayRotate;
    hide RecoveryCurrent;
    var call := CallAt(s.work, c);
    if call.Refreshing? && reply.Some? {
      var f := Own(s.fence, env.owned);
      var s1 := s.(book := Rotate(s.book, call.row, reply.value, env.save));
      PersistPublishes(Allocate(s.book, Rotated(At(s.book.rows, call.row), reply.value)),
                       Replace(s.book.accounts, call.row, |s.book.rows|), env.save);
      hide Persist;
      var f1 := if call.recovery.Some? then Own(f, env.stillOwned) else f;
      var s2 := s1.(fence := f1,
                    trace := s.trace.(rotations := s.trace.rotations
                                                   + [Rotation(c, call.row, |s.book.rows|, call.submitted)]));
      RefreshFailedOnward(s.(fence := f), c, call.row, env.again);
      RefreshFailedOnward(s1.(fence := PersistFence(f, env.save)), c, call.row, env.again);
      RefreshFailedOnward(s2, c, |s.book.rows|, env.again);
    } else if call.Refreshing? {
      RefreshFailedOnward(s, c, call.row, env.again);
    }
  }

  lemma {:induction false} RefreshDiscoveredOnward(s: State, c: CallRef, catalog: Option<Catalog>, env: Env)
    ensures Onward(s, RefreshDiscoveredStep(s, c, catalog, env))
    ensures RefreshDiscoveredStep(s, c, catalog, env).book.accounts == s.book.accounts
  {
    hide RefreshFailed;
    var call := CallAt(s.work, c);
    if call.Rediscovering? && catalog.Some? {
      var b := Update(s.book, call.row, At(s.book.rows, call.row).(models := catalog.value));
      var f0 := Own(s.fence, env.owned);
      var f := if call.recovery.Some? then Own(f0, env.stillOwned) else f0;
      var s1 := s.(book := Connect(b, call.row, catalog.value, env.save), fence := PersistFence(f, env.save));
      PersistPublishes(Update(b, call.row, At(b.rows, call.row).(models := catalog.value, state := Connected)),
                       b.accounts, env.save);
      hide Persist;
      RefreshFailedOnward(s.(book := b), c, call.row, env.again);
      RefreshFailedOnward(s.(book := b, fence := f), c, call.row, env.again);
      RefreshFailedOnward(s1, c, call.row, env.again);
    } else if call.Rediscovering? {
      RefreshFailedOnward(s, c, call.row, env.again);
    }
  }

  lemma {:induction false} DisconnectStartOnward(s: State, id: AccountId, env: Env)
    ensures Onward(s, DisconnectStartStep(s, id, env))
    ensures DisconnectStartStep(s, id, env).book.accounts == s.book.accounts
  {
    hide Find;
    hide Image;
    hide Demote;
    hide Put;
  }

  predicate SignInEvent(e: Event) {
    e.Begin? || e.Cancel? || e.CompleteStart? || e.CompleteExchanged? || e.CompleteDiscovered?
  }

  lemma {:induction false} SignInOnward(s: State, e: Event)
    requires SignInEvent(e)
    ensures Onward(s, Step(s, e))
  {
    hide Find;
    hide Persist;
    hide Register;
    hide Connect;
    hide IssuedClient;
    hide MayRegister;
    hide SignedIn;
  }

  lemma {:induction false} OtherStepOnward(s: State, e: Event)
    requires !SignInEvent(e) && !e.RefreshExchanged? && !e.RefreshDiscovered? && !e.DisconnectStart?
    ensures Onward(s, Step(s, e))
  {
    hide Find;
    hide Persist;
    hide Erase;
    hide Connect;
    hide RetryCurrent;
    hide LeaseCurrent;
  }

  lemma {:induction false} StepOnward(s: State, e: Event)
    ensures Onward(s, Step(s, e))
  {
    hide Onward;
    hide DisconnectStartStep;
    hide RefreshExchangedStep;
    hide RefreshDiscoveredStep;
    hide BeginStep;
    hide CancelStep;
    hide CompleteStartStep;
    hide CompleteExchangedStep;
    hide CompleteDiscoveredStep;
    hide RetryStartStep;
    hide RetryVerifiedStep;
    hide RetryListedStep;
    hide ReadyStartStep;
    hide ReadyResumedStep;
    hide DisconnectFinishStep;
    hide ReapStep;
    hide CloseStep;
    match e {
      case RefreshExchanged(c, reply, env) => RefreshExchangedOnward(s, c, reply, env);
      case RefreshDiscovered(c, catalog, env) => RefreshDiscoveredOnward(s, c, catalog, env);
      case DisconnectStart(id, env) => DisconnectStartOnward(s, id, env);
      case _ =>
        if SignInEvent(e) {
          SignInOnward(s, e);
        } else {
          OtherStepOnward(s, e);
        }
    }
  }

  // ---------------------------------------------------------------- disconnect is final

  /** Every sign-in that started before `cutoff` has lost its generation. */
  ghost predicate Stale(s: State, cutoff: CallRef) {
    && cutoff <= |s.work.calls|
    && forall c :: 0 <= c < cutoff && s.work.calls[c].Completing? ==> s.work.calls[c].generation < s.fence.generation
  }

  /** A sign-in that started at or after `cutoff` reaches its first save. */
  predicate LateSignIn(e: Event, cutoff: CallRef) {
    e.CompleteExchanged? && e.call >= cutoff
  }

  lemma {:induction false} StaleStays(s: State, e: Event, cutoff: CallRef)
    requires Stale(s, cutoff)
    ensures Stale(Step(s, e), cutoff)
  {
    StepOnward(s, e);
    hide Step;
  }

  lemma {:induction false} RefreshKeepsPublished(
    s: State, c: CallRef, reply: Option<Grant>, env: Env, past: Past, r: RowRef)
    requires Inv(s, past) && r in s.book.accounts && At(s.book.rows, r).state == Disconnected
    ensures r in RefreshExchangedStep(s, c, reply, env).book.accounts
  {
    RefreshExchangedOnward(s, c, reply, env);
    hide RefreshExchangedStep;
    var call := CallAt(s.work, c);
    if call.Refreshing? {
      assert Captured(s.book, s.fence.generation, call);
      if call.row != r {
        var i :| 0 <= i < |s.book.accounts| && s.book.accounts[i] == r;
        assert Replace(s.book.accounts, call.row, |s.book.rows|)[i] == r;
      }
    }
    hide Inv;
  }

  lemma {:induction false} OtherStepsPublish(s: State, e: Event)
    requires !e.CompleteExchanged? && !e.RefreshExchanged?
    ensures Step(s, e).book.accounts == s.book.accounts
  {
    match e {
      case RefreshDiscovered(c, catalog, env) =>
        RefreshDiscoveredOnward(s, c, catalog, env);
        hide RefreshDiscoveredStep;
      case DisconnectStart(id, env) =>
        DisconnectStartOnward(s, id, env);
        hide DisconnectStartStep;
      case _ =>
        hide Find;
        hide Image;
        hide Demote;
        hide Put;
    }
  }

  lemma {:induction false} SignInKeepsPublished(
    s: State, c: CallRef, reply: Option<Grant>, env: Env, past: Past, cutoff: CallRef, r: RowRef)
    requires Inv(s, past) && r in s.book.accounts && r in past.gone && Stale(s, cutoff) && c < cutoff
    ensures r in CompleteExchangedStep(s, c, reply, env).book.accounts
  {
    hide Inv;
    hide Persist;
    hide Register;
    hide SignedIn;
    OwnGrows(s.fence, env.owned);
  }

  /** Only a sign-in that started later can take a disconnected row out of the list. */
  lemma {:induction false} StepKeepsPublished(s: State, e: Event, past: Past, cutoff: CallRef, r: RowRef)
    requires Inv(s, past) && r in s.book.accounts && r in past.gone && Stale(s, cutoff)
    requires !LateSignIn(e, cutoff)
    ensures r in Step(s, e).book.accounts
  {
    hide Inv;
    hide Stale;
    hide RefreshExchangedStep;
    hide CompleteExchangedStep;
    CredentialIsReal(s, r, past);
    match e {
      case RefreshExchanged(c, reply, env) => RefreshKeepsPublished(s, c, reply, env, past, r);
      case CompleteExchanged(c, reply, env) => SignInKeepsPublished(s, c, reply, env, past, cutoff, r);
      case _ =>
        OtherStepsPublish(s, e);
        hide Step;
    }
  }

  lemma {:induction false} RunKeepsPublished(s: State, events: seq<Event>, past: Past, cutoff: CallRef, r: RowRef)
    requires Inv(s, past) && r in s.book.accounts && r in past.gone && Stale(s, cutoff)
    requires forall i :: 0 <= i < |events| ==> !LateSignIn(events[i], cutoff)
    ensures r in Run(s, events).book.accounts
    decreases |events|
  {
    if events != [] {
      StepKeepsPublished(s, events[0], past, cutoff, r);
      StepKeeps(s, events[0], past);
      StaleStays(s, events[0], cutoff);
      hide Inv;
      hide Stale;
      hide Step;
      RunKeepsPublished(Step(s, events[0]), events[1..], past, cutoff, r);
    }
  }

  /** The first section of `disconnect` took hold of row `r`. */
  predicate Disconnects(s: State, id: AccountId, env: Env, r: RowRef) {
    !Own(s.fence, env.owned).closed && Find(s.book, id) == Some(r)
  }

  lemma {:induction false} DisconnectTakesHold(s: State, id: AccountId, env: Env, past: Past, r: RowRef)
    requires Inv(s, past) && Disconnects(s, id, env, r)
    ensures var t := DisconnectStartStep(s, id, env);
            && Inv(t, Past(past.loaded, past.gone + {r}))
            && r in t.book.accounts && Stale(t, |s.work.calls|)
  {
    DisconnectStartKeeps(s, id, env, past);
    DisconnectStartOnward(s, id, env);
    PublishedInRange(s.book, id);
    var f := Own(s.fence, env.owned);
    DisconnectedRow(s, id, r, f, env, past);
    var t := DisconnectStartStep(s, id, env);
    hide DisconnectRow;
    RowIsGone(t, past, r);
    BecomesStale(s, t, past);
    hide Inv;
  }

  lemma {:induction false} DisconnectFences(s: State, id: AccountId, env: Env, past: Past, r: RowRef)
    requires Inv(s, past) && Disconnects(s, id, env, r)
    ensures var t := DisconnectStartStep(s, id, env);
            At(t.book.rows, r).state == Disconnected && s.fence.generation < t.fence.generation
  {
    PublishedInRange(s.book, id);
    DisconnectedRow(s, id, r, Own(s.fence, env.owned), env, past);
    hide DisconnectRow;
    hide Inv;
  }

  /** A connected row holds a credential, and a row that was withdrawn is not connected. */
  lemma {:induction false} CredentialIsReal(s: State, r: RowRef, past: Past)
    requires Inv(s, past)
    ensures At(s.book.rows, r).state == Connected && r in s.book.accounts ==> At(s.book.rows, r).accessToken != 0
    ensures r in past.gone ==> At(s.book.rows, r).state == Disconnected
  {
    hide CallsOk;
    hide QuietOk;
    hide SignInOk;
    hide RotationsOk;
    hide Born;
  }

  lemma {:induction false} RowIsGone(t: State, past: Past, r: RowRef)
    requires Inv(t, past) && r < |t.book.rows| && t.book.rows[r].state == Disconnected
    ensures Inv(t, Past(past.loaded, past.gone + {r}))
  {
    hide BookOk;
    hide CallsOk;
    hide QuietOk;
    hide SignInOk;
    hide RotationsOk;
    hide Born;
  }

  lemma {:induction false} BecomesStale(s: State, t: State, past: Past)
    requires Inv(s, past) && Onward(s, t) && s.fence.generation < t.fence.generation
    ensures Stale(t, |s.work.calls|)
  {
    forall c | 0 <= c < |s.work.calls| && t.work.calls[c].Completing?
      ensures t.work.calls[c].generation < t.fence.generation
    {
      assert Captured(s.book, s.fence.generation, s.work.calls[c]);
    }
  }

  lemma {:induction false} DisconnectedRow(s: State, id: AccountId, r: RowRef, f: Fence, env: Env, past: Past)
    requires Inv(s, past) && r in s.book.accounts && r < |s.book.rows| && s.fence.generation <= f.generation
    ensures var t := DisconnectRow(s, id, r, f, env);
            && s.fence.generation < t.fence.generation
            && At(t.book.rows, r).state == Disconnected && r < |t.book.rows|
  {
    var g := s.fence.generation;
    WithdrawKeeps(s.book, r, env.save, g, g + 1);
    var b := Withdraw(s.book, r, env.save);
    hide Inv;
    hide Withdraw;
    EraseKeeps(b, r, false, env.again, g);
    assert RowEvolves(b.rows[r], Erase(b, r, false, env.again).rows[r]);
    hide Erase;
    hide Unselect;
    hide BookOk;
  }

  /** After the first section of `disconnect`, whatever runs next: the row stays disconnected, no
      lease on it yields a credential, and it stays published unless a later sign-in replaces it. */
  lemma {:induction false} DisconnectIsFinal(
    s: State, id: AccountId, env: Env, events: seq<Event>, past: Past, r: RowRef)
    requires Inv(s, past) && Disconnects(s, id, env, r)
    ensures var t := Run(DisconnectStartStep(s, id, env), events);
            && At(t.book.rows, r).state == Disconnected
            && (forall lease: Lease, later: Env :: lease.row == r ==> LeaseToken(t, lease, later) == None)
            && ((forall i :: 0 <= i < |events| ==> !LateSignIn(events[i], |s.work.calls|)) ==>
                  r in t.book.accounts)
  {
    DisconnectTakesHold(s, id, env, past, r);
    var s1 := DisconnectStartStep(s, id, env);
    var past1 := Past(past.loaded, past.gone + {r});
    RunKeeps(s1, events, past1);
    if forall i :: 0 <= i < |events| ==> !LateSignIn(events[i], |s.work.calls|) {
      RunKeepsPublished(s1, events, past1, |s.work.calls|, r);
    }
    hide DisconnectStartStep;
  }

  // ---------------------------------------------------------------- what disconnects a row

  /** No old object becomes disconnected. */
  ghost predicate Spares(b: Book, c: Book) {
    && |b.rows| <= |c.rows|
    && forall r :: 0 <= r < |b.rows| && c.rows[r].state == Disconnected ==> b.rows[r].state == Disconnected
  }

  lemma {:induction false} PersistSpares(b: Book, next: seq<RowRef>, save: Save)
    ensures Spares(b, Persist(b, next, save))
  {
    hide Image;
  }

  lemma {:induction false} WriteSpares(b: Book, r: RowRef, a: Account, save: Save)
    requires a.state == Disconnected ==> At(b.rows, r).state == Disconnected
    ensures Spares(b, Persist(Update(b, r, a), b.accounts, save))
  {
    PersistSpares(Update(b, r, a), b.accounts, save);
    hide Persist;
  }

  lemma {:induction false} GrowSpares(b: Book, a: Account, next: seq<RowRef>, save: Save)
    ensures Spares(b, Persist(Allocate(b, a), next, save))
  {
    PersistSpares(Allocate(b, a), next, save);
    hide Persist;
  }

  lemma {:induction false} LapseSpares(b: Book, owner: RowRef, save: Save)
    ensures Spares(b, Lapse(b, owner, save))
  {
    WriteSpares(b, owner, At(b.rows, owner).(state := ReauthRequired), save);
    hide Persist;
    hide Update;
  }

  lemma {:induction false} RefreshFailedSpares(s: State, c: CallRef, owner: RowRef, save: Save)
    ensures Spares(s.book, RefreshFailed(s, c, owner, save).book)
  {
    LapseSpares(s.book, owner, save);
    hide Lapse;
    hide Owns;
  }

  lemma {:induction false} RefreshExchangedSpares(s: State, c: CallRef, reply: Option<Grant>, env: Env)
    ensures Spares(s.book, RefreshExchangedStep(s, c, reply, env).book)
  {
    hide RefreshFailed;
    hide MayRotate;
    hide RecoveryCurrent;
    var call := CallAt(s.work, c);
    if call.Refreshing? {
      RefreshFailedSpares(s, c, call.row, env.again);
      if reply.Some? {
        var f := Own(s.fence, env.owned);
        var s1 := s.(book := Rotate(s.book, call.row, reply.value, env.save));
        GrowSpares(s.book, Rotated(At(s.book.rows, call.row), reply.value),
                   Replace(s.book.accounts, call.row, |s.book.rows|), env.save);
        hide Persist;
        assert Spares(s.book, s1.book);
        hide Rotate;
        var f1 := if call.recovery.Some? then Own(f, env.stillOwned) else f;
        var s2 := s1.(fence := f1,
                      trace := s.trace.(rotations := s.trace.rotations
                                                     + [Rotation(c, call.row, |s.book.rows|, call.submitted)]));
        RefreshFailedSpares(s.(fence := f), c, call.row, env.again);
        RefreshFailedSpares(s1.(fence := PersistFence(f, env.save)), c, call.row, env.again);
        RefreshFailedSpares(s2, c, |s.book.rows|, env.again);
      }
    }
  }

  lemma {:induction false} RefreshDiscoveredSpares(s: State, c: CallRef, catalog: Option<Catalog>, env: Env)
    ensures Spares(s.book, RefreshDiscoveredStep(s, c, catalog, env).book)
  {
    hide RefreshFailed;
    hide RecoveryCurrent;
    var call := CallAt(s.work, c);
    if call.Rediscovering? {
      RefreshFailedSpares(s, c, call.row, env.again);
      if catalog.Some? {
        var b := Update(s.book, call.row, At(s.book.rows, call.row).(models := catalog.value));
        assert Spares(s.book, b);
        var f0 := Own(s.fence, env.owned);
        var f := if call.recovery.Some? then Own(f0, env.stillOwned) else f0;
        var s1 := s.(book := Connect(b, call.row, catalog.value, env.save), fence := PersistFence(f, env.save));
        WriteSpares(b, call.row, At(b.rows, call.row).(models := catalog.value, state := Connected), env.save);
        hide Persist;
        hide Update;
        assert Spares(b, s1.book);
        hide Connect;
        RefreshFailedSpares(s.(book := b), c, call.row, env.again);
        RefreshFailedSpares(s.(book := b, fence := f), c, call.row, env.again);
        RefreshFailedSpares(s1, c, call.row, env.again);
      }
    }
  }

  lemma {:induction false} SignInSpares(s: State, c: CallRef, reply: Option<Grant>, catalog: Option<Catalog>, env: Env)
    ensures Spares(s.book, CompleteExchangedStep(s, c, reply, env).book)
    ensures Spares(s.book, CompleteDiscoveredStep(s, c, catalog, env).book)
    ensures Spares(s.book, RetryListedStep(s, c, catalog, env).book)
  {
    hide Persist;
    hide MayRegister;
    var call := CallAt(s.work, c);
    if call.Completing? && reply.Some? {
      var a := SignedIn(s.book.rows, call.target, call.clientId, reply.value);
      GrowSpares(s.book, a, Without(Allocate(s.book, a).rows, s.book.accounts, a.id) + [|s.book.rows|], env.save);
    }
    if (call.Discovering? || call.Relisting?) && catalog.Some? {
      WriteSpares(s.book, call.row, At(s.book.rows, call.row).(models := catalog.value, state := Connected), env.save);
    }
    hide Update;
    hide Without;
  }

  lemma {:induction false} DisconnectFinishSpares(s: State, c: CallRef, revoked: bool, env: Env, past: Past)
    requires Inv(s, past)
    ensures Spares(s.book, DisconnectFinishStep(s, c, revoked, env).book)
  {
    var call := CallAt(s.work, c);
    if call.Disconnecting? {
      assert Captured(s.book, s.fence.generation, call);
      hide Inv;
      WriteSpares(s.book, call.row, SignedOut(At(s.book.rows, call.row), revoked), env.save);
      hide Persist;
      hide Update;
    }
  }

  lemma {:induction false} DisconnectStartSpares(s: State, id: AccountId, env: Env, r: RowRef)
    requires r < |s.book.rows| && At(DisconnectStartStep(s, id, env).book.rows, r).state == Disconnected
    ensures At(s.book.rows, r).state == Disconnected || Disconnects(s, id, env, r)
  {
    var found := Find(s.book, id);
    if found.Some? && found.value != r {
      var q := found.value;
      hide Find;
      hide Image;
      hide Unselect;
    }
  }

  /** The event is a `disconnect` that takes hold of row `r`. */
  predicate Takes(s: State, e: Event, r: RowRef) {
    e.DisconnectStart? && Disconnects(s, e.id, e.env, r)
  }

  lemma {:induction false} OnlyDisconnectTakes(s: State, e: Event, past: Past, r: RowRef)
    requires Inv(s, past) && r < |s.book.rows| && s.book.rows[r].state != Disconnected && !Takes(s, e, r)
    ensures r < |Step(s, e).book.rows| && Step(s, e).book.rows[r].state != Disconnected
  {
    hide Inv;
    hide CompleteExchangedStep;
    hide CompleteDiscoveredStep;
    hide RetryListedStep;
    hide RefreshExchangedStep;
    hide RefreshDiscoveredStep;
    hide DisconnectFinishStep;
    hide DisconnectStartStep;
    hide Find;
    match e {
      case CompleteExchanged(c, reply, env) => SignInSpares(s, c, reply, None, env);
      case CompleteDiscovered(c, catalog, env) => SignInSpares(s, c, None, catalog, env);
      case RetryListed(c, catalog, env) => SignInSpares(s, c, None, catalog, env);
      case RefreshExchanged(c, reply, env) => RefreshExchangedSpares(s, c, reply, env);
      case RefreshDiscovered(c, catalog, env) => RefreshDiscoveredSpares(s, c, catalog, env);
      case DisconnectFinish(c, revoked, env) => DisconnectFinishSpares(s, c, revoked, env, past);
      case DisconnectStart(id, env) =>
        StepKeeps(s, e, past);
        DisconnectStartGrows(s, id, env);
        if At(Step(s, e).book.rows, r).state == Disconnected {
          DisconnectStartSpares(s, id, env, r);
        }
      case _ =>
    }
  }

  lemma {:induction false} DisconnectStartGrows(s: State, id: AccountId, env: Env)
    ensures |s.book.rows| <= |DisconnectStartStep(s, id, env).book.rows|
  {
    hide Find;
    hide Image;
    hide Unselect;
  }

  /** Some event of the run takes hold of row `r`. */
  predicate Withdrawn(s: State, events: seq<Event>, r: RowRef)
    decreases |events|
  {
    events != [] && (Takes(s, events[0], r) || Withdrawn(Step(s, events[0]), events[1..], r))
  }

  /** A row is disconnected at the end of a run exactly when a `disconnect` took hold of it: not by a
      failed refresh, a lost store, a cancelled sign-in or anything else. */
  lemma {:induction false} DisconnectedExactlyByDisconnect(s: State, events: seq<Event>, past: Past, r: RowRef)
    requires Inv(s, past) && r < |s.book.rows| && s.book.rows[r].state != Disconnected
    ensures (At(Run(s, events).book.rows, r).state == Disconnected) <==> Withdrawn(s, events, r)
    decreases |events|
  {
    if events == [] {
    } else if Takes(s, events[0], r) {
      DisconnectIsFinal(s, events[0].id, events[0].env, events[1..], past, r);
      hide DisconnectStartStep;
    } else {
      OnlyDisconnectTakes(s, events[0], past, r);
      StepKeeps(s, events[0], past);
      hide Inv;
      hide Step;
      DisconnectedExactlyByDisconnect(Step(s, events[0]), events[1..], past, r);
    }
  }

  // ---------------------------------------------------------------- single flight and rotation

  ghost predicate Reachable(stored: seq<Account>, events: seq<Event>, t: State) {
    MeetsSchema(stored) && t == Run(Load(stored), events)
  }

  lemma {:induction false} ReachableInv(stored: seq<Account>, events: seq<Event>, t: State)
    requires Reachable(stored, events, t)
    ensures Inv(t, Past(|stored|, {}))
  {
    LoadKeeps(stored);
    RunKeeps(Load(stored), events, Past(|stored|, {}));
  }

  /** At most one refresh token per account id is outstanding, and it is the row's own. */
  lemma {:induction false} OneRefreshInFlight(
    stored: seq<Account>, events: seq<Event>, t: State, c: CallRef, d: CallRef)
    requires Reachable(stored, events, t) && c < |t.work.calls| && d < |t.work.calls|
    requires t.work.calls[c].Refreshing? && t.work.calls[d].Refreshing?
    requires At(t.book.rows, t.work.calls[c].row).id == At(t.book.rows, t.work.calls[d].row).id
    ensures c == d
    ensures At(t.book.rows, t.work.calls[c].row).state != Disconnected ==>
              At(t.book.rows, t.work.calls[c].row).refreshToken == t.work.calls[c].submitted
  {
    ReachableInv(stored, events, t);
    assert Flying(t.book, t.work.refreshes, c, t.work.calls[c]);
    assert Flying(t.book, t.work.refreshes, d, t.work.calls[d]);
    assert Captured(t.book, t.fence.generation, t.work.calls[c]);
  }

  /** Rotations form a line: each object and each call is spent once, and a spent object never
      comes back to the published list. */
  lemma {:induction false} RotationsAreLinear(stored: seq<Account>, events: seq<Event>, t: State, j: nat, k: nat)
    requires Reachable(stored, events, t) && j < k < |t.trace.rotations|
    ensures t.trace.rotations[j].replaced != t.trace.rotations[k].replaced
    ensures t.trace.rotations[j].call != t.trace.rotations[k].call
    ensures t.trace.rotations[j].replaced !in t.book.accounts
    ensures At(t.book.rows, t.trace.rotations[j].replaced).refreshToken == t.trace.rotations[j].submitted
  {
    ReachableInv(stored, events, t);
    assert Spent(t.book, t.work, t.trace.rotations[j]);
  }

  /** A refresh that saves a new pair swaps exactly the row whose token it submitted. */
  lemma {:induction false} RotationSwapsItsOwnRow(s: State, c: CallRef, reply: Option<Grant>, env: Env, past: Past)
    requires Inv(s, past) && CallAt(s.work, c).Refreshing?
    requires |RefreshExchangedStep(s, c, reply, env).trace.rotations| > |s.trace.rotations|
    ensures var t := RefreshExchangedStep(s, c, reply, env);
            var call := s.work.calls[c];
            && call.row in s.book.accounts
            && At(s.book.rows, call.row).refreshToken == call.submitted
            && t.book.accounts == Replace(s.book.accounts, call.row, |s.book.rows|)
  {
    RefreshExchangedOnward(s, c, reply, env);
    assert Captured(s.book, s.fence.generation, s.work.calls[c]);
    hide RefreshExchangedStep;
    hide Inv;
  }

  /** A superseded refresh changes no published row, no membership and nothing in the store. */
  lemma {:induction false} SupersededRefreshIsInert(
    s: State, c: CallRef, reply: Option<Grant>, catalog: Option<Catalog>, env: Env)
    requires CallAt(s.work, c).Refreshing? || CallAt(s.work, c).Rediscovering?
    requires CallAt(s.work, c).row !in s.book.accounts
    ensures CallAt(s.work, c).Refreshing? ==> RefreshExchangedStep(s, c, reply, env).book == s.book
    ensures CallAt(s.work, c).Rediscovering? ==>
              var t := RefreshDiscoveredStep(s, c, catalog, env);
              && t.book.accounts == s.book.accounts && t.book.durable == s.book.durable
              && forall r :: r in s.book.accounts ==> At(t.book.rows, r) == At(s.book.rows, r)
  {
    var row := CallAt(s.work, c).row;
    NeverOwns(s.book, row);
    if catalog.Some? {
      NeverOwns(Update(s.book, row, At(s.book.rows, row).(models := catalog.value)), row);
    }
    hide Owns;
    hide Persist;
    hide Rotate;
    hide Connect;
    hide RecoveryCurrent;
  }

  lemma {:induction false} NeverOwns(b: Book, r: RowRef)
    requires r !in b.accounts
    ensures !Owns(b, r)
  {
    FindInRow(b.rows, b.accounts, At(b.rows, r).id);
  }

  // ---------------------------------------------------------------- the store and restarts

  /** No save fails during this event. */
  predicate Calm(e: Event) {
    match e
    case Begin(_, _, env) => Saves(env)
    case Cancel(_) => true
    case CompleteStart(_, _, _, _, env) => Saves(env)
    case CompleteExchanged(_, _, env) => Saves(env)
    case CompleteDiscovered(_, _, env) => Saves(env)
    case RefreshExchanged(_, _, env) => Saves(env)
    case RefreshDiscovered(_, _, env) => Saves(env)
    case RetryStart(_, _, env) => Saves(env)
    case RetryVerified(_, _, env) => Saves(env)
    case RetryListed(_, _, env) => Saves(env)
    case ReadyStart(_, _, env) => Saves(env)
    case ReadyResumed(_, env) => Saves(env)
    case DisconnectStart(_, env) => Saves(env)
    case DisconnectFinish(_, _, env) => Saves(env)
    case Reap(_) => true
    case Probe(env) => Saves(env)
    case Close => true
  }

  predicate Saves(env: Env) {
    env.save.Confirmed? && env.again.Confirmed?
  }

  lemma {:induction false} CalmSaves(s: State, e: Event)
    requires Calm(e) && !s.book.saveFailed
    ensures !Step(s, e).book.saveFailed
  {
    hide Find;
    hide Image;
    hide Replace;
    hide Without;
    hide Own;
    hide AbortOne;
    hide RecoveryCurrent;
    hide MayRotate;
    hide MayRegister;
  }

  lemma {:induction false} CalmRuns(s: State, events: seq<Event>)
    requires !s.book.saveFailed && forall i :: 0 <= i < |events| ==> Calm(events[i])
    ensures !Run(s, events).book.saveFailed
    decreases |events|
  {
    if events != [] {
      CalmSaves(s, events[0]);
      hide Step;
      CalmRuns(Step(s, events[0]), events[1..]);
    }
  }

  /** In a run without a failed save, the store mirrors the published rows at every await point. */
  lemma {:induction false} StoreMirrorsMemory(stored: seq<Account>, events: seq<Event>, t: State)
    requires Reachable(stored, events, t) && forall i :: 0 <= i < |events| ==> Calm(events[i])
    ensures Mirrors(t.book.durable, t.book.rows, t.book.accounts)
  {
    ReachableInv(stored, events, t);
    CalmRuns(Load(stored), events);
  }

  /** Whatever fails, the store only ever holds a state that a restart accepts. */
  lemma {:induction false} StoreAlwaysLoads(stored: seq<Account>, events: seq<Event>, t: State)
    requires Reachable(stored, events, t)
    ensures MeetsSchema(t.book.durable)
    ensures Inv(Load(t.book.durable), Past(|t.book.durable|, {}))
  {
    ReachableInv(stored, events, t);
    LoadKeeps(t.book.durable);
  }

  /** After a restart no lease stands on a row read from the store: each leased row was created by a
      refresh or a sign-in of this process that saved it. */
  lemma {:induction false} LeasesNeedFreshProof(stored: seq<Account>, events: seq<Event>, t: State, k: nat)
    requires Reachable(stored, events, t) && k < |t.trace.leases|
    ensures t.trace.leases[k].row >= |stored|
    ensures (exists j :: 0 <= j < |t.trace.rotations| && t.trace.rotations[j].successor == t.trace.leases[k].row)
            || (exists j :: 0 <= j < |t.trace.registrations| && t.trace.registrations[j].row == t.trace.leases[k].row)
  {
    ReachableInv(stored, events, t);
    assert Born(t.trace, t.trace.leases[k].row);
  }

  /** A save that is not confirmed leaves no published row connected. */
  lemma {:induction false} FailedSaveRevokes(b: Book, next: seq<RowRef>, save: Save, f: Fence, lease: Lease, now: Clock)
    requires !save.Confirmed?
    ensures !LeaseCurrent(Persist(b, next, save), PersistFence(f, save), lease, true, now)
  {
    assert At(Demote(b.rows, b.accounts), lease.row).state == Connected ==> lease.row !in b.accounts;
  }

  // ---------------------------------------------------------------- sign-in

  /** One sign-in at a time, one code exchange per `begin`, unique ids, at most thirty accounts. */
  lemma {:induction false} SignInIsExclusive(stored: seq<Account>, events: seq<Event>, t: State)
    requires Reachable(stored, events, t)
    ensures !(t.signIn.pending.Some? && t.signIn.exchange)
    ensures forall j, k :: 0 <= j < k < |t.signIn.codes| ==> t.signIn.codes[j] != t.signIn.codes[k]
    ensures forall c, d :: 0 <= c < d < |t.work.calls| ==> !(Signing(t.work.calls[c]) && Signing(t.work.calls[d]))
    ensures |t.book.accounts| <= MAX_ACCOUNTS && DistinctIds(t.book.rows, t.book.accounts)
  {
    ReachableInv(stored, events, t);
  }

  /** A sign-in whose generation moved changes no account; if it had saved its row, that row is
      signed out or waits for reauthorization. */
  lemma {:induction false} StaleSignInPublishesNothing(
    s: State, c: CallRef, reply: Option<Grant>, catalog: Option<Catalog>, env: Env, past: Past)
    requires Inv(s, past) && Signing(CallAt(s.work, c))
    requires s.work.calls[c].generation != s.fence.generation
    ensures s.work.calls[c].Completing? ==> CompleteExchangedStep(s, c, reply, env).book == s.book
    ensures s.work.calls[c].Discovering? ==>
              && CompleteDiscoveredStep(s, c, catalog, env).book == s.book
              && At(s.book.rows, s.work.calls[c].row).state in {ReauthRequired, Disconnected}
  {
    assert Captured(s.book, s.fence.generation, s.work.calls[c]);
    OwnGrows(s.fence, env.owned);
    hide Persist;
    hide Find;
  }

  /** The row a sign-in has just saved waits for reauthorization at every later point of that
      sign-in, unless a `disconnect` takes hold of it, and then it is disconnected. */
  lemma {:induction false} UnfinishedSignInRow(s: State, events: seq<Event>, past: Past, c: CallRef, r: RowRef)
    requires Inv(s, past) && r < |s.book.rows| && s.book.rows[r].state == ReauthRequired
    requires CallAt(Run(s, events).work, c).Discovering? && CallAt(Run(s, events).work, c).row == r
    ensures At(Run(s, events).book.rows, r).state == if Withdrawn(s, events, r) then Disconnected else ReauthRequired
  {
    DisconnectedExactlyByDisconnect(s, events, past, r);
    RunKeeps(s, events, past);
    var t := Run(s, events);
    assert Captured(t.book, t.fence.generation, t.work.calls[c]);
    hide Run;
    hide Withdrawn;
  }
}
