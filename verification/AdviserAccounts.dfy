/** The service object: one method per section between awaits, each proved to take exactly the step
    of the state machine.  What the surroundings answer is passed in, as in the events. */
module AdviserAccounts {
  import opened Options
  import opened AdviserState
  import opened AdviserBook
  import opened AdviserInvariant
  import opened AdviserSteps
  import opened AdviserTheorems

  /** The loop of a failed save: every published account that was connected needs a new sign-in. */
  method DemoteConnected(before: seq<Account>, accounts: seq<RowRef>) returns (rows: seq<Account>)
    ensures rows == Demote(before, accounts)
  {
    rows := before;
    for i := 0 to |accounts|
      invariant |rows| == |before|
      invariant forall r :: 0 <= r < |rows| ==>
                  rows[r] == if r in accounts[..i] && before[r].state == Connected
                             then before[r].(state := ReauthRequired) else before[r]
    {
      var r := accounts[i];
      assert accounts[..i + 1] == accounts[..i] + [r];
      if At(rows, r).state == Connected {
        rows := rows[r := rows[r].(state := ReauthRequired)];
      }
    }
    assert accounts[..|accounts|] == accounts;
  }

  /** The loop of the constructor: a saved row is not live proof. */
  method ExpireStored(stored: seq<Account>) returns (rows: seq<Account>)
    ensures rows == Load(stored).book.rows
  {
    rows := stored;
    for i := 0 to |stored|
      invariant |rows| == |stored|
      invariant forall k :: 0 <= k < i ==> rows[k] == Restored(stored[k])
      invariant forall k :: i <= k < |stored| ==> rows[k] == stored[k]
    {
      if rows[i].state != Disconnected {
        rows := rows[i := rows[i].(expiresAt := 1)];
      }
    }
    assert rows == Load(stored).book.rows;
  }

  class ChatGptPlanAdviserAccounts {
    var rows: seq<Account>
    var accounts: seq<RowRef>
    var store: seq<Account>
    var pending: Option<Pending>
    var exchange: bool
    var exchangingOwner: Option<string>
    var generation: nat
    var refreshes: map<AccountId, CallRef>
    var controllers: map<AccountId, ControllerRef>
    var nextController: ControllerRef
    var aborted: set<ControllerRef>
    var closed: bool
    var calls: seq<Call>
    var tickets: nat  // stands for the random state, nonce and verifier of each sign-in
    ghost var codes: seq<nat>
    ghost var trace: Trace
    ghost var saveFailed: bool
    /** How many rows the constructor found, and every row a `disconnect` has taken hold of. */
    ghost var past: Past

    ghost function View(): State
      reads this
    {
      State(Book(rows, accounts, store, saveFailed),
            Fence(generation, controllers, nextController, aborted, closed),
            SignIn(pending, exchange, exchangingOwner, tickets, codes),
            Work(refreshes, calls),
            trace)
    }

    /** What holds between any two sections. */
    ghost predicate Valid()
      reads this
    {
      Inv(View(), past)
    }

    constructor (stored: seq<Account>)
      requires MeetsSchema(stored)
      ensures View() == Load(stored)
      ensures Valid() && past == Past(|stored|, {})
    {
      rows := [];
      accounts := seq(|stored|, (i: nat) => i);
      store := stored;
      pending, exchange, exchangingOwner := None, false, None;
      generation := 0;
      refreshes, controllers, nextController, aborted := map[], map[], 0, {};
      closed, calls := false, [];
      tickets, codes, trace, saveFailed := 0, [], Trace([], [], []), false;
      past := Past(|stored|, {});
      new;
      rows := ExpireStored(stored);
      LoadKeeps(stored);
    }

    method AbortControllers()
      modifies this`aborted
      ensures View() == old(View()).(fence := AbortAll(old(View()).fence))
    {
      aborted := aborted + controllers.Values;
    }

    /** `persist`: on an unconfirmed save, move the generation, abort every call and demote every
        connected account. */
    method Persist(next: seq<RowRef>, save: Save) returns (ok: bool)
      modifies this`store, this`accounts, this`rows, this`generation, this`aborted, this`saveFailed
      ensures ok == save.Confirmed?
      ensures View() == old(View()).(book := AdviserState.Persist(old(View()).book, next, save),
                                     fence := PersistFence(old(View()).fence, save))
    {
      hide Image;
      hide Demote;
      ok := save.Confirmed?;
      if save != Refused {
        store := Image(rows, next);
      }
      if ok {
        accounts := next;
        return;
      }
      generation := generation + 1;
      AbortControllers();
      saveFailed := true;
      rows := DemoteConnected(rows, accounts);
    }

    method AssertOwnership(owned: bool) returns (ok: bool)
      modifies this`closed, this`generation, this`aborted
      ensures View() == old(View()).(fence := Own(old(View()).fence, owned))
      ensures ok == !closed
    {
      if !closed && !owned {
        closed := true;
        generation := generation + 1;
        AbortControllers();
      }
      ok := !closed;
    }

    method Begin(owner: string, selected: Option<AccountId>, env: Env) returns (ok: bool)
      requires Valid()
      modifies this
      ensures View() == BeginStep(old(View()), owner, selected, env)
      ensures ok <==> pending.Some? && old(pending).None?
      ensures Valid() && past == old(past)
    {
      hide Inv;
      BeginKeeps(View(), owner, selected, env, past);
      ok := AssertOwnership(env.owned);
      if !ok || pending.Some? || exchange || (|accounts| >= MAX_ACCOUNTS && selected.None?) {
        return false;
      }
      var target := if selected.Some? then FindIn(rows, accounts, selected.value) else None;
      if selected.Some? && target.None? {
        return false;
      }
      pending := Some(Pending(tickets, owner, target));
      tickets := tickets + 1;
    }

    method Cancel(owner: string)
      requires Valid()
      modifies this
      ensures View() == CancelStep(old(View()), owner)
      ensures Valid() && past == old(past)
    {
      hide Inv;
      CancelKeeps(View(), owner, past);
      if (pending.Some? && pending.value.owner == owner) || exchangingOwner == Some(owner) {
        pending := None;
        generation := generation + 1;
      }
    }

    /** The `finally` block of `complete`, with the call settled. */
    method EndExchange(c: CallRef, result: Option<RowRef>)
      modifies this`exchange, this`exchangingOwner, this`calls
      ensures View() == old(View()).(signIn := AdviserState.EndExchange(old(View()).signIn),
                                     work := AdviserState.Settle(old(View()).work, c, result))
    {
      exchange := false;
      exchangingOwner := None;
      Settle(c, result);
    }

    method Settle(c: CallRef, result: Option<RowRef>)
      modifies this`calls
      ensures View() == old(View()).(work := AdviserState.Settle(old(View()).work, c, result))
    {
      if c < |calls| {
        calls := calls[c := Settled(result)];
      }
    }

    method SetRow(r: RowRef, a: Account)
      modifies this`rows
      ensures View() == old(View()).(book := Update(old(View()).book, r, a))
    {
      if r < |rows| {
        rows := rows[r := a];
      }
    }

    method Abort(id: AccountId)
      modifies this`aborted
      ensures View() == old(View()).(fence := AbortOne(old(View()).fence, id))
    {
      if id in controllers {
        aborted := aborted + {controllers[id]};
      }
    }

    /** The pending sign-in becomes the running exchange. */
    method TakePending(owner: string)
      modifies this`pending, this`exchange, this`exchangingOwner
      ensures View() == old(View()).(signIn := old(View()).signIn.(
                          pending := None, exchange := true, exchangingOwner := Some(owner)))
    {
      pending := None;
      exchange := true;
      exchangingOwner := Some(owner);
    }

    /** Send the code: its ticket is spent and the exchange waits. */
    method SendCode(call: Call)
      requires call.Completing?
      modifies this`codes, this`calls
      ensures View() == old(View()).(
                          signIn := old(View()).signIn.(codes := old(codes) + [call.ticket]),
                          work := old(View()).work.(calls := old(calls) + [call]))
    {
      codes := codes + [call.ticket];
      calls := calls + [call];
    }

    method CompleteStart(owner: string, accepted: bool, clientId: Option<string>, wellFormed: bool, env: Env)
      requires Valid()
      modifies this
      ensures View() == CompleteStartStep(old(View()), owner, accepted, clientId, wellFormed, env)
      ensures Valid() && past == old(past)
    {
      hide Inv;
      hide Own;
      hide IssuedClient;
      CompleteStartKeeps(View(), owner, accepted, clientId, wellFormed, env, past);
      if pending.None? || pending.value.owner != owner || !accepted {
        return;
      }
      var p := pending.value;
      TakePending(owner);
      var ok := AssertOwnership(env.owned);
      var issued := IssuedClient(rows, p.target, clientId);
      if !ok || !env.live || !wellFormed || issued.None? {
        exchange := false;
        exchangingOwner := None;
        return;
      }
      SendCode(Completing(p.ticket, generation, p.target, issued.value));
    }

    /** Save a verified sign-in in place of every row with its id. */
    method Register(account: Account, save: Save) returns (ok: bool)
      modifies this`rows, this`store, this`accounts, this`generation, this`aborted, this`saveFailed, this`controllers
      ensures ok == save.Confirmed?
      ensures var f := AbortOne(old(View()).fence, account.id).(controllers := old(controllers) - {account.id});
              View() == old(View()).(book := AdviserState.Register(old(View()).book, account, save),
                                     fence := PersistFence(f, save))
    {
      hide AdviserState.Persist;
      hide Without;
      Abort(account.id);
      controllers := controllers - {account.id};
      rows := rows + [account];
      ok := Persist(Without(rows, accounts, account.id) + [|rows| - 1], save);
    }

    /** The checks of a verified sign-in before anything is saved. */
    method RegistrationAllowed(call: Call, g: Grant, env: Env) returns (ok: bool)
      requires call.Completing?
      modifies this`closed, this`generation, this`aborted
      ensures View() == old(View()).(fence := Own(old(View()).fence, env.owned))
      ensures ok == MayRegister(old(View()), View().fence, call, g, env.live)
    {
      hide FindIn;
      ok := AssertOwnership(env.owned);
      ok := ok && env.live && generation == call.generation
            && (call.target.None? || g.subject == At(rows, call.target.value).subject)
            && (call.target.Some? || FindIn(rows, accounts, AccountId(call.clientId, g.subject)).None?)
            && (call.target.None? || call.target.value in accounts);
    }

    method CompleteExchanged(c: CallRef, reply: Option<Grant>, env: Env)
      requires Valid()
      modifies this
      ensures View() == CompleteExchangedStep(old(View()), c, reply, env)
      ensures Valid() && past == old(past)
    {
      hide Inv;
      hide AdviserState.Register;
      hide Own;
      hide MayRegister;
      hide SignedIn;
      CompleteExchangedKeeps(View(), c, reply, env, past);
      if c >= |calls| || !calls[c].Completing? {
        return;
      }
      var call := calls[c];
      if reply.None? {
        EndExchange(c, None);
        return;
      }
      var ok := RegistrationAllowed(call, reply.value, env);
      if !ok {
        EndExchange(c, None);
        return;
      }
      var row := |rows|;
      ok := Register(SignedIn(rows, call.target, call.clientId, reply.value), env.save);
      if !ok {
        EndExchange(c, None);
        return;
      }
      trace := trace.(registrations := trace.registrations + [Registration(c, row)]);
      calls := calls[c := Discovering(call.ticket, call.generation, row)];
    }

    /** `account.models = …; account.state = 'connected'; persist(state)`. */
    method Connect(r: RowRef, models: Catalog, save: Save) returns (ok: bool)
      modifies this`rows, this`store, this`accounts, this`generation, this`aborted, this`saveFailed
      ensures ok == save.Confirmed?
      ensures View() == old(View()).(book := AdviserState.Connect(old(View()).book, r, models, save),
                                     fence := PersistFence(old(View()).fence, save))
    {
      hide AdviserState.Persist;
      SetRow(r, At(rows, r).(models := models, state := Connected));
      ok := Persist(accounts, save);
    }

    method CompleteDiscovered(c: CallRef, catalog: Option<Catalog>, env: Env)
      requires Valid()
      modifies this
      ensures View() == CompleteDiscoveredStep(old(View()), c, catalog, env)
      ensures Valid() && past == old(past)
    {
      hide Inv;
      hide AdviserState.Connect;
      CompleteDiscoveredKeeps(View(), c, catalog, env, past);
      if c >= |calls| || !calls[c].Discovering? {
        return;
      }
      var call := calls[c];
      if catalog.None? {
        EndExchange(c, None);
        return;
      }
      var ok := AssertOwnership(env.owned);
      if !ok || !env.live || generation != call.generation {
        EndExchange(c, None);
        return;
      }
      ok := Connect(call.row, catalog.value, env.save);
      if !ok {
        EndExchange(c, None);
        return;
      }
      ok := AssertOwnership(env.stillOwned);
      EndExchange(c, if ok then Some(call.row) else None);
    }

    /** The `catch` block of `refresh`. */
    method RefreshFailed(c: CallRef, owner: RowRef, save: Save)
      modifies this`rows, this`store, this`accounts, this`generation, this`aborted, this`saveFailed, this`calls
      ensures View() == AdviserState.RefreshFailed(old(View()), c, owner, save)
    {
      hide AdviserState.Persist;
      hide AbortOne;
      hide Update;
      var current := FindIn(rows, accounts, At(rows, owner).id);
      if current == Some(owner) && At(rows, owner).state != Disconnected {
        var id := At(rows, owner).id;
        SetRow(owner, At(rows, owner).(state := ReauthRequired));
        Abort(id);
        var _ := Persist(accounts, save);
      }
      Settle(c, None);
    }

    /** Save the rotating pair before model discovery: the old token is never used again. */
    method Rotate(row: RowRef, g: Grant, save: Save) returns (ok: bool)
      modifies this`rows, this`store, this`accounts, this`generation, this`aborted, this`saveFailed
      ensures ok == save.Confirmed?
      ensures View() == old(View()).(book := AdviserState.Rotate(old(View()).book, row, g, save),
                                     fence := PersistFence(old(View()).fence, save))
    {
      hide AdviserState.Persist;
      hide Replace;
      var successor := |rows|;
      rows := rows + [Rotated(At(rows, row), g)];
      ok := Persist(Replace(accounts, row, successor), save);
    }

    /** The checks of a verified refresh before anything is saved. */
    method RotationAllowed(call: Call, g: Grant, env: Env) returns (ok: bool)
      requires call.Refreshing?
      modifies this`closed, this`generation, this`aborted
      ensures View() == old(View()).(fence := Own(old(View()).fence, env.owned))
      ensures ok == MayRotate(old(View()), View().fence, call, g, env.live)
    {
      ok := AssertOwnership(env.owned);
      ok := ok && g.subject == At(rows, call.row).subject && call.row in accounts
            && At(rows, call.row).state == call.original && (call.recovery.Some? || call.original == Connected)
            && call.controller !in aborted && env.live;
    }

    /** `assertRecoveryCurrent`, for the refresh of a recovery. */
    method RecoveryHolds(recovery: Option<nat>, controller: ControllerRef, owned: bool, attended: bool) returns (ok: bool)
      modifies this`closed, this`generation, this`aborted
      ensures var f := if recovery.Some? then Own(old(View()).fence, owned) else old(View()).fence;
              View() == old(View()).(fence := f) && ok == RecoveryCurrent(f, recovery, controller, attended)
    {
      ok := true;
      if recovery.Some? {
        ok := AssertOwnership(owned);
        ok := ok && attended && controller !in aborted && recovery.value == generation;
      }
    }

    method RefreshExchanged(c: CallRef, reply: Option<Grant>, env: Env)
      requires Valid()
      modifies this
      ensures View() == RefreshExchangedStep(old(View()), c, reply, env)
      ensures Valid() && past == old(past)
    {
      hide Inv;
      hide AdviserState.RefreshFailed;
      hide AdviserState.Rotate;
      hide Own;
      hide MayRotate;
      hide RecoveryCurrent;
      RefreshExchangedKeeps(View(), c, reply, env, past);
      if c >= |calls| || !calls[c].Refreshing? {
        return;
      }
      var call := calls[c];
      if reply.None? {
        RefreshFailed(c, call.row, env.again);
        return;
      }
      var ok := RotationAllowed(call, reply.value, env);
      if !ok {
        RefreshFailed(c, call.row, env.again);
        return;
      }
      var successor := |rows|;
      ok := Rotate(call.row, reply.value, env.save);
      if !ok {
        RefreshFailed(c, call.row, env.again);
        return;
      }
      trace := trace.(rotations := trace.rotations + [Rotation(c, call.row, successor, call.submitted)]);
      ok := RecoveryHolds(call.recovery, call.controller, env.stillOwned, env.attended);
      if !ok {
        RefreshFailed(c, successor, env.again);
        return;
      }
      calls := calls[c := Rediscovering(successor, call.original, call.controller, call.recovery)];
    }

    /** The checks of a finished refresh. */
    method ReconnectAllowed(call: Call, env: Env) returns (ok: bool)
      requires call.Rediscovering?
      modifies this`closed, this`generation, this`aborted
      ensures var f := Own(old(View()).fence, env.owned);
              View() == old(View()).(fence := if call.recovery.Some? then Own(f, env.stillOwned) else f)
      ensures ok == MayReconnect(old(View()).book, View().fence, call, env)
    {
      ok := AssertOwnership(env.owned);
      if ok {
        ok := RecoveryHolds(call.recovery, call.controller, env.stillOwned, env.attended);
      }
      ok := ok && call.row in accounts && At(rows, call.row).state == call.original;
    }

    method RefreshDiscovered(c: CallRef, catalog: Option<Catalog>, env: Env)
      requires Valid()
      modifies this
      ensures View() == RefreshDiscoveredStep(old(View()), c, catalog, env)
      ensures Valid() && past == old(past)
    {
      hide Inv;
      hide AdviserState.RefreshFailed;
      hide AdviserState.Connect;
      hide Own;
      hide MayReconnect;
      hide Update;
      RefreshDiscoveredKeeps(View(), c, catalog, env, past);
      if c >= |calls| || !calls[c].Rediscovering? {
        return;
      }
      var call := calls[c];
      if catalog.None? {
        RefreshFailed(c, call.row, env.again);
        return;
      }
      SetRow(call.row, At(rows, call.row).(models := catalog.value));
      if call.controller in aborted || !env.live {
        RefreshFailed(c, call.row, env.again);
        return;
      }
      var ok := ReconnectAllowed(call, env);
      if !ok {
        RefreshFailed(c, call.row, env.again);
        return;
      }
      ok := Connect(call.row, catalog.value, env.save);
      if !ok {
        RefreshFailed(c, call.row, env.again);
        return;
      }
      Settle(c, Some(call.row));
    }

    method EnsureController(id: AccountId) returns (controller: ControllerRef)
      modifies this`controllers, this`nextController
      ensures View() == old(View()).(fence := AdviserState.EnsureController(old(View()).fence, id))
      ensures controller == ControllerOf(View().fence, id)
    {
      if id !in controllers || controllers[id] in aborted {
        controllers := controllers[id := nextController];
        nextController := nextController + 1;
      }
      controller := controllers[id];
    }

    method RetryStart(id: AccountId, permitted: bool, env: Env)
      requires Valid()
      modifies this
      ensures View() == RetryStartStep(old(View()), id, permitted, env)
      ensures Valid() && past == old(past)
    {
      hide Inv;
      RetryStartKeeps(View(), id, permitted, env, past);
      var ok := AssertOwnership(env.owned);
      var found := FindIn(rows, accounts, id);
      if !ok || !env.live || found.None? || At(rows, found.value).state == Disconnected
         || pending.Some? || exchange || id in refreshes
      {
        return;
      }
      var controller := EnsureController(id);
      var captured := generation;
      var account := At(rows, found.value);
      ok := AssertOwnership(env.stillOwned);
      var call := Settled(None);
      if ok && permitted {
        if account.expiresAt <= env.now + REFRESH_WINDOW {
          call := Refreshing(found.value, account.state, account.refreshToken, controller, Some(captured));
        } else {
          call := Verifying(found.value, captured, controller);
        }
      }
      FindInRow(rows, accounts, id);
      refreshes := refreshes[id := |calls|];
      calls := calls + [call];
    }

    predicate RetryCurrent(row: RowRef, captured: nat, controller: ControllerRef, live: bool)
      reads this
    {
      && !closed && live && controller !in aborted && captured == generation
      && row in accounts && At(rows, row).state != Disconnected
    }

    method RetryVerified(c: CallRef, subject: Option<string>, env: Env)
      requires Valid()
      modifies this
      ensures View() == RetryVerifiedStep(old(View()), c, subject, env)
      ensures Valid() && past == old(past)
    {
      hide Inv;
      RetryVerifiedKeeps(View(), c, subject, env, past);
      if c >= |calls| || !calls[c].Verifying? {
        return;
      }
      var call := calls[c];
      if subject.None? {
        Settle(c, None);
        return;
      }
      var _ := AssertOwnership(env.owned);
      if RetryCurrent(call.row, call.generation, call.controller, env.live)
         && subject.value == At(rows, call.row).subject
      {
        calls := calls[c := Relisting(call.row, call.generation, call.controller)];
      } else {
        Settle(c, None);
      }
    }

    method RetryListed(c: CallRef, catalog: Option<Catalog>, env: Env)
      requires Valid()
      modifies this
      ensures View() == RetryListedStep(old(View()), c, catalog, env)
      ensures Valid() && past == old(past)
    {
      hide Inv;
      hide AdviserState.Connect;
      RetryListedKeeps(View(), c, catalog, env, past);
      if c >= |calls| || !calls[c].Relisting? {
        return;
      }
      var call := calls[c];
      if catalog.None? {
        Settle(c, None);
        return;
      }
      var _ := AssertOwnership(env.owned);
      if !RetryCurrent(call.row, call.generation, call.controller, env.live) {
        Settle(c, None);
        return;
      }
      var ok := Connect(call.row, catalog.value, env.save);
      Settle(c, if ok then Some(call.row) else None);
    }

    /** The end of `ready`. */
    method GrantLease(lease: Lease, model: string, owned: bool, env: Env) returns (granted: bool)
      modifies this`closed, this`generation, this`aborted, this`trace
      ensures View() == AdviserState.GrantLease(old(View()), lease, model, owned, env)
      ensures granted <==> |trace.leases| > |old(trace).leases|
    {
      if !env.live || model !in At(rows, lease.row).models {
        return false;
      }
      granted := AssertOwnership(owned);
      granted := granted && lease.controller !in aborted && lease.row in accounts
                 && At(rows, lease.row).state == Connected && At(rows, lease.row).expiresAt > env.now;
      if granted {
        trace := trace.(leases := trace.leases + [lease]);
      }
    }

    method ReadyStart(id: AccountId, model: string, env: Env)
      requires Valid()
      modifies this
      ensures View() == ReadyStartStep(old(View()), id, model, env)
      ensures Valid() && past == old(past)
    {
      hide Inv;
      hide AdviserState.GrantLease;
      ReadyStartKeeps(View(), id, model, env, past);
      var ok := AssertOwnership(env.owned);
      var found := FindIn(rows, accounts, id);
      if !ok || !env.live || found.None? || At(rows, found.value).state != Connected {
        return;
      }
      var row := found.value;
      var account := At(rows, row);
      if id !in refreshes && model !in account.models {
        return;
      }
      var controller := EnsureController(id);
      if id in refreshes {
        calls := calls + [Waiting(refreshes[id], controller, model)];
      } else if account.expiresAt <= env.now + REFRESH_WINDOW {
        refreshes := refreshes[id := |calls|];
        calls := calls + [Refreshing(row, Connected, account.refreshToken, controller, None),
                          Waiting(|calls|, controller, model)];
      } else {
        var _ := GrantLease(Lease(row, controller), model, env.stillOwned, env);
      }
    }

    method ReadyResumed(c: CallRef, env: Env)
      requires Valid()
      modifies this
      ensures View() == ReadyResumedStep(old(View()), c, env)
      ensures Valid() && past == old(past)
    {
      hide Inv;
      hide AdviserState.GrantLease;
      ReadyResumedKeeps(View(), c, env, past);
      if c >= |calls| || !calls[c].Waiting? || !CallAt(Work(refreshes, calls), calls[c].on).Settled? {
        return;
      }
      var call := calls[c];
      var shared := CallAt(Work(refreshes, calls), call.on).result;
      Settle(c, None);
      if shared.Some? {
        var _ := GrantLease(Lease(shared.value, call.controller), call.model, env.owned, env);
      }
    }

    /** `accessToken` of a lease: the credential of a published account that is connected now, and
        never that of a row some `disconnect` has taken hold of. */
    method AccessToken(lease: Lease, env: Env) returns (token: Option<Token>)
      requires Valid()
      modifies this`closed, this`generation, this`aborted
      ensures token == LeaseToken(old(View()), lease, env)
      ensures View() == Step(old(View()), Probe(env))
      ensures Valid()
      ensures token.Some? ==>
                && !closed && lease.controller !in aborted && lease.row in accounts
                && At(rows, lease.row).state == Connected && At(rows, lease.row).expiresAt > env.now
                && token.value == At(rows, lease.row).accessToken && token.value != 0
      ensures lease.row in past.gone ==> token == None
    {
      hide Inv;
      ProbeKeeps(View(), env.owned, past);
      CredentialIsReal(View(), lease.row, past);
      var ok := AssertOwnership(env.owned);
      if ok && env.live && lease.controller !in aborted && lease.row in accounts
         && At(rows, lease.row).state == Connected && At(rows, lease.row).expiresAt > env.now
      {
        token := Some(At(rows, lease.row).accessToken);
      } else {
        token := None;
      }
    }

    /** The second half of `disconnect`: erase the credentials and save. */
    method Erase(r: RowRef, revoked: bool, save: Save)
      modifies this`rows, this`store, this`accounts, this`generation, this`aborted, this`saveFailed
      ensures View() == old(View()).(book := AdviserState.Erase(old(View()).book, r, revoked, save),
                                     fence := PersistFence(old(View()).fence, save))
    {
      hide AdviserState.Persist;
      SetRow(r, SignedOut(At(rows, r), revoked));
      var _ := Persist(accounts, save);
    }

    /** A pending sign-in for this account does not survive its disconnect. */
    method Unselect(id: AccountId)
      modifies this`pending
      ensures View() == old(View()).(signIn := AdviserState.Unselect(old(View()).signIn, old(View()).book, id))
    {
      if pending.Some? && pending.value.target.Some? && At(rows, pending.value.target.value).id == id {
        pending := None;
      }
    }

    /** Local access ends: move the generation, abort the account's calls, record the uncertainty. */
    method Withdraw(id: AccountId, r: RowRef, save: Save) returns (ok: bool)
      modifies this`rows, this`store, this`accounts, this`generation, this`aborted, this`saveFailed
      ensures ok == save.Confirmed?
      ensures var f := old(View()).fence;
              View() == old(View()).(book := AdviserState.Withdraw(old(View()).book, r, save),
                                     fence := PersistFence(AbortOne(f, id).(generation := f.generation + 1), save))
    {
      hide AdviserState.Persist;
      hide Update;
      var account := At(rows, r);
      generation := generation + 1;
      Abort(id);
      SetRow(r, account.(state := Disconnected,
                         revocationPending := account.revocationPending || account.refreshToken != 0));
      ok := Persist(accounts, save);
    }

    /** Unless the service is closed or has no such account, its row is disconnected from here on,
        every call that captured the generation is fenced off, and the list is as it was. */
    method DisconnectStart(id: AccountId, env: Env)
      requires Valid()
      modifies this
      ensures View() == DisconnectStartStep(old(View()), id, env)
      ensures Valid() && past.loaded == old(past).loaded && accounts == old(accounts)
      ensures var found := Find(old(View()).book, id);
              if Own(old(View()).fence, env.owned).closed || found.None? then past == old(past)
              else && past.gone == old(past).gone + {found.value}
                   && At(rows, found.value).state == Disconnected && generation > old(generation)
    {
      hide Inv;
      hide Stale;
      hide Onward;
      hide AdviserState.Unselect;
      hide AdviserState.Withdraw;
      hide AdviserState.Erase;
      ghost var before := View();
      ghost var held := if Own(before.fence, env.owned).closed then None else Find(before.book, id);
      if held.Some? {
        DisconnectTakesHold(before, id, env, past, held.value);
        DisconnectFences(before, id, env, past, held.value);
        past := Past(past.loaded, past.gone + {held.value});
      } else {
        DisconnectStartKeeps(before, id, env, past);
      }
      DisconnectStartOnward(before, id, env);
      var ok := AssertOwnership(env.owned);
      var found := FindIn(rows, accounts, id);
      if !ok || found.None? {
        return;
      }
      var r := found.value;
      var account := At(rows, r);
      Unselect(id);
      ok := Withdraw(id, r, env.save);
      if !ok {
        return;
      }
      if account.refreshToken == 0 {
        Erase(r, false, env.again);
      } else {
        calls := calls + [Disconnecting(r)];
      }
    }

    method DisconnectFinish(c: CallRef, revoked: bool, env: Env)
      requires Valid()
      modifies this
      ensures View() == DisconnectFinishStep(old(View()), c, revoked, env)
      ensures Valid() && past == old(past)
    {
      hide Inv;
      hide AdviserState.Erase;
      DisconnectFinishKeeps(View(), c, revoked, env, past);
      if c < |calls| && calls[c].Disconnecting? {
        Erase(calls[c].row, revoked, env.save);
        Settle(c, None);
      }
    }

    method Reap(id: AccountId)
      requires Valid()
      modifies this`refreshes
      ensures View() == ReapStep(old(View()), id)
      ensures Valid() && past == old(past)
    {
      hide Inv;
      ReapKeeps(View(), id, past);
      if id in refreshes && CallAt(Work(refreshes, calls), refreshes[id]).Settled? {
        refreshes := refreshes - {id};
      }
    }

    method Close()
      requires Valid()
      modifies this
      ensures View() == CloseStep(old(View()))
      ensures Valid() && past == old(past)
    {
      hide Inv;
      CloseKeeps(View(), past);
      closed := true;
      pending := None;
      generation := generation + 1;
      AbortControllers();
    }
  }
}
