/** What the sections of the adviser accounts (server/chatgpt-plan-adviser.ts) do, said of the rows, the
    credentials, the stored state and the fences themselves. */
module AdviserEffects {
  import opened Options
  import opened AdviserState
  import opened AdviserBook
  import opened AdviserInvariant
  import opened AdviserSteps
  import opened AdviserTheorems

  // ---------------------------------------------------------------- saving

  /** A confirmed save publishes the list and stores its rows whole; any other demotes exactly the
      published rows that were connected and publishes nothing. */
  lemma {:induction false} SavingIsExact(b: Book, next: seq<RowRef>, save: Save)
    ensures var t := Persist(b, next, save);
            && (save == Refused ==> t.durable == b.durable)
            && (save != Refused ==>
                  |t.durable| == |next| && forall i :: 0 <= i < |next| ==> t.durable[i] == At(b.rows, next[i]))
            && (save == Confirmed ==> t.rows == b.rows && t.accounts == next && t.saveFailed == b.saveFailed)
            && (save != Confirmed ==> t.accounts == b.accounts && t.saveFailed && |t.rows| == |b.rows|)
            && (save != Confirmed ==> forall r :: 0 <= r < |b.rows| ==>
                  && (r in b.accounts && b.rows[r].state == Connected ==>
                        t.rows[r] == b.rows[r].(state := ReauthRequired))
                  && (r !in b.accounts || b.rows[r].state != Connected ==> t.rows[r] == b.rows[r]))
  {}

  // ---------------------------------------------------------------- fences

  /** Losing ownership closes the service, moves the generation and aborts every controller. */
  lemma {:induction false} LosingOwnership(f: Fence, owned: bool)
    ensures var t := Own(f, owned);
            && t.controllers == f.controllers && t.nextController == f.nextController
            && (t.closed <==> f.closed || !owned)
            && (f.closed || owned ==> t == f)
            && (!f.closed && !owned ==> t.generation == f.generation + 1)
            && (!f.closed && !owned ==> forall c ::
                  c in t.aborted <==> c in f.aborted || exists id :: id in f.controllers && f.controllers[id] == c)
  {}

  /** An unconfirmed save moves the generation and aborts every controller. */
  lemma {:induction false} FailedSaveFences(f: Fence, save: Save)
    ensures var t := PersistFence(f, save);
            && t.controllers == f.controllers && t.nextController == f.nextController && t.closed == f.closed
            && (save == Confirmed ==> t == f)
            && (save != Confirmed ==> t.generation == f.generation + 1)
            && (save != Confirmed ==> forall c ::
                  c in t.aborted <==> c in f.aborted || exists id :: id in f.controllers && f.controllers[id] == c)
  {}

  /** Controllers are numbered in order, and each belongs to one account. */
  ghost predicate FenceOk(f: Fence) {
    && (forall c :: c in f.aborted ==> c < f.nextController)
    && (forall id :: id in f.controllers ==> f.controllers[id] < f.nextController)
    && (forall a, b :: a in f.controllers && b in f.controllers && f.controllers[a] == f.controllers[b] ==> a == b)
  }

  /** Aborting an account's controller aborts no other account's. */
  lemma {:induction false} AbortingOneAccount(f: Fence, id: AccountId)
    requires FenceOk(f)
    ensures var t := AbortOne(f, id);
            && t == f.(aborted := t.aborted)
            && (id in f.controllers ==> f.controllers[id] in t.aborted)
            && (forall c :: c in f.aborted ==> c in t.aborted)
            && forall other :: other in f.controllers && other != id && f.controllers[other] in t.aborted ==>
                 f.controllers[other] in f.aborted
  {}

  /** A call gets a controller of its account that has not been aborted; every other account keeps its own. */
  lemma {:induction false} NewCallsAreLive(f: Fence, id: AccountId)
    requires FenceOk(f)
    ensures var t := EnsureController(f, id);
            && id in t.controllers && ControllerOf(t, id) == t.controllers[id] && t.controllers[id] !in t.aborted
            && t.aborted == f.aborted && t.generation == f.generation && t.closed == f.closed && FenceOk(t)
            && (forall other :: other != id ==>
                  (other in t.controllers <==> other in f.controllers)
                  && (other in f.controllers ==> t.controllers[other] == f.controllers[other]))
            && (id in f.controllers && f.controllers[id] !in f.aborted ==> t == f)
  {}

  lemma {:induction false} TrippedOk(f: Fence, generation: nat, closed: bool)
    requires FenceOk(f)
    ensures FenceOk(AbortAll(f).(generation := generation, closed := closed))
    ensures FenceOk(f.(generation := generation, closed := closed))
  {}

  lemma {:induction false} TripOk(f: Fence)
    requires FenceOk(f)
    ensures FenceOk(Trip(f).(closed := true))
  {
    hide FenceOk;
    TrippedOk(f, f.generation + 1, true);
  }

  lemma {:induction false} AccountFenceOk(f: Fence, id: AccountId)
    requires FenceOk(f)
    ensures FenceOk(AbortOne(f, id))
    ensures FenceOk(AbortOne(f, id).(controllers := f.controllers - {id}))
    ensures FenceOk(AbortOne(f, id).(generation := f.generation + 1))
  {}

  /** The parts the sections are made of. */
  lemma {:induction false} FencesStayOk()
    ensures forall f: Fence, owned :: FenceOk(f) ==> FenceOk(Own(f, owned))
    ensures forall f: Fence, save :: FenceOk(f) ==> FenceOk(PersistFence(f, save))
    ensures forall f: Fence, id :: FenceOk(f) ==> FenceOk(EnsureController(f, id))
  {
    hide FenceOk;
    hide EnsureController;
    forall f: Fence | FenceOk(f)
      ensures FenceOk(Trip(f)) && FenceOk(Trip(f).(closed := true))
    {
      TrippedOk(f, f.generation + 1, f.closed);
      TrippedOk(f, f.generation + 1, true);
    }
    forall f: Fence, id | FenceOk(f) ensures FenceOk(EnsureController(f, id)) {
      NewCallsAreLive(f, id);
    }
  }

  lemma {:induction false} RefreshFailedFence(s: State, c: CallRef, owner: RowRef, save: Save)
    requires FenceOk(s.fence)
    ensures FenceOk(RefreshFailed(s, c, owner, save).fence)
  {
    hide FenceOk;
    hide AbortOne;
    hide PersistFence;
    hide Owns;
    hide Lapse;
    FencesStayOk();
    AccountFenceOk(s.fence, At(s.book.rows, owner).id);
  }

  lemma {:induction false} RefreshFence(s: State, c: CallRef, reply: Option<Grant>, catalog: Option<Catalog>, env: Env)
    requires FenceOk(s.fence)
    ensures FenceOk(RefreshExchangedStep(s, c, reply, env).fence)
    ensures FenceOk(RefreshDiscoveredStep(s, c, catalog, env).fence)
  {
    hide FenceOk;
    hide Own;
    hide PersistFence;
    hide RefreshFailed;
    hide Rotate;
    hide Connect;
    hide Update;
    hide MayRotate;
    hide MayReconnect;
    hide RecoveryCurrent;
    FencesStayOk();
    forall t: State, owner, save | FenceOk(t.fence) ensures FenceOk(RefreshFailed(t, c, owner, save).fence) {
      RefreshFailedFence(t, c, owner, save);
    }
  }

  lemma {:induction false} StartFence(s: State, e: Event)
    requires FenceOk(s.fence) && (e.Begin? || e.Cancel? || e.CompleteStart?)
    ensures FenceOk(Step(s, e).fence)
  {
    hide FenceOk;
    hide Own;
    hide PersistFence;
    hide AbortOne;
    hide EnsureController;
    hide Trip;
    hide Find;
    hide At;
    hide IssuedClient;
    FencesStayOk();
    TrippedOk(s.fence, s.fence.generation + 1, s.fence.closed);
  }

  lemma {:induction false} SignInFence(s: State, e: Event)
    requires FenceOk(s.fence) && (e.CompleteExchanged? || e.CompleteDiscovered?)
    ensures FenceOk(Step(s, e).fence)
  {
    hide FenceOk;
    hide Own;
    hide PersistFence;
    hide AbortOne;
    hide EnsureController;
    hide Trip;
    hide Find;
    hide At;
    hide Register;
    hide Connect;
    hide MayRegister;
    hide SignedIn;
    FencesStayOk();
    if e.CompleteExchanged? && CallAt(s.work, e.call).Completing? && e.reply.Some? {
      var call := CallAt(s.work, e.call);
      AccountFenceOk(Own(s.fence, e.env.owned),
                     SignedIn(s.book.rows, call.target, call.clientId, e.reply.value).id);
    }
  }

  lemma {:induction false} RetryFence(s: State, e: Event)
    requires FenceOk(s.fence) && (e.RetryStart? || e.RetryVerified? || e.RetryListed?)
    ensures FenceOk(Step(s, e).fence)
  {
    hide FenceOk;
    hide Own;
    hide PersistFence;
    hide AbortOne;
    hide EnsureController;
    hide Trip;
    hide Find;
    hide At;
    hide Connect;
    hide RetryCurrent;
    hide RetryCall;
    FencesStayOk();
  }

  lemma {:induction false} ReadyFence(s: State, e: Event)
    requires FenceOk(s.fence) && (e.ReadyStart? || e.ReadyResumed?)
    ensures FenceOk(Step(s, e).fence)
  {
    hide FenceOk;
    hide Own;
    hide PersistFence;
    hide AbortOne;
    hide EnsureController;
    hide Trip;
    hide Find;
    hide At;
    hide LeaseCurrent;
    hide Expiring;
    FencesStayOk();
  }

  lemma {:induction false} DisconnectFence(s: State, e: Event)
    requires FenceOk(s.fence) && (e.DisconnectStart? || e.DisconnectFinish? || e.Reap? || e.Probe? || e.Close?)
    ensures FenceOk(Step(s, e).fence)
  {
    hide FenceOk;
    hide Own;
    hide PersistFence;
    hide AbortOne;
    hide EnsureController;
    hide Trip;
    hide Find;
    hide At;
    hide Erase;
    hide Withdraw;
    hide Unselect;
    FencesStayOk();
    if e.DisconnectStart? { AccountFenceOk(Own(s.fence, e.env.owned), e.id); }
    if e.Close? { TripOk(s.fence); }
  }

  lemma {:induction false} RunFenceOk(s: State, events: seq<Event>)
    requires FenceOk(s.fence)
    ensures FenceOk(Run(s, events).fence)
    decreases |events|
  {
    if events != [] {
      hide FenceOk;
      match events[0] {
        case RefreshExchanged(c, reply, env) => RefreshFence(s, c, reply, None, env);
        case RefreshDiscovered(c, catalog, env) => RefreshFence(s, c, None, catalog, env);
        case Begin(_, _, _) => StartFence(s, events[0]);
        case Cancel(_) => StartFence(s, events[0]);
        case CompleteStart(_, _, _, _, _) => StartFence(s, events[0]);
        case CompleteExchanged(_, _, _) => SignInFence(s, events[0]);
        case CompleteDiscovered(_, _, _) => SignInFence(s, events[0]);
        case RetryStart(_, _, _) => RetryFence(s, events[0]);
        case RetryVerified(_, _, _) => RetryFence(s, events[0]);
        case RetryListed(_, _, _) => RetryFence(s, events[0]);
        case ReadyStart(_, _, _) => ReadyFence(s, events[0]);
        case ReadyResumed(_, _) => ReadyFence(s, events[0]);
        case _ => DisconnectFence(s, events[0]);
      }
      hide Step;
      RunFenceOk(Step(s, events[0]), events[1..]);
    }
  }

  /** In every run, from every restart: no two accounts share a controller, and a new one is never aborted. */
  lemma {:induction false} ControllersStayApart(stored: seq<Account>, events: seq<Event>)
    ensures FenceOk(Run(Load(stored), events).fence)
  {
    assert FenceOk(Load(stored).fence);
    RunFenceOk(Load(stored), events);
  }

  // ---------------------------------------------------------------- starting a sign-in

  /** One sign-in at a time, for a new account while there is room or for a published one. */
  lemma {:induction false} BeginExactly(s: State, owner: string, selected: Option<AccountId>, env: Env)
    ensures var t := BeginStep(s, owner, selected, env);
            var begins :=
              && !s.fence.closed && env.owned && s.signIn.pending.None? && !s.signIn.exchange
              && match selected
                 case None => |s.book.accounts| < 30
                 case Some(id) => exists r :: r in s.book.accounts && At(s.book.rows, r).id == id;
            && t == s.(fence := Own(s.fence, env.owned), signIn := t.signIn)
            && (!begins ==> t.signIn == s.signIn)
            && (begins ==>
                  && t.signIn.pending.Some?
                  && t.signIn == s.signIn.(pending := t.signIn.pending, tickets := s.signIn.tickets + 1)
                  && var p := t.signIn.pending.value;
                     && p.owner == owner && p.ticket == s.signIn.tickets && (p.target.Some? <==> selected.Some?)
                     && (selected.Some? ==>
                           p.target.value in s.book.accounts && At(s.book.rows, p.target.value).id == selected.value))
  {
    if selected.Some? { FindInRow(s.book.rows, s.book.accounts, selected.value); }
    hide FindIn;
  }

  /** Only the owner of the sign-in cancels it, pending or exchanging; every fenced call notices. */
  lemma {:induction false} CancelExactly(s: State, owner: string)
    ensures var t := CancelStep(s, owner);
            var mine := (s.signIn.pending.Some? && s.signIn.pending.value.owner == owner)
                        || s.signIn.exchangingOwner == Some(owner);
            && t == s.(signIn := t.signIn, fence := t.fence)
            && t.signIn == s.signIn.(pending := if mine then None else s.signIn.pending)
            && t.fence == s.fence.(generation := s.fence.generation + if mine then 1 else 0)
  {}

  /** The callback of the pending sign-in consumes it, and sends its code if nothing stands against it. */
  lemma {:induction false} CallbackExactly(
    s: State, owner: string, accepted: bool, clientId: Option<string>, wellFormed: bool, env: Env)
    ensures var t := CompleteStartStep(s, owner, accepted, clientId, wellFormed, env);
            var mine := s.signIn.pending.Some? && s.signIn.pending.value.owner == owner && accepted;
            && (!mine ==> t == s)
            && (mine ==>
                  var target := s.signIn.pending.value.target;
                  var client := if target.Some? then Some(At(s.book.rows, target.value).clientId) else clientId;
                  var sends := !s.fence.closed && env.owned && env.live && wellFormed && client.Some?
                               && (target.Some? && clientId.Some? ==> clientId == client);
                  && t == s.(fence := Own(s.fence, env.owned), signIn := t.signIn, work := t.work)
                  && t.signIn.pending.None? && t.signIn.tickets == s.signIn.tickets
                  && t.work.refreshes == s.work.refreshes
                  && (sends ==>
                        && t.signIn.exchange && t.signIn.exchangingOwner == Some(owner)
                        && t.signIn.codes == s.signIn.codes + [s.signIn.pending.value.ticket]
                        && t.work.calls == s.work.calls + [Completing(
                             s.signIn.pending.value.ticket, s.fence.generation, target, client.value)])
                  && (!sends ==>
                        && !t.signIn.exchange && t.signIn.exchangingOwner.None?
                        && t.signIn.codes == s.signIn.codes && t.work.calls == s.work.calls))
  {}

  // ---------------------------------------------------------------- a sign-in is saved and connected

  /** A call of a sign-in that ends without a connected account. */
  ghost predicate EndsSignIn(s: State, t: State, c: CallRef, result: Option<RowRef>)
    requires c < |s.work.calls|
  {
    && !t.signIn.exchange && t.signIn.exchangingOwner.None?
    && t.signIn == s.signIn.(exchange := false, exchangingOwner := None)
    && t.work == s.work.(calls := s.work.calls[c := Settled(result)])
  }

  /** Whether a verified identity may be registered for what the sign-in selected. */
  ghost predicate Registers(s: State, call: Call, reply: Option<Grant>, env: Env)
    requires call.Completing?
  {
    && reply.Some? && !s.fence.closed && env.owned && env.live && s.fence.generation == call.generation
    && match call.target
       case None =>
         forall r :: r in s.book.accounts ==> At(s.book.rows, r).id != AccountId(call.clientId, reply.value.subject)
       case Some(t) => t in s.book.accounts && At(s.book.rows, t).subject == reply.value.subject
  }

  lemma {:induction false} RegistersExactly(s: State, call: Call, reply: Option<Grant>, env: Env)
    requires call.Completing?
    ensures Registers(s, call, reply, env) <==>
              reply.Some? && MayRegister(s, Own(s.fence, env.owned), call, reply.value, env.live)
  {
    if reply.Some? { FindInRow(s.book.rows, s.book.accounts, AccountId(call.clientId, reply.value.subject)); }
    hide FindIn;
  }

  /** Exactly a permitted identity with a confirmed save is registered; a refused one changes no row. */
  lemma {:induction false} SignInIsSavedExactly(s: State, c: CallRef, reply: Option<Grant>, env: Env)
    requires CallAt(s.work, c).Completing?
    ensures var t := CompleteExchangedStep(s, c, reply, env);
            var call := s.work.calls[c];
            && (Registers(s, call, reply, env) && env.save.Confirmed? <==>
                  t.trace.registrations == s.trace.registrations + [Registration(c, |s.book.rows|)])
            && (Registers(s, call, reply, env) && env.save.Confirmed? ==>
                  && t.signIn == s.signIn
                  && t.work == s.work.(calls := s.work.calls[c := Discovering(call.ticket, call.generation, |s.book.rows|)]))
            && (!(Registers(s, call, reply, env) && env.save.Confirmed?) ==>
                  EndsSignIn(s, t, c, None) && t.trace == s.trace)
            && (!Registers(s, call, reply, env) ==> t.book == s.book)
            && t.trace == s.trace.(registrations := t.trace.registrations)
            && (reply.None? ==> t.fence == s.fence)
            && (reply.Some? && !Registers(s, call, reply, env) ==> t.fence == Own(s.fence, env.owned))
            && (Registers(s, call, reply, env) ==>
                  var id := AccountId(call.clientId, reply.value.subject);
                  t.fence == PersistFence(AbortOne(s.fence, id).(controllers := s.fence.controllers - {id}), env.save))
  {
    RegistersExactly(s, CallAt(s.work, c), reply, env);
    assert s.trace.registrations + [Registration(c, |s.book.rows|)] != s.trace.registrations;
    hide MayRegister;
    hide Registers;
    hide Register;
    hide PersistFence;
    hide AbortOne;
  }

  /** `kept` are the accounts with another id, in their old order. */
  ghost predicate AreTheOthers(kept: seq<RowRef>, b: Book, id: AccountId) {
    && (forall r :: r in kept <==> r in b.accounts && At(b.rows, r).id != id)
    && (forall i, j :: 0 <= i < j < |kept| ==> Follows(b.accounts, kept[i], kept[j]))
  }

  ghost predicate Follows(accounts: seq<RowRef>, a: RowRef, b: RowRef) {
    exists p, q :: 0 <= p < q < |accounts| && accounts[p] == a && accounts[q] == b
  }

  lemma {:induction false} WithoutIsTheOthers(rows: seq<Account>, accounts: seq<RowRef>, id: AccountId)
    ensures var kept := Without(rows, accounts, id);
            && (forall r :: r in kept <==> r in accounts && At(rows, r).id != id)
            && (forall i, j :: 0 <= i < j < |kept| ==> Follows(accounts, kept[i], kept[j]))
  {
    WithoutMembers(rows, accounts, id);
    if accounts != [] {
      var (rest, kept) := (accounts[1..], Without(rows, accounts, id));
      WithoutIsTheOthers(rows, rest, id);
      WithoutMembers(rows, rest, id);
      var later := Without(rows, rest, id);
      forall i, j | 0 <= i < j < |kept| ensures Follows(accounts, kept[i], kept[j]) {
        if kept == later {
          assert Follows(rest, later[i], later[j]);
          var p, q :| 0 <= p < q < |rest| && rest[p] == kept[i] && rest[q] == kept[j];
          assert accounts[p + 1] == kept[i] && accounts[q + 1] == kept[j];
        } else if i == 0 {
          assert kept[j] == later[j - 1] && later[j - 1] in rest;
          var q :| 0 <= q < |rest| && rest[q] == kept[j];
          assert accounts[0] == kept[0] && accounts[q + 1] == kept[j];
        } else {
          assert Follows(rest, later[i - 1], later[j - 1]);
          var p, q :| 0 <= p < q < |rest| && rest[p] == kept[i] && rest[q] == kept[j];
          assert accounts[p + 1] == kept[i] && accounts[q + 1] == kept[j];
        }
      }
    }
  }

  lemma {:induction false} PublishedRows(s: State, past: Past)
    requires Inv(s, past)
    ensures forall r :: r in s.book.accounts ==> r < |s.book.rows|
    ensures forall a, b :: a in s.book.accounts && b in s.book.accounts && At(s.book.rows, a).id == At(s.book.rows, b).id ==>
              a == b
  {
    forall a, b | a in s.book.accounts && b in s.book.accounts && At(s.book.rows, a).id == At(s.book.rows, b).id
      ensures a == b
    {
      var i :| 0 <= i < |s.book.accounts| && s.book.accounts[i] == a;
      var j :| 0 <= j < |s.book.accounts| && s.book.accounts[j] == b;
    }
    hide CallsOk;
    hide QuietOk;
    hide SignInOk;
    hide RotationsOk;
    hide OriginsOk;
  }

  /** What is registered: the verified subject under its client, with exactly the granted credentials,
      not yet connected, and the uncertainty and catalogue of the account it was selected for; it is
      published last, in place of every account with its id, and saved like that. */
  lemma {:induction false} SignInStoresTheGrant(s: State, c: CallRef, reply: Option<Grant>, env: Env, past: Past)
    returns (row: Account, kept: seq<RowRef>)
    requires Inv(s, past) && CallAt(s.work, c).Completing? && reply.Some? && Registers(s, s.work.calls[c], reply, env)
    ensures CompleteExchangedStep(s, c, reply, env).book
         == Persist(s.book.(rows := s.book.rows + [row]), kept + [|s.book.rows|], env.save)
    ensures AreTheOthers(kept, s.book, row.id)
    ensures row.id == AccountId(s.work.calls[c].clientId, reply.value.subject)
    ensures row.clientId == s.work.calls[c].clientId && row.subject == reply.value.subject
    ensures row.accessToken == reply.value.accessToken && row.refreshToken == reply.value.refreshToken
    ensures row.idToken == reply.value.idToken && row.expiresAt == reply.value.expiresAt
    ensures row.state == ReauthRequired
    ensures match s.work.calls[c].target
            case None => row.models == {} && !row.revocationPending
            case Some(t) => row.models == At(s.book.rows, t).models
                            && row.revocationPending == At(s.book.rows, t).revocationPending
  {
    hide Inv;
    hide Persist;
    hide Without;
    hide MayRegister;
    hide Registers;
    hide Follows;
    PublishedRows(s, past);
    var call := s.work.calls[c];
    row := SignedIn(s.book.rows, call.target, call.clientId, reply.value);
    var grown := Allocate(s.book, row);
    kept := Without(grown.rows, s.book.accounts, row.id);
    RegistersExactly(s, call, reply, env);
    WithoutIsTheOthers(grown.rows, s.book.accounts, row.id);
  }

  /** The catalogue connects the account that was registered exactly while the sign-in is current; the
      sign-in is over either way, and is answered with the account only if that was saved. */
  lemma {:induction false} SignInConnectsExactly(s: State, c: CallRef, catalog: Option<Catalog>, env: Env, past: Past)
    requires Inv(s, past) && CallAt(s.work, c).Discovering?
    ensures var t := CompleteDiscoveredStep(s, c, catalog, env);
            var call := s.work.calls[c];
            var current := catalog.Some? && !s.fence.closed && env.owned && env.live
                           && s.fence.generation == call.generation;
            && call.row < |s.book.rows|
            && EndsSignIn(s, t, c, if current && env.save.Confirmed? && env.stillOwned then Some(call.row) else None)
            && t.trace == s.trace
            && (!current ==> t.book == s.book && t.fence == if catalog.None? then s.fence else Own(s.fence, env.owned))
            && (current ==>
                  && t.book == Persist(
                       s.book.(rows := s.book.rows[call.row :=
                         s.book.rows[call.row].(models := catalog.value, state := Connected)]),
                       s.book.accounts, env.save)
                  && t.fence == Own(PersistFence(s.fence, env.save), env.save != Confirmed || env.stillOwned))
  {
    assert Captured(s.book, s.fence.generation, s.work.calls[c]);
    hide Inv;
    hide Persist;
  }

  // ---------------------------------------------------------------- a refresh

  /** A refresh that fails lapses the account it worked on, if that is still the published one. */
  lemma {:induction false} FailedRefreshExactly(s: State, c: CallRef, owner: RowRef, save: Save, past: Past)
    requires Inv(s, past)
    ensures var t := RefreshFailed(s, c, owner, save);
            var lapses := owner in s.book.accounts && s.book.rows[owner].state != Disconnected;
            && t.signIn == s.signIn && t.trace == s.trace
            && t.work == s.work.(calls := t.work.calls) && |t.work.calls| == |s.work.calls|
            && (forall d :: 0 <= d < |s.work.calls| ==>
                  t.work.calls[d] == if d == c then Settled(None) else s.work.calls[d])
            && (!lapses ==> t.book == s.book && t.fence == s.fence)
            && (lapses ==>
                  && t.book == Persist(
                       s.book.(rows := s.book.rows[owner := s.book.rows[owner].(state := ReauthRequired)]),
                       s.book.accounts, save)
                  && t.fence == PersistFence(AbortOne(s.fence, s.book.rows[owner].id), save))
  {
    hide Inv;
    hide Persist;
    hide PersistFence;
    hide AbortOne;
    PublishedRows(s, past);
    FindInRow(s.book.rows, s.book.accounts, At(s.book.rows, owner).id);
    hide FindIn;
  }

  /** Whether a verified reply may rotate the credentials of the account that asked. */
  ghost predicate Rotates(s: State, call: Call, reply: Option<Grant>, env: Env)
    requires call.Refreshing?
  {
    && reply.Some? && !s.fence.closed && env.owned && env.live && call.controller !in s.fence.aborted
    && call.row in s.book.accounts && At(s.book.rows, call.row).subject == reply.value.subject
    && At(s.book.rows, call.row).state == call.original && (call.recovery.Some? || call.original == Connected)
  }

  /** Whether the caller of a recovery still wants it. */
  ghost predicate StillWanted(f: Fence, recovery: Option<nat>, controller: ControllerRef, env: Env) {
    recovery.Some? ==>
      !f.closed && env.stillOwned && env.attended && controller !in f.aborted && recovery.value == f.generation
  }

  /** What a rotation stores: the account of the same identity with exactly the granted credentials, in the
      place of the one that spent its token. */
  ghost predicate StoresTheGrant(b: Book, call: Call, g: Grant, row: Account, next: seq<RowRef>)
    requires call.Refreshing?
  {
    && call.row < |b.rows|
    && row.id == b.rows[call.row].id && row.clientId == b.rows[call.row].clientId
    && row.subject == b.rows[call.row].subject && row.state == b.rows[call.row].state
    && row.models == b.rows[call.row].models && row.revocationPending == b.rows[call.row].revocationPending
    && row.accessToken == g.accessToken && row.refreshToken == g.refreshToken
    && row.idToken == g.idToken && row.expiresAt == g.expiresAt
    && |next| == |b.accounts|
    && forall i :: 0 <= i < |next| ==> next[i] == if b.accounts[i] == call.row then |b.rows| else b.accounts[i]
  }

  /** Exactly a permitted reply with a confirmed save rotates; the call goes on to the catalogue unless the
      recovery it serves was given up, and whatever refuses it fails the account that is current then. */
  lemma {:induction false} RotationExactly(s: State, c: CallRef, reply: Option<Grant>, env: Env, past: Past)
    returns (row: Account, next: seq<RowRef>)
    requires Inv(s, past) && CallAt(s.work, c).Refreshing?
    ensures var t := RefreshExchangedStep(s, c, reply, env);
            var call := s.work.calls[c];
            var n := |s.book.rows|;
            var owned := if reply.None? then s.fence else Own(s.fence, env.owned);
            && (!Rotates(s, call, reply, env) ==> t == RefreshFailed(s.(fence := owned), c, call.row, env.again))
            && (Rotates(s, call, reply, env) ==>
                  && StoresTheGrant(s.book, call, reply.value, row, next)
                  && var saved := s.(book := Persist(s.book.(rows := s.book.rows + [row]), next, env.save));
                     if env.save != Confirmed
                     then t == RefreshFailed(saved.(fence := PersistFence(s.fence, env.save)), c, call.row, env.again)
                     else
                       var logged := saved.(
                         fence := if call.recovery.Some? then Own(s.fence, env.stillOwned) else s.fence,
                         trace := s.trace.(rotations := s.trace.rotations + [Rotation(c, call.row, n, call.submitted)]));
                       if StillWanted(s.fence, call.recovery, call.controller, env)
                       then t == logged.(work := s.work.(calls := s.work.calls[c :=
                                   Rediscovering(n, call.original, call.controller, call.recovery)]))
                       else t == RefreshFailed(logged, c, n, env.again))
  {
    hide Inv;
    hide RefreshFailed;
    hide Persist;
    hide PersistFence;
    hide FindIn;
    PublishedRows(s, past);
    var call := s.work.calls[c];
    row := if reply.Some? then Rotated(At(s.book.rows, call.row), reply.value) else NO_ACCOUNT;
    next := Replace(s.book.accounts, call.row, |s.book.rows|);
    if reply.Some? {
      assert Rotates(s, call, reply, env) <==> MayRotate(s, Own(s.fence, env.owned), call, reply.value, env.live);
      if call.recovery.Some? {
        assert StillWanted(s.fence, call.recovery, call.controller, env)
          <==> RecoveryCurrent(Own(s.fence, env.stillOwned), call.recovery, call.controller, env.attended);
      }
    }
    hide Own;
    hide Rotated;
    hide Replace;
    hide StoresTheGrant;
  }

  lemma {:induction false} ReconnectsExactly(s: State, b: Book, call: Call, env: Env)
    requires call.Rediscovering?
    ensures var f0 := Own(s.fence, env.owned);
            var f := if call.recovery.Some? then Own(f0, env.stillOwned) else f0;
            && f == Own(s.fence, env.owned && (call.recovery.Some? ==> env.stillOwned))
            && (MayReconnect(b, f, call, env) <==>
                  && !s.fence.closed && env.owned && call.row in b.accounts && At(b.rows, call.row).state == call.original
                  && StillWanted(s.fence, call.recovery, call.controller, env))
            && (MayReconnect(b, f, call, env) ==> f == s.fence)
  {}

  /** The catalogue is written first; then the account is connected exactly if it is still published in the
      state the refresh began in and the recovery it serves is still wanted. */
  lemma {:induction false} ReconnectionExactly(s: State, c: CallRef, catalog: Option<Catalog>, env: Env, past: Past)
    requires Inv(s, past) && CallAt(s.work, c).Rediscovering?
    ensures var t := RefreshDiscoveredStep(s, c, catalog, env);
            var call := s.work.calls[c];
            && call.row < |s.book.rows|
            && (catalog.None? ==> t == RefreshFailed(s, c, call.row, env.again))
            && (catalog.Some? ==>
                  var row := s.book.rows[call.row].(models := catalog.value);
                  var listed := s.(book := s.book.(rows := s.book.rows[call.row := row]));
                  var reconnects := !s.fence.closed && env.owned && call.row in s.book.accounts && row.state == call.original
                                    && StillWanted(s.fence, call.recovery, call.controller, env);
                  if call.controller in s.fence.aborted || !env.live
                  then t == RefreshFailed(listed, c, call.row, env.again)
                  else if !reconnects
                  then t == RefreshFailed(
                         listed.(fence := Own(s.fence, env.owned && (call.recovery.Some? ==> env.stillOwned))),
                         c, call.row, env.again)
                  else
                    var saved := listed.(
                      book := Persist(
                        listed.book.(rows := s.book.rows[call.row := row.(state := Connected)]), s.book.accounts, env.save),
                      fence := PersistFence(s.fence, env.save));
                    t == if env.save.Confirmed?
                         then saved.(work := s.work.(calls := s.work.calls[c := Settled(Some(call.row))]))
                         else RefreshFailed(saved, c, call.row, env.again))
  {
    hide Inv;
    hide RefreshFailed;
    hide Persist;
    hide PersistFence;
    hide Own;
    hide MayReconnect;
    hide StillWanted;
    RediscoveringFits(s, c, past);
    if catalog.Some? {
      var call := s.work.calls[c];
      var row := s.book.rows[call.row].(models := catalog.value);
      var b := Update(s.book, call.row, row);
      ReconnectsExactly(s, b, call, env);
      assert b.rows[call.row := row.(state := Connected)] == s.book.rows[call.row := row.(state := Connected)];
    }
  }

  // ---------------------------------------------------------------- a retained grant

  /** A retry works on the account that is published under the id and not disconnected; it rotates an
      expiring pair and verifies any other, unless the caller is gone in between. */
  lemma {:induction false} RetryExactly(s: State, id: AccountId, permitted: bool, env: Env, past: Past)
    requires Inv(s, past)
    ensures var t := RetryStartStep(s, id, permitted, env);
            var starts := !s.fence.closed && env.owned && env.live && id !in s.work.refreshes
                          && s.signIn.pending.None? && !s.signIn.exchange
                          && exists r :: r in s.book.accounts && s.book.rows[r].id == id && s.book.rows[r].state != Disconnected;
            && t.book == s.book && t.signIn == s.signIn && t.trace == s.trace
            && (!starts ==> t.fence == Own(s.fence, env.owned) && t.work == s.work)
            && (starts ==>
                  var f := EnsureController(s.fence, id);
                  var r :| r in s.book.accounts && s.book.rows[r].id == id && s.book.rows[r].state != Disconnected;
                  && t.fence == Own(f, env.stillOwned)
                  && t.work.refreshes == s.work.refreshes[id := |s.work.calls|]
                  && t.work.calls == s.work.calls + [
                       if !env.stillOwned || !permitted then Settled(None)
                       else if s.book.rows[r].expiresAt <= env.now + 60000
                       then Refreshing(r, s.book.rows[r].state, s.book.rows[r].refreshToken,
                                       ControllerOf(f, id), Some(s.fence.generation))
                       else Verifying(r, s.fence.generation, ControllerOf(f, id))])
  {
    hide Inv;
    PublishedRows(s, past);
    FindInRow(s.book.rows, s.book.accounts, id);
    hide FindIn;
  }

  /** Whether a retry may still touch the account it verifies. */
  ghost predicate RetryHolds(s: State, row: RowRef, generation: nat, controller: ControllerRef, env: Env) {
    && !s.fence.closed && env.owned && env.live && controller !in s.fence.aborted && s.fence.generation == generation
    && row in s.book.accounts && At(s.book.rows, row).state != Disconnected
  }

  /** A verified identity leads on to the catalogue exactly if it is that of the account, still current. */
  lemma {:induction false} VerificationExactly(s: State, c: CallRef, subject: Option<string>, env: Env)
    requires CallAt(s.work, c).Verifying?
    ensures var t := RetryVerifiedStep(s, c, subject, env);
            var call := s.work.calls[c];
            var holds := subject == Some(At(s.book.rows, call.row).subject)
                         && RetryHolds(s, call.row, call.generation, call.controller, env);
            && t == s.(fence := if subject.None? then s.fence else Own(s.fence, env.owned), work := t.work)
            && t.work == s.work.(calls := s.work.calls[c :=
                 if holds then Relisting(call.row, call.generation, call.controller) else Settled(None)])
  {}

  /** The catalogue connects the retained account exactly while the retry is current and the save holds. */
  lemma {:induction false} RelistingExactly(s: State, c: CallRef, catalog: Option<Catalog>, env: Env, past: Past)
    requires Inv(s, past) && CallAt(s.work, c).Relisting?
    ensures var t := RetryListedStep(s, c, catalog, env);
            var call := s.work.calls[c];
            var holds := catalog.Some? && RetryHolds(s, call.row, call.generation, call.controller, env);
            && t == s.(book := t.book, fence := t.fence, work := t.work)
            && t.work == s.work.(calls := s.work.calls[c :=
                 Settled(if holds && env.save.Confirmed? then Some(call.row) else None)])
            && (!holds ==> t.book == s.book && t.fence == if catalog.None? then s.fence else Own(s.fence, env.owned))
            && (holds ==>
                  && call.row < |s.book.rows|
                  && t.book == Persist(
                       s.book.(rows := s.book.rows[call.row :=
                         s.book.rows[call.row].(models := catalog.value, state := Connected)]),
                       s.book.accounts, env.save)
                  && t.fence == PersistFence(s.fence, env.save))
  {
    hide Inv;
    hide Persist;
    hide PersistFence;
    PublishedRows(s, past);
  }

  // ---------------------------------------------------------------- leases

  /** A credential is handed out on this row at this moment. */
  ghost predicate Usable(s: State, lease: Lease, now: Clock) {
    && !s.fence.closed && lease.controller !in s.fence.aborted && lease.row in s.book.accounts
    && At(s.book.rows, lease.row).state == Connected && At(s.book.rows, lease.row).expiresAt > now
  }

  /** A lease yields the credential of its row exactly while it is usable, owned and wanted. */
  lemma {:induction false} TokenExactly(s: State, lease: Lease, env: Env)
    ensures LeaseToken(s, lease, env)
         == if env.owned && env.live && Usable(s, lease, env.now) then Some(At(s.book.rows, lease.row).accessToken)
            else None
  {}

  lemma {:induction false} GrantExactly(s: State, lease: Lease, model: string, owned: bool, env: Env)
    ensures var t := GrantLease(s, lease, model, owned, env);
            var offered := env.live && model in At(s.book.rows, lease.row).models;
            && t == s.(fence := if offered then Own(s.fence, owned) else s.fence, trace := t.trace)
            && t.trace == s.trace.(leases := t.trace.leases)
            && t.trace.leases
               == if offered && owned && Usable(s, lease, env.now) then s.trace.leases + [lease] else s.trace.leases
  {}

  /** `ready` serves the connected account that is published under the id: it waits for the refresh that is
      running, starts one for a credential about to expire, and leases any other at once. */
  lemma {:induction false} ReadyExactly(s: State, id: AccountId, model: string, env: Env, past: Past)
    requires Inv(s, past)
    ensures var t := ReadyStartStep(s, id, model, env);
            var serves := !s.fence.closed && env.owned && env.live
                          && exists r :: r in s.book.accounts && s.book.rows[r].id == id && s.book.rows[r].state == Connected
                                         && (id in s.work.refreshes || model in s.book.rows[r].models);
            && (!serves ==> t == s.(fence := Own(s.fence, env.owned)))
            && (serves ==>
                  var r :| r in s.book.accounts && s.book.rows[r].id == id && s.book.rows[r].state == Connected;
                  var f := EnsureController(s.fence, id);
                  var c := |s.work.calls|;
                  if id in s.work.refreshes
                  then t == s.(fence := f, work := s.work.(calls := s.work.calls
                         + [Waiting(s.work.refreshes[id], ControllerOf(f, id), model)]))
                  else if s.book.rows[r].expiresAt <= env.now + 60000
                  then t == s.(fence := f, work := Work(s.work.refreshes[id := c], s.work.calls
                         + [Refreshing(r, Connected, s.book.rows[r].refreshToken, ControllerOf(f, id), None),
                            Waiting(c, ControllerOf(f, id), model)]))
                  else t == GrantLease(s.(fence := f), Lease(r, ControllerOf(f, id)), model, env.stillOwned, env))
  {
    hide Inv;
    hide GrantLease;
    hide EnsureController;
    PublishedRows(s, past);
    FindInRow(s.book.rows, s.book.accounts, id);
    hide FindIn;
  }

  /** A caller that waited gets a lease on the account the shared call ended with, if it ended with one. */
  lemma {:induction false} WaitingExactly(s: State, c: CallRef, env: Env)
    requires CallAt(s.work, c).Waiting?
    ensures var t := ReadyResumedStep(s, c, env);
            var call := s.work.calls[c];
            var shared := CallAt(s.work, call.on);
            var ended := s.(work := s.work.(calls := s.work.calls[c := Settled(None)]));
            t == if !shared.Settled? then s
                 else if shared.result.None? then ended
                 else GrantLease(ended, Lease(shared.result.value, call.controller), call.model, env.owned, env)
  {
    hide GrantLease;
  }

  // ---------------------------------------------------------------- disconnecting

  /** The account that is published under the id. */
  ghost predicate IsPublished(s: State, id: AccountId, r: RowRef) {
    r in s.book.accounts && At(s.book.rows, r).id == id
  }

  /** Disconnecting first saves the row as disconnected, with the uncertainty if it holds a grant; a row
      without one is erased at once, any other waits for the revocation; nothing happens to a closed
      service or an unknown account. */
  lemma {:induction false} DisconnectExactly(s: State, id: AccountId, env: Env, past: Past)
    requires Inv(s, past)
    ensures var t := DisconnectStartStep(s, id, env);
            if s.fence.closed || !env.owned || forall r :: !IsPublished(s, id, r)
            then t == s.(fence := Own(s.fence, env.owned))
            else
              var r: RowRef :| IsPublished(s, id, r);
              var row := s.book.rows[r];
              var gone := row.(state := Disconnected, revocationPending := row.revocationPending || row.refreshToken != 0);
              var withdrawn := Persist(s.book.(rows := s.book.rows[r := gone]), s.book.accounts, env.save);
              var fence := PersistFence(AbortOne(s.fence, id).(generation := s.fence.generation + 1), env.save);
              && r < |s.book.rows| && r < |withdrawn.rows| && withdrawn.rows[r] == gone
              && t.trace == s.trace && t.work.refreshes == s.work.refreshes
              && t.signIn == s.signIn.(pending :=
                   if s.signIn.pending.Some? && s.signIn.pending.value.target.Some?
                      && At(s.book.rows, s.signIn.pending.value.target.value).id == id
                   then None else s.signIn.pending)
              && (env.save != Confirmed || row.refreshToken == 0 ==> t.work == s.work)
              && (env.save != Confirmed ==> t.book == withdrawn && t.fence == fence)
              && (env.save == Confirmed && row.refreshToken == 0 ==>
                    && t.book == Persist(
                         withdrawn.(rows := withdrawn.rows[r := gone.(accessToken := 0, refreshToken := 0, idToken := 0)]),
                         s.book.accounts, env.again)
                    && t.fence == PersistFence(fence, env.again))
              && (env.save == Confirmed && row.refreshToken != 0 ==>
                    && t.book == withdrawn && t.fence == fence
                    && t.work.calls == s.work.calls + [Disconnecting(r)])
  {
    hide Inv;
    hide PersistFence;
    hide AbortOne;
    PublishedRows(s, past);
    FindInRow(s.book.rows, s.book.accounts, id);
    hide FindIn;
    if Find(s.book, id).Some? {
      var r := Find(s.book, id).value;
      assert IsPublished(s, id, r);
      WithdrawnStays(s.book, r, env.save);
    }
    hide Demote;
    hide Image;
  }

  lemma {:induction false} WithdrawnStays(b: Book, r: RowRef, save: Save)
    requires r < |b.rows|
    ensures var row := b.rows[r];
            var gone := row.(state := Disconnected, revocationPending := row.revocationPending || row.refreshToken != 0);
            var t := Persist(b.(rows := b.rows[r := gone]), b.accounts, save);
            && Withdraw(b, r, save) == t && r < |t.rows| && t.rows[r] == gone && t.accounts == b.accounts
  {}

  /** The second half of a disconnect erases the three credentials of the row, and its uncertainty exactly if
      the provider confirmed the revocation; a confirmed save stores the row like that. */
  lemma {:induction false} DisconnectErases(s: State, c: CallRef, revoked: bool, env: Env, past: Past)
    requires Inv(s, past) && CallAt(s.work, c).Disconnecting?
    ensures var t := DisconnectFinishStep(s, c, revoked, env);
            var r := s.work.calls[c].row;
            && r < |s.book.rows| && |t.book.rows| == |s.book.rows| && s.book.rows[r].state == Disconnected
            && t.book.rows[r].accessToken == 0 && t.book.rows[r].refreshToken == 0 && t.book.rows[r].idToken == 0
            && t.book.rows[r].state == Disconnected
            && (t.book.rows[r].revocationPending <==> s.book.rows[r].revocationPending && !revoked)
            && t.book.rows[r] == s.book.rows[r].(
                 accessToken := 0, refreshToken := 0, idToken := 0, revocationPending := t.book.rows[r].revocationPending)
            && (env.save.Confirmed? ==>
                  && |t.book.durable| == |s.book.accounts|
                  && forall i :: 0 <= i < |s.book.accounts| && s.book.accounts[i] == r ==> t.book.durable[i] == t.book.rows[r])
            && t.book == Persist(s.book.(rows := s.book.rows[r := t.book.rows[r]]), s.book.accounts, env.save)
            && t.fence == PersistFence(s.fence, env.save)
            && t.work == s.work.(calls := s.work.calls[c := Settled(None)])
            && t.signIn == s.signIn && t.trace == s.trace
  {
    assert Captured(s.book, s.fence.generation, s.work.calls[c]);
    hide Inv;
    hide PersistFence;
  }

  /** A refresh is forgotten when it has ended, and not before. */
  lemma {:induction false} ReapExactly(s: State, id: AccountId)
    ensures var t := ReapStep(s, id);
            && t == s.(work := s.work.(refreshes := t.work.refreshes))
            && (forall other :: other != id ==>
                  (other in t.work.refreshes <==> other in s.work.refreshes)
                  && (other in s.work.refreshes ==> t.work.refreshes[other] == s.work.refreshes[other]))
            && (id in t.work.refreshes <==>
                  id in s.work.refreshes && !CallAt(s.work, s.work.refreshes[id]).Settled?)
            && (id in t.work.refreshes ==> t.work.refreshes[id] == s.work.refreshes[id])
  {}

  /** Closing drops the pending sign-in, moves the generation and aborts every controller. */
  lemma {:induction false} ClosingExactly(s: State)
    ensures var t := CloseStep(s);
            && t == s.(fence := t.fence, signIn := s.signIn.(pending := None))
            && t.fence.closed && t.fence.generation == s.fence.generation + 1
            && t.fence.controllers == s.fence.controllers && t.fence.nextController == s.fence.nextController
            && forall c :: c in t.fence.aborted <==>
                 c in s.fence.aborted || exists id :: id in s.fence.controllers && s.fence.controllers[id] == c
  {}

  // ---------------------------------------------------------------- credentials over runs

  lemma {:induction false} PersistEvolves(b: Book, next: seq<RowRef>, save: Save)
    ensures RowsEvolve(b.rows, Persist(b, next, save).rows)
  {
    hide Image;
  }

  lemma {:induction false} WriteEvolves(b: Book, r: RowRef, a: Account, save: Save)
    requires r < |b.rows| ==> RowEvolves(b.rows[r], a)
    ensures RowsEvolve(b.rows, Persist(Update(b, r, a), b.accounts, save).rows)
  {
    PersistEvolves(Update(b, r, a), b.accounts, save);
    assert RowsEvolve(b.rows, Update(b, r, a).rows);
    EvolveTwice(b.rows, Update(b, r, a).rows, Persist(Update(b, r, a), b.accounts, save).rows);
    hide Persist;
  }

  lemma {:induction false} GrowEvolves(b: Book, a: Account, next: seq<RowRef>, save: Save)
    ensures RowsEvolve(b.rows, Persist(Allocate(b, a), next, save).rows)
  {
    PersistEvolves(Allocate(b, a), next, save);
    EvolveTwice(b.rows, Allocate(b, a).rows, Persist(Allocate(b, a), next, save).rows);
    hide Persist;
  }

  lemma {:induction false} EvolveTwice(a: seq<Account>, b: seq<Account>, c: seq<Account>)
    requires RowsEvolve(a, b) && RowsEvolve(b, c)
    ensures RowsEvolve(a, c)
  {
    forall r | 0 <= r < |a| ensures RowEvolves(a[r], c[r]) {
      assert RowEvolves(a[r], b[r]) && RowEvolves(b[r], c[r]);
    }
  }

  lemma {:induction false} FailedRefreshEvolves(s: State, c: CallRef, owner: RowRef, save: Save)
    ensures RowsEvolve(s.book.rows, RefreshFailed(s, c, owner, save).book.rows)
  {
    hide Persist;
    hide Update;
    hide Owns;
    if Owns(s.book, owner) {
      OwnsLive(s.book, owner);
      WriteEvolves(s.book, owner, At(s.book.rows, owner).(state := ReauthRequired), save);
    }
  }

  lemma {:induction false} OwnsLive(b: Book, owner: RowRef)
    requires Owns(b, owner)
    ensures At(b.rows, owner).state != Disconnected
  {}

  lemma {:induction false} RotationEvolves(s: State, c: CallRef, reply: Option<Grant>, env: Env, past: Past)
    requires Inv(s, past)
    ensures RowsEvolve(s.book.rows, RefreshExchangedStep(s, c, reply, env).book.rows)
  {
    if CallAt(s.work, c).Refreshing? {
      var row, next := RotationExactly(s, c, reply, env, past);
      hide *;
      var call := s.work.calls[c];
      var t := RefreshExchangedStep(s, c, reply, env);
      if Rotates(s, call, reply, env) {
        GrownEvolves(s.book, row, next, env.save);
        var saved := s.(book := Persist(s.book.(rows := s.book.rows + [row]), next, env.save));
        var logged := saved.(
          fence := if call.recovery.Some? then Own(s.fence, env.stillOwned) else s.fence,
          trace := s.trace.(rotations :=
            s.trace.rotations + [Rotation(c, call.row, |s.book.rows|, call.submitted)]));
        FailedRefreshEvolves(saved.(fence := PersistFence(s.fence, env.save)), c, call.row, env.again);
        FailedRefreshEvolves(logged, c, |s.book.rows|, env.again);
        if t.book.rows != saved.book.rows { EvolveTwice(s.book.rows, saved.book.rows, t.book.rows); }
      } else {
        FailedRefreshEvolves(s.(fence := if reply.None? then s.fence else Own(s.fence, env.owned)), c, call.row, env.again);
      }
    } else {
      RowsStay(s.book.rows);
    }
  }

  lemma {:induction false} RowsStay(rows: seq<Account>)
    ensures RowsEvolve(rows, rows)
  {}

  lemma {:induction false} GrownEvolves(b: Book, row: Account, next: seq<RowRef>, save: Save)
    ensures RowsEvolve(b.rows, Persist(b.(rows := b.rows + [row]), next, save).rows)
  {
    GrowEvolves(b, row, next, save);
    hide Persist;
    assert Allocate(b, row) == b.(rows := b.rows + [row]);
  }

  lemma {:induction false} WrittenEvolves(b: Book, r: RowRef, a: Account, save: Save)
    requires r < |b.rows| && RowEvolves(b.rows[r], a)
    ensures RowsEvolve(b.rows, Persist(b.(rows := b.rows[r := a]), b.accounts, save).rows)
  {
    WriteEvolves(b, r, a, save);
    hide Persist;
    assert Update(b, r, a) == b.(rows := b.rows[r := a]);
  }

  lemma {:induction false} ReconnectionEvolves(s: State, c: CallRef, catalog: Option<Catalog>, env: Env, past: Past)
    requires Inv(s, past)
    ensures RowsEvolve(s.book.rows, RefreshDiscoveredStep(s, c, catalog, env).book.rows)
  {
    if CallAt(s.work, c).Rediscovering? {
      RediscoveringFits(s, c, past);
      hide RefreshFailed;
      hide Persist;
      hide Inv;
      hide RowsEvolve;
      hide MayReconnect;
      var call := s.work.calls[c];
      RowsStay(s.book.rows);
      forall t: State, owner, save ensures RowsEvolve(t.book.rows, RefreshFailed(t, c, owner, save).book.rows) {
        FailedRefreshEvolves(t, c, owner, save);
      }
      if catalog.Some? {
        var row := s.book.rows[call.row].(models := catalog.value);
        var b := Update(s.book, call.row, row);
        ModelsEvolve(s.book.rows, call.row, catalog.value);
        forall rows | RowsEvolve(b.rows, rows) ensures RowsEvolve(s.book.rows, rows) {
          EvolveTwice(s.book.rows, b.rows, rows);
        }
        if row.state != Disconnected {
          WriteEvolves(b, call.row, row.(state := Connected), env.save);
          var connected := Connect(b, call.row, catalog.value, env.save);
          forall rows | RowsEvolve(connected.rows, rows) ensures RowsEvolve(s.book.rows, rows) {
            EvolveTwice(s.book.rows, connected.rows, rows);
          }
        }
      }
    } else {
      RowsStay(s.book.rows);
    }
  }

  lemma {:induction false} ModelsEvolve(rows: seq<Account>, r: RowRef, models: set<string>)
    requires r < |rows|
    ensures RowsEvolve(rows, rows[r := rows[r].(models := models)])
  {}

  lemma {:induction false} SignInEvolves(
    s: State, c: CallRef, reply: Option<Grant>, catalog: Option<Catalog>, env: Env, past: Past)
    requires Inv(s, past)
    ensures RowsEvolve(s.book.rows, CompleteExchangedStep(s, c, reply, env).book.rows)
    ensures RowsEvolve(s.book.rows, CompleteDiscoveredStep(s, c, catalog, env).book.rows)
    ensures RowsEvolve(s.book.rows, RetryListedStep(s, c, catalog, env).book.rows)
  {
    RowsStay(s.book.rows);
    var call := CallAt(s.work, c);
    if call.Completing? && reply.Some? {
      var a := SignedIn(s.book.rows, call.target, call.clientId, reply.value);
      GrowEvolves(s.book, a, Without(Allocate(s.book, a).rows, s.book.accounts, a.id) + [|s.book.rows|], env.save);
    }
    if call.Discovering? || call.Relisting? {
      if c < |s.work.calls| { assert Captured(s.book, s.fence.generation, s.work.calls[c]); }
    }
    hide Inv;
    hide Persist;
    hide Without;
    hide Update;
    hide MayRegister;
    hide RowsEvolve;
    if (call.Discovering? || call.Relisting?) && catalog.Some? && At(s.book.rows, call.row).state != Disconnected {
      WriteEvolves(s.book, call.row, At(s.book.rows, call.row).(models := catalog.value, state := Connected), env.save);
    }
  }

  lemma {:induction false} ErasingEvolves(s: State, c: CallRef, revoked: bool, env: Env, past: Past)
    requires Inv(s, past)
    ensures RowsEvolve(s.book.rows, DisconnectFinishStep(s, c, revoked, env).book.rows)
  {
    RowsStay(s.book.rows);
    if CallAt(s.work, c).Disconnecting? {
      DisconnectErases(s, c, revoked, env, past);
      hide Inv;
      hide Persist;
      var r := s.work.calls[c].row;
      WrittenEvolves(s.book, r, DisconnectFinishStep(s, c, revoked, env).book.rows[r], env.save);
      hide DisconnectFinishStep;
    }
  }

  lemma {:induction false} WithdrawingEvolves(s: State, id: AccountId, env: Env, past: Past)
    requires Inv(s, past)
    ensures RowsEvolve(s.book.rows, DisconnectStartStep(s, id, env).book.rows)
  {
    hide Inv;
    hide Persist;
    hide DisconnectStartStep;
    hide RowsEvolve;
    hide Own;
    hide AbortOne;
    hide PersistFence;
    RowsStay(s.book.rows);
    DisconnectExactly(s, id, env, past);
    PublishedRows(s, past);
    if r: RowRef :| IsPublished(s, id, r) {
      var row := s.book.rows[r];
      var gone := row.(state := Disconnected, revocationPending := row.revocationPending || row.refreshToken != 0);
      WrittenEvolves(s.book, r, gone, env.save);
      WithdrawnStays(s.book, r, env.save);
      var withdrawn := Persist(s.book.(rows := s.book.rows[r := gone]), s.book.accounts, env.save);
      if env.save == Confirmed && row.refreshToken == 0 {
        var erased := gone.(accessToken := 0, refreshToken := 0, idToken := 0);
        WrittenEvolves(withdrawn, r, erased, env.again);
        var last := Persist(withdrawn.(rows := withdrawn.rows[r := erased]), s.book.accounts, env.again);
        EvolveTwice(s.book.rows, withdrawn.rows, last.rows);
      }
    }
  }

  lemma {:induction false} StepEvolves(s: State, e: Event, past: Past)
    requires Inv(s, past)
    ensures RowsEvolve(s.book.rows, Step(s, e).book.rows)
  {
    hide Inv;
    hide RowsEvolve;
    hide CompleteExchangedStep;
    hide CompleteDiscoveredStep;
    hide RetryListedStep;
    hide RefreshExchangedStep;
    hide RefreshDiscoveredStep;
    hide DisconnectFinishStep;
    hide DisconnectStartStep;
    RowsStay(s.book.rows);
    match e {
      case CompleteExchanged(c, reply, env) => SignInEvolves(s, c, reply, None, env, past);
      case CompleteDiscovered(c, catalog, env) => SignInEvolves(s, c, None, catalog, env, past);
      case RetryListed(c, catalog, env) => SignInEvolves(s, c, None, catalog, env, past);
      case RefreshExchanged(c, reply, env) => RotationEvolves(s, c, reply, env, past);
      case RefreshDiscovered(c, catalog, env) => ReconnectionEvolves(s, c, catalog, env, past);
      case DisconnectFinish(c, revoked, env) => ErasingEvolves(s, c, revoked, env, past);
      case DisconnectStart(id, env) => WithdrawingEvolves(s, id, env, past);
      case _ => RestIsQuiet(s, e);
    }
  }

  lemma {:induction false} RestIsQuiet(s: State, e: Event)
    requires !e.CompleteExchanged? && !e.CompleteDiscovered? && !e.RetryListed? && !e.RefreshExchanged?
             && !e.RefreshDiscovered? && !e.DisconnectStart? && !e.DisconnectFinish?
    ensures Step(s, e).book == s.book
  {
    hide Find;
    hide Own;
    hide EnsureController;
  }

  /** No credential of an account object is ever exchanged: over every run it stays as it was, or is erased
      once the object is disconnected; and the object's identity and expiry never change. */
  lemma {:induction false} CredentialsStay(s: State, events: seq<Event>, past: Past, r: RowRef)
    requires Inv(s, past) && r < |s.book.rows|
    ensures var (a, b) := (s.book.rows[r], At(Run(s, events).book.rows, r));
            && r < |Run(s, events).book.rows|
            && b.id == a.id && b.clientId == a.clientId && b.subject == a.subject && b.expiresAt == a.expiresAt
            && (b.accessToken == a.accessToken || (b.state == Disconnected && b.accessToken == 0))
            && (b.refreshToken == a.refreshToken || (b.state == Disconnected && b.refreshToken == 0))
            && (b.idToken == a.idToken || (b.state == Disconnected && b.idToken == 0))
            && (a.state == Disconnected ==> b.state == Disconnected)
    decreases |events|
  {
    if events != [] {
      StepEvolves(s, events[0], past);
      StepKeeps(s, events[0], past);
      assert RowEvolves(s.book.rows[r], Step(s, events[0]).book.rows[r]);
      hide Inv;
      hide Step;
      CredentialsStay(Step(s, events[0]), events[1..], past, r);
    }
  }

  /** After the second half of a disconnect the row never holds a credential again. */
  lemma {:induction false} SignedOutForEver(
    s: State, c: CallRef, revoked: bool, env: Env, events: seq<Event>, past: Past)
    requires Inv(s, past) && CallAt(s.work, c).Disconnecting?
    ensures var row := At(Run(DisconnectFinishStep(s, c, revoked, env), events).book.rows, s.work.calls[c].row);
            row.accessToken == 0 && row.refreshToken == 0 && row.idToken == 0 && row.state == Disconnected
  {
    DisconnectErases(s, c, revoked, env, past);
    DisconnectFinishKeeps(s, c, revoked, env, past);
    hide Inv;
    CredentialsStay(DisconnectFinishStep(s, c, revoked, env), events, past, s.work.calls[c].row);
    hide DisconnectFinishStep;
    hide Run;
  }

  // ---------------------------------------------------------------- which token a refresh submits

  /** Refreshes already out are as they were; a new one submits the token its account holds. */
  ghost predicate SubmitsHeld(s: State, t: State) {
    && |s.work.calls| <= |t.work.calls|
    && (forall d :: 0 <= d < |s.work.calls| && t.work.calls[d].Refreshing? ==> t.work.calls[d] == s.work.calls[d])
    && (forall d :: |s.work.calls| <= d < |t.work.calls| && t.work.calls[d].Refreshing? ==>
          && At(s.book.rows, t.work.calls[d].row).state != Disconnected
          && t.work.calls[d].submitted == At(s.book.rows, t.work.calls[d].row).refreshToken)
  }

  lemma {:induction false} FailedRefreshSubmits(s: State, t: State, c: CallRef, owner: RowRef, save: Save)
    requires SubmitsHeld(s, t)
    ensures SubmitsHeld(s, RefreshFailed(t, c, owner, save))
  {
    hide Lapse;
    hide Owns;
    hide AbortOne;
    hide PersistFence;
  }

  lemma {:induction false} RefreshSubmits(
    s: State, c: CallRef, reply: Option<Grant>, catalog: Option<Catalog>, env: Env)
    ensures SubmitsHeld(s, RefreshExchangedStep(s, c, reply, env))
    ensures SubmitsHeld(s, RefreshDiscoveredStep(s, c, catalog, env))
  {
    hide RefreshFailed;
    hide Persist;
    hide PersistFence;
    hide Own;
    hide MayRotate;
    hide MayReconnect;
    hide RecoveryCurrent;
    hide Update;
    hide Connect;
    hide Rotate;
    forall t: State, owner, save | SubmitsHeld(s, t) ensures SubmitsHeld(s, RefreshFailed(t, c, owner, save)) {
      FailedRefreshSubmits(s, t, c, owner, save);
    }
  }

  lemma {:induction false} StartSubmits(s: State, e: Event, past: Past)
    requires Inv(s, past) && (e.RetryStart? || e.ReadyStart?)
    ensures SubmitsHeld(s, Step(s, e))
  {
    hide Inv;
    hide Own;
    hide RetryStartStep;
    hide ReadyStartStep;
    PublishedRows(s, past);
    if e.RetryStart? {
      RetryExactly(s, e.id, e.permitted, e.env, past);
    } else {
      ReadyExactly(s, e.id, e.model, e.env, past);
    }
  }

  lemma {:induction false} StepSubmits(s: State, e: Event, past: Past)
    requires Inv(s, past)
    ensures SubmitsHeld(s, Step(s, e))
  {
    hide Inv;
    hide Persist;
    hide PersistFence;
    hide Own;
    hide Register;
    hide Connect;
    hide Erase;
    hide Withdraw;
    hide RefreshExchangedStep;
    hide RefreshDiscoveredStep;
    hide RetryStartStep;
    hide ReadyStartStep;
    match e {
      case RefreshExchanged(c, reply, env) => RefreshSubmits(s, c, reply, None, env);
      case RefreshDiscovered(c, catalog, env) => RefreshSubmits(s, c, None, catalog, env);
      case RetryStart(_, _, _) => StartSubmits(s, e, past);
      case ReadyStart(_, _, _) => StartSubmits(s, e, past);
      case _ =>
    }
  }

  /** From now on every refresh of this object submits this token. */
  ghost predicate OnlySubmits(s: State, r: RowRef, token: Token) {
    && r < |s.book.rows| && (s.book.rows[r].state != Disconnected ==> s.book.rows[r].refreshToken == token)
    && forall d :: 0 <= d < |s.work.calls| && s.work.calls[d].Refreshing? && s.work.calls[d].row == r ==>
         s.work.calls[d].submitted == token
  }

  lemma {:induction false} OnlySubmitsStays(s: State, e: Event, past: Past, r: RowRef, token: Token)
    requires Inv(s, past) && OnlySubmits(s, r, token)
    ensures OnlySubmits(Step(s, e), r, token)
  {
    StepEvolves(s, e, past);
    StepSubmits(s, e, past);
    assert RowEvolves(s.book.rows[r], Step(s, e).book.rows[r]);
    hide Inv;
    hide Step;
  }

  lemma {:induction false} OnlySubmitsRuns(s: State, events: seq<Event>, past: Past, r: RowRef, token: Token)
    requires Inv(s, past) && OnlySubmits(s, r, token)
    ensures OnlySubmits(Run(s, events), r, token)
    decreases |events|
  {
    if events != [] {
      OnlySubmitsStays(s, events[0], past, r, token);
      StepKeeps(s, events[0], past);
      hide Inv;
      hide OnlySubmits;
      hide Step;
      OnlySubmitsRuns(Step(s, events[0]), events[1..], past, r, token);
    }
  }

  lemma {:induction false} NewObjectIsUnknown(s: State, past: Past)
    requires Inv(s, past)
    ensures forall d :: 0 <= d < |s.work.calls| && s.work.calls[d].Refreshing? ==> s.work.calls[d].row < |s.book.rows|
  {
    forall d | 0 <= d < |s.work.calls| && s.work.calls[d].Refreshing? ensures s.work.calls[d].row < |s.book.rows| {
      assert Captured(s.book, s.fence.generation, s.work.calls[d]);
    }
  }

  lemma {:induction false} GrownHolds(b: Book, row: Account, next: seq<RowRef>, save: Save)
    ensures var t := Persist(b.(rows := b.rows + [row]), next, save);
            |t.rows| == |b.rows| + 1 && t.rows[|b.rows|].refreshToken == row.refreshToken
  {
    hide Image;
  }

  lemma {:induction false} FailingKeepsTokens(s: State, c: CallRef, owner: RowRef, save: Save, r: RowRef, token: Token)
    requires OnlySubmits(s, r, token)
    ensures OnlySubmits(RefreshFailed(s, c, owner, save), r, token)
  {
    FailedRefreshEvolves(s, c, owner, save);
    assert SubmitsHeld(s, s);
    FailedRefreshSubmits(s, s, c, owner, save);
    FailingDisconnectsNothing(s, c, owner, save);
    assert RowEvolves(s.book.rows[r], RefreshFailed(s, c, owner, save).book.rows[r]);
    hide RefreshFailed;
  }

  lemma {:induction false} FailingDisconnectsNothing(s: State, c: CallRef, owner: RowRef, save: Save)
    ensures |RefreshFailed(s, c, owner, save).work.calls| == |s.work.calls|
  {
    hide Lapse;
    hide Owns;
  }

  /** The state with the rotation saved and logged. */
  ghost function Logged(s: State, c: CallRef, row: Account, next: seq<RowRef>, env: Env): State
    requires CallAt(s.work, c).Refreshing?
  {
    var call := s.work.calls[c];
    s.(book := Persist(s.book.(rows := s.book.rows + [row]), next, env.save),
       fence := if call.recovery.Some? then Own(s.fence, env.stillOwned) else s.fence,
       trace := s.trace.(rotations := s.trace.rotations + [Rotation(c, call.row, |s.book.rows|, call.submitted)]))
  }

  lemma {:induction false} LoggedSubmits(s: State, c: CallRef, row: Account, next: seq<RowRef>, env: Env, past: Past)
    requires Inv(s, past) && CallAt(s.work, c).Refreshing? && env.save.Confirmed?
    ensures OnlySubmits(Logged(s, c, row, next, env), |s.book.rows|, row.refreshToken)
    ensures Logged(s, c, row, next, env).book.accounts == next
  {
    hide Inv;
    hide Own;
    NewObjectIsUnknown(s, past);
    GrownHolds(s.book, row, next, env.save);
  }

  lemma {:induction false} SuccessorIsPublished(b: Book, call: Call, g: Grant, row: Account, next: seq<RowRef>)
    requires call.Refreshing? && StoresTheGrant(b, call, g, row, next) && call.row in b.accounts
    ensures |b.rows| in next && row.refreshToken == g.refreshToken
  {
    var i :| 0 <= i < |b.accounts| && b.accounts[i] == call.row;
    assert next[i] == |b.rows|;
  }

  lemma {:induction false} SetCallSubmits(s: State, c: CallRef, call: Call, r: RowRef, token: Token)
    requires OnlySubmits(s, r, token) && !call.Refreshing?
    ensures OnlySubmits(s.(work := SetCall(s.work, c, call)), r, token)
  {}

  lemma {:induction false} RotationSubmits(s: State, c: CallRef, reply: Option<Grant>, env: Env, past: Past)
    requires Inv(s, past) && CallAt(s.work, c).Refreshing? && reply.Some?
    requires Rotates(s, s.work.calls[c], reply, env) && env.save.Confirmed?
    ensures var t := RefreshExchangedStep(s, c, reply, env);
            OnlySubmits(t, |s.book.rows|, reply.value.refreshToken) && |s.book.rows| in t.book.accounts
  {
    hide Inv;
    hide Own;
    hide Persist;
    hide PersistFence;
    hide RefreshFailed;
    hide RefreshExchangedStep;
    hide OnlySubmits;
    hide StoresTheGrant;
    hide StillWanted;
    var call := s.work.calls[c];
    var row, next := RotationExactly(s, c, reply, env, past);
    SuccessorIsPublished(s.book, call, reply.value, row, next);
    LoggedSubmits(s, c, row, next, env, past);
    var logged := Logged(s, c, row, next, env);
    FailingKeepsTokens(logged, c, |s.book.rows|, env.again, |s.book.rows|, row.refreshToken);
    FailingKeepsTheList(logged, c, |s.book.rows|, env.again);
    SetCallSubmits(logged, c, Rediscovering(|s.book.rows|, call.original, call.controller, call.recovery),
                   |s.book.rows|, row.refreshToken);
  }

  /** After a saved rotation the account is published as the object that holds the granted credentials, and
      over every run each further refresh of it submits the granted refresh token: the one that was spent
      is never used again. */
  lemma {:induction false} NextRefreshSubmitsTheGrant(
    s: State, c: CallRef, reply: Option<Grant>, env: Env, events: seq<Event>, past: Past, d: CallRef)
    requires Inv(s, past) && CallAt(s.work, c).Refreshing? && reply.Some?
    requires Rotates(s, s.work.calls[c], reply, env) && env.save.Confirmed?
    ensures |s.book.rows| in RefreshExchangedStep(s, c, reply, env).book.accounts
    ensures var t := Run(RefreshExchangedStep(s, c, reply, env), events);
            && (CallAt(t.work, d).Refreshing? && CallAt(t.work, d).row == |s.book.rows| ==>
                  CallAt(t.work, d).submitted == reply.value.refreshToken)
            && (At(t.book.rows, |s.book.rows|).state != Disconnected ==>
                  At(t.book.rows, |s.book.rows|).refreshToken == reply.value.refreshToken)
  {
    hide Inv;
    hide Rotates;
    hide RefreshExchangedStep;
    hide Run;
    RotationSubmits(s, c, reply, env, past);
    RefreshExchangedKeeps(s, c, reply, env, past);
    OnlySubmitsRuns(RefreshExchangedStep(s, c, reply, env), events, past, |s.book.rows|, reply.value.refreshToken);
  }

  lemma {:induction false} FailingKeepsTheList(s: State, c: CallRef, owner: RowRef, save: Save)
    ensures RefreshFailed(s, c, owner, save).book.accounts == s.book.accounts
  {
    RefreshFailedOnward(s, c, owner, save);
  }

  lemma {:induction false} SignInSubmits(s: State, c: CallRef, reply: Option<Grant>, env: Env, past: Past)
    requires Inv(s, past) && CallAt(s.work, c).Completing? && reply.Some?
    requires Registers(s, s.work.calls[c], reply, env) && env.save.Confirmed?
    ensures var t := CompleteExchangedStep(s, c, reply, env);
            OnlySubmits(t, |s.book.rows|, reply.value.refreshToken) && |s.book.rows| in t.book.accounts
  {
    hide Inv;
    hide Registers;
    hide CompleteExchangedStep;
    hide AreTheOthers;
    NewObjectIsUnknown(s, past);
    var row, kept := SignInStoresTheGrant(s, c, reply, env, past);
    SignInIsSavedExactly(s, c, reply, env);
    GrownHolds(s.book, row, kept + [|s.book.rows|], env.save);
    hide EndsSignIn;
    assert (kept + [|s.book.rows|])[|kept|] == |s.book.rows|;
  }

  /** The same of a saved sign-in: its account is published, and every refresh of it submits the token that
      was granted to it. */
  lemma {:induction false} FirstRefreshSubmitsTheGrant(
    s: State, c: CallRef, reply: Option<Grant>, env: Env, events: seq<Event>, past: Past, d: CallRef)
    requires Inv(s, past) && CallAt(s.work, c).Completing? && reply.Some?
    requires Registers(s, s.work.calls[c], reply, env) && env.save.Confirmed?
    ensures |s.book.rows| in CompleteExchangedStep(s, c, reply, env).book.accounts
    ensures var t := Run(CompleteExchangedStep(s, c, reply, env), events);
            && (CallAt(t.work, d).Refreshing? && CallAt(t.work, d).row == |s.book.rows| ==>
                  CallAt(t.work, d).submitted == reply.value.refreshToken)
            && (At(t.book.rows, |s.book.rows|).state != Disconnected ==>
                  At(t.book.rows, |s.book.rows|).refreshToken == reply.value.refreshToken)
  {
    hide Inv;
    hide Registers;
    hide CompleteExchangedStep;
    hide Run;
    SignInSubmits(s, c, reply, env, past);
    CompleteExchangedKeeps(s, c, reply, env, past);
    OnlySubmitsRuns(CompleteExchangedStep(s, c, reply, env), events, past, |s.book.rows|, reply.value.refreshToken);
  }

  // ---------------------------------------------------------------- a restart

  /** The next process publishes the stored rows in their order, as they were, but trusts no credential
      beyond its refresh token: each that is not disconnected counts as expired. */
  lemma {:induction false} RestartExactly(stored: seq<Account>)
    ensures var s := Load(stored);
            && |s.book.rows| == |s.book.accounts| == |stored| && s.book.durable == stored
            && (forall i :: 0 <= i < |stored| ==> s.book.accounts[i] == i)
            && (forall i :: 0 <= i < |stored| ==>
                  s.book.rows[i] == stored[i].(expiresAt := if stored[i].state == Disconnected then stored[i].expiresAt else 1))
            && !s.fence.closed && s.fence.aborted == {} && s.fence.controllers == map[]
            && s.signIn.pending.None? && !s.signIn.exchange && s.signIn.exchangingOwner.None?
            && s.work.refreshes == map[] && s.work.calls == []
            && s.trace.rotations == [] && s.trace.registrations == [] && s.trace.leases == []
  {}
}
