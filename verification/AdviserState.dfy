/** ChatGPT plan adviser accounts as a state machine.

    One event is one section of server/chatgpt-plan-adviser.ts that runs without an `await`:
    a call starts with one event, and every later event resumes a call that is waiting for the
    network.  What the network, the credential store, the clock and the caller's abort signal do
    is carried by the event, so a run is any sequence of events. */
module AdviserState {
  import opened Options

  /** An opaque credential; 0 is the empty string of a signed-out row. */
  type Token = nat
  type Credential = t: nat | t > 0 witness 1
  /** A non-empty model catalogue: the only kind the discovery request returns. */
  type Catalog = m: set<string> | m != {} witness {"model"}
  type Clock = t: nat | t > 0 witness 1

  /** An account object, by allocation order.  Two objects may describe the same account. */
  type RowRef = nat
  type CallRef = nat
  type ControllerRef = nat

  /** The hash of the client and the signed subject, injective in both. */
  datatype AccountId = AccountId(clientId: string, subject: string)

  datatype RowState = Connected | ReauthRequired | Disconnected

  datatype Account = Account(
    id: AccountId,
    clientId: string,
    subject: string,
    accessToken: Token,
    refreshToken: Token,
    idToken: Token,
    expiresAt: int,
    state: RowState,
    revocationPending: bool,
    models: set<string>)

  /** A verified token response: the signed subject and a complete rotating pair. */
  datatype Grant = Grant(
    subject: string,
    accessToken: Credential,
    refreshToken: Credential,
    idToken: Credential,
    expiresAt: int)

  datatype Pending = Pending(ticket: nat, owner: string, target: Option<RowRef>)

  /** A call that is waiting for the network, with everything it captured. */
  datatype Call =
    | Completing(ticket: nat, generation: nat, target: Option<RowRef>, clientId: string)
    | Discovering(ticket: nat, generation: nat, row: RowRef)
    | Refreshing(row: RowRef, original: RowState, submitted: Token,
                 controller: ControllerRef, recovery: Option<nat>)
    | Rediscovering(row: RowRef, original: RowState,
                    controller: ControllerRef, recovery: Option<nat>)
    | Verifying(row: RowRef, generation: nat, controller: ControllerRef)
    | Relisting(row: RowRef, generation: nat, controller: ControllerRef)
    | Waiting(on: CallRef, controller: ControllerRef, model: string)
    | Disconnecting(row: RowRef)
    | Settled(result: Option<RowRef>)

  /** A refresh that saved a new pair: the row it replaced, the row it created, the token it spent. */
  datatype Rotation = Rotation(call: CallRef, replaced: RowRef, successor: RowRef, submitted: Token)
  /** A sign-in that saved its registration. */
  datatype Registration = Registration(call: CallRef, row: RowRef)
  datatype Lease = Lease(row: RowRef, controller: ControllerRef)

  /** `save` returned, threw before writing, or threw after writing. */
  datatype Save = Confirmed | Refused | Unconfirmed

  /** What the surroundings answer during one section: two ownership checks, the signal the
      section waits under (with its time-out), the signal of the caller whose recovery this is, two
      saves, and the clock. */
  datatype Env = Env(
    owned: bool, stillOwned: bool, live: bool, attended: bool, save: Save, again: Save, now: Clock)

  /** The account objects, the list that publishes some of them, and the last state the store took. */
  datatype Book = Book(rows: seq<Account>, accounts: seq<RowRef>, durable: seq<Account>, saveFailed: bool)

  /** Everything that fences a call off: the generation, the abort controllers, the closed flag. */
  datatype Fence = Fence(
    generation: nat,
    controllers: map<AccountId, ControllerRef>,
    nextController: ControllerRef,
    aborted: set<ControllerRef>,
    closed: bool)

  /** The single browser sign-in; `codes` lists the tickets whose code was sent for exchange. */
  datatype SignIn = SignIn(
    pending: Option<Pending>,
    exchange: bool,
    exchangingOwner: Option<string>,
    tickets: nat,
    codes: seq<nat>)

  datatype Work = Work(refreshes: map<AccountId, CallRef>, calls: seq<Call>)

  /** What an observer of the run has seen so far. */
  datatype Trace = Trace(rotations: seq<Rotation>, registrations: seq<Registration>, leases: seq<Lease>)

  datatype State = State(book: Book, fence: Fence, signIn: SignIn, work: Work, trace: Trace)

  datatype Event =
    | Begin(owner: string, selected: Option<AccountId>, env: Env)
    | Cancel(owner: string)
    | CompleteStart(owner: string, accepted: bool, clientId: Option<string>, wellFormed: bool, env: Env)
    | CompleteExchanged(call: CallRef, reply: Option<Grant>, env: Env)
    | CompleteDiscovered(call: CallRef, catalog: Option<Catalog>, env: Env)
    | RefreshExchanged(call: CallRef, reply: Option<Grant>, env: Env)
    | RefreshDiscovered(call: CallRef, catalog: Option<Catalog>, env: Env)
    | RetryStart(id: AccountId, permitted: bool, env: Env)
    | RetryVerified(call: CallRef, subject: Option<string>, env: Env)
    | RetryListed(call: CallRef, catalog: Option<Catalog>, env: Env)
    | ReadyStart(id: AccountId, model: string, env: Env)
    | ReadyResumed(call: CallRef, env: Env)
    | DisconnectStart(id: AccountId, env: Env)
    | DisconnectFinish(call: CallRef, revoked: bool, env: Env)
    | Reap(id: AccountId)
    | Probe(env: Env)
    | Close

  const MAX_ACCOUNTS := 30
  /** Credentials this close to expiry are refreshed before use, in milliseconds. */
  const REFRESH_WINDOW := 60000

  // ---------------------------------------------------------------- rows and calls

  const NO_ACCOUNT := Account(AccountId("", ""), "", "", 0, 0, 0, 0, Disconnected, false, {})

  function At(rows: seq<Account>, r: RowRef): Account {
    if r < |rows| then rows[r] else NO_ACCOUNT
  }

  function Put(rows: seq<Account>, r: RowRef, a: Account): seq<Account> {
    if r < |rows| then rows[r := a] else rows
  }

  function CallAt(w: Work, c: CallRef): Call {
    if c < |w.calls| then w.calls[c] else Settled(None)
  }

  function SetCall(w: Work, c: CallRef, call: Call): Work {
    if c < |w.calls| then w.(calls := w.calls[c := call]) else w
  }

  function FindIn(rows: seq<Account>, accounts: seq<RowRef>, id: AccountId): Option<RowRef> {
    if accounts == [] then None
    else if At(rows, accounts[0]).id == id then Some(accounts[0])
    else FindIn(rows, accounts[1..], id)
  }

  function Find(b: Book, id: AccountId): Option<RowRef> {
    FindIn(b.rows, b.accounts, id)
  }

  function Replace(accounts: seq<RowRef>, r: RowRef, successor: RowRef): seq<RowRef> {
    seq(|accounts|, (i: nat) requires i < |accounts| => if accounts[i] == r then successor else accounts[i])
  }

  function Without(rows: seq<Account>, accounts: seq<RowRef>, id: AccountId): seq<RowRef> {
    if accounts == [] then []
    else if At(rows, accounts[0]).id == id then Without(rows, accounts[1..], id)
    else [accounts[0]] + Without(rows, accounts[1..], id)
  }

  /** The accounts as the store receives them. */
  function Image(rows: seq<Account>, accounts: seq<RowRef>): seq<Account> {
    seq(|accounts|, (i: nat) requires i < |accounts| => At(rows, accounts[i]))
  }

  function Demote(rows: seq<Account>, accounts: seq<RowRef>): seq<Account> {
    seq(|rows|, (r: nat) requires r < |rows| =>
      if r in accounts && rows[r].state == Connected then rows[r].(state := ReauthRequired) else rows[r])
  }

  function Update(b: Book, r: RowRef, a: Account): Book {
    b.(rows := Put(b.rows, r, a))
  }

  function Allocate(b: Book, a: Account): Book {
    b.(rows := b.rows + [a])
  }

  // ---------------------------------------------------------------- shared parts of the sections

  function AbortAll(f: Fence): Fence {
    f.(aborted := f.aborted + f.controllers.Values)
  }

  function AbortOne(f: Fence, id: AccountId): Fence {
    if id in f.controllers then f.(aborted := f.aborted + {f.controllers[id]}) else f
  }

  /** Aborting every call and moving the generation, as every lost fence does. */
  function Trip(f: Fence): Fence {
    AbortAll(f).(generation := f.generation + 1)
  }

  /** `assertOwnership`: the section throws exactly when the result is closed. */
  function Own(f: Fence, owned: bool): Fence {
    if f.closed || owned then f else Trip(f).(closed := true)
  }

  /** `persist`, on the accounts: publish `next` once the store holds it. */
  function Persist(b: Book, next: seq<RowRef>, save: Save): Book {
    match save
    case Confirmed => b.(accounts := next, durable := Image(b.rows, next))
    case Refused => b.(rows := Demote(b.rows, b.accounts), saveFailed := true)
    case Unconfirmed =>
      b.(rows := Demote(b.rows, b.accounts), durable := Image(b.rows, next), saveFailed := true)
  }

  /** `persist`, on the fences. */
  function PersistFence(f: Fence, save: Save): Fence {
    if save.Confirmed? then f else Trip(f)
  }

  function EnsureController(f: Fence, id: AccountId): Fence {
    if id in f.controllers && f.controllers[id] !in f.aborted then f
    else f.(controllers := f.controllers[id := f.nextController], nextController := f.nextController + 1)
  }

  function ControllerOf(f: Fence, id: AccountId): ControllerRef {
    if id in f.controllers then f.controllers[id] else 0
  }

  function Settle(w: Work, c: CallRef, result: Option<RowRef>): Work {
    SetCall(w, c, Settled(result))
  }

  // ---------------------------------------------------------------- sign-in

  function BeginStep(s: State, owner: string, selected: Option<AccountId>, env: Env): State {
    var f := Own(s.fence, env.owned);
    var target := if selected.Some? then Find(s.book, selected.value) else None;
    if f.closed || s.signIn.pending.Some? || s.signIn.exchange
       || (selected.None? && |s.book.accounts| >= MAX_ACCOUNTS) || (selected.Some? && target.None?)
    then s.(fence := f)
    else s.(fence := f,
            signIn := s.signIn.(pending := Some(Pending(s.signIn.tickets, owner, target)),
                                tickets := s.signIn.tickets + 1))
  }

  function CancelStep(s: State, owner: string): State {
    if (s.signIn.pending.Some? && s.signIn.pending.value.owner == owner)
       || s.signIn.exchangingOwner == Some(owner)
    then s.(signIn := s.signIn.(pending := None), fence := s.fence.(generation := s.fence.generation + 1))
    else s
  }

  /** The `finally` block of `complete`. */
  function EndExchange(i: SignIn): SignIn {
    i.(exchange := false, exchangingOwner := None)
  }

  /** A `complete` that throws: the exchange ends and the call settles without a row. */
  function Declined(s: State, c: CallRef): State {
    s.(signIn := EndExchange(s.signIn), work := Settle(s.work, c, None))
  }

  /** The registration a callback may use: the selected account's own, or the newly issued one. */
  function IssuedClient(rows: seq<Account>, target: Option<RowRef>, clientId: Option<string>): Option<string> {
    match target
    case None => clientId
    case Some(t) =>
      if clientId.Some? && clientId.value != At(rows, t).clientId then None
      else Some(At(rows, t).clientId)
  }

  function CompleteStartStep(s: State, owner: string, accepted: bool, clientId: Option<string>,
                             wellFormed: bool, env: Env): State
  {
    if s.signIn.pending.None? || s.signIn.pending.value.owner != owner || !accepted then s
    else
      var p := s.signIn.pending.value;
      var f := Own(s.fence, env.owned);
      var issued := IssuedClient(s.book.rows, p.target, clientId);
      if f.closed || !env.live || !wellFormed || issued.None? then
        s.(fence := f, signIn := EndExchange(s.signIn.(pending := None)))
      else
        s.(fence := f,
           signIn := s.signIn.(pending := None, exchange := true, exchangingOwner := Some(owner),
                               codes := s.signIn.codes + [p.ticket]),
           work := s.work.(calls := s.work.calls
                                    + [Completing(p.ticket, f.generation, p.target, issued.value)]))
  }

  function SignedIn(rows: seq<Account>, target: Option<RowRef>, clientId: string, g: Grant): Account {
    Account(
      AccountId(clientId, g.subject), clientId, g.subject,
      g.accessToken, g.refreshToken, g.idToken, g.expiresAt,
      ReauthRequired,
      target.Some? && At(rows, target.value).revocationPending,
      if target.Some? then At(rows, target.value).models else {})
  }

  /** The fences of a verified sign-in: its generation, the selected subject, the selected object. */
  predicate MayRegister(s: State, f: Fence, call: Call, g: Grant, live: bool)
    requires call.Completing?
  {
    && !f.closed && live && f.generation == call.generation
    && match call.target
       case None => Find(s.book, AccountId(call.clientId, g.subject)).None?
       case Some(t) => g.subject == At(s.book.rows, t).subject && t in s.book.accounts
  }

  /** The accounts with every row of this id replaced by the newly signed-in one. */
  function Register(b: Book, row: Account, save: Save): Book {
    var grown := Allocate(b, row);
    Persist(grown, Without(grown.rows, b.accounts, row.id) + [|b.rows|], save)
  }

  function CompleteExchangedStep(s: State, c: CallRef, reply: Option<Grant>, env: Env): State {
    var call := CallAt(s.work, c);
    if !call.Completing? then s
    else if reply.None? then Declined(s, c)
    else
      var f := Own(s.fence, env.owned);
      if !MayRegister(s, f, call, reply.value, env.live) then Declined(s.(fence := f), c)
      else
        var row := SignedIn(s.book.rows, call.target, call.clientId, reply.value);
        var f1 := AbortOne(f, row.id).(controllers := f.controllers - {row.id});
        var s1 := s.(book := Register(s.book, row, env.save), fence := PersistFence(f1, env.save));
        if !env.save.Confirmed? then Declined(s1, c)
        else s1.(work := SetCall(s.work, c, Discovering(call.ticket, call.generation, |s.book.rows|)),
                 trace := s.trace.(registrations := s.trace.registrations
                                                    + [Registration(c, |s.book.rows|)]))
  }

  /** `account.models = …; account.state = 'connected'; persist(state)`. */
  function Connect(b: Book, r: RowRef, models: set<string>, save: Save): Book {
    Persist(Update(b, r, At(b.rows, r).(models := models, state := Connected)), b.accounts, save)
  }

  function CompleteDiscoveredStep(s: State, c: CallRef, catalog: Option<Catalog>, env: Env): State {
    var call := CallAt(s.work, c);
    if !call.Discovering? then s
    else if catalog.None? then Declined(s, c)
    else
      var f := Own(s.fence, env.owned);
      if f.closed || !env.live || f.generation != call.generation then Declined(s.(fence := f), c)
      else
        var f1 := PersistFence(f, env.save);
        var s1 := s.(book := Connect(s.book, call.row, catalog.value, env.save));
        if !env.save.Confirmed? then Declined(s1.(fence := f1), c)
        else
          // The public listing is built after the save and checks ownership once more.
          var f2 := Own(f1, env.stillOwned);
          s1.(fence := f2,
              signIn := EndExchange(s.signIn),
              work := Settle(s.work, c, if f2.closed then None else Some(call.row)))
  }

  // ---------------------------------------------------------------- refresh

  /** Whether the `catch` block of `refresh` still owns the published row of this account. */
  predicate Owns(b: Book, owner: RowRef) {
    Find(b, At(b.rows, owner).id) == Some(owner) && At(b.rows, owner).state != Disconnected
  }

  function Lapse(b: Book, owner: RowRef, save: Save): Book {
    Persist(Update(b, owner, At(b.rows, owner).(state := ReauthRequired)), b.accounts, save)
  }

  /** The `catch` block of `refresh`. */
  function RefreshFailed(s: State, c: CallRef, owner: RowRef, save: Save): State {
    if Owns(s.book, owner) then
      s.(book := Lapse(s.book, owner, save),
         fence := PersistFence(AbortOne(s.fence, At(s.book.rows, owner).id), save),
         work := Settle(s.work, c, None))
    else s.(work := Settle(s.work, c, None))
  }

  /** `assertRecoveryCurrent`, after its own ownership check. */
  predicate RecoveryCurrent(f: Fence, recovery: Option<nat>, controller: ControllerRef, attended: bool) {
    recovery.Some? ==> !f.closed && attended && controller !in f.aborted && recovery.value == f.generation
  }

  function Rotated(row: Account, g: Grant): Account {
    row.(accessToken := g.accessToken, refreshToken := g.refreshToken, idToken := g.idToken,
         expiresAt := g.expiresAt)
  }

  /** The fences of a verified refresh: the same object, still published, in the state it began in. */
  predicate MayRotate(s: State, f: Fence, call: Call, g: Grant, live: bool)
    requires call.Refreshing?
  {
    && !f.closed
    && g.subject == At(s.book.rows, call.row).subject
    && call.row in s.book.accounts
    && At(s.book.rows, call.row).state == call.original
    && (call.recovery.Some? || call.original == Connected)
    && call.controller !in f.aborted && live
  }

  /** The accounts with `row` replaced, in place, by its successor. */
  function Rotate(b: Book, row: RowRef, g: Grant, save: Save): Book {
    Persist(Allocate(b, Rotated(At(b.rows, row), g)), Replace(b.accounts, row, |b.rows|), save)
  }

  function RefreshExchangedStep(s: State, c: CallRef, reply: Option<Grant>, env: Env): State {
    var call := CallAt(s.work, c);
    if !call.Refreshing? then s
    else if reply.None? then RefreshFailed(s, c, call.row, env.again)
    else
      var f := Own(s.fence, env.owned);
      if !MayRotate(s, f, call, reply.value, env.live)
      then RefreshFailed(s.(fence := f), c, call.row, env.again)
      else
        var successor := |s.book.rows|;
        var s1 := s.(book := Rotate(s.book, call.row, reply.value, env.save));
        if !env.save.Confirmed?
        then RefreshFailed(s1.(fence := PersistFence(f, env.save)), c, call.row, env.again)
        else
          var f1 := if call.recovery.Some? then Own(f, env.stillOwned) else f;
          var s2 := s1.(fence := f1,
                        trace := s.trace.(rotations := s.trace.rotations
                                                       + [Rotation(c, call.row, successor, call.submitted)]));
          if !RecoveryCurrent(f1, call.recovery, call.controller, env.attended)
          then RefreshFailed(s2, c, successor, env.again)
          else s2.(work := SetCall(s.work, c, Rediscovering(successor, call.original, call.controller, call.recovery)))
  }

  /** The fences of a finished refresh. */
  predicate MayReconnect(b: Book, f: Fence, call: Call, env: Env)
    requires call.Rediscovering?
  {
    && !f.closed && RecoveryCurrent(f, call.recovery, call.controller, env.attended)
    && call.row in b.accounts && At(b.rows, call.row).state == call.original
  }

  function RefreshDiscoveredStep(s: State, c: CallRef, catalog: Option<Catalog>, env: Env): State {
    var call := CallAt(s.work, c);
    if !call.Rediscovering? then s
    else if catalog.None? then RefreshFailed(s, c, call.row, env.again)
    else
      // The catalogue is written before any fence is looked at.
      var b := Update(s.book, call.row, At(s.book.rows, call.row).(models := catalog.value));
      if call.controller in s.fence.aborted || !env.live
      then RefreshFailed(s.(book := b), c, call.row, env.again)
      else
        var f0 := Own(s.fence, env.owned);
        var f := if call.recovery.Some? then Own(f0, env.stillOwned) else f0;
        if !MayReconnect(b, f, call, env) then RefreshFailed(s.(book := b, fence := f), c, call.row, env.again)
        else
          var s1 := s.(book := Connect(b, call.row, catalog.value, env.save), fence := PersistFence(f, env.save));
          if !env.save.Confirmed? then RefreshFailed(s1, c, call.row, env.again)
          else s1.(work := Settle(s.work, c, Some(call.row)))
  }

  // ---------------------------------------------------------------- recovery of a retained grant

  predicate Expiring(row: Account, now: Clock) {
    row.expiresAt <= now + REFRESH_WINDOW
  }

  /** The fence of `retryConnection`, after its own ownership check. */
  predicate RetryCurrent(b: Book, f: Fence, row: RowRef, generation: nat, controller: ControllerRef, live: bool) {
    && !f.closed && live && controller !in f.aborted && f.generation == generation
    && row in b.accounts && At(b.rows, row).state != Disconnected
  }

  /** The shared call a retry starts: it throws at once, rotates an expiring pair, or re-verifies. */
  function RetryCall(row: RowRef, a: Account, f: Fence, generation: nat, permitted: bool, now: Clock): Call {
    if f.closed || !permitted then Settled(None)
    else if Expiring(a, now)
    then Refreshing(row, a.state, a.refreshToken, ControllerOf(f, a.id), Some(generation))
    else Verifying(row, generation, ControllerOf(f, a.id))
  }

  function RetryStartStep(s: State, id: AccountId, permitted: bool, env: Env): State {
    var f := Own(s.fence, env.owned);
    var found := Find(s.book, id);
    if f.closed || !env.live || found.None? || At(s.book.rows, found.value).state == Disconnected
       || s.signIn.pending.Some? || s.signIn.exchange || id in s.work.refreshes
    then s.(fence := f)
    else
      var f1 := EnsureController(f, id);
      var f2 := Own(f1, env.stillOwned);
      var call := RetryCall(found.value, At(s.book.rows, found.value), f2, f1.generation, permitted, env.now);
      s.(fence := f2,
         work := Work(s.work.refreshes[id := |s.work.calls|], s.work.calls + [call]))
  }

  function RetryVerifiedStep(s: State, c: CallRef, subject: Option<string>, env: Env): State {
    var call := CallAt(s.work, c);
    if !call.Verifying? then s
    else if subject.None? then s.(work := Settle(s.work, c, None))
    else
      var f := Own(s.fence, env.owned);
      if RetryCurrent(s.book, f, call.row, call.generation, call.controller, env.live)
         && subject.value == At(s.book.rows, call.row).subject
      then s.(fence := f, work := SetCall(s.work, c, Relisting(call.row, call.generation, call.controller)))
      else s.(fence := f, work := Settle(s.work, c, None))
  }

  function RetryListedStep(s: State, c: CallRef, catalog: Option<Catalog>, env: Env): State {
    var call := CallAt(s.work, c);
    if !call.Relisting? then s
    else if catalog.None? then s.(work := Settle(s.work, c, None))
    else
      var f := Own(s.fence, env.owned);
      if !RetryCurrent(s.book, f, call.row, call.generation, call.controller, env.live)
      then s.(fence := f, work := Settle(s.work, c, None))
      else s.(book := Connect(s.book, call.row, catalog.value, env.save),
              fence := PersistFence(f, env.save),
              work := Settle(s.work, c, if env.save.Confirmed? then Some(call.row) else None))
  }

  // ---------------------------------------------------------------- leases

  /** `assertCurrent` of a lease, after its own ownership check. */
  predicate LeaseCurrent(b: Book, f: Fence, lease: Lease, live: bool, now: Clock) {
    && !f.closed && live && lease.controller !in f.aborted && lease.row in b.accounts
    && At(b.rows, lease.row).state == Connected && At(b.rows, lease.row).expiresAt > now
  }

  /** `accessToken` of a lease: the credential it yields, if any. */
  function LeaseToken(s: State, lease: Lease, env: Env): Option<Token> {
    if LeaseCurrent(s.book, Own(s.fence, env.owned), lease, env.live, env.now)
    then Some(At(s.book.rows, lease.row).accessToken)
    else None
  }

  /** The end of `ready`: hand out a lease unless something changed. */
  function GrantLease(s: State, lease: Lease, model: string, owned: bool, env: Env): State {
    if !env.live || model !in At(s.book.rows, lease.row).models then s
    else
      var f := Own(s.fence, owned);
      if LeaseCurrent(s.book, f, lease, env.live, env.now)
      then s.(fence := f, trace := s.trace.(leases := s.trace.leases + [lease]))
      else s.(fence := f)
  }

  function ReadyStartStep(s: State, id: AccountId, model: string, env: Env): State {
    var f := Own(s.fence, env.owned);
    var found := Find(s.book, id);
    if f.closed || !env.live || found.None? || At(s.book.rows, found.value).state != Connected
       || (id !in s.work.refreshes && model !in At(s.book.rows, found.value).models)
    then s.(fence := f)
    else
      var row := found.value;
      var a := At(s.book.rows, row);
      var f1 := EnsureController(f, id);
      var controller := ControllerOf(f1, id);
      var c := |s.work.calls|;
      if id in s.work.refreshes then
        s.(fence := f1,
           work := s.work.(calls := s.work.calls + [Waiting(s.work.refreshes[id], controller, model)]))
      else if Expiring(a, env.now) then
        s.(fence := f1,
           work := Work(s.work.refreshes[id := c],
                        s.work.calls + [Refreshing(row, Connected, a.refreshToken, controller, None),
                                        Waiting(c, controller, model)]))
      else GrantLease(s.(fence := f1), Lease(row, controller), model, env.stillOwned, env)
  }

  function ReadyResumedStep(s: State, c: CallRef, env: Env): State {
    var call := CallAt(s.work, c);
    if !call.Waiting? || !CallAt(s.work, call.on).Settled? then s
    else
      var shared := CallAt(s.work, call.on).result;
      var s1 := s.(work := Settle(s.work, c, None));
      if shared.None? then s1
      else GrantLease(s1, Lease(shared.value, call.controller), call.model, env.owned, env)
  }

  // ---------------------------------------------------------------- disconnect and close

  function SignedOut(row: Account, revoked: bool): Account {
    row.(accessToken := 0, refreshToken := 0, idToken := 0,
         revocationPending := row.revocationPending && !revoked)
  }

  /** Local access ends here, and the uncertainty about the remote grant is stored with it. */
  function Withdraw(b: Book, r: RowRef, save: Save): Book {
    var row := At(b.rows, r);
    Persist(Update(b, r, row.(state := Disconnected,
                              revocationPending := row.revocationPending || row.refreshToken != 0)),
            b.accounts, save)
  }

  function Erase(b: Book, r: RowRef, revoked: bool, save: Save): Book {
    Persist(Update(b, r, SignedOut(At(b.rows, r), revoked)), b.accounts, save)
  }

  /** A pending sign-in for this account does not survive its disconnect. */
  function Unselect(i: SignIn, b: Book, id: AccountId): SignIn {
    if i.pending.Some? && i.pending.value.target.Some? && At(b.rows, i.pending.value.target.value).id == id
    then i.(pending := None)
    else i
  }

  /** The body of `disconnect` up to its first await, for the row it found. */
  function DisconnectRow(s: State, id: AccountId, r: RowRef, f: Fence, env: Env): State {
    var f1 := PersistFence(AbortOne(f, id).(generation := f.generation + 1), env.save);
    var s1 := s.(signIn := Unselect(s.signIn, s.book, id), fence := f1, book := Withdraw(s.book, r, env.save));
    if !env.save.Confirmed? then s1
    else if At(s.book.rows, r).refreshToken == 0 then
      // No retained grant: the second half runs without contacting the provider.
      s1.(book := Erase(s1.book, r, false, env.again), fence := PersistFence(f1, env.again))
    else s1.(work := s.work.(calls := s.work.calls + [Disconnecting(r)]))
  }

  function DisconnectStartStep(s: State, id: AccountId, env: Env): State {
    var f := Own(s.fence, env.owned);
    var found := Find(s.book, id);
    if f.closed || found.None? then s.(fence := f) else DisconnectRow(s, id, found.value, f, env)
  }

  function DisconnectFinishStep(s: State, c: CallRef, revoked: bool, env: Env): State {
    var call := CallAt(s.work, c);
    if !call.Disconnecting? then s
    else s.(book := Erase(s.book, call.row, revoked, env.save),
            fence := PersistFence(s.fence, env.save),
            work := Settle(s.work, c, None))
  }

  /** The `finally` callback that forgets a settled refresh. */
  function ReapStep(s: State, id: AccountId): State {
    if id in s.work.refreshes && CallAt(s.work, s.work.refreshes[id]).Settled?
    then s.(work := s.work.(refreshes := s.work.refreshes - {id}))
    else s
  }

  function CloseStep(s: State): State {
    s.(fence := Trip(s.fence).(closed := true), signIn := s.signIn.(pending := None))
  }

  // ---------------------------------------------------------------- runs

  function Step(s: State, e: Event): State {
    match e
    case Begin(owner, selected, env) => BeginStep(s, owner, selected, env)
    case Cancel(owner) => CancelStep(s, owner)
    case CompleteStart(owner, accepted, clientId, wellFormed, env) =>
      CompleteStartStep(s, owner, accepted, clientId, wellFormed, env)
    case CompleteExchanged(c, reply, env) => CompleteExchangedStep(s, c, reply, env)
    case CompleteDiscovered(c, catalog, env) => CompleteDiscoveredStep(s, c, catalog, env)
    case RefreshExchanged(c, reply, env) => RefreshExchangedStep(s, c, reply, env)
    case RefreshDiscovered(c, catalog, env) => RefreshDiscoveredStep(s, c, catalog, env)
    case RetryStart(id, permitted, env) => RetryStartStep(s, id, permitted, env)
    case RetryVerified(c, subject, env) => RetryVerifiedStep(s, c, subject, env)
    case RetryListed(c, catalog, env) => RetryListedStep(s, c, catalog, env)
    case ReadyStart(id, model, env) => ReadyStartStep(s, id, model, env)
    case ReadyResumed(c, env) => ReadyResumedStep(s, c, env)
    case DisconnectStart(id, env) => DisconnectStartStep(s, id, env)
    case DisconnectFinish(c, revoked, env) => DisconnectFinishStep(s, c, revoked, env)
    case Reap(id) => ReapStep(s, id)
    case Probe(env) => s.(fence := Own(s.fence, env.owned))
    case Close => CloseStep(s)
  }

  function Run(s: State, events: seq<Event>): State
    decreases |events|
  {
    if events == [] then s else Run(Step(s, events[0]), events[1..])
  }

  // ---------------------------------------------------------------- the stored shape

  /** What the account schema asks of one row. */
  predicate RowMeetsSchema(a: Account) {
    && (a.state == Connected ==> a.models != {})
    && (a.state != Disconnected ==> a.accessToken != 0 && a.refreshToken != 0 && a.idToken != 0)
  }

  /** What the stored-state schema asks; ids are the hash of the client and the subject. */
  ghost predicate MeetsSchema(stored: seq<Account>) {
    && |stored| <= MAX_ACCOUNTS
    && (forall i :: 0 <= i < |stored| ==> RowMeetsSchema(stored[i]))
    && (forall i :: 0 <= i < |stored| ==> stored[i].id == AccountId(stored[i].clientId, stored[i].subject))
    && (forall i, j :: 0 <= i < j < |stored| ==> stored[i].id != stored[j].id)
  }

  /** The constructor: a saved row is not live proof, so its credentials count as expired. */
  function Restored(a: Account): Account {
    if a.state != Disconnected then a.(expiresAt := 1) else a
  }

  function Load(stored: seq<Account>): State {
    State(
      Book(seq(|stored|, (i: nat) requires i < |stored| => Restored(stored[i])),
           seq(|stored|, (i: nat) => i), stored, false),
      Fence(0, map[], 0, {}, false),
      SignIn(None, false, None, 0, []),
      Work(map[], []),
      Trace([], [], []))
  }
}
