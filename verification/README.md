# Verified model of the host's concurrency, receipts and evidence logic

A Dafny model of the parts of the repository in which a wrong interleaving, a lost receipt or a
misread piece of evidence would matter, with proofs of what those parts promise. `dafny verify
dfyconfig.toml` checks all of it.

Each modelled file has a *specification*, a state with one function per step, and an imperative
*class or method* in the form of the source whose contract ties every step to that specification. The
theorems are about the specification: over all runs, all interleavings, all servers, all archives. Beside
them stand the files `…Effects` and `…Rules`, `ReadingOrder` and `PackSteps`: they say what each step does,
exactly when and nothing else, of the rows, requests, replies and files themselves; where such a law names a part of a
step, such as a save, that part has a law of its own.

| files | what they model |
|---|---|
| `AdviserState`, `AdviserBook`, `AdviserInvariant`, `AdviserSteps`, `AdviserTheorems`, `AdviserEffects`, `AdviserAccounts` | `server/chatgpt-plan-adviser.ts`: sign-in, leases, single-flight refresh, retry, disconnect and close. One event is one section without an `await`; a call in flight records what it captured (its row object, generation, controller and original state). Network, verification, saving, ownership, clock and aborts are chosen freely by the event. |
| `BorrowedSearch`, `SearchEffects`, `OrderlyCallers` | `server/codex-borrowed-search.ts`: cleanup of a borrowed child thread racing with receipts, and which callers get all of it |
| `ApiToolCatalog`, `CatalogEffects` | `server/api-tool-catalog.ts`: drafts, verification generations, publications, across restarts |
| `AgentTaskStore`, `TaskEffects` | `server/agent-task-store.ts`: revisions and retry receipts in one transaction |
| `AgentLibraryStore`, `LibraryEffects` | `server/agent-library-store.ts` over the profile log of `server/symposium-profiles.ts`, which other callers also use |
| `AccountUse` | `server/account-use-store.ts`: the pruned log against the log that is never pruned |
| `ContextSections`, `ReadingOrder`, `ContextMerge`, `ContextPacks`, `PackSteps` | `server/agent-context-pack-compiler.ts`: sections of a heading tree, the merge of what selections say, documents, order and omissions |
| `ContextOrder`, `ContextRecipes` | the same compiler: when the order of the selections, and of the packs, matters |
| `Permutations`, `Options` | rearranged sequences and sizes of sets; results |
| `IncidentEvidence`, `EvidenceRules` | `server/callback-incident-evidence.ts`: matching receipts to tool events, and the rollout automaton |
| `InterruptedEffects`, `SettlementRules` | `server/codex-interrupted-effects.ts`: paged settlement against any server |
| `DependencySlots`, `SlotRules` | `scripts/ci-build-output.py`: nearest-slot resolution and acceptance of installed-only packages |
| `BuildOutput`, `TransferRules`, `BuildTree` | `scripts/ci-build-output.py`: `pack` and `restore` on a file tree |

## Exact conditions

Some promises one would like to make hold only under a condition; the condition is proved exact, or a
concrete counterexample is proved beside the theorem.  Proofs by induction are written out; none rests
on automatic induction.

- A sign-in whose generation moved leaves its saved row in 'reauth_required' unless a `disconnect` took
  the row meanwhile, and then it is 'disconnected' (`UnfinishedSignInRow`).
- A resolved close of a borrowed search has cleaned up everything ever acknowledged if no two thread/start
  and no two turn/start requests are out at once (`OrderlyClosesClean`), and only then: a run has this
  order if and only if at each of its points every orderly continuation in which a close resolves is
  clean (`OrderlyExactly`).  Of two thread/start requests that are out, one child may stay subscribed
  (`OverlappingThreadsLeak`, and the whole run `OverlapLeaksChild`); of two turn/start requests, one turn
  that has not ended by itself may stay uninterrupted (`OverlappingTurnsLeak`).
- A close does not refuse for every missing receipt: it refuses exactly when a turn/start was sent and no
  turn was acknowledged (`MissingReceiptRefuses`).  A caller that asks one request at a time can lose the
  receipt of one turn/start, get a second one acknowledged, and see the close resolve
  (`LostReceiptIsForgotten`); that needs two turn/start requests (`WhatACloseKnows`).
- The answers of the pruned use log are exactly those answers of the full one whose row is still held; an
  answer is never stale, and can be absent only when no held row is older (`LatestIsNeverStale`).
- The pack merge counts the limit of 500 sections only while it adds a selected section, so guidance may
  pass it at the end and not at the beginning: the merge loop accepts 500 document sections then one of
  guidance and refuses the reverse (`GuidanceFirstIsRefused`; at the hand-over 501 sections are too many
  in either order unless one is excluded, as in `PackOrderMatters`).  The order of the selections never decides
  acceptance if and only if they clash, or all sections fit, or none is selected, or the selected ones
  alone do not fit (`MergeIsOrderFree`).  For the packs of a recipe the condition is
  `PackOrderCannotMatter`, again exact (`RecipeIsOrderFree`), with two packs that compile in one order
  only (`PackOrderMatters`).  What an accepted recipe carries never depends on the order
  (`MergeCarriesTheSame`, `RecipeCarriesTheSame`); which of two errors is reported first may.
- Tool-event matching depends on the order of the receipts (`OrderMatters`).  It accepts them in every
  order if and only if each has one settled pair of its own (`EveryOrderExactly`); with unique tool
  identifiers one accepted order is as good as all (`UniqueToolsAreOrderFree`).
- A round trip needs a target whose roots and file parents are reached through directories only: a
  stale link or file there is refused even though it would have been deleted (`PackedValidates`).
  A portable output also needs a producer on Linux or macOS with a plain machine name.
- A refused `restore` changes nothing, with two exceptions, both of which pass validation and fail after the
  roots were deleted: an inventory in which one file lies below another (`NestingIsNotChecked`), and a mode
  written as 420.0, which equals 420 but is no integer for `chmod` (`FloatsAreNotChecked`).  Below the
  roots are then only directories and files of the inventory, the last of them perhaps without its mode
  (`Restore`), so an earlier build is lost (`AbandonedLosesTheOld`).  `pack` makes neither (`RoundTrip`).

## Model

| member | source | states |
|---|---|---|
| AdviserTheorems.DisconnectIsFinal | server/chatgpt-plan-adviser.ts:619-668 | after the first section of `disconnect` no later step of any call moves the row out of 'disconnected', no lease on it yields a token, and it stays published unless a sign-in that starts later replaces it |
| AdviserTheorems.DisconnectedExactlyByDisconnect | server/chatgpt-plan-adviser.ts:619-629 | in any run a row becomes 'disconnected' if and only if a `disconnect` took hold of it; failed refreshes, lost ownership, cancelled sign-ins and failed saves never do that |
| AdviserTheorems.OneRefreshInFlight | server/chatgpt-plan-adviser.ts:434-454 | at most one refresh token per account id is outstanding, whether `ready` or `retryConnection` asked, and it is the token of the row that submitted it |
| AdviserTheorems.RotationsAreLinear | server/chatgpt-plan-adviser.ts:465-478 | over a whole run every row object and every call is spent by at most one saved rotation, and a spent row object is never published again |
| AdviserTheorems.RotationSwapsItsOwnRow | server/chatgpt-plan-adviser.ts:455-478 | a refresh that saves a new pair had submitted the token of a published row and replaces exactly that row, in place, by a new object |
| AdviserTheorems.SupersededRefreshIsInert | server/chatgpt-plan-adviser.ts:491-499 | a refresh whose row is no longer published changes no published row, no membership and nothing in the store, whatever the network answers |
| AdviserTheorems.StoreMirrorsMemory | server/chatgpt-plan-adviser.ts:185-196 | in every run without a failed save the stored rows equal the published ones on id, client, subject, tokens, state and pending revocation at every await point |
| AdviserTheorems.StoreAlwaysLoads | server/chatgpt-plan-adviser.ts:19-54 | whatever saves fail or are unconfirmed, the store holds a state that meets the schemas and that a restart accepts |
| AdviserTheorems.LeasesNeedFreshProof | server/chatgpt-plan-adviser.ts:177-184 | after a restart every lease stands on a row object made by a saved rotation or a saved sign-in of this process, never on one read from the store |
| AdviserTheorems.FailedSaveRevokes | server/chatgpt-plan-adviser.ts:189-195 | a save that is not confirmed leaves no lease usable |
| AdviserTheorems.SignInIsExclusive | server/chatgpt-plan-adviser.ts:232-276 | pending and exchange never hold together, each `begin` leads to at most one code exchange, at most one sign-in call runs, ids are unique and rows at most thirty |
| AdviserTheorems.StaleSignInPublishesNothing | server/chatgpt-plan-adviser.ts:283-385 | a sign-in whose generation moved changes no account; the row it had already saved is 'reauth_required', or 'disconnected' when a `disconnect` took it |
| AdviserTheorems.UnfinishedSignInRow | server/chatgpt-plan-adviser.ts:363-377 | while the catalogue of a sign-in is awaited its saved row is 'reauth_required' at every point of every run, unless a `disconnect` took hold of it |
| AdviserSteps.RunKeeps | server/chatgpt-plan-adviser.ts:148-676 | the invariant (distinct ids and objects, spent objects unpublished, calls with valid captures, one sign-in, mirrored saves, schema) is kept by every event of every run |
| AdviserAccounts.ChatGptPlanAdviserAccounts.constructor | server/chatgpt-plan-adviser.ts:169-184 | loads the rows and marks every row that is not disconnected as expired |
| AdviserAccounts.ChatGptPlanAdviserAccounts.Persist | server/chatgpt-plan-adviser.ts:185-196 | publishes and stores the rows, or on a failed save demotes every connected row, moves the generation and aborts every controller |
| AdviserAccounts.ChatGptPlanAdviserAccounts.AssertOwnership | server/chatgpt-plan-adviser.ts:197-207 | closes everything when the ownership of the store is lost |
| AdviserAccounts.ChatGptPlanAdviserAccounts.Begin | server/chatgpt-plan-adviser.ts:232-276 | the section of `begin` as its step function, with its busy, missing-account and thirty-row refusals |
| AdviserAccounts.ChatGptPlanAdviserAccounts.Cancel | server/chatgpt-plan-adviser.ts:277-282 | drops the pending sign-in and moves the generation for the owner of a pending or exchanging sign-in only |
| AdviserAccounts.ChatGptPlanAdviserAccounts.CompleteStart | server/chatgpt-plan-adviser.ts:283-332 | consumes the pending sign-in and sends the code, or refuses |
| AdviserAccounts.ChatGptPlanAdviserAccounts.CompleteExchanged | server/chatgpt-plan-adviser.ts:333-372 | checks the signed identity and registers the row in one save, or leaves the accounts alone |
| AdviserAccounts.ChatGptPlanAdviserAccounts.CompleteDiscovered | server/chatgpt-plan-adviser.ts:373-384 | connects the registered row when the sign-in is still current |
| AdviserAccounts.ChatGptPlanAdviserAccounts.RefreshFailed | server/chatgpt-plan-adviser.ts:491-499 | marks the owner row of a failed refresh for reauthorization only when it is still the published row of its id and not disconnected |
| AdviserAccounts.ChatGptPlanAdviserAccounts.RefreshExchanged | server/chatgpt-plan-adviser.ts:452-482 | saves the rotated pair before discovery, or fails |
| AdviserAccounts.ChatGptPlanAdviserAccounts.RefreshDiscovered | server/chatgpt-plan-adviser.ts:482-499 | reconnects the rotated row, or fails it |
| AdviserAccounts.ChatGptPlanAdviserAccounts.RetryStart | server/chatgpt-plan-adviser.ts:505-537 | joins the refresh of the id, or starts one, or starts verifying the retained grant |
| AdviserAccounts.ChatGptPlanAdviserAccounts.RetryVerified | server/chatgpt-plan-adviser.ts:538-541 | goes on to the catalogue when the retained identity still belongs to the row |
| AdviserAccounts.ChatGptPlanAdviserAccounts.RetryListed | server/chatgpt-plan-adviser.ts:541-547 | reconnects the retained row when the retry is still current |
| AdviserAccounts.ChatGptPlanAdviserAccounts.ReadyStart | server/chatgpt-plan-adviser.ts:562-594 | grants a lease, waits for the shared refresh, or starts one |
| AdviserAccounts.ChatGptPlanAdviserAccounts.ReadyResumed | server/chatgpt-plan-adviser.ts:593-617 | grants a lease on the refreshed row when model, row, controller and clock still allow it |
| AdviserAccounts.ChatGptPlanAdviserAccounts.AccessToken | server/chatgpt-plan-adviser.ts:613-616 | yields the credential of a lease exactly while it is current: of a published, connected, unexpired row, never the empty one, and never of a row some `disconnect` has taken hold of |
| AdviserAccounts.ChatGptPlanAdviserAccounts.DisconnectStart | server/chatgpt-plan-adviser.ts:619-636 | unless closed or unknown: the row is disconnected and remembered as withdrawn, the generation has moved, the list is as it was; the uncertain revocation is recorded before any call, the calls of the account are aborted and a sign-in that targets it is dropped |
| AdviserAccounts.ChatGptPlanAdviserAccounts.DisconnectFinish | server/chatgpt-plan-adviser.ts:661-667 | erases the tokens and the pending revocation the provider confirmed |
| AdviserAccounts.ChatGptPlanAdviserAccounts.Reap | server/chatgpt-plan-adviser.ts:548-552 | forgets the shared refresh of an id only once it has settled |
| AdviserAccounts.ChatGptPlanAdviserAccounts.Close | server/chatgpt-plan-adviser.ts:669-675 | closes, drops the pending sign-in, moves the generation and aborts every controller |
| AdviserAccounts.DemoteConnected | server/chatgpt-plan-adviser.ts:192-193 | the loop demotes exactly the connected rows of the published list and touches no other object |
| AdviserAccounts.ExpireStored | server/chatgpt-plan-adviser.ts:182-183 | the loop expires exactly the loaded rows that are not disconnected |
| AdviserEffects.RotationExactly | server/chatgpt-plan-adviser.ts:452-482 | a refresh saves a new pair exactly when the reply is permitted and the save is confirmed; the new published object, and its stored row, then hold exactly the grant's three tokens and expiry under the id, client and subject of the row it replaces, and that row alone is replaced; the call goes on unless its recovery was given up, and every refusal fails the account that is current then |
| AdviserEffects.NextRefreshSubmitsTheGrant | server/chatgpt-plan-adviser.ts:434-478 | after a saved rotation, in every continuation, a refresh of the new object submits the refresh token of that grant, never the spent one; the object holds it until it is disconnected |
| AdviserEffects.SignInIsSavedExactly | server/chatgpt-plan-adviser.ts:333-372 | a sign-in registers a row exactly when its reply, identity, generation, room and save allow it; otherwise no row changes but for the demotion of a failed save |
| AdviserEffects.SignInStoresTheGrant | server/chatgpt-plan-adviser.ts:340-372 | the registered row, stored and published, has the verified subject under its client, exactly the granted tokens and expiry, waits for reauthorization, and stands in place of every account with its id |
| AdviserEffects.FirstRefreshSubmitsTheGrant | server/chatgpt-plan-adviser.ts:340-372 | in every continuation the first refresh of a registered row submits the refresh token its sign-in was granted |
| AdviserEffects.DisconnectExactly | server/chatgpt-plan-adviser.ts:619-636 | the first section of `disconnect` saves the row as disconnected, with the uncertainty exactly if it had it or holds a refresh token; without one it erases all three tokens at once, with one it goes on to the revocation |
| AdviserEffects.DisconnectErases | server/chatgpt-plan-adviser.ts:661-667 | the second section erases the three tokens of the row, in the store too when the save is confirmed; the revocation stays uncertain exactly if it was and the provider did not confirm it |
| AdviserEffects.SignedOutForEver | server/chatgpt-plan-adviser.ts:619-667 | a row whose disconnect has finished holds no token after any further run |
| AdviserEffects.CredentialsStay | server/chatgpt-plan-adviser.ts:148-676 | over any run the tokens of a row object stay as they are or are erased once it is disconnected; its id, client, subject and expiry never change |
| AdviserEffects.RetryExactly | server/chatgpt-plan-adviser.ts:505-537 | a retry joins the refresh that runs for the id, submits the refresh token of an expiring pair, verifies the identity token of any other, or is refused; exactly when is said of the rows |
| AdviserEffects.VerificationExactly | server/chatgpt-plan-adviser.ts:536-541 | a retained identity goes on to the catalogue exactly if it is the subject of a row that is still published, and caller, generation and controller still hold |
| AdviserEffects.RelistingExactly | server/chatgpt-plan-adviser.ts:541-547 | the retained row is connected with the new models exactly if the retry still holds; its call ends well exactly if the save was also confirmed |
| AdviserEffects.ReadyExactly | server/chatgpt-plan-adviser.ts:562-594 | `ready` serves the connected account published under the id that offers the model: it waits for the running refresh, submits the row's refresh token when the expiry is near, or grants a lease at once |
| AdviserEffects.WaitingExactly | server/chatgpt-plan-adviser.ts:593-617 | a waiting caller gets nothing until the shared call has settled, nothing if it failed, and otherwise a lease of the row that came out of it |
| AdviserEffects.GrantExactly | server/chatgpt-plan-adviser.ts:594-617 | one lease more is granted exactly if the row offers the model and is usable under a live controller by a caller that still owns the store; nothing else changes but what the lost ownership trips |
| AdviserEffects.TokenExactly | server/chatgpt-plan-adviser.ts:613-616 | a lease yields the access token of its row exactly while the row is published, connected and unexpired, its controller not aborted, and the store owned |
| AdviserEffects.FailedRefreshExactly | server/chatgpt-plan-adviser.ts:491-503 | a failed call ends; the account it served asks for reauthorization exactly if it is published and not disconnected, and is saved like that |
| AdviserEffects.ReconnectionExactly | server/chatgpt-plan-adviser.ts:482-503 | a rotated row is connected with the listed models exactly if it is still published in the state the refresh found, and still wanted; every other end is a failed refresh |
| AdviserEffects.SignInConnectsExactly | server/chatgpt-plan-adviser.ts:373-384 | the registered row is connected with the listed models exactly if the generation has not moved and the caller is live; the sign-in ends in every case |
| AdviserEffects.BeginExactly | server/chatgpt-plan-adviser.ts:232-276 | a sign-in begins exactly when none is pending or exchanging, the store is owned, and there is room, or the selected account is published; it takes the next ticket |
| AdviserEffects.CancelExactly | server/chatgpt-plan-adviser.ts:277-282 | cancelling drops the pending sign-in and moves the generation for its owner, and does nothing for anybody else |
| AdviserEffects.CallbackExactly | server/chatgpt-plan-adviser.ts:283-332 | a callback spends the pending sign-in of its owner once; its code is sent exactly when the service is open, owned, the address well formed and the client the one of the selected account |
| AdviserEffects.SavingIsExact | server/chatgpt-plan-adviser.ts:185-196 | a confirmed save publishes and stores exactly the rows it was given; an unconfirmed one may have stored them, publishes nothing and asks every connected published account to sign in again; a refused one stores nothing |
| AdviserEffects.FailedSaveFences | server/chatgpt-plan-adviser.ts:189-195 | a save that is not confirmed aborts the controllers in use and moves the generation; a confirmed one moves nothing |
| AdviserEffects.LosingOwnership | server/chatgpt-plan-adviser.ts:197-207 | a lost ownership closes the service once, aborting the controllers in use and moving the generation |
| AdviserEffects.AbortingOneAccount | server/chatgpt-plan-adviser.ts:491-499 | aborting the calls of one account aborts no other account's controller |
| AdviserEffects.ControllersStayApart | server/chatgpt-plan-adviser.ts:148-676 | in every run from every restart no two accounts share a controller and a new controller is never one that was aborted |
| AdviserEffects.ReapExactly | server/chatgpt-plan-adviser.ts:548-552 | only the settled refresh of that id is forgotten |
| AdviserEffects.ClosingExactly | server/chatgpt-plan-adviser.ts:669-675 | closing drops the pending sign-in, moves the generation and aborts exactly the controllers in use |
| AdviserEffects.RestartExactly | server/chatgpt-plan-adviser.ts:169-184 | a restart publishes exactly the stored rows in order, every one that is not disconnected as expired, with no call, lease, controller or sign-in |
| BorrowedSearch.NoWorkAfterClose | server/codex-borrowed-search.ts:46-48 | once closed, no config/read, thread/start or turn/start is sent in any continuation, overlapping requests included |
| BorrowedSearch.ParentIsNeverNamed | server/codex-borrowed-search.ts:63-66 | in every run, overlapping requests included, no turn/start, interrupt or unsubscribe names the parent thread |
| BorrowedSearch.CloseResolves | server/codex-borrowed-search.ts:93-110 | in every run, overlapping requests included: when `close` resolves every request has settled, the recorded child and turn are the last ones acknowledged, and the child got exactly one unsubscribe, preceded by one interrupt of that turn or by nothing |
| BorrowedSearch.OrderlyClosesClean | server/codex-borrowed-search.ts:50-110 | when no two thread/start and no two turn/start requests are out at once, a resolved `close` has unsubscribed every child ever acknowledged and interrupted, or seen ending, every turn ever acknowledged, and there was at most one of each |
| OrderlyCallers.OrderlyExactly | server/codex-borrowed-search.ts:46-110 | a run has no two thread/start and no two turn/start requests out at once if and only if, at each of its points, every continuation of that kind in which `close` resolves has cleaned up all that was acknowledged; after a lapse receipts and a resolving close that leaks always exist |
| BorrowedSearch.OverlappingThreadsLeak | server/codex-borrowed-search.ts:50-66 | from any state with two thread/start requests out, receipts naming two children make every later close that resolves leave one of them subscribed |
| BorrowedSearch.OverlappingTurnsLeak | server/codex-borrowed-search.ts:52-68 | the same of two turn/start requests: at most one of the two turns is ever interrupted |
| BorrowedSearch.OneAtATimeIsOrderly | server/codex-borrowed-search.ts:50-60 | a caller that asks one request at a time meets the condition |
| BorrowedSearch.WhatACloseKnows | server/codex-borrowed-search.ts:93-110 | when `close` resolves for a caller with at most one request of a kind out, exactly one turn was acknowledged if any turn/start was sent (so all of them if and only if at most one was sent), one child at most, and no turn/start went out without a child |
| BorrowedSearch.LostReceiptIsForgotten | server/codex-borrowed-search.ts:52-68 | counterexample to refusing for every missing receipt, even one request at a time: a turn/start whose receipt is lost, a second one admitted and acknowledged, and `close` resolves |
| BorrowedSearch.InterruptIffNotTerminal | server/codex-borrowed-search.ts:102-106 | the interrupt is sent if and only if no terminal notification of the recorded turn came before the cleanup |
| BorrowedSearch.MissingReceiptRefuses | server/codex-borrowed-search.ts:100-101 | in every run: once drained, `close` refuses if and only if a turn/start was sent and no turn at all was acknowledged |
| BorrowedSearch.OverlapLeaksChild | server/codex-borrowed-search.ts:50-53 | counterexample: two overlapping thread/start requests make `close` resolve although the first of two accepted children is never unsubscribed |
| BorrowedSearch.BorrowedCodexSearch.Ask | server/codex-borrowed-search.ts:35-41 | registers a request as outstanding, or refuses it when closed |
| BorrowedSearch.BorrowedCodexSearch.Checked | server/codex-borrowed-search.ts:46-60 | sends the request only if it is permitted in the current state |
| BorrowedSearch.BorrowedCodexSearch.Receipt | server/codex-borrowed-search.ts:61-70 | records the child identities of a receipt even after cancellation |
| BorrowedSearch.BorrowedCodexSearch.Notification | server/codex-borrowed-search.ts:74-86 | owns only the recorded child's notifications and remembers terminal turns |
| BorrowedSearch.BorrowedCodexSearch.Close | server/codex-borrowed-search.ts:93-97 | closes once and starts draining |
| BorrowedSearch.BorrowedCodexSearch.HasDrained | server/codex-borrowed-search.ts:97-97 | reports whether every outstanding request has settled |
| BorrowedSearch.BorrowedCodexSearch.Drained | server/codex-borrowed-search.ts:100-107 | after draining: nothing, a refusal, an interrupt or the unsubscribe |
| BorrowedSearch.BorrowedCodexSearch.InterruptReply | server/codex-borrowed-search.ts:102-107 | goes on to the unsubscribe, or rejects |
| SearchEffects.SendingExactly | server/codex-borrowed-search.ts:46-60 | a request is sent, as it was asked, if and only if its caller still owns an open search and it reads the configuration, or starts a child while none is recorded, or starts a turn of the recorded child while none is recorded; any other settles unsent |
| SearchEffects.ReceivingExactly | server/codex-borrowed-search.ts:61-72 | an answer records the child or turn it names, after a close too; one that names none, or the parent as a child, records nothing and fails the request |
| SearchEffects.RequestsMoveOn | server/codex-borrowed-search.ts:35-72 | a request is taken by an open search only, and is sent, answered and checked again in this order, each once |
| SearchEffects.NotingExactly | server/codex-borrowed-search.ts:74-86 | exactly the end of a turn of the recorded child is remembered |
| SearchEffects.DrainingExactly | server/codex-borrowed-search.ts:97-107 | once all requests have settled a close without a child is done, one whose turn has no receipt is refused, one whose turn has not ended interrupts it, any other unsubscribes the child |
| SearchEffects.ClosingExactly | server/codex-borrowed-search.ts:88-110 | a close begins once and waits for the requests there are; it goes on from interrupt to unsubscribe to done on good replies and is refused on a bad one |
| ApiToolCatalog.VerifiedMarkIsEarned | server/api-tool-catalog.ts:109-155 | a draft marked verified by g was checked by g on that version and configuration, with the binding matching at completion, and no later verification of the version began, across any number of restarts |
| ApiToolCatalog.EndTouchesOnlyItsOwnMark | server/api-tool-catalog.ts:139-155 | the end of a verification changes a draft only while its own mark stands there, and then only the mark |
| ApiToolCatalog.PublicationLog | server/api-tool-catalog.ts:156-199 | per tool the publication versions are exactly 1..n and the published draft versions strictly increase |
| ApiToolCatalog.PublishedWasVerified | server/api-tool-catalog.ts:159-164 | every publication passed a verification of exactly its configuration and binding |
| ApiToolCatalog.AtMostOneResolvable | server/api-tool-catalog.ts:214-231 | in any state at most one publication of a tool can be resolved |
| ApiToolCatalog.SupersededForEver | server/api-tool-catalog.ts:223-231 | a publication superseded by a later saved draft is unresolvable after every further run, restarts included, and stays in the log unchanged |
| ApiToolCatalog.ApiToolCatalog.Save | server/api-tool-catalog.ts:82-108 | stores the next version without a mark, answers an identical repeat, refuses every other version |
| ApiToolCatalog.ApiToolCatalog.VerifyStart | server/api-tool-catalog.ts:109-138 | marks the draft with a fresh generation before anything is asked; a verification runs if and only if the catalogue is open, the draft is of that version and the caller and the binding are current |
| ApiToolCatalog.ApiToolCatalog.VerifyEnd | server/api-tool-catalog.ts:139-155 | succeeds if and only if the check was active, answered and live, the catalogue open, its own mark still on that version and the binding the draft's; then the draft is verified, otherwise an own mark is withdrawn |
| ApiToolCatalog.ApiToolCatalog.Publish | server/api-tool-catalog.ts:156-200 | appends one publication for a verified draft, or answers the one that exists |
| ApiToolCatalog.ApiToolCatalog.List | server/api-tool-catalog.ts:208-210 | the loop keeps one entry per tool, its newest, in the order of first publication |
| ApiToolCatalog.ApiToolCatalog.Reopen | server/api-tool-catalog.ts:45-60 | the next process over the same tables: drafts and publications stay, the verifications in flight are dead |
| ApiToolCatalog.ApiToolCatalog.Resolve | server/api-tool-catalog.ts:214-233 | resolves exactly the publications that are current, verified and bound |
| CatalogEffects.EndingExactly | server/api-tool-catalog.ts:139-155 | the end of an active check leaves `Verified` with the binding that passed if and only if it was answered, live, in an open catalogue, under its own mark of that version, and with the draft's binding; otherwise its own mark becomes unverified, and nothing else changes |
| CatalogEffects.BeginningExactly | server/api-tool-catalog.ts:109-138 | a check runs if and only if the open catalogue has a draft of that version, a live caller and the draft's binding; the mark is the check's own then, and unverified when it failed at once |
| CatalogEffects.TheWholeWay | server/api-tool-catalog.ts:82-231 | from every reachable open catalogue, saving a draft, verifying and publishing it makes one publication with exactly that configuration and binding, and it resolves |
| CatalogEffects.SavingExactly | server/api-tool-catalog.ts:82-108 | a save stores the next version with the given configuration and no mark, exactly if the catalogue is open, the binding there and the expected version current; no other draft changes |
| CatalogEffects.PublishingExactly | server/api-tool-catalog.ts:156-200 | a verified, bound draft of the named version is published once, as the next version of its tool with the draft's configuration and binding; anything else publishes nothing |
| CatalogEffects.RevisionsAreUnique | server/api-tool-catalog.ts:165-199 | in every run no two publications have the same revision |
| CatalogEffects.NewestIsTheLast | server/api-tool-catalog.ts:201-210 | the entry listed for a tool is its last publication |
| CatalogEffects.FirstIsTheFirst | server/api-tool-catalog.ts:201-210 | tools are listed where they were first published |
| CatalogEffects.ResolvingExactly | server/api-tool-catalog.ts:214-231 | a publication resolves exactly while its tool's draft is still of the published version, verified, and bound to the published binding |
| CatalogEffects.ClosingAndReopening | server/api-tool-catalog.ts:45-60 | the tables survive a restart; the checks that ran are dead |
| AgentTaskStore.ExactlyOnce | server/agent-task-store.ts:91-122 | deleting any repeats of accepted requests from any trace leaves both tables and all other answers unchanged, whatever clock and profiles the repeats met |
| AgentTaskStore.KeyBelongsToItsRequest | server/agent-task-store.ts:106-110 | once a request was answered, after any further requests whatever its key answers it with the same record and refuses every other request, and neither changes anything |
| AgentTaskStore.LogShape | server/agent-task-store.ts:111-119 | in every reachable database revisions are exactly 1..n with one creation time and only the last deleted, and receipts match revisions one to one with equal records |
| AgentTaskStore.DeletedForEver | server/agent-task-store.ts:156-169 | nothing follows a deletion in any continuation |
| AgentTaskStore.ReadersSeeHistory | server/agent-task-store.ts:57-77 | `get` returns the last record of the task's history, or null when it is deleted or there is none |
| AgentTaskStore.AgentTaskStore.MaxRevision | server/agent-task-store.ts:126-130 | the loop finds the greatest revision of a task |
| AgentTaskStore.AgentTaskStore.ReadRevision | server/agent-task-store.ts:68-75 | the loop finds the row of a revision, or none |
| AgentTaskStore.AgentTaskStore.Current | server/agent-task-store.ts:57-77 | the newest record unless it is a deletion |
| AgentTaskStore.AgentTaskStore.List | server/agent-task-store.ts:78-90 | the loop lists exactly the records that `get` returns for the owner's tasks, each once, in the order of the task ids |
| AgentTaskStore.AgentTaskStore.FindReceipt | server/agent-task-store.ts:101-105 | the loop finds the receipt of a key, or none |
| AgentTaskStore.AgentTaskStore.Replay | server/agent-task-store.ts:106-110 | answers from a receipt, or refuses another request under its key |
| AgentTaskStore.AgentTaskStore.Save | server/agent-task-store.ts:123-155 | one transaction: answers, refuses without change, or appends one revision and its receipt |
| AgentTaskStore.AgentTaskStore.Remove | server/agent-task-store.ts:156-170 | one transaction: answers, refuses without change, or appends a deletion and its receipt |
| TaskEffects.SavingExactly | server/agent-task-store.ts:123-155 | a save under a new key is executed if and only if it names the newest revision of a task that is not deleted and an existing profile revision by its hash; it appends one record with the request's definition, revision expected + 1, not deleted, blocked exactly if objective, execution and workspace are given, of this time, and the task then reads as that record; each refusal has its reason |
| TaskEffects.RemovingExactly | server/agent-task-store.ts:156-170 | a removal is executed if and only if it names the newest revision of a task that is there; it appends that record, deleted, and the task then reads as absent |
| TaskEffects.RecordsHoldTheirRequests | server/agent-task-store.ts:91-170 | in every run record k is the one of receipt k, and holds exactly what that request asked of the history before it |
| TaskEffects.OwnersAreApart | server/agent-task-store.ts:57-170 | one owner's tables and answers after any run are those of the run of the owner's own requests alone |
| AgentLibraryStore.DraftNumbersIncrease | server/agent-library-store.ts:122-154 | over the whole run, across publishing and re-drafting, the draft numbers of a profile strictly increase |
| AgentLibraryStore.PublishesWhatWasReviewed | server/agent-library-store.ts:155-174 | an executed `publish` with expected version v publishes exactly the definition that the save numbered v stored, as the revision after the base of that save, whoever else saves profiles |
| AgentLibraryStore.PublishedOnce | server/agent-library-store.ts:155-174 | each draft version is published at most once, and what was published stays readable in the profile store |
| AgentLibraryStore.KeyBelongsToItsRequest | server/agent-library-store.ts:99-121 | once a request was answered, after any further run of the library and of other callers of the profile store its key answers it with the same answer and refuses every other request, and neither changes anything |
| AgentLibraryStore.ImportIsAllOrNothing | server/agent-library-store.ts:175-193 | an executed import leaves the nested receipt, its own receipt and version 1 of the draft together; a refused one leaves nothing |
| AgentLibraryStore.AgentLibraryStore.SaveDraft | server/agent-library-store.ts:122-154 | one transaction of the draft table and its receipt, as its step function |
| AgentLibraryStore.AgentLibraryStore.Publish | server/agent-library-store.ts:155-174 | one transaction over the draft, the profile log and the receipt |
| AgentLibraryStore.AgentLibraryStore.ImportDraft | server/agent-library-store.ts:175-193 | the nested transaction of an import, fingerprinted with the artifact's own profile, revision and hash |
| AgentLibraryStore.AgentLibraryStore.Replay | server/agent-library-store.ts:99-121 | answers or refuses from the receipt table |
| AgentLibraryStore.AgentLibraryStore.ReadDraft | server/agent-library-store.ts:75-84 | reads the draft row of an owner's profile |
| AgentLibraryStore.AgentLibraryStore.ProfileSave | server/symposium-profiles.ts:113-162 | the compare-and-append log of profile versions with its own retries |
| LibraryEffects.PublishesWhatWasAnswered | server/agent-library-store.ts:122-174 | if a save was answered with version v, base and definition, then after any run an accepted `publish` of v publishes that definition as revision base + 1, and the profile store holds it |
| LibraryEffects.SavingExactly | server/agent-library-store.ts:122-154 | a save under a new key is executed if and only if it names the current draft and the newest revision; answer, draft row and log hold the request's definition and base under the next number, and reading gives exactly that |
| LibraryEffects.ReadingADraft | server/agent-library-store.ts:75-84 | a reader gets exactly the row that is stored and not published |
| LibraryEffects.PublishingExactly | server/agent-library-store.ts:155-174 | publishing a draft needs its version and a profile store that accepts it under a key of its own; it answers with the draft's own text, and the draft is gone |
| LibraryEffects.PublishingNeedsADraft | server/agent-library-store.ts:155-160 | without a draft nothing is published |
| LibraryEffects.ImportingExactly | server/agent-library-store.ts:175-193 | an import with the hash of its own text and a free identity does what a first save of that text does, under a key of its own, and adds its receipt; otherwise each refusal has its reason and changes nothing |
| LibraryEffects.ProfileSavingExactly | server/symposium-profiles.ts:113-161 | a save of a profile appends the next revision with the given text exactly if it names the newest one; a used key answers its own request only |
| LibraryEffects.ProfileRestoringExactly | server/symposium-profiles.ts:169-225 | a version from elsewhere is appended if it is the first or the next one, only noted if it is there already, and refused otherwise |
| LibraryEffects.OwnersAreApart | server/agent-library-store.ts:75-193 | a step of one owner changes no draft, receipt, publication or profile of another |
| AccountUse.PruneKeepsTheNewest | server/account-use-store.ts:42-43 | deleting beyond the offset leaves min(n, 1000) rows, and every row kept comes before every row dropped |
| AccountUse.BoundedLogStandsForTheFullOne | server/account-use-store.ts:25-45 | for every sequence of `record` calls, pruned keys recorded again with older, equal or newer times included, the table holds min(n, 1000) rows of the never-pruned table, unchanged, and no missing row is newer than a held one |
| AccountUse.LatestIsNeverStale | server/account-use-store.ts:46-59 | the answers of the pruned table are exactly the answers of the full one whose row is still held; an answer of the full table is missing only if no held row is older than it |
| AccountUse.RecordKeeps | server/account-use-store.ts:25-45 | one `record` keeps the relation between the pruned and the full table |
| AccountUse.AccountUseStore.Record | server/account-use-store.ts:25-45 | refuses exactly the invalid times, and otherwise upserts and prunes in one step |
| AccountUse.AccountUseStore.LatestUse | server/account-use-store.ts:46-59 | the search over the rows of a route returns a newest row whose model is allowed or absent, and nothing exactly when there is none |
| AccountUse.FullLogIsTheLatestUses | server/account-use-store.ts:25-45 | the full log holds exactly the routes and models that were used, each with the latest time of its own uses: distinct routes and models never share a row |
| AccountUse.LatestUseIsExact | server/account-use-store.ts:46-59 | an answer of the full log is the latest recorded use of the route among the allowed models and those without one |
| AccountUse.OneRow | server/account-use-store.ts:28-41 | one use writes the row of its own route and model, the later time on a repeat and a new highest row number otherwise; every other row stays |
| AccountUse.TheOldestGo | server/account-use-store.ts:42-43 | a row that is cut is older than each of the 1000 that stay, or as old and inserted earlier |
| ContextSections.SectionsAreExact | server/agent-context-pack-compiler.ts:28-76 | the sections are accepted if and only if every selector names exactly one heading (ambiguous when one names two); the texts and their numbers do not depend on the selectors |
| ContextSections.WalkIsExact | server/agent-context-pack-compiler.ts:53-67 | the heading walk with its set of seen paths fails exactly on a selected path met twice, and otherwise numbers the non-blank texts in order |
| ContextSections.SectionWalk.Visit | server/agent-context-pack-compiler.ts:53-67 | the recursive visit updates headings and sections as the walk over the flattened tree does |
| ContextSections.ReadSections | server/agent-context-pack-compiler.ts:28-76 | `sections` as the walk plus the check for unavailable selectors |
| ReadingOrder.SectionsInReadingOrder | server/agent-context-pack-compiler.ts:43-68 | the sections are the preamble and the texts of all headings, each heading once and before its children, in the order of the document, without the blank ones, numbered from 0, each under the titles on the way to its heading |
| ReadingOrder.SelectorsNameOneHeading | server/agent-context-pack-compiler.ts:53-75 | sections are accepted if and only if each selector names one heading of the tree, whatever the case, and are ambiguous exactly when one names two |
| ContextMerge.MergeIsExact | server/agent-context-pack-compiler.ts:133-161 | the merge reports a conflict exactly when some section is required by one selection and excluded by another, or stops at the limit; otherwise each section, in order of first mention, carries the OR of required, the maximum of priority and the OR of excluded |
| ContextOrder.MergeIsOrderFree | server/agent-context-pack-compiler.ts:133-161 | every order of the same selections and guidance is accepted or none is, if and only if there is a clash, or at most 500 sections in all, or no selected section, or more than 500 selected sections |
| ContextOrder.MergeCarriesTheSame | server/agent-context-pack-compiler.ts:133-161 | two orders that are both accepted give every section the same required flag, priority and exclusion |
| ContextOrder.TwoOrders | server/agent-context-pack-compiler.ts:133-161 | whenever that condition fails, guidance last is accepted and guidance first is refused for too many sections |
| ContextOrder.GuidanceFirstIsRefused | server/agent-context-pack-compiler.ts:133-161 | counterexample in the merge loop: 500 document sections and one of guidance, accepted in that order and refused in the other |
| ContextRecipes.CrowdedInOrder | server/agent-context-pack-compiler.ts:77-162 | one order of well-formed, admissible packs compiles if and only if its selected sections and the guidance before its last selecting pack fit the limit |
| ContextRecipes.RecipeIsOrderFree | server/agent-context-pack-compiler.ts:77-162 | every order of the packs compiles or none does, if and only if no order is admissible, or the limit holds whichever selecting pack comes last after all others, or it is passed whichever comes last after the selecting ones alone |
| ContextRecipes.RecipeCarriesTheSame | server/agent-context-pack-compiler.ts:77-162 | two orders of the packs that both compile send the same candidates with the same requirements and priorities |
| ContextRecipes.LastOfTwo | server/agent-context-pack-compiler.ts:77-162 | of two selecting packs each order compiles exactly when the selected sections of both and the guidance of the first pack fit |
| ContextRecipes.PackOrderMatters | server/agent-context-pack-compiler.ts:77-162 | counterexample: two packs that compile in one order and not in the other |
| ContextMerge.OutputIsExact | server/agent-context-pack-compiler.ts:163-175 | the candidates are split exactly into nodes and 'excluded' omissions; both come in falling priority, ties in order of first mention |
| ContextMerge.TheOrderIsDetermined | server/agent-context-pack-compiler.ts:163-164 | falling priority with first-mention ties determines the order completely |
| ContextMerge.SeenInOrder | server/agent-context-pack-compiler.ts:138-159 | candidates stand in the order in which their sections were first spoken of |
| ContextMerge.Arrange | server/agent-context-pack-compiler.ts:163-175 | the output loop pushes every candidate into nodes or omissions in sorted order |
| ContextPacks.CompositionIsExact | server/agent-context-pack-compiler.ts:77-162 | the composition is accepted if and only if every step is sound, every path is read with one content within 1 MiB in total, and the merge goes through; it then has the distinct documents and the sum of their bytes |
| ContextPacks.AccountIsExact | server/agent-context-pack-compiler.ts:103-130 | a source is accepted if and only if it is the selected document, is readable, agrees with the earlier reading of its path, and the bytes of the distinct documents fit |
| ContextPacks.SaidIsTheSelection | server/agent-context-pack-compiler.ts:131-139 | a selection speaks of exactly the sections whose heading path begins with one of its selectors, or of all when it has none, and says the same mode and priority of each |
| ContextPacks.ContributionsAreCoherent | server/agent-context-pack-compiler.ts:131-161 | one section has one text across all selections, and guidance sections never meet document sections |
| ContextPacks.PacksMerge | server/agent-context-pack-compiler.ts:77-162 | well-formed packs are composed exactly when their steps are sound, the documents count, no section is both required and excluded and the limit is never passed; every section then carries the sums |
| ContextPacks.PackComposition.Put | server/agent-context-pack-compiler.ts:138-159 | one candidate written, merged or refused |
| ContextPacks.PackComposition.PutAll | server/agent-context-pack-compiler.ts:133-153 | the inner loop over the selected sections |
| ContextPacks.PackComposition.TakeSelection | server/agent-context-pack-compiler.ts:99-154 | one selection: its document checked and counted, its sections merged |
| ContextPacks.PackComposition.TakeGuidance | server/agent-context-pack-compiler.ts:155-161 | the guidance sections of a pack, required and of priority 100 |
| ContextPacks.PackComposition.TakePack | server/agent-context-pack-compiler.ts:89-162 | one pack: its pin and digest, its selections in order, its guidance |
| ContextPacks.PackComposition.TakePacks | server/agent-context-pack-compiler.ts:89-162 | the outer loop over the packs of a recipe |
| ContextPacks.CompileContextPacks | server/agent-context-pack-compiler.ts:77-178 | the whole compiler up to the hand-over: sections, omissions and total bytes, or a refusal exactly when composing fails or there are no or too many sections; every section is handed over with the required flag of its candidate |
| PackSteps.RecipeNeeds | server/agent-context-pack-compiler.ts:77-162 | a recipe composes if and only if every pack has the revision, hash and definition of its pin, every document is the one selected, readable and with its headings, no path is read with two contents, the documents fit 1 MiB, and the merge goes through |
| PackSteps.StepsOfPacks | server/agent-context-pack-compiler.ts:89-162 | packs are taken one after the other |
| PackSteps.SaidStepByStep | server/agent-context-pack-compiler.ts:131-161 | what is said comes selection by selection from the document's own sections, and guidance after the selections of its pack |
| PackSteps.SelectionSays | server/agent-context-pack-compiler.ts:131-152 | a selection speaks once, in order, of each section under one of its headings, or of all when it has none, with its own mode and priority |
| PackSteps.GuidanceSays | server/agent-context-pack-compiler.ts:155-161 | guidance is a document of its own name whose sections are required with priority 100 and never excluded |
| PackSteps.DocumentsInOrder | server/agent-context-pack-compiler.ts:117-130 | documents are listed in the order in which they were first read |
| PackSteps.BytesAddUp | server/agent-context-pack-compiler.ts:121-123 | each listed document counts once |
| IncidentEvidence.MatchingIsInjective | server/callback-incident-evidence.ts:57-113 | when the inspection succeeds receipts have pairwise distinct digest and error flag, and no block and no result is credited twice, although only blocks are remembered |
| IncidentEvidence.CreditsAreSettled | server/callback-incident-evidence.ts:94-109 | every credited result carries the tool of its block, follows it inside the window, and only the reviewed call ends at the terminal sequence, as a read access |
| IncidentEvidence.EveryOrderExactly | server/callback-incident-evidence.ts:70-93 | the receipts are accepted in every order if and only if each of them alone has one settled pair and these pairs have pairwise different blocks |
| IncidentEvidence.UniqueToolsAreOrderFree | server/callback-incident-evidence.ts:70-93 | when tool identifiers are unique one order is accepted if and only if every order is, and that is when every receipt alone has one settled pair and no two agree in digest and error flag |
| IncidentEvidence.OrderMatters | server/callback-incident-evidence.ts:84-93 | counterexample: with a shared tool identifier one order of two receipts succeeds and the other is refused as not unique |
| IncidentEvidence.CreditReceipt | server/callback-incident-evidence.ts:72-109 | one receipt: the only unused pair, in order, or the refusal of the source |
| IncidentEvidence.InspectToolEvents | server/callback-incident-evidence.ts:57-113 | the pass over the receipts with its set of used blocks returns the projection of the credits, or the first refusal |
| EvidenceRules.InspectionExactly | server/callback-incident-evidence.ts:57-113 | the inspection credits exactly these pairs if and only if there is a receipt, there are fewer than 1024 blocks and results, and each receipt in turn has this pair as its only fit among the unused blocks, in sequence, the reviewed one as a read access |
| EvidenceRules.WithoutAFit | server/callback-incident-evidence.ts:72-90 | a receipt without a fitting pair is refused as not unique |
| IncidentEvidence.InspectRollout | server/callback-incident-evidence.ts:116-158 | the automaton accepts if and only if the turn starts once and completes once later, nothing starts after it and nothing fails after it |
| InterruptedEffects.ProofIsEarned | server/codex-interrupted-effects.ts:48-187 | whatever the server answers, a proof means: newest, interrupted and error-free before and after, pages leading to the null cursor, every item settled under its own id, and exactly their host calls |
| InterruptedEffects.SettlementIsExact | server/codex-interrupted-effects.ts:48-187 | against a server that pages n items, a proof is minted if and only if the turn is newest, interrupted and error-free before and after, n is at most 128, ids are distinct and every item is settled; its calls are the dynamic tool calls in order |
| InterruptedEffects.Observe | server/codex-interrupted-effects.ts:48-187 | at most 130 calls are made to any server |
| InterruptedEffects.ScanIsEarned | server/codex-interrupted-effects.ts:80-167 | a scan that ends well read settled items with distinct ids, linked by the cursors, and collected exactly their calls |
| InterruptedEffects.CallsAreTheHostTools | server/codex-interrupted-effects.ts:133-152 | the collected calls are exactly the host tool items of the turn in order, each with its identifier, tool and arguments, and an error exactly when the item failed |
| InterruptedEffects.RecoveryObservations.TurnPage | server/codex-interrupted-effects.ts:91-165 | one page of the loop: its refusals and what it adds |
| InterruptedEffects.RecoveryObservations.ScanItems | server/codex-interrupted-effects.ts:75-167 | the bounded loop over the item pages, with the number of calls made |
| InterruptedEffects.RecoveryObservations.ObserveRecoveryTurn | server/codex-interrupted-effects.ts:48-187 | a successful inspection mints one new proof with its conversation, turn and calls; every older proof is unchanged |
| InterruptedEffects.RecoveryObservations.InterruptedEffectCalls | server/codex-interrupted-effects.ts:189-202 | the calls of a proof are returned exactly for its own conversation and turn |
| SettlementRules.ProofsExactly | server/codex-interrupted-effects.ts:48-187 | whatever the server does, a proof with these calls is minted if and only if the newest turn is the interrupted one without error before and after, the calls were allowed, and pages linked by fresh cursors hold ended items with distinct ids whose host calls these are |
| SettlementRules.StatusExactly | server/codex-interrupted-effects.ts:56-72 | a bare status is answered exactly for a newest turn that has ended and needs no inspection |
| SettlementRules.RefusalsExactly | server/codex-interrupted-effects.ts:56-74 | a running or empty thread, another newest turn and a turn with an error are refused, each exactly for its own reason |
| SettlementRules.EffectOfAnItem | server/codex-interrupted-effects.ts:100-152 | only a host call is an effect, under its own identifier, tool and arguments, failed exactly if it says so |
| DependencySlots.WalkIsShort | scripts/ci-build-output.py:60-68 | from every parent the upward walk looks into at most count + 2 slots, so the bound of the loop never cuts it off |
| DependencySlots.UpLeavesTheSlot | scripts/ci-build-output.py:62-68 | from a package the walk goes to the package that holds it |
| DependencySlots.SlotsOfANestedPackage | scripts/ci-build-output.py:62-68 | a nested package looks beside itself first and then wherever its holder looks |
| DependencySlots.EdgeIsNearest | scripts/ci-build-output.py:58-65 | an accepted edge ends in an installed slot and no nearer slot of its parent is installed |
| DependencySlots.FindSlot | scripts/ci-build-output.py:60-68 | the bounded loop finds the nearest installed slot of the unbounded walk, or none |
| DependencySlots.AddEdges | scripts/ci-build-output.py:51-65 | the loop over one parent's optional dependencies adds exactly its edges of exact versions |
| DependencySlots.RequirePortableDependencies | scripts/ci-build-output.py:42-78 | accepts if and only if every locked package is installed unchanged or is optional and absent, and every installed-only package is optional, constrained and the nearest slot of an exact edge of a locked, installed parent with its version |
| SlotRules.InstallationsExactly | scripts/ci-build-output.py:42-78 | an installation is accepted if and only if every locked package is installed with its version, address, digest and link or is optional and absent, and every other one is optional, constrained to platforms by name, and where the exact dependency of an installed, locked parent leads |
| SlotRules.PlacesExactly | scripts/ci-build-output.py:60-68 | where a package looks for a dependency: below itself, below each package that holds it, and at the top, by path |
| BuildOutput.PackedValidates | scripts/ci-build-output.py:213-262 | the archive of `pack` passes `restore`'s checks if and only if the identity is the same, the manifest fits 8 MiB, the producer of a portable output is acceptable, and the target's roots and file parents are reached through directories only |
| BuildOutput.RoundTrip | scripts/ci-build-output.py:263-269 | restoring it leaves the roots holding exactly the packed files, bytes and modes and the directories leading to them, and everything outside unchanged except missing ancestors of the roots; what `pack` makes is unnested and its modes are integers |
| BuildOutput.RestoredMatchesInventory | scripts/ci-build-output.py:239-269 | whoever made an archive: once restored, the roots hold exactly its inventory, every file with the declared size, content and mode, no required entry missing, under the checkout's own identity |
| BuildOutput.NestingIsNotChecked | scripts/ci-build-output.py:243-262 | counterexample: an inventory with one file below another passes every check of `restore`, in a target that holds a file of an earlier build, and abandoning it changes that target |
| BuildOutput.FloatsAreNotChecked | scripts/ci-build-output.py:243-269 | counterexample: an unnested inventory with a mode written as 420.0 passes every check of `restore`, in a target that holds a file of an earlier build, and abandoning it changes that target |
| BuildOutput.AbandonedLosesTheOld | scripts/ci-build-output.py:263-269 | after a `restore` that fails on a valid archive, no file below a root that the inventory does not name is left, so the tree is another one if there was such a file |
| BuildOutput.WritableIfFree | scripts/ci-build-output.py:265-269 | after the roots are deleted a file can be written exactly when no written file is its prefix or lies below it |
| TransferRules.ArchivesExactly | scripts/ci-build-output.py:213-262 | an archive passes if and only if its inventory is of this identity and scope and names exactly the entries, each entry has the declared bytes, size and an allowed mode below a root with plain directories on the way, and the limits hold |
| TransferRules.PackingExactly | scripts/ci-build-output.py:172-206 | a tree may be packed if and only if each root is there through plain directories, and everything below is a directory or a file of an allowed name, size and mode, within the limits, with the required entries |
| TransferRules.ManifestsExactly | scripts/ci-build-output.py:200-208 | the manifest of a packed archive has schema 2, its scope and identity, the producer in a portable scope only, and exactly the files below the roots with their length, content and mode |
| TransferRules.IdentitiesExactly | scripts/ci-build-output.py:95-123 | an output is bound to the candidate and to the whole host, or in a portable scope to the source lock and the compiler instead of platform, machine and installed lock |
| TransferRules.ScopesExactly | scripts/ci-build-output.py:16-27 | each scope transfers its folders and requires the entry file of each |
| BuildTree.BuildTree.PackRoot | scripts/ci-build-output.py:177-200 | one root: collects its regular files within the limits, or refuses a tree that cannot be packed |
| BuildTree.BuildTree.Pack | scripts/ci-build-output.py:172-210 | makes an archive if and only if the tree and its identity may be packed; it holds every file below the roots once, with its bytes and mode |
| BuildTree.BuildTree.ValidateEntries | scripts/ci-build-output.py:242-259 | the loop over the inventory accepts exactly when every entry is sound and all of them fit the transfer limit |
| BuildTree.BuildTree.Validate | scripts/ci-build-output.py:213-262 | accepts exactly the archives of this identity whose every byte, mode and destination is valid |
| BuildTree.BuildTree.WriteFile | scripts/ci-build-output.py:265-269 | creates the missing parents and the file and sets its mode; it fails exactly where something that is not a directory is in the way, having made directories at most, or when the mode is no integer, having written the bytes |
| BuildTree.BuildTree.ClearRoots | scripts/ci-build-output.py:263-264 | deletes exactly what is at or below a root |
| BuildTree.BuildTree.Restore | scripts/ci-build-output.py:213-270 | succeeds exactly on a valid, unnested archive whose modes are integers, leaving the restored tree; an invalid archive changes nothing; any other valid one leaves below the roots only directories and files as declared, the last perhaps without its mode, and nothing of the earlier build; what exists outside the roots never changes |

## Left out

- Account objects of the adviser are indices into a store of rows, allocated in order, not heap objects; identity, in-place mutation and `includes` are modelled by the index.
- Adviser labels, emails, granted scopes, the host id, model labels and reasoning efforts: carried along by the source without deciding anything modelled here, except the effort asked of `ready`: a requested model stands for model and effort together.
- Adviser URLs, OAuth forms, JWT verification, response parsing and the thirty-second timeouts: their outcomes are chosen by the events.
- The continuation of a caller that waits on another call's retry: it only reads, and is not an event.
- `server/chatgpt-plan-adviser-store.ts`: file, inode and database fencing is a save or an ownership check that may fail or stay unconfirmed.
- `close` of the adviser waiting for outstanding refreshes: they stay in flight in the model and find the closed flag.
- The callbacks of the search transport and the parameters of its requests other than the identities.
- Two processes on one API tool catalogue at a time: a new one starts when the last has ended.
- API tool templates, bindings, output mapping and the credential service: a binding is an opaque value that may change at any time.
- SQL text, schema parsing, JSON and SHA-256: tables are sequences or maps, digests are injective, so a receipt keeps the request itself.
- AccountUse.AccountUseStore.LatestUse: among rows of equal time the database may return any, so the contract says newest, not which; times are whole numbers.
- Lower-casing and blank tests of headings are inputs, so no Unicode rule is modelled; parsing of markdown and the token estimate are inputs too.
- `compile` of the context engine, its budget omissions and the projection of its result.
- Reading and hashing the incident files and the source contracts (`readStableIncidentFile`, `readCallbackIncidentEvidence`).
- Whether a host call is read-only, which `server/builtin-tool-behavior.ts` decides, is an input of the item.
- Digits in version numbers are ASCII digits; the source's expression also takes other decimal digits.
- `portable_lock`, `identity` and git: an identity is absent or a record; the checks on it are modelled, its computation is not.
- Extensions, native magic numbers and text checks of portable files are one uninterpreted rule of name and content, the same on both sides.
- Zip encoding, the size of the manifest text (an input), directory modes, file names the system cannot encode, and operating-system failures while a validated archive is written.
- The order in which `pack` and `restore` visit files: it decides only which refusal is reported and how far an abandoned restore came.
- Sizes and the schema number of a manifest are compared by value and used for nothing else, so how they are written is not modelled; modes are.
- `server/app.ts`, routers, event streams, tracing, account profiles, frontend and watch code.
