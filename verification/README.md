# A verified model of the secure-messaging server

Three cooperating parts of the server are modelled, and properties of whole runs are proved.

**The WebSocket relay** (`server/app/websocket/`). One asyncio loop routes messages between
connections: a registry indexed by routing identity, a bounded outbound queue per connection, a
bounded offline queue per recipient, and an authentication step that re-keys a live connection and
hands over its backlog. `RelayModel` has the state as one value and what each atomic code segment
(the code between two awaits) does to it. `RelaySystem` has the event system: upgrade, frame, token
resolution, deadline, leaving, the writer's get/send/`task_done`, flush, unregistration. A run is any
sequence of events, so every interleaving of handlers and writers is covered. `RelayObjects` and
`RelayEndpoint` have the mutable objects and the code that changes them, proved to do what the value
model says. `RelayInvariants`, `RelayRouting`, `RelayTasks`, `RelayBounds` and `RelayRuns` carry the
invariants; `RelayReplies`, `RelayTheorems`, `RelayFates`, `RelayBacklogs`, `RelayProtocol` and `Routability` draw the
conclusions. `RelayAnswers`, `RelayFrames`, `RelayRates` and `RelayLifecycle` say of each step, in terms of the
frame and the state alone, what it answers and does. `RelayWitnesses` and `RelayLosses` have runs that show what
does not hold. `Deadlines` has the timing of the receive loop.

**The two limiters.** `RateLimiting` with `RateBounds` is the fixed-window message limiter;
`FailedLogins` with `LoginProtocol` is the sliding-window tracker of failed logins and the race between its
check and its record; the service's two halves of a login are proved to take the protocol's steps.

**Accounts and sessions** (`server/app/auth/`). `Accounts` has the two tables and every service call as a
transaction on them, `AccountRuns` and `AccountTheorems` whole sequences of calls, with a refresh's lookup and
rotation as two events; `RefreshRaces` is about refreshes that overlap. `AccountOutcomes` says of each call, in
terms of the rows and the configuration alone, when it succeeds and what it does. `AccountService` has the
repositories and the service as objects. `Identifiers` has the two identifier patterns.

**Both together.** `Server` runs the relay and the account service side by side: a connection is bound only to what
the service answered to the token it presented, with anything in between. `Successors` has runs in which a
username changes hands.

## How to read the model

- Bookkeeping: a routed message carries its position in the history of accepted messages; a
  connection keeps the log of everything ever put into its outbound queue, also after it has left. No
  branch reads any of it. That exactly the message receipts carry a position is proved (`ReachableIsProper`).
- What is proved of all runs assumes nothing of the clocks or of provisional ids: an event carries any
  reading and any id. Connection ids and the ids and tokens the account service draws are fresh when an event
  draws them. The tracker and the login protocol assume a monotonic clock.
- The runs given as evidence are possible ones (`RelaySteps.Possible`, `ServerSteps.CanGo`): no clock goes
  back, provisional ids are fresh, and every event is enabled when it happens.
- SHA-256 and Argon2id are symbolic constructors, hence injective. An access token is its claims or malformed.
- Relay theorems are about runs from an empty relay under positive limits, which is what reading
  them from the environment guarantees (server/app/websocket/limits.py:26-47).

## Where the code and its documentation disagree

The model follows the code. Each case has its exact condition and a run or an input that shows it.

- `unregister` says no stale record survives, however a connection ended
  (server/app/websocket/manager.py:203-205). A record survives exactly when the upgrade was not accepted, since
  registration and acceptance precede the `try`, or when the writer died of an exception it does not
  handle, since awaiting it re-raises before `unregister` (`RecordOutlivesHandler`,
  `FailedUpgradeLeaks`, `CrashedWriterLeaks`).
- A valid `message.send` is documented to get exactly one acknowledgement
  (docs/WEBSOCKET_PROTOCOL.md:230-231). It does exactly when it names a recipient, or a wrong
  sender, and the sender's own queue has room (`OneAckPerSend`, `SendWithoutAcknowledgement`).
- Queued messages are documented to be delivered exactly once (docs/WEBSOCKET_PROTOCOL.md:276-277). They are
  handed out at most once and in order (`OfflineQueueConserves`); all of a backlog reaches the connection exactly
  when its outbound queue has room for it and one more (`BacklogSurvivesExactly`). A run has lost a queued message
  exactly if some event of it bound a connection without that room (`LossExactly`), and under any limits some
  possible run has (`QueuedMessageIsLost`).
- The per-client connection limit is checked when a connection registers under its provisional id
  and not when it is bound to an account, so an account's connections are bounded by
  the total limit only (`BindingAgainstClientLimit`, `ClientLimitIsNoBound`).
- An authenticated username is said to be always a valid routing identifier
  (server/app/websocket/schemas.py:22-23). The username is stored as typed; it is one exactly when it was typed in
  its normalized form (`RoutableIffNormalized`, `CapitalIsAcceptedButNotRoutable`), and otherwise its account can neither
  send nor receive (`UnroutableAccountIsMute`).
- "At most `max_messages_per_window` per window" (server/app/websocket/limits.py:81-85) holds of the limiter's own
  windows; an arbitrary interval of that length can see twice as many (`AdmissionBound`, `TwiceTheLimit`). One
  that starts at a given moment keeps to the limit, whatever calls come, exactly if the limiter's window is over
  or used up by then, or has not begun (`WithinLimitExactly`).
- With `c` logins racing between check and outcome, `c - 1` more failures than the configured maximum
  fit into a window (`GuessesBounded`, `GuessesReached`); the maximum holds exactly if logins for an identifier do not
  race (`MaximumHoldsExactly`).
- A presented refresh token is said to stop working immediately (server/app/auth/service.py:277-279). It is refused to
  every refresh that begins after it was exchanged (`SpentIsRefused`), but two refreshes that overlap both exchange
  it (`OverlappingBothSucceed`). With at most `k` refreshes of one token under way, every token is sure to be
  accepted at most once exactly if `k` is one (`SpentOnceExactly`).
- A connection is said to be closed if it does not authenticate within the deadline
  (server/app/websocket/endpoint.py:10-11). Every frame arms the timeout anew, so it is closed in time exactly if it
  sends nothing (`DeadlineHoldsExactly`), and there is no moment by which it is sure to be (`DeadlineCanBeDeferred`).

## Model

| member | source | states |
|---|---|---|
| RelayTheorems.DeliveryInOrder | server/app/websocket/endpoint.py:154-178 | in every reachable state, the message receipts put into a bound connection's queue since it was bound are a strictly increasing subsequence, by acceptance, of the messages accepted for its account, backlog ahead of live messages |
| RelayFates.DeliveredIsHanded | server/app/websocket/manager.py:260-278 | conversely, every message answered `delivered` is, under its position, in the log of a connection, live or gone, that had the recipient's routing identity when it was put |
| RelayBacklogs.QueuedIsAccountedFor | server/app/websocket/endpoint.py:171-178 | in every run, every message answered `queued` is still queued, or is under its position in the log of a connection, live or gone, or was cut off when a connection was bound: exactly one of the three |
| RelayTheorems.OfflineQueueConserves | server/app/websocket/queue.py:42-70 | in every reachable state, what was ever drained for a recipient followed by what is queued is exactly what was answered `queued`, in order: nothing evicted, duplicated or reordered |
| RelayTheorems.IndexIsInverse | server/app/websocket/manager.py:136-236 | in every reachable state the index is exactly the inverse of routing identity over the live connections, with no empty set, and its set sizes sum to the connection count |
| RelayLifecycle.RegistersExactly | server/app/websocket/manager.py:136-171 | a connection is registered, as a new one, exactly while fewer than the total limit are live and fewer than the per-client limit have its identity; otherwise nothing happens |
| RelayLifecycle.AcceptGreets | server/app/websocket/endpoint.py:463-479 | once accepted, a connection is put connection.ready first of all, is served, and has a writer |
| RelayLifecycle.BindsExactly | server/app/websocket/manager.py:173-192 | binding sets the account of the one connection and changes nothing else of it or of any other |
| RelayLifecycle.UnregistersExactly | server/app/websocket/manager.py:200-219 | exactly the one connection leaves, and nothing else changes |
| RelayLifecycle.LoopEnds | server/app/websocket/endpoint.py:371-380 | the end of the loop closes the connection with the code for what ended it |
| RelayReplies.ReachableIsProper | server/app/websocket/endpoint.py:144-152 | in every log and offline queue exactly the message receipts are routed messages with a position in the history |
| RelayTheorems.SendersAreAuthentic | server/app/websocket/endpoint.py:144-152 | every receipt in any outbound log or offline queue names as sender the account bound to the connection that sent it |
| RelayAnswers.MessagesAreUnaltered | server/app/websocket/endpoint.py:144-152 | in every run, every accepted message carries, field by field, what a frame of its origin said at the moment it was accepted, under the username bound to that origin |
| RelayTheorems.BindingIsPermanent | server/app/websocket/manager.py:63-84 | a connection's account, once bound, is the same after every further run |
| RelayLifecycle.TokenWasPresented | server/app/websocket/endpoint.py:306-326 | in every run, a connection that waits for a token's account has presented this token, under the message id its answer will name, in the auth.authenticate frame since which it has been waiting |
| Server.BoundAccountWasLive | server/app/websocket/endpoint.py:306-331 | every account a connection was ever bound to is what the token it had presented resolved to, at a moment at which it was waiting for the answer: an active user's, under the stored username, with a session neither revoked nor expired |
| Server.SharedIdentityIsSharedAccount | server/app/websocket/manager.py:173-192 | two live authenticated connections with one routing identity belong to the same user, unless the account of one has been deleted since |
| Successors.OldConnectionStillReceives | server/app/auth/service.py:332-356 | the exception is real: some possible run deletes an account, registers its name anew, and has a message under that name reach the connection of the deleted account |
| Server.MessageReachesItsOwner | server/app/websocket/endpoint.py:154-178 | a message handed to an authenticated connection, live or from the backlog, reaches the user who had its recipient's name when it was accepted, unless one of the two accounts has been deleted since |
| Successors.BacklogIsBequeathed | server/app/auth/service.py:332-356 | the exception is real: some possible run queues a message for the owner of a name, deletes the account, registers the name anew, and hands the message to its new owner |
| RelayTheorems.OutboundConserves | server/app/websocket/endpoint.py:116-127 | written, lost, in flight and pending messages concatenate to everything ever put, and at most one is lost or in flight |
| RelayLifecycle.FailedSendUndercounts | server/app/websocket/endpoint.py:119-127 | after a send the unfinished counter is the number of messages pending, but one less after a handled failure while any are pending |
| RelayLifecycle.CancelledLosesOne | server/app/websocket/endpoint.py:482-487 | cancelling the writer loses exactly the message it is sending, and leaves the counter at the number of messages pending; a writer that has stopped is left as it is |
| RelayLifecycle.EndUnregisters | server/app/websocket/endpoint.py:485-488 | the handler's end takes exactly its own connection out of the registry, and does not when the writer has crashed |
| RelayTheorems.FlushedMeansWritten | server/app/websocket/endpoint.py:482-488 | when the flush ends without its timeout, everything ever put was written in order if and only if the writer has not stopped |
| RelayTheorems.ClosingFreezesLog | server/app/websocket/manager.py:94-112 | after any further run a closing connection that is still registered is still closing and has been given nothing |
| RelayTheorems.RecordOutlivesHandler | server/app/websocket/endpoint.py:454-488 | a handler that has ended leaves its record registered if and only if the upgrade was not accepted or its writer crashed |
| RelayTheorems.BufferedIsBounded | server/app/websocket/queue.py:52-63 | in every run the relay buffers at most total connections times outbound bound plus queued recipients times queue bound messages, by the limits it started with, and no tracked recipient has an empty queue |
| RelayProtocol.AcknowledgementIsExact | server/app/websocket/endpoint.py:133-186 | `delivered` iff some connection of the recipient takes the message, and then each that can gains it once; `queued` iff it has none and the message becomes the tail of its queue; otherwise nothing changes at all; nobody else's queue ever does |
| RelayAnswers.AcknowledgementsTell | server/app/websocket/endpoint.py:186-215 | every acknowledgement names its message and tells the truth: `delivered` of one accepted as such and handed to a connection of its recipient, `queued` of one that is the new tail of its recipient's queue, `rejected` of a wrong sender's, `recipient_unavailable` of one that nobody was handed and no queue gained |
| RelayAnswers.StatusExactly | server/app/websocket/endpoint.py:154-186 | `delivered` iff some connection of the recipient is open with room; `queued` iff it has none and both bounds of the offline queue leave room; never `rejected` once routed |
| RelayProtocol.OneAckPerSend | server/app/websocket/endpoint.py:189-215 | a message.send puts exactly one acknowledgement into its sender's queue if it will fit and there is a recipient or a wrong sender, and none otherwise |
| RelayFrames.TooLargeIsRefused | server/app/websocket/endpoint.py:385-388 | a frame over the size is answered MESSAGE_TOO_LARGE if that fits and has no other effect; the limiter does not count it |
| RelayFrames.OverRateIsRefused | server/app/websocket/endpoint.py:390-393 | a frame that is the (max + 1)-th or a later one of its window is answered RATE_LIMITED if that fits, is counted, and has no other effect |
| RelayFrames.ChecksExactly | server/app/websocket/endpoint.py:252-293 | which error each kind of unacceptable frame is refused with, in the order of the checks, and that exactly the others are valid |
| RelayFrames.AnswersExactly | server/app/websocket/endpoint.py:395-407 | an unauthenticated connection that presents a token waits for its account and nothing happens; every other valid frame that is no message gets its one answer, if that fits |
| RelayFrames.UnroutableSendsAnswer | server/app/websocket/endpoint.py:198-212 | a wrong sender's message is answered with an error and a rejection, one without recipient with an error, and nothing else happens |
| RelayFrames.FailedAuthenticationAnswers | server/app/websocket/endpoint.py:320-324 | a token that stands for nobody is answered AUTH_FAILED and nothing else happens |
| RelayFrames.DeadlineTells | server/app/websocket/endpoint.py:371-378 | when a deadline passes, an authenticated connection is told IDLE_TIMEOUT and another AUTH_REQUIRED, and the loop ends with the code for it |
| RelayFrames.EffectiveExactly | server/app/websocket/endpoint.py:385-412 | a frame has any effect besides a limit's error if and only if it is neither too large nor over the rate |
| RelayRates.EffectsAreBounded | server/app/websocket/limits.py:154-160 | in every run under a clock that does not go back, at most (k + 1) times the limit of a connection's frames have such an effect in any half-open interval of k windows' length |
| RelayProtocol.BacklogIsReplayed | server/app/websocket/endpoint.py:334-346 | in every reachable state, successful authentication puts exactly the longest fitting prefix of auth.ready and the backlog, empties the offline queue, and ends with POLICY_VIOLATION if and only if something did not fit |
| RelayProtocol.BacklogSurvivesExactly | server/app/websocket/endpoint.py:409-412 | the whole backlog arrives if and only if pending + 1 + backlog is within the outbound bound |
| RelayProtocol.NoLossWithRoom | server/app/websocket/endpoint.py:409-412 | pending + 1 + the per-recipient bound within the outbound bound rules out any loss at the drain |
| RelayBacklogs.LossExactly | server/app/websocket/endpoint.py:345-346 | a run has lost a queued message if and only if one of its events bound a connection that had not room for the account's backlog next to auth.ready |
| RelayLosses.QueuedMessageIsLost | server/app/websocket/endpoint.py:409-412 | under any limits, some possible run loses a message answered `queued` |
| RelayProtocol.UnauthenticatedIsIsolated | server/app/websocket/endpoint.py:278-324 | any sequence of frames and failed resolutions of an unauthenticated connection leaves the index, the offline queue, the history and every other connection and task as they were |
| RelayProtocol.NoBacklogWhileAuthenticated | server/app/websocket/endpoint.py:326-345 | in every reachable state no account with a bound live connection has an offline queue |
| RelayProtocol.BindingAgainstClientLimit | server/app/websocket/manager.py:173-192 | binding keeps an account within the per-client limit if and only if it was below it before |
| RelayReplies.StatusIsAlwaysZero | server/app/websocket/endpoint.py:227-235 | in every run every queue.status reply ever put into any queue reports zero |
| Routability.UnroutableAccountIsMute | server/app/websocket/schemas.py:19-24 | in every run of schema-valid frames, a connection bound to an account whose username is no routing identifier is handed no message and no message of it is ever accepted |
| RelayWitnesses.FailedUpgradeLeaks | server/app/websocket/endpoint.py:454-468 | under any limits, in some possible run a failed upgrade leaves its connection registered after its handler has ended |
| RelayWitnesses.CrashedWriterLeaks | server/app/websocket/endpoint.py:485-488 | under any limits, some possible run ends an accepted connection's handler and leaves its record registered, its writer having crashed |
| RelayWitnesses.ClientLimitIsNoBound | server/app/websocket/manager.py:151-153 | whatever the per-client limit, some possible run gives one account as many connections as the total limit allows |
| RelayWitnesses.SendWithoutAcknowledgement | server/app/websocket/endpoint.py:210-212 | a valid message.send without recipient is answered, and never acknowledged, even with room |
| RelayObjects.ConnectionContext.Authenticate | server/app/websocket/manager.py:63-73 | the context is bound to the account; nothing else of it changes |
| RelayObjects.ConnectionContext.EnqueueOutbound | server/app/websocket/manager.py:94-108 | accepted exactly when not closing and not full; then it is the new tail |
| RelayObjects.ConnectionContext.MarkClosing | server/app/websocket/manager.py:110-112 | only the closing flag changes |
| RelayObjects.ConnectionContext.TaskDone | server/app/websocket/endpoint.py:126-127 | raises exactly when called once too often |
| RelayObjects.ConnectionManager.Register | server/app/websocket/manager.py:136-171 | rejected exactly when one of the two limits is reached; otherwise a fresh unauthenticated connection is registered and indexed |
| RelayObjects.ConnectionManager.BindIdentity | server/app/websocket/manager.py:173-192 | the connection is re-keyed from its previous identity to the username in one step |
| RelayObjects.ConnectionManager.Unregister | server/app/websocket/manager.py:200-219 | the connection leaves the registry and the index and is returned closing; a second call changes nothing |
| RelayObjects.ConnectionManager.ConnectionsFor | server/app/websocket/manager.py:227-232 | exactly the live connections indexed under the identity |
| RelayObjects.ConnectionManager.IsConnected | server/app/websocket/manager.py:234-236 | true exactly when the identity has an indexed connection |
| RelayObjects.ConnectionManager.OfferAll | server/app/websocket/manager.py:277-278 | the loop offers the message to every target once, without short-circuit, and reports whether any took it |
| RelayObjects.ConnectionManager.DeliverToClient | server/app/websocket/manager.py:260-278 | all and only the identity's connections are offered the message |
| RelayEndpoint.RouteMessage | server/app/websocket/endpoint.py:133-186 | the objects change as the value model's routing, with the connection's own identity as sender |
| RelayEndpoint.HandleMessageSend | server/app/websocket/endpoint.py:189-215 | sender mismatch, missing recipient and routing produce exactly the modelled replies and state |
| RelayEndpoint.EnqueueResponses | server/app/websocket/endpoint.py:409-412 | the reply loop puts exactly the longest fitting prefix and stops with POLICY_VIOLATION at the first refusal |
| RelayEndpoint.Process | server/app/websocket/endpoint.py:243-293 | validation in the source's order, then reply or dispatch |
| RelayEndpoint.HandleFrame | server/app/websocket/endpoint.py:382-412 | one iteration of the receive loop: size check, rate limit, validation, dispatch, replies |
| RelayEndpoint.FinishAuthentication | server/app/websocket/endpoint.py:326-346 | once the token is resolved and the database session left: bind, drain and reply with no await in between |
| RelayEndpoint.SettleSend | server/app/websocket/endpoint.py:119-127 | a handled failure counts the message off twice |
| Deadlines.ReceiveLoop | server/app/websocket/endpoint.py:360-383 | the loop ends at the moment at which the timeout armed by the last frame in time has passed |
| Deadlines.DeadlineHoldsExactly | server/app/websocket/endpoint.py:361-375 | a connection that does not authenticate is closed within the timeout if and only if no frame of it comes before the timeout is over |
| Deadlines.DeadlineCanBeDeferred | server/app/websocket/endpoint.py:361-375 | for every moment there are frames, none of which authenticates, that keep the connection open beyond it |
| Deadlines.IdleHoldsExactly | server/app/websocket/endpoint.py:363-378 | an authenticated connection is closed within the idle timeout if and only if no frame of it comes before that is over |
| Deadlines.AuthenticationRearms | server/app/websocket/endpoint.py:363-367 | the frame that authenticates in time puts the connection under the idle timeout from then on |
| OfflineQueues.OfflineQueue.Enqueue | server/app/websocket/queue.py:42-63 | accepted exactly within both bounds, at the tail; a refusal evicts nothing |
| OfflineQueues.OfflineQueue.Drain | server/app/websocket/queue.py:65-70 | the whole backlog is returned in order and the recipient is no longer tracked |
| OfflineQueues.OfflineQueue.Count | server/app/websocket/queue.py:72-75 | the number queued, zero for an untracked recipient |
| RateLimiting.RateLimiter.Allow | server/app/websocket/limits.py:154-160 | the window restarts or counts on, and the call is admitted exactly when the count is within the limit |
| RateBounds.AdmissionBound | server/app/websocket/limits.py:154-160 | for non-decreasing times, any half-open interval of k windows' length sees at most (k + 1) times the limit admitted |
| RateBounds.TwiceTheLimit | server/app/websocket/limits.py:81-85 | for every limit some calls reach twice the limit within one window's length |
| RateBounds.WithinLimitExactly | server/app/websocket/limits.py:154-160 | the window's length from a moment on sees at most the limit, whatever calls come, if and only if the limiter's window is over or used up by that moment or does not begin before it |
| RateBounds.WindowIsSuffix | server/app/websocket/limits.py:156-160 | the admitted calls of a window are exactly its first max_messages |
| RateBounds.RefusalsDoNotProlong | server/app/websocket/limits.py:156-160 | however many calls a window refuses, the first call at its end or later is admitted |
| FailedLogins.PopExpired | server/app/auth/rate_limit.py:44-46 | the popleft loop leaves exactly the entries from the first unexpired one on |
| FailedLogins.PrunedCounts | server/app/auth/rate_limit.py:37-50 | a lazily pruned deque has exactly as many entries as the full history has after the cutoff, and stays a remainder of it |
| FailedLogins.FailedLoginTracker.IsBlocked | server/app/auth/rate_limit.py:52-55 | blocked exactly when the full history since the last reset has max_failures entries inside the window; other identifiers untouched |
| FailedLogins.FailedLoginTracker.RecordFailure | server/app/auth/rate_limit.py:57-63 | the failure joins the history, and the returned count is the number inside the window |
| FailedLogins.FailedLoginTracker.Reset | server/app/auth/rate_limit.py:65-67 | the identifier's history is forgotten, no other's |
| FailedLogins.FailedLoginTracker.FailureCount | server/app/auth/rate_limit.py:69-72 | the count over the full history since the last reset; other identifiers untouched |
| LoginProtocol.GuessesBounded | server/app/auth/service.py:170-203 | with at most c logins of an identifier between check and outcome, in any interleaving the failures since its last success in any span of the window's length are at most max_failures - 1 + c |
| LoginProtocol.GuessesReached | server/app/auth/service.py:170-195 | for every policy and c some run reaches that bound |
| LoginProtocol.MaximumHoldsExactly | server/app/auth/service.py:170-203 | no run records more than max_failures in a window's length if and only if at most one login of an identifier is between check and outcome |
| LoginProtocol.BlockedExactly | server/app/auth/rate_limit.py:52-55 | a block lasts exactly until the max_failures-th newest failure leaves the window |
| LoginProtocol.RefusalsDoNotProlongBlock | server/app/auth/service.py:170-176 | whatever refused logins arrive meanwhile, the block ends when it would have without them, at most one window after the last failure |
| AccountRuns.HashesUnique | server/app/auth/models.py:91-93 | two sessions with the same refresh hash are the same session, although the column is not declared unique |
| AccountRuns.LookupFindsLatest | server/app/auth/repository.py:118-123 | looking up a token's hash finds a session exactly when the token is the newest one issued for it, and never finds two |
| AccountRuns.LatestIsUnspent | server/app/auth/service.py:297-302 | the newest token of a session has never been accepted |
| AccountRuns.RunsKeepSound | server/app/auth/service.py:103-356 | every sequence of calls keeps names unique, sessions owned, tokens distinct, hashes current and accepted tokens superseded |
| AccountOutcomes.RegistersExactly | server/app/auth/service.py:103-148 | exactly when a registration succeeds and why it is refused; it adds an active account under the name as typed but for blanks, and nothing else |
| AccountOutcomes.LogsInExactly | server/app/auth/service.py:152-195 | a login succeeds if and only if the name is acceptable and not blocked and an active account has it and the password, whatever cost that was hashed with; each refusal has its reason and changes nothing |
| AccountOutcomes.LoginOpens | server/app/auth/service.py:197-231 | a successful login opens the one session, of the account whose name and password were given, and brings the stored hash up to date; nothing else changes |
| AccountOutcomes.RedeemsExactly | server/app/auth/service.py:285-295 | a refresh token may be exchanged for a session if and only if it is the newest one of it and it is neither revoked nor expired and its account active; each refusal has its reason |
| AccountOutcomes.RefreshRotates | server/app/auth/service.py:297-302 | the rotation gives the one session the new hash and a life that begins anew, and changes nothing else; it fails only if the row is gone |
| AccountOutcomes.LoginExpires | server/app/auth/tokens.py:64-77 | whatever the database, a login's access token is expired from the end of its configured life on, and invalid exactly before the second it was issued in |
| AccountOutcomes.RefreshExpires | server/app/auth/tokens.py:64-77 | so is a refresh's |
| AccountOutcomes.LoginLivesExactly | server/app/auth/service.py:208-231 | while nothing else happens, a login's access token resolves, to its account, if and only if the whole second in which its configured life ends has not begun nor its session ended, and its refresh token is accepted if and only if the session has not ended |
| AccountOutcomes.RefreshLivesExactly | server/app/auth/service.py:297-313 | so do a refresh's |
| AccountOutcomes.RefusesExactly | server/app/auth/service.py:242-263 | why an access token signed by the service is refused, in the order of the checks |
| AccountOutcomes.LogoutRevokes | server/app/auth/service.py:317-330 | a logout revokes its session, unless revoked before, and changes nothing else |
| AccountOutcomes.DeletesExactly | server/app/auth/service.py:341-354 | an account is deleted if and only if it exists and the password given is its own; otherwise nothing changes |
| AccountTheorems.UsernamesIdentifyAccounts | server/app/auth/repository.py:31-62 | no two accounts share a stored username, hence a routing identity |
| AccountTheorems.LookupsAreUnique | server/app/auth/repository.py:69-74 | no lookup by normalized name or by token hash finds two rows |
| AccountTheorems.RefreshExactly | server/app/auth/service.py:274-313 | a refresh token is exchanged if and only if it is the newest one of a session that is not revoked, not expired and of an active account, and then for that session and its account |
| RefreshRaces.RivalsOverlap | server/app/auth/service.py:280-302 | in every run, lookups and rotations interleaved with anything, a refresh under way or accepted and an accepted one of the same token were at some moment both under way |
| RefreshRaces.SpentOnceExactly | server/app/auth/service.py:280-302 | from any state in which a token can be exchanged and nobody is exchanging it, reached without overlap: all runs that go on with at most k refreshes of one token under way accept each token at most once, if and only if k is one |
| RefreshRaces.SequentialIsSpentOnce | server/app/auth/service.py:277-279 | when refreshes of one token never overlap, every token is accepted at most once |
| RefreshRaces.OverlappingBothSucceed | server/app/auth/repository.py:146-160 | whenever a token can be exchanged, two overlapping refreshes both exchange it |
| AccountTheorems.SpentIsRefused | server/app/auth/service.py:277-302 | once exchanged, a refresh token is refused to every refresh that begins later, after any further calls |
| AccountTheorems.RevocationIsPermanent | server/app/auth/service.py:235-356 | once a session is revoked or gone, after any further calls no access token of it resolves and no refresh token ever issued for it is accepted, not even one that a refresh already under way issues later |
| AccountTheorems.DiesOnlyByRevocation | server/app/auth/repository.py:125-144 | a call ends a live session if and only if it is its logout or the successful deletion of its account |
| AccountTheorems.DeletionIsComplete | server/app/auth/service.py:332-356 | deletion removes the account and exactly its sessions; the revocation before it leaves no trace |
| AccountTheorems.ResolveExactly | server/app/auth/service.py:235-270 | the exact condition under which a token signed by the service resolves, issue time and expiry included, and to whom; two of the refusals never occur for one |
| AccountTheorems.LoginThenResolve | server/app/auth/service.py:152-231 | the access token of a successful login resolves to the account the name and password belong to until it or the session expires |
| AccountService.UserRepository.Create | server/app/auth/repository.py:31-62 | inserted as an active account, or refused exactly when the id or normalized name is taken |
| AccountService.UserRepository.GetByNormalizedUsername | server/app/auth/repository.py:69-74 | the row with the name; none or several are told apart |
| AccountService.UserRepository.Delete | server/app/auth/repository.py:76-79 | the account is gone, no session of it remains, and every other row is as it was |
| AccountService.SessionRepository.GetByRefreshHash | server/app/auth/repository.py:118-123 | the row with the hash; none or several are told apart |
| AccountService.SessionRepository.Revoke | server/app/auth/repository.py:125-129 | the session is revoked, an earlier revocation time stands, and every other row is as it was |
| AccountService.SessionRepository.RevokeAllForUser | server/app/auth/repository.py:131-144 | afterwards no session of the user is live, earlier revocations stand, other rows are as they were, and the count is that of the rows that have changed |
| AccountService.SessionRepository.RotateRefreshToken | server/app/auth/repository.py:146-160 | this session has the new hash and expiry and keeps owner, creation and revocation; every other row is as it was |
| AccountService.AuthService.Register | server/app/auth/service.py:103-148 | the account tables change and the answer is as the value model's registration |
| AccountService.AuthService.BeginLogin | server/app/auth/service.py:160-176 | malformed, blocked or going on; the login protocol takes the check of the same attempt, and the attempt is under way in it exactly if the login may go on |
| AccountService.AuthService.FinishLogin | server/app/auth/service.py:178-206 | tables and answer change as in the value model, and the login protocol takes the step of the same outcome: failure on each refusal, success otherwise |
| AccountService.AuthService.ResolveAccessToken | server/app/auth/service.py:235-270 | the checks in the source's order, on the live rows |
| AccountService.AuthService.BeginRefresh | server/app/auth/service.py:280-295 | the lookup and the checks in the source's order; nothing is written |
| AccountService.AuthService.FinishRefresh | server/app/auth/service.py:297-313 | the row as it is by then is rotated and a new pair issued, or nothing happens if it is gone |
| AccountService.AuthService.Refresh | server/app/auth/service.py:274-313 | the token is exchanged for a new pair and rotated, or the rows are unchanged |
| AccountService.AuthService.Logout | server/app/auth/service.py:317-330 | the session is revoked if it exists |
| AccountService.AuthService.DeleteAccount | server/app/auth/service.py:332-356 | the account is deleted exactly when it exists and the password is right |
| Identifiers.RoutableExactly | server/app/websocket/schemas.py:24-36 | exactly which identifiers the schema admits, character by character, every acceptable normalized username among them |
| Identifiers.ValidatesExactly | server/app/auth/identifiers.py:55-77 | exactly which usernames are accepted, character by character, and as what |
| Identifiers.RoutableIffNormalized | server/app/websocket/schemas.py:19-24 | a stored username is a routing identifier if and only if it equals its normalized form |
| Identifiers.CapitalIsAcceptedButNotRoutable | server/app/auth/service.py:132-138 | a username accepted at registration that is no routing identifier |

## Left out

- Time in the relay's runs: its deadline events may happen at any time while a frame is awaited; only `Deadlines` has when.
- Blocking calls: waiting for a frame, for the queue's flush or for the writer is the condition under which an event may happen.
- Interleaving inside a service call other than between login's check and outcome and refresh's lookup and rotation: each is one transaction.
- LoginProtocol.GuessesBounded: counts failures since the last success, because a success forgets the earlier ones.
- The tracker's `tracked_identifiers` and `clear`: a size, and a helper for tests.
- The order in which a set of connections is offered a message is arbitrary in the model, as in the source.
- `discard`, `clear` and `reset` of the queue and the registry: no endpoint code calls them.
- `touch`, `idle_seconds`, `stale_connections`, `connections_for_session` and the counting properties: single expressions.
- The Origin check and the closing of the socket: before the first and after the last state change.
- JSON parsing, Pydantic and UUID syntax: a frame arrives classified; its size, type, fields and token are data.
- `INTERNAL_PROTOCOL_ERROR`: unreachable, every type a client may send is dispatched.
- Server time in heartbeat replies and the limits advertised in connection.ready.
- Signatures, hashing, randomness and uuid generation: symbolic, with freshness as a condition of events.
- ORM sessions, transactions and rollback: a refused call leaves the rows unchanged; a unique index is a condition of insertion.
- NFKC, casefold and strip: two functions assumed to agree on blanks and to fix identifiers.
- The password policy and password normalization: two functions of the configuration.
- Cookies, routes, per-IP limits, logging, error descriptions and status codes.
- Floating-point rounding: times are reals.
- The React client.
