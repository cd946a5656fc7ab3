/**
 The relay's registry, outbound queues and offline queue as one value, and what each atomic code
 segment of manager.py and endpoint.py does to it. The classes of RelayObjects are proved to do the same.

 A queued message is an `Entry`: the message, and for a routed one its position in the history of
 accepted messages. Positions, logs and the history are bookkeeping for the properties; no branch reads them.
 */
module RelayModel {
  import opened Prelude
  import RateLimiting
  import OfflineQueues

  // ---------------------------------------------------------------- data

  datatype Limits = Limits(
    maxMessageBytes: nat,
    maxTotalConnections: nat,
    maxConnectionsPerClient: nat,
    maxMessagesPerWindow: nat,
    windowSeconds: real,
    maxPendingOutbound: nat,
    maxQueuedPerRecipient: nat,
    maxQueuedRecipients: nat)
  {
    /** What reading the limits from the environment guarantees. */
    predicate Positive() {
      && maxMessageBytes > 0 && maxTotalConnections > 0 && maxConnectionsPerClient > 0
      && maxMessagesPerWindow > 0 && windowSeconds > 0.0
      && maxPendingOutbound > 0 && maxQueuedPerRecipient > 0 && maxQueuedRecipients > 0
    }
  }

  datatype DeliveryStatus = Delivered | Queued | RecipientUnavailable | Rejected

  datatype ErrorCode =
    | InvalidJson | SchemaValidationFailed | UnknownMessageType | UnsupportedProtocolVersion
    | InvalidRecipient | SenderMismatch | MessageTooLarge | RateLimited | IdleTimeout
    | AuthRequired | AuthFailed | AlreadyAuthenticated

  datatype Message =
    | ConnectionReady(connectionId: ConnId)
    | AuthReady(messageId: string, account: Account)
    | MessageReceipt(messageId: string, sender: Identity, recipient: Identity, timestamp: string, payload: string)
    | DeliveryAck(messageId: string, status: DeliveryStatus)
    | HeartbeatPong(messageId: string)
    | QueueStatus(messageId: string, queuedMessageCount: nat)
    | ProtocolError(code: ErrorCode, about: Option<string>)

  type Receipt = m: Message | m.MessageReceipt? witness MessageReceipt("", "", "", "", "")

  datatype Entry = Own(message: Message) | Routed(message: Message, stamp: nat)

  function Messages(es: seq<Entry>): (ms: seq<Message>)
    ensures |ms| == |es|
    ensures forall i :: 0 <= i < |es| ==> ms[i] == es[i].message
  {
    seq(|es|, i requires 0 <= i < |es| => es[i].message)
  }

  datatype Context = Context(
    provisional: Identity,
    account: Option<Account>,
    closing: bool,
    limiter: RateLimiting.Window,
    pending: seq<Entry>,    // the outbound asyncio.Queue
    unfinished: nat,        // that queue's count of puts without a task_done
    log: seq<Entry>,        // everything ever put into the outbound queue
    boundAt: nat)           // length of the log when the account was bound
  {
    function Identity(): Identity {
      if account.Some? then account.value.username else provisional
    }

    /** Free places of the outbound queue; asyncio.Queue(maxsize=0) is unbounded. */
    predicate HasRoom(capacity: nat) {
      capacity == 0 || |pending| < capacity
    }

    /** Whether `enqueue_outbound` takes a message. */
    predicate Takes(capacity: nat) {
      !closing && HasRoom(capacity)
    }

    /** How many of `n` messages offered one after another are taken before the first refusal. */
    function Fitting(n: nat, capacity: nat): nat {
      if closing then 0
      else if capacity == 0 then n
      else if |pending| >= capacity then 0
      else Min(n, capacity - |pending|)
    }

    /** The longest fitting prefix of `es` is put. */
    function PutAll(es: seq<Entry>, capacity: nat): Context {
      var taken := es[..Fitting(|es|, capacity)];
      this.(pending := pending + taken, unfinished := unfinished + |taken|, log := log + taken)
    }

    /** One message is put, or refused. */
    function Put(e: Entry, capacity: nat): Context {
      PutAll([e], capacity)
    }
  }

  datatype Accepted = Accepted(receipt: Receipt, origin: ConnId, status: DeliveryStatus)

  datatype History = History(
    accepted: seq<Accepted>,            // every message answered `delivered` or `queued`, oldest first
    drained: map<Identity, seq<Entry>>, // all that was ever taken out of each offline queue
    bound: map<ConnId, Account>)        // the account each connection was bound to

  datatype Relay = Relay(
    limits: Limits,
    conns: map<ConnId, Context>,
    byClient: map<Identity, set<ConnId>>,
    offline: OfflineQueues.Queues<Entry>,
    history: History)

  function Empty(limits: Limits): Relay {
    Relay(limits, map[], map[], map[], History([], map[], map[]))
  }

  // ---------------------------------------------------------------- the registry's index

  function IdsOf(index: map<Identity, set<ConnId>>, id: Identity): set<ConnId> {
    if id in index then index[id] else {}
  }

  function IndexAdd(index: map<Identity, set<ConnId>>, id: Identity, c: ConnId): map<Identity, set<ConnId>> {
    index[id := IdsOf(index, id) + {c}]
  }

  /** An identity's set is dropped when its last connection goes. */
  function IndexRemove(index: map<Identity, set<ConnId>>, id: Identity, c: ConnId): map<Identity, set<ConnId>> {
    if id !in index then index
    else if index[id] - {c} == {} then index - {id}
    else index[id := index[id] - {c}]
  }

  // ---------------------------------------------------------------- manager.py

  predicate MayRegister(r: Relay, provisional: Identity) {
    && |r.conns| < r.limits.maxTotalConnections
    && |IdsOf(r.byClient, provisional)| < r.limits.maxConnectionsPerClient
  }

  function NewContext(provisional: Identity): Context {
    Context(provisional, None, false, RateLimiting.FRESH, [], 0, [], 0)
  }

  function Register(r: Relay, c: ConnId, provisional: Identity): Relay {
    r.(conns := r.conns[c := NewContext(provisional)], byClient := IndexAdd(r.byClient, provisional, c))
  }

  function BindIdentity(r: Relay, c: ConnId, account: Account): Relay
    requires c in r.conns
  {
    var ctx := r.conns[c];
    r.(conns := r.conns[c := ctx.(account := Some(account), boundAt := |ctx.log|)],
       byClient := IndexAdd(IndexRemove(r.byClient, ctx.Identity(), c), account.username, c),
       history := r.history.(bound := r.history.bound[c := account]))
  }

  function Unregister(r: Relay, c: ConnId): Relay {
    if c !in r.conns then r
    else r.(conns := r.conns - {c}, byClient := IndexRemove(r.byClient, r.conns[c].Identity(), c))
  }

  function ConnectionsFor(r: Relay, id: Identity): set<ConnId> {
    set c | c in IdsOf(r.byClient, id) && c in r.conns
  }

  predicate IsConnected(r: Relay, id: Identity) {
    IdsOf(r.byClient, id) != {}
  }

  function PutEach(conns: map<ConnId, Context>, targets: set<ConnId>, e: Entry, capacity: nat): map<ConnId, Context> {
    map c | c in conns :: if c in targets then conns[c].Put(e, capacity) else conns[c]
  }

  predicate SomeTakes(r: Relay, id: Identity) {
    exists c :: c in ConnectionsFor(r, id) && r.conns[c].Takes(r.limits.maxPendingOutbound)
  }

  // ---------------------------------------------------------------- endpoint.py: routing

  /** The acknowledgement a message to `recipient` gets. */
  function StatusFor(r: Relay, recipient: Identity): DeliveryStatus {
    if IsConnected(r, recipient) then
      if SomeTakes(r, recipient) then Delivered else RecipientUnavailable
    else if OfflineQueues.Accepts(r.offline, recipient, r.limits.maxQueuedPerRecipient, r.limits.maxQueuedRecipients)
    then Queued
    else RecipientUnavailable
  }

  function Record(h: History, receipt: Receipt, origin: ConnId, status: DeliveryStatus): History {
    if status.Delivered? || status.Queued? then h.(accepted := h.accepted + [Accepted(receipt, origin, status)]) else h
  }

  function RouteMessage(r: Relay, origin: ConnId, receipt: Receipt): Relay {
    var e := Routed(receipt, |r.history.accepted|);
    var history := Record(r.history, receipt, origin, StatusFor(r, receipt.recipient));
    if IsConnected(r, receipt.recipient) then
      r.(conns := PutEach(r.conns, ConnectionsFor(r, receipt.recipient), e, r.limits.maxPendingOutbound),
         history := history)
    else
      r.(offline := OfflineQueues.Enqueued(r.offline, receipt.recipient, e,
                                           r.limits.maxQueuedPerRecipient, r.limits.maxQueuedRecipients),
         history := history)
  }

  // ---------------------------------------------------------------- endpoint.py: inbound frames

  datatype Kind = AuthAuthenticate | MessageSend | HeartbeatPing | QueueStatusRequest

  /** A frame's `type` field: not a string of the protocol, a server-only type, or one a client may send. */
  datatype WireType = Unknown | ServerOnly | Sendable(kind: Kind)

  /** The `access_token` of an auth.authenticate payload: not a non-empty string of at most 4096
      characters, or such a string. */
  datatype TokenField = Unacceptable | Presented(token: string)

  datatype Envelope = Envelope(
    messageId: string, kind: Kind, sender: Identity, recipient: Option<Identity>,
    timestamp: string, payload: string, accessToken: TokenField)

  /** One inbound text, classified as far as the endpoint looks at it. `fields` is None when the
      schema refuses the envelope; `about` is the message_id when one can be extracted. */
  datatype Body =
    | NotJson
    | NotAnObject
    | Object(about: Option<string>, versionOk: bool, wireType: WireType, fields: Option<Fields>)

  datatype Fields = Fields(
    messageId: string, sender: Identity, recipient: Option<Identity>,
    timestamp: string, payload: string, accessToken: TokenField)

  datatype Frame = Frame(bytes: nat, body: Body)

  datatype Validation = Refused(error: Message) | Valid(envelope: Envelope)

  predicate OpenToAll(k: Kind) {
    k.AuthAuthenticate? || k.HeartbeatPing?
  }

  function ValidateInbound(authenticated: bool, body: Body): Validation {
    match body
    case NotJson => Refused(ProtocolError(InvalidJson, None))
    case NotAnObject => Refused(ProtocolError(SchemaValidationFailed, None))
    case Object(about, versionOk, wireType, fields) =>
      if !versionOk then Refused(ProtocolError(UnsupportedProtocolVersion, about))
      else if !wireType.Sendable? then Refused(ProtocolError(UnknownMessageType, about))
      else if !authenticated && !OpenToAll(wireType.kind) then Refused(ProtocolError(AuthRequired, about))
      else if fields.None? then Refused(ProtocolError(SchemaValidationFailed, about))
      else
        var f := fields.value;
        Valid(Envelope(f.messageId, wireType.kind, f.sender, f.recipient, f.timestamp, f.payload, f.accessToken))
  }

  /** The receipt names the sending connection's own identity as sender. */
  function ReceiptFor(sender: Identity, recipient: Identity, env: Envelope): Receipt {
    MessageReceipt(env.messageId, sender, recipient, env.timestamp, env.payload)
  }

  predicate MaySend(ctx: Context, env: Envelope) {
    env.sender == ctx.Identity() && env.recipient.Some?
  }

  function AfterSend(r: Relay, c: ConnId, env: Envelope): Relay
    requires c in r.conns
  {
    if MaySend(r.conns[c], env)
    then RouteMessage(r, c, ReceiptFor(r.conns[c].Identity(), env.recipient.value, env))
    else r
  }

  function SendReplies(r: Relay, c: ConnId, env: Envelope): seq<Message>
    requires c in r.conns
  {
    if env.sender != r.conns[c].Identity() then
      [ProtocolError(SenderMismatch, Some(env.messageId)), DeliveryAck(env.messageId, Rejected)]
    else if env.recipient.None? then [ProtocolError(InvalidRecipient, Some(env.messageId))]
    else [DeliveryAck(env.messageId, StatusFor(r, env.recipient.value))]
  }

  // ---------------------------------------------------------------- endpoint.py: the receive loop

  datatype CloseCode = Normal | PolicyViolation | IdleTimedOut | AuthDeadline

  /** What the receive loop does after an iteration. */
  datatype Next = Continue | AwaitToken(messageId: string, token: string) | Stop(code: CloseCode)

  datatype Outcome = Outcome(relay: Relay, next: Next)

  function SetContext(r: Relay, c: ConnId, ctx: Context): Relay {
    r.(conns := r.conns[c := ctx])
  }

  function Owned(ms: seq<Message>): (es: seq<Entry>)
    ensures |es| == |ms| && forall i :: 0 <= i < |ms| ==> es[i] == Own(ms[i])
  {
    seq(|ms|, i requires 0 <= i < |ms| => Own(ms[i]))
  }

  /** Replies are put one by one; the first refusal ends the receive loop. */
  function Respond(r: Relay, c: ConnId, es: seq<Entry>): Outcome
    requires c in r.conns
  {
    var capacity := r.limits.maxPendingOutbound;
    Outcome(SetContext(r, c, r.conns[c].PutAll(es, capacity)),
            if r.conns[c].Fitting(|es|, capacity) < |es| then Stop(PolicyViolation) else Continue)
  }

  /** An error put outside the reply loop: a refusal is ignored. */
  function Notify(r: Relay, c: ConnId, code: ErrorCode): Relay
    requires c in r.conns
  {
    SetContext(r, c, r.conns[c].Put(Own(ProtocolError(code, None)), r.limits.maxPendingOutbound))
  }

  function Dispatch(r: Relay, c: ConnId, env: Envelope): Outcome
    requires c in r.conns
  {
    var ctx := r.conns[c];
    match env.kind
    case AuthAuthenticate =>
      if ctx.account.Some? then Respond(r, c, [Own(ProtocolError(AlreadyAuthenticated, Some(env.messageId)))])
      else if env.accessToken.Unacceptable? then Respond(r, c, [Own(ProtocolError(AuthFailed, Some(env.messageId)))])
      else Outcome(r, AwaitToken(env.messageId, env.accessToken.token))
    case HeartbeatPing => Respond(r, c, [Own(HeartbeatPong(env.messageId))])
    case QueueStatusRequest =>
      Respond(r, c, [Own(QueueStatus(env.messageId, |OfflineQueues.QueueOf(r.offline, ctx.Identity())|))])
    case MessageSend => Respond(AfterSend(r, c, env), c, Owned(SendReplies(r, c, env)))
  }

  /** What becomes of a frame that is neither too large nor over the rate. */
  function Process(r: Relay, c: ConnId, body: Body): Outcome
    requires c in r.conns
  {
    match ValidateInbound(r.conns[c].account.Some?, body)
    case Refused(error) => Respond(r, c, [Own(error)])
    case Valid(env) => Dispatch(r, c, env)
  }

  /** One iteration of the receive loop, up to its next await. */
  function HandleFrame(r: Relay, c: ConnId, frame: Frame, now: Instant): Outcome
    requires c in r.conns
  {
    var ctx := r.conns[c];
    if frame.bytes > r.limits.maxMessageBytes then Outcome(Notify(r, c, MessageTooLarge), Continue)
    else
      var window := RateLimiting.Tick(ctx.limiter, r.limits.windowSeconds, now);
      var counted := SetContext(r, c, ctx.(limiter := window));
      if window.count > r.limits.maxMessagesPerWindow then Outcome(Notify(counted, c, RateLimited), Continue)
      else Process(counted, c, frame.body)
  }

  function DrainedFor(h: History, id: Identity): seq<Entry> {
    if id in h.drained then h.drained[id] else []
  }

  function Drain(r: Relay, id: Identity): Relay {
    r.(offline := r.offline - {id},
       history := r.history.(drained := r.history.drained[id :=
                               DrainedFor(r.history, id) + OfflineQueues.QueueOf(r.offline, id)]))
  }

  /** The second half of authentication: what runs once the token has been resolved. */
  function FinishAuthentication(r: Relay, c: ConnId, messageId: string, resolved: Option<Account>): Outcome
    requires c in r.conns
  {
    match resolved
    case None => Respond(r, c, [Own(ProtocolError(AuthFailed, Some(messageId)))])
    case Some(account) =>
      var backlog := OfflineQueues.QueueOf(r.offline, account.username);
      Respond(Drain(BindIdentity(r, c, account), account.username), c, [Own(AuthReady(messageId, account))] + backlog)
  }

  /** The receive loop's deadline: idle, or not authenticated in time. */
  function DeadlinePassed(r: Relay, c: ConnId): Outcome
    requires c in r.conns
  {
    if r.conns[c].account.Some? then Outcome(Notify(r, c, IdleTimeout), Stop(IdleTimedOut))
    else Outcome(Notify(r, c, AuthRequired), Stop(AuthDeadline))
  }
}
