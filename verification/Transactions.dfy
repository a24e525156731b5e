/**
 The transactions of the three services as functions from a state to the writes they
 commit and the reply they give.  A rejected transaction commits nothing.
 */
module Transactions {
  import opened Model
  import opened Validation
  import opened Lifecycle
  import opened Store

  datatype Shown = Shown(id: nat, command: Command)

  datatype Reply =
    | Rejected(code: Code)
    | Commands(shown: seq<Shown>)
    | HubId(hub: nat)
    | HubJwt(user: nat, hub: nat)
    | Done

  datatype Outcome = Outcome(writes: seq<Write>, reply: Reply)

  function Reject(code: Code): Outcome {
    Outcome([], Rejected(code))
  }

  function Read(shown: seq<Shown>): Outcome {
    Outcome([], Commands(shown))
  }

  /** The random lease tokens that one pull may hand out. */
  type LeaseTokens = ts: seq<string> | |ts| == MAX_PULL witness seq(MAX_PULL, i => "")

  // ---------- Cleanup ----------

  function CleanupOne(cs: seq<Command>, id: nat, now: Time, actor: Actor): seq<Write> {
    if id < |cs| && CleanupMove(cs[id], now).Some? then
      [Change(id, CleanupMove(cs[id], now).value, actor, now)]
    else []
  }

  /** The cleanup loop over the fetched rows `ids`. */
  function Cleanup(cs: seq<Command>, ids: seq<nat>, now: Time, actor: Actor): seq<Write> {
    if ids == [] then []
    else Cleanup(cs, ids[..|ids| - 1], now, actor) + CleanupOne(cs, ids[|ids| - 1], now, actor)
  }

  function Cleaned(db: Db, ids: seq<nat>, now: Time, actor: Actor): Db {
    ApplyAll(db, Cleanup(db.commands, ids, now, actor))
  }

  /** The first transaction of a create: reconcile the target. */
  function ReconcileTarget(db: Db, user: nat, hub: nat, node: string, ids: seq<nat>, now: Time): Outcome {
    if !Owned(db, user, hub, node) then Reject(PermissionDenied)
    else Outcome(Cleanup(db.commands, ids, now, SystemActor), Done)
  }

  // ---------- Create ----------

  function NewCommand(user: nat, d: Draft, now: Time): Command {
    Command(user, d.hubId, d.nodeId, d.action, d.durationMs, Queued, d.key, NoReason, "",
            None, None, None, d.expiresAt, None, now)
  }

  /** The second transaction of a create.  `capturedAt` was read before the row lock, the
      insert happens at `now`. */
  function CreateCommand(db: Db, user: nat, d: Draft, capturedAt: Time, now: Time): Outcome {
    if !Owned(db, user, d.hubId, d.nodeId) then Reject(PermissionDenied)
    else
      match FindKey(db.commands, user, d.nodeId, d.key)
      case Some(i) => Read([Shown(i, db.commands[i])])
      case None =>
        if CountSince(db.commands, user, d.nodeId, capturedAt - RATE_WINDOW) >= RATE_MAX then Reject(ResourceExhausted)
        else if HasActive(db.commands, d.hubId, d.nodeId) then Reject(FailedPrecondition)
        else
          var c := NewCommand(user, d, now);
          Outcome([Insert(c, UserActor(user), capturedAt, now)], Commands([Shown(|db.commands|, c)]))
  }

  function Create(db: Db, user: nat, req: CreateRequest, readAt: Time, capturedAt: Time, now: Time): Outcome {
    match Prepare(req, readAt)
    case Err(code) => Reject(code)
    case Ok(d) => CreateCommand(db, user, d, capturedAt, now)
  }

  // ---------- Status ----------

  /** A status read whose command is overdue expires it first. */
  function ReadStatus(db: Db, user: nat, id: nat, now: Time): Outcome {
    if id >= |db.commands| || !Visible(db, user, db.commands[id]) then Reject(NotFound)
    else
      var c := db.commands[id];
      if ShouldExpire(c, now) then
        Outcome([Change(id, Expire, SystemActor, now)], Commands([Shown(id, Moved(c, Expire, now))]))
      else Read([Shown(id, c)])
  }

  // ---------- Pull ----------

  /** The lease loop over the fetched queued rows. */
  function LeaseWrites(cs: seq<Command>, queue: seq<nat>, max: nat, until: Time, tokens: LeaseTokens, hub: nat,
                       now: Time): (ws: seq<Write>)
    requires max <= MAX_PULL
    ensures |ws| <= max
  {
    if queue == [] then []
    else
      var ws := LeaseWrites(cs, queue[..|queue| - 1], max, until, tokens, hub, now);
      var id := queue[|queue| - 1];
      if |ws| >= max || id >= |cs| || cs[id].expiresAt <= now then ws
      else ws + [Change(id, Lease(tokens[|ws|], until), HubActor(hub), now)]
  }

  /** The rows that a list of leases returns. */
  function ShowLeases(cs: seq<Command>, ws: seq<Write>): seq<Shown> {
    if ws == [] then []
    else
      var w := ws[|ws| - 1];
      ShowLeases(cs, ws[..|ws| - 1])
      + if w.Change? && w.id < |cs| then [Shown(w.id, Moved(cs[w.id], w.move, w.now))] else []
  }

  /** The second half of a pull, after its cleanup. */
  function TakeQueue(db: Db, hub: nat, until: Time, max: nat, queue: seq<nat>, tokens: LeaseTokens, now: Time): Outcome
    requires max <= MAX_PULL
  {
    var leases := LeaseWrites(db.commands, queue, max, until, tokens, hub, now);
    Outcome(leases, Commands(ShowLeases(db.commands, leases)))
  }

  function PullCommands(db: Db, hub: nat, lease: Time, max: nat, ids: seq<nat>, queue: seq<nat>, tokens: LeaseTokens,
                        now: Time): Outcome
    requires max <= MAX_PULL
  {
    var clean := Cleanup(db.commands, ids, now, HubActor(hub));
    var take := TakeQueue(ApplyAll(db, clean), hub, now + lease, max, queue, tokens, now);
    Outcome(clean + take.writes, take.reply)
  }

  function Pull(db: Db, hub: nat, leaseMs: int, maxCommands: int, ids: seq<nat>, queue: seq<nat>, tokens: LeaseTokens,
                now: Time): Outcome {
    match ValidateLeaseDuration(leaseMs)
    case Err(code) => Reject(code)
    case Ok(lease) =>
      match ValidatePullMax(maxCommands)
      case Err(code) => Reject(code)
      case Ok(max) => PullCommands(db, hub, lease, max, ids, queue, tokens, now)
  }

  // ---------- Ack ----------

  /** The decision on an ack in the state that the cleanup left: a refusal, no change
      because the status holds already, or a move. */
  datatype Verdict = Refuse(code: Code) | AlreadyApplied | Accept(move: Move)

  function JudgeAck(c: Command, hub: nat, req: AckRequest, now: Time): Verdict {
    if c.hubId != hub then Refuse(PermissionDenied)
    else if Trim(req.nodeId) != "" && Trim(req.nodeId) != c.nodeId then Refuse(PermissionDenied)
    else if c.status == req.status then AlreadyApplied
    else if c.expiresAt <= now then Refuse(FailedPrecondition)
    else if !AckEdge(c.status, req.status) then Refuse(FailedPrecondition)
    else if !Terminal(req.status) && (c.leaseExpiresAt.None? || c.leaseExpiresAt.value <= now) then
      Refuse(FailedPrecondition)
    else Accept(Ack(req.status, if req.reason.Some? then req.reason.value else NoReason, Trim(req.message)))
  }

  function AckCommand(db: Db, hub: nat, id: nat, req: AckRequest, ids: seq<nat>, now: Time): Outcome {
    var clean := Cleanup(db.commands, ids, now, HubActor(hub));
    var cs := ApplyAll(db, clean).commands;
    if id >= |cs| then Reject(NotFound)
    else
      match JudgeAck(cs[id], hub, req, now)
      case Refuse(code) => Reject(code)
      case AlreadyApplied => Outcome(clean, Commands([Shown(id, cs[id])]))
      case Accept(m) =>
        Outcome(clean + [Change(id, m, HubActor(hub), now)], Commands([Shown(id, Moved(cs[id], m, now))]))
  }

  function Acknowledge(db: Db, hub: nat, req: AckRequest, ids: seq<nat>, now: Time): Outcome {
    if req.commandId.None? then Reject(InvalidArgument)
    else if !AckStatus(req.status) then Reject(InvalidArgument)
    else if req.reason.None? then Reject(InvalidArgument)
    else AckCommand(db, hub, req.commandId.value, req, ids, now)
  }

  // ---------- Node binding ----------

  function BindNode(db: Db, node: string, hub: nat, now: Time): Outcome {
    if node !in db.nodes then Outcome([Bind(node, hub, now)], Done)
    else
      match db.nodes[node]
      case Some(h) => if h != hub then Reject(PermissionDenied) else Outcome([], Done)
      case None => Outcome([Bind(node, hub, now)], Done)
  }

  function InsertReading(db: Db, hub: nat, node: string, readAt: Time, now: Time): Outcome {
    if node == "" then Reject(InvalidArgument)
    else
      var o := BindNode(db, node, hub, now);
      if o.reply.Rejected? then o
      else Outcome(o.writes + [AddReading(node, hub, readAt, now)], Done)
  }

  // ---------- Provisioning ----------

  function Associate(db: Db, user: nat, device: string, secret: string, name: string, now: Time): Outcome {
    if device == "" || secret == "" || name == "" then Reject(Internal)
    else if FindDevice(db.hubs, device).Some? then Reject(DeviceAlreadyAssociated)
    else Outcome([AddHub(Hub(user, name, Some(device), Some(Digest(secret)), now), now)], HubId(|db.hubs|))
  }

  function Claim(db: Db, device: string, secret: string, now: Time): Outcome {
    if device == "" || secret == "" then Reject(Internal)
    else
      match FindDevice(db.hubs, device)
      case None => Reject(InvalidDeviceCredentials)
      case Some(h) =>
        var hub := db.hubs[h];
        if hub.secretHash != Some(Digest(secret)) then Reject(InvalidDeviceCredentials)
        else if HasToken(db.tokens, h) then Reject(HubAlreadyClaimed)
        else Outcome([AddToken(Token(hub.userId, hub.name, h, false, Some(now)), now)], HubJwt(hub.userId, h))
  }

  function Revoke(db: Db, user: nat, hub: nat, now: Time): Outcome {
    if hub >= |db.hubs| || db.hubs[hub].userId != user then Reject(HubNotFound)
    else Outcome([DropTokens(hub, user, now)], Done)
  }

  // ---------- Calls ----------

  /** One transaction of one call, with everything it reads from outside the tables: the
      authenticated caller, the clock, the random tokens and the order in which the
      database lists rows. */
  datatype Call =
    | ReconcileCall(user: nat, hub: nat, node: string, ids: seq<nat>, now: Time)
    | CreateCall(user: nat, create: CreateRequest, readAt: Time, capturedAt: Time, now: Time)
    | StatusCall(user: nat, id: nat, now: Time)
    | PullCall(hub: nat, leaseMs: int, maxCommands: int, ids: seq<nat>, queue: seq<nat>, tokens: LeaseTokens, now: Time)
    | AckCall(hub: nat, ack: AckRequest, ids: seq<nat>, now: Time)
    | ReadingCall(hub: nat, node: string, measuredAt: Time, now: Time)
    | AssociateCall(user: nat, device: string, secret: string, name: string, now: Time)
    | ClaimCall(device: string, secret: string, now: Time)
    | RevokeCall(user: nat, hub: nat, now: Time)

  function Exec(db: Db, call: Call): Outcome {
    match call
    case ReconcileCall(user, hub, node, ids, now) => ReconcileTarget(db, user, hub, node, ids, now)
    case CreateCall(user, req, readAt, capturedAt, now) => Create(db, user, req, readAt, capturedAt, now)
    case StatusCall(user, id, now) => ReadStatus(db, user, id, now)
    case PullCall(hub, leaseMs, max, ids, queue, tokens, now) => Pull(db, hub, leaseMs, max, ids, queue, tokens, now)
    case AckCall(hub, req, ids, now) => Acknowledge(db, hub, req, ids, now)
    case ReadingCall(hub, node, measuredAt, now) => InsertReading(db, hub, node, measuredAt, now)
    case AssociateCall(user, device, secret, name, now) => Associate(db, user, device, secret, name, now)
    case ClaimCall(device, secret, now) => Claim(db, device, secret, now)
    case RevokeCall(user, hub, now) => Revoke(db, user, hub, now)
  }

  /** The listings are answers that the database may give, and the clock readings within a
      call are in order. */
  ghost predicate Legal(db: Db, call: Call) {
    match call
    case ReconcileCall(_, hub, node, ids, _) => IsListing(db.commands, TargetPending(hub, node), ids)
    case CreateCall(_, _, readAt, capturedAt, now) => readAt <= capturedAt <= now
    case PullCall(hub, _, _, ids, queue, _, now) =>
      && IsListing(db.commands, HubPending(hub), ids)
      && IsListing(Cleaned(db, ids, now, HubActor(hub)).commands, HubQueued(hub), queue)
    case AckCall(hub, _, ids, _) => IsListing(db.commands, HubPending(hub), ids)
    case _ => true
  }

  function Step(db: Db, call: Call): Db {
    ApplyAll(db, Exec(db, call).writes)
  }
}
