/**
 The tables of the motor-command queue and of the two state machines it depends on
 (node binding and hub provisioning), as values.  A primary key is a position in its
 table: no row of `commands`, `events` or `hubs` is ever deleted.
 */
module Model {

  datatype Option<+T> = None | Some(value: T)

  /** Why a call is refused.  The last four are the errors that the auth service names;
      its other errors carry no name and reach the client as internal ones. */
  datatype Code =
    | InvalidArgument
    | Unauthenticated
    | PermissionDenied
    | NotFound
    | FailedPrecondition
    | ResourceExhausted
    | Internal
    | DeviceAlreadyAssociated
    | InvalidDeviceCredentials
    | HubAlreadyClaimed
    | HubNotFound

  datatype Result<+T> = Ok(value: T) | Err(code: Code)

  // ---------- Time: nanoseconds since the epoch, unbounded ----------

  type Time = int

  const MILLISECOND: Time := 1_000_000
  const SECOND: Time := 1000 * MILLISECOND
  const MINUTE: Time := 60 * SECOND

  const MAX_DURATION_MS := 5000
  const MIN_TTL: Time := 5 * SECOND
  const MAX_TTL: Time := 5 * MINUTE
  const DEFAULT_EXPIRY: Time := 5 * MINUTE
  const DEFAULT_LEASE: Time := 15 * SECOND
  const MAX_PULL: nat := 10
  const RATE_WINDOW: Time := 30 * SECOND
  const RATE_MAX: nat := 5

  // ---------- Motor commands and their audit log ----------

  datatype Action = RunForDuration | Stop

  datatype Status = Queued | Leased | Sent | Executing | Succeeded | Failed | Expired | Cancelled

  datatype Reason =
    | NoReason
    | Unauthorized
    | Overdue
    | Duplicate
    | ProbeUnreachable
    | BleWriteFailed
    | UartTimeout
    | UartRejected
    | SafetyLimit

  datatype Actor = UserActor(user: nat) | HubActor(hub: nat) | SystemActor

  datatype Command = Command(
    userId: nat,
    hubId: nat,
    nodeId: string,
    action: Action,
    durationMs: int,
    status: Status,
    key: string,
    reason: Reason,
    reasonMessage: string,
    leaseToken: Option<string>,
    leasedAt: Option<Time>,
    leaseExpiresAt: Option<Time>,
    expiresAt: Time,
    completedAt: Option<Time>,
    createdAt: Time)

  datatype Event = Event(
    commandId: nat,
    actor: Actor,
    previous: Option<Status>,
    status: Status,
    reason: Reason,
    reasonMessage: string,
    message: string,
    occurredAt: Time)

  predicate Pending(s: Status) {
    s == Queued || s == Leased
  }

  predicate Active(s: Status) {
    Pending(s) || s == Sent || s == Executing
  }

  predicate Terminal(s: Status) {
    s == Succeeded || s == Failed || s == Expired || s == Cancelled
  }

  // ---------- Hubs, tokens, nodes, readings ----------

  /** The stored hash of a secret; hashing is taken to be injective. */
  datatype Digest = Digest(secret: string)

  datatype Hub = Hub(userId: nat, name: string, deviceId: Option<string>, secretHash: Option<Digest>, createdAt: Time)

  datatype Token = Token(userId: nat, hubName: string, hubId: nat, revoked: bool, claimedAt: Option<Time>)

  datatype Reading = Reading(nodeId: string, time: Time)

  datatype Db = Db(
    commands: seq<Command>,
    events: seq<Event>,
    nodes: map<string, Option<nat>>,
    hubs: seq<Hub>,
    tokens: seq<Token>,
    readings: seq<Reading>)

  // ---------- Queries ----------

  /** The three ordered command queries. */
  datatype Query =
    | HubPending(hub: nat)
    | TargetPending(hub: nat, node: string)
    | HubQueued(hub: nat)

  predicate Matches(c: Command, q: Query) {
    match q
    case HubPending(hub) => c.hubId == hub && Pending(c.status)
    case TargetPending(hub, node) => c.hubId == hub && c.nodeId == node && Pending(c.status)
    case HubQueued(hub) => c.hubId == hub && c.status == Queued
  }

  /** `ids` is an answer the database may give to `q`, oldest row first; rows created at
      the same time may come in either order. */
  ghost predicate IsListing(cs: seq<Command>, q: Query, ids: seq<nat>) {
    && (forall k :: 0 <= k < |ids| ==> ids[k] < |cs| && Matches(cs[ids[k]], q))
    && (forall j, k :: 0 <= j < k < |ids| ==> ids[j] != ids[k] && cs[ids[j]].createdAt <= cs[ids[k]].createdAt)
    && (forall i :: 0 <= i < |cs| && Matches(cs[i], q) ==> i in ids)
  }

  /** The join that decides whether a user may command a node through a hub. */
  predicate Owned(db: Db, user: nat, hub: nat, node: string) {
    node in db.nodes && db.nodes[node] == Some(hub) && hub < |db.hubs| && db.hubs[hub].userId == user
  }

  /** The join that decides whether a user may see a command. */
  predicate Visible(db: Db, user: nat, c: Command) {
    c.hubId < |db.hubs| && db.hubs[c.hubId].userId == user
  }

  predicate SameKey(c: Command, user: nat, node: string, key: string) {
    c.userId == user && c.nodeId == node && c.key == key
  }

  /** The row with an idempotency key, lowest primary key first. */
  function FindKey(cs: seq<Command>, user: nat, node: string, key: string): (r: Option<nat>)
    ensures r.Some? ==> r.value < |cs| && SameKey(cs[r.value], user, node, key)
    ensures r.None? ==> forall i :: 0 <= i < |cs| ==> !SameKey(cs[i], user, node, key)
  {
    if cs == [] then None
    else
      var n := |cs| - 1;
      match FindKey(cs[..n], user, node, key)
      case Some(i) => Some(i)
      case None => if SameKey(cs[n], user, node, key) then Some(n) else None
  }

  predicate OnTarget(c: Command, hub: nat, node: string) {
    c.hubId == hub && c.nodeId == node
  }

  predicate HasActive(cs: seq<Command>, hub: nat, node: string) {
    exists i :: 0 <= i < |cs| && OnTarget(cs[i], hub, node) && Active(cs[i].status)
  }

  /** How many commands a user created for a node from `lo` to `hi`, both included. */
  function CountIn(cs: seq<Command>, user: nat, node: string, lo: Time, hi: Time): nat {
    if cs == [] then 0
    else
      var c := cs[|cs| - 1];
      CountIn(cs[..|cs| - 1], user, node, lo, hi)
      + if c.userId == user && c.nodeId == node && lo <= c.createdAt <= hi then 1 else 0
  }

  /** How many commands a user created for a node at `lo` or later. */
  function CountSince(cs: seq<Command>, user: nat, node: string, lo: Time): nat {
    if cs == [] then 0
    else
      var c := cs[|cs| - 1];
      CountSince(cs[..|cs| - 1], user, node, lo)
      + if c.userId == user && c.nodeId == node && lo <= c.createdAt then 1 else 0
  }

  predicate HasToken(tokens: seq<Token>, hub: nat) {
    exists k :: 0 <= k < |tokens| && tokens[k].hubId == hub
  }

  /** The rows that deleting a hub's tokens leaves. */
  function WithoutHub(tokens: seq<Token>, hub: nat): (r: seq<Token>)
    ensures forall t :: t in r <==> t in tokens && t.hubId != hub
  {
    if tokens == [] then []
    else
      var t := tokens[|tokens| - 1];
      WithoutHub(tokens[..|tokens| - 1], hub) + if t.hubId == hub then [] else [t]
  }

  function FindDevice(hubs: seq<Hub>, device: string): (r: Option<nat>)
    ensures r.Some? ==> r.value < |hubs| && hubs[r.value].deviceId == Some(device)
    ensures r.None? ==> forall i :: 0 <= i < |hubs| ==> hubs[i].deviceId != Some(device)
  {
    if hubs == [] then None
    else
      var n := |hubs| - 1;
      match FindDevice(hubs[..n], device)
      case Some(i) => Some(i)
      case None => if hubs[n].deviceId == Some(device) then Some(n) else None
  }

  lemma JoinSlices<T>(s: seq<T>, j: nat, k: nat)
    requires j <= k <= |s|
    ensures s[..j] + s[j..k] == s[..k]
  {
  }

  lemma TakeOfSum<T>(a: seq<T>, b: seq<T>, k: nat)
    requires k < |a| + |b|
    ensures k < |a| ==> (a + b)[..k] == a[..k] && (a + b)[k] == a[k]
    ensures k >= |a| ==> (a + b)[..k] == a + b[..k - |a|] && (a + b)[k] == b[k - |a|]
  {
  }

  lemma SliceOfSlice<T>(s: seq<T>, j: nat, k: nat, n: nat)
    requires j <= k <= |s| && n < k - j
    ensures s[j..k][..n] == s[j..j + n] && s[j..k][n] == s[j + n]
  {
  }
}
