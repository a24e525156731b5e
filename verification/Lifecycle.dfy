/**
 The life of one command: the moves that the service makes on a stored row, the event
 each of them appends, and what every sequence of moves keeps.
 */
module Lifecycle {
  import opened Model
  import opened Validation

  const EXPIRED_MESSAGE := "command expired before delivery"

  datatype Move =
    | Expire
    | Requeue
    | Lease(token: string, until: Time)
    | Ack(status: Status, reason: Reason, text: string)

  /** The test that the status read makes before and inside its transaction. */
  predicate ShouldExpire(c: Command, now: Time) {
    Pending(c.status) && c.expiresAt <= now
  }

  predicate LeaseLapsed(c: Command, now: Time) {
    c.status == Leased && c.leaseExpiresAt.Some? && c.leaseExpiresAt.value <= now
  }

  /** The guard under which the code makes a move. */
  predicate Enabled(c: Command, m: Move, now: Time) {
    match m
    case Expire => ShouldExpire(c, now)
    case Requeue => LeaseLapsed(c, now) && now < c.expiresAt
    case Lease(_, until) => c.status == Queued && now < c.expiresAt && now + MILLISECOND <= until
    case Ack(status, _, _) =>
      && AckEdge(c.status, status)
      && now < c.expiresAt
      && (Terminal(status) || (c.leaseExpiresAt.Some? && now < c.leaseExpiresAt.value))
  }

  /** The row that the code saves. */
  function Moved(c: Command, m: Move, now: Time): Command {
    match m
    case Expire =>
      c.(status := Expired, reason := Overdue, reasonMessage := EXPIRED_MESSAGE,
         leaseToken := None, leasedAt := None, leaseExpiresAt := None, completedAt := Some(now))
    case Requeue =>
      c.(status := Queued, reason := NoReason, reasonMessage := "",
         leaseToken := None, leasedAt := None, leaseExpiresAt := None)
    case Lease(token, until) =>
      c.(status := Leased, reason := NoReason, reasonMessage := "",
         leaseToken := Some(token), leasedAt := Some(now), leaseExpiresAt := Some(until))
    case Ack(status, reason, text) =>
      var d := c.(status := status, reason := reason, reasonMessage := text);
      if Terminal(status) then
        d.(completedAt := Some(now), leaseToken := None, leasedAt := None, leaseExpiresAt := None)
      else d
  }

  function AckEventMessage(status: Status): string {
    match status
    case Sent => "command sent to probe"
    case Executing => "command executing"
    case Succeeded => "command completed successfully"
    case Failed => "command failed"
    case Expired => "command expired"
    case _ => "command updated"
  }

  function MoveMessage(m: Move): string {
    match m
    case Expire => EXPIRED_MESSAGE
    case Requeue => "lease expired; command requeued"
    case Lease(_, _) => "command leased to hub"
    case Ack(status, _, _) => AckEventMessage(status)
  }

  function EventOf(id: nat, actor: Actor, previous: Option<Status>, c: Command, message: string, at: Time): Event {
    Event(id, actor, previous, c.status, c.reason, c.reasonMessage, message, at)
  }

  function MoveEvent(id: nat, c: Command, m: Move, actor: Actor, now: Time): Event {
    EventOf(id, actor, Some(c.status), Moved(c, m, now), MoveMessage(m), now)
  }

  /** What the cleanup loop does with one fetched row. */
  function CleanupMove(c: Command, now: Time): Option<Move> {
    if c.expiresAt <= now then Some(Expire)
    else if LeaseLapsed(c, now) then Some(Requeue)
    else None
  }

  /** A row as the cleanup at `now` leaves it, when its queries are right to fetch pending rows only. */
  function Reconciled(c: Command, now: Time): Command {
    if Pending(c.status) && CleanupMove(c, now).Some? then Moved(c, CleanupMove(c, now).value, now) else c
  }

  // ---------- The shape that a status gives a row ----------

  predicate HasLease(c: Command) {
    && c.leaseToken.Some? && c.leasedAt.Some? && c.leaseExpiresAt.Some?
    && c.leasedAt.value < c.leaseExpiresAt.value
  }

  predicate NoLease(c: Command) {
    c.leaseToken.None? && c.leasedAt.None? && c.leaseExpiresAt.None?
  }

  predicate Shaped(c: Command) {
    match c.status
    case Queued => NoLease(c) && c.completedAt.None?
    case Leased => HasLease(c) && c.completedAt.None?
    case Sent => HasLease(c) && c.completedAt.None?
    case Executing => HasLease(c) && c.completedAt.None?
    case Cancelled => false
    case _ => NoLease(c) && c.completedAt.Some?
  }

  // ---------- Histories ----------

  /** The part of a row that its events record. */
  datatype View = View(
    status: Status,
    reason: Reason,
    reasonMessage: string,
    leasedAt: Option<Time>,
    completedAt: Option<Time>)

  function ViewOf(c: Command): View {
    View(c.status, c.reason, c.reasonMessage, c.leasedAt, c.completedAt)
  }

  function Record(v: View, e: Event): View {
    View(e.status, e.reason, e.reasonMessage,
         if e.status == Leased then Some(e.occurredAt)
         else if e.status == Sent || e.status == Executing then v.leasedAt
         else None,
         if Terminal(e.status) then Some(e.occurredAt) else None)
  }

  /** Folding a history from its first event on. */
  function Replay(h: seq<Event>): View {
    if h == [] then View(Queued, NoReason, "", None, None)
    else Record(Replay(h[..|h| - 1]), h[|h| - 1])
  }

  /** The transitions of the whole protocol. */
  predicate Edge(s: Status, t: Status) {
    match s
    case Queued => t == Leased || t == Expired
    case Leased => t == Queued || t == Sent || t == Failed || t == Expired
    case Sent => t == Executing || t == Succeeded || t == Failed || t == Expired
    case Executing => t == Succeeded || t == Failed || t == Expired
    case _ => false
  }

  /** A history is a word of the automaton with transitions `Edge` that starts at queued,
      and its events are chained. */
  predicate Word(h: seq<Event>) {
    && h != []
    && h[0].previous.None? && h[0].status == Queued
    && forall k :: 0 < k < |h| ==> h[k].previous == Some(h[k - 1].status) && Edge(h[k - 1].status, h[k].status)
  }

  function Leases(h: seq<Event>): nat {
    if h == [] then 0
    else Leases(h[..|h| - 1]) + if h[|h| - 1].status == Leased then 1 else 0
  }

  predicate IsRequeue(e: Event) {
    e.previous == Some(Leased) && e.status == Queued
  }

  function Requeues(h: seq<Event>): nat {
    if h == [] then 0
    else Requeues(h[..|h| - 1]) + if IsRequeue(h[|h| - 1]) then 1 else 0
  }

  /** A row and its history agree. */
  ghost predicate Sound(c: Command, h: seq<Event>) {
    && Shaped(c)
    && Word(h)
    && h[|h| - 1].status == c.status
    && Replay(h) == ViewOf(c)
  }

  lemma WordOneMore(h: seq<Event>, e: Event)
    requires Word(h) && e.previous == Some(h[|h| - 1].status) && Edge(h[|h| - 1].status, e.status)
    ensures Word(h + [e])
  {
  }

  lemma ReplayOneMore(h: seq<Event>, e: Event)
    ensures Replay(h + [e]) == Record(Replay(h), e)
  {
    assert (h + [e])[..|h|] == h;
  }

  /** One move keeps row and history in agreement. */
  lemma MoveKeepsSound(c: Command, h: seq<Event>, id: nat, m: Move, actor: Actor, now: Time)
    requires Sound(c, h) && Enabled(c, m, now)
    ensures Sound(Moved(c, m, now), h + [MoveEvent(id, c, m, actor, now)])
  {
    var e := MoveEvent(id, c, m, actor, now);
    WordOneMore(h, e);
    ReplayOneMore(h, e);
  }

  // ---------- What a word of the automaton says ----------

  function Stage(s: Status): nat {
    match s
    case Queued => 0
    case Leased => 0
    case Sent => 1
    case Executing => 2
    case _ => 3
  }

  lemma {:induction false} StagesNeverFall(h: seq<Event>, j: nat, k: nat)
    requires Word(h) && j <= k < |h|
    ensures Stage(h[j].status) <= Stage(h[k].status)
  {
    if j < k {
      StagesNeverFall(h, j, k - 1);
      assert Edge(h[k - 1].status, h[k].status);
    }
  }

  /** After a command was sent it is never queued or leased again, it is sent and starts
      executing at most once each, and a terminal event is the last one. */
  lemma WordIsOneWay(h: seq<Event>, j: nat, k: nat)
    requires Word(h) && j < k < |h|
    ensures !Terminal(h[j].status)
    ensures Stage(h[j].status) >= 1 ==> !Pending(h[k].status)
    ensures Stage(h[j].status) >= 1 ==> h[j].status != h[k].status
    ensures h[k].status != Cancelled
  {
    StagesNeverFall(h, j + 1, k);
    StagesNeverFall(h, j, k - 1);
    assert Edge(h[j].status, h[j + 1].status);
    assert Edge(h[k - 1].status, h[k].status);
  }

  /** Leases and requeues alternate, and nothing else can repeat: the length of a history
      is determined by its leases up to a tail of at most three events. */
  lemma {:induction false} WordLength(h: seq<Event>)
    requires Word(h)
    ensures var s := h[|h| - 1].status; var n := Leases(h); var r := Requeues(h);
            && r <= n <= r + 1
            && (s == Queued ==> n == r && |h| == 1 + 2 * n)
            && (s == Leased ==> n == r + 1 && |h| == 2 * n)
            && (s == Sent ==> n == r + 1 && |h| == 2 * n + 1)
            && (s == Executing ==> n == r + 1 && |h| == 2 * n + 2)
            && (Terminal(s) && n == r ==> |h| == 2 * n + 2)
            && (Terminal(s) && n == r + 1 ==> 2 * n + 1 <= |h| <= 2 * n + 3)
  {
    var g := h[..|h| - 1];
    if g == [] {
      assert Leases(g) == 0 && Requeues(g) == 0;
    } else {
      WordLength(g);
      assert Edge(g[|g| - 1].status, h[|h| - 1].status);
    }
  }

  // ---------- Pace: how fast leases can use up a lifetime ----------

  const MAX_LEASES := 300_000

  /** With `n` leases behind it by the clock reading `now`, a command has used up at least
      the milliseconds of all leases but a running one. */
  ghost predicate Paced(c: Command, n: nat, now: Time) {
    && c.createdAt <= now
    && c.expiresAt <= c.createdAt + MAX_TTL
    && n <= MAX_LEASES
    && (c.status == Queued ==> c.createdAt + n * MILLISECOND <= now)
    && (c.status == Leased || c.status == Sent || c.status == Executing ==>
          && HasLease(c) && n >= 1
          && c.createdAt + (n - 1) * MILLISECOND <= c.leasedAt.value
          && c.leasedAt.value + MILLISECOND <= c.leaseExpiresAt.value)
  }

  lemma MoveKeepsPace(c: Command, n: nat, m: Move, before: Time, now: Time)
    requires Paced(c, n, before) && before <= now && Shaped(c) && Enabled(c, m, now)
    ensures Paced(Moved(c, m, now), if m.Lease? then n + 1 else n, now)
  {
    if m.Lease? {
      assert n * MILLISECOND < MAX_TTL == MAX_LEASES * MILLISECOND;
      assert n < MAX_LEASES;
    }
  }

  // ---------- Reconciling one row ----------

  /** Reconciling at a later instant makes an earlier reconciliation invisible, but for the
      time of completion. */
  predicate SameButCompletion(c: Command, d: Command) {
    c == d.(completedAt := c.completedAt) && (c.completedAt.Some? <==> d.completedAt.Some?)
  }

  lemma ReconcileTwice(c: Command, t1: Time, t2: Time)
    requires t1 <= t2 && Shaped(c)
    ensures Reconciled(Reconciled(c, t1), t1) == Reconciled(c, t1)
    ensures SameButCompletion(Reconciled(Reconciled(c, t1), t2), Reconciled(c, t2))
  {
  }

  lemma ReconcileRespectsCompletion(c: Command, d: Command, now: Time)
    requires SameButCompletion(c, d)
    ensures SameButCompletion(Reconciled(c, now), Reconciled(d, now))
  {
  }
}
