/**
 What the transactions do, row by row: the cleanup loop reconciles exactly the fetched
 rows, the lease loop leases exactly the oldest live ones, and every committed write
 meets its guard.
 */
module Effects {
  import opened Model
  import opened Validation
  import opened Lifecycle
  import opened Store
  import opened Transactions

  ghost predicate Distinct(ids: seq<nat>) {
    forall j, k :: 0 <= j < k < |ids| ==> ids[j] != ids[k]
  }

  /** Row numbers of different pending rows. */
  ghost predicate PendingRows(cs: seq<Command>, ids: seq<nat>) {
    && Distinct(ids)
    && forall k :: 0 <= k < |ids| ==> ids[k] < |cs| && Pending(cs[ids[k]].status)
  }

  ghost predicate QueuedRows(cs: seq<Command>, ids: seq<nat>) {
    && Distinct(ids)
    && forall k :: 0 <= k < |ids| ==> ids[k] < |cs| && cs[ids[k]].status == Queued
  }

  // ---------- Cleanup ----------

  predicate IsCleanup(w: Write, ids: seq<nat>, now: Time) {
    w.Change? && w.id in ids && w.now == now && !w.move.Lease?
  }

  ghost predicate AreCleanups(ws: seq<Write>, ids: seq<nat>, now: Time) {
    forall k :: 0 <= k < |ws| ==> IsCleanup(ws[k], ids, now)
  }

  lemma {:induction false} CleanupChangesOnly(cs: seq<Command>, ids: seq<nat>, now: Time, actor: Actor)
    ensures AreCleanups(Cleanup(cs, ids, now, actor), ids, now)
  {
    if ids != [] {
      var init, last := ids[..|ids| - 1], ids[|ids| - 1];
      CleanupChangesOnly(cs, init, now, actor);
      var ws, one := Cleanup(cs, init, now, actor), CleanupOne(cs, last, now, actor);
      forall k | 0 <= k < |ws + one| ensures IsCleanup((ws + one)[k], ids, now) {
        if k < |ws| {
          assert IsCleanup(ws[k], init, now);
        }
      }
    }
  }

  lemma CleanedOneMore(db: Db, ids: seq<nat>, id: nat, now: Time, actor: Actor)
    requires id < |db.commands|
    ensures Cleaned(db, ids + [id], now, actor)
            == (var d := Cleaned(db, ids, now, actor);
                match CleanupMove(db.commands[id], now)
                case None => d
                case Some(m) => Apply(d, Change(id, m, actor, now)))
  {
    assert (ids + [id])[..|ids|] == ids;
    var ws, one := Cleanup(db.commands, ids, now, actor), CleanupOne(db.commands, id, now, actor);
    if one == [] {
      assert ws + one == ws;
    } else {
      ApplyOneMore(db, ws, one[0]);
    }
  }

  /** The events that the loop appends for one row. */
  function CleanupEvents(c: Command, i: nat, now: Time, actor: Actor): seq<Event> {
    match CleanupMove(c, now)
    case None => []
    case Some(m) => [MoveEvent(i, c, m, actor, now)]
  }

  ghost predicate CleanedAt(db: Db, ids: seq<nat>, now: Time, actor: Actor, i: nat)
    requires i < |db.commands|
  {
    var c, d := db.commands[i], Cleaned(db, ids, now, actor);
    && |d.commands| == |db.commands|
    && d.commands[i] == (if i in ids then Reconciled(c, now) else c)
    && History(d.events, i) == History(db.events, i) + (if i in ids then CleanupEvents(c, i, now, actor) else [])
  }

  lemma CleanedOneMoreAt(db: Db, ids: seq<nat>, id: nat, now: Time, actor: Actor, i: nat)
    requires i < |db.commands| && id < |db.commands| && id !in ids && Pending(db.commands[id].status)
    requires CleanedAt(db, ids, now, actor, i)
    ensures CleanedAt(db, ids + [id], now, actor, i)
  {
    hide Cleaned, History, MoveEvent;
    CleanedOneMore(db, ids, id, now, actor);
    var c, d := db.commands[id], Cleaned(db, ids, now, actor);
    match CleanupMove(c, now)
    case None =>
    case Some(m) =>
      ChangeAt(d, Change(id, m, actor, now), i);
  }

  lemma LastPending(cs: seq<Command>, ids: seq<nat>) returns (init: seq<nat>, last: nat)
    requires PendingRows(cs, ids) && ids != []
    ensures ids == init + [last] && |init| == |ids| - 1 && PendingRows(cs, init)
    ensures last < |cs| && last !in init && Pending(cs[last].status)
  {
    init, last := ids[..|ids| - 1], ids[|ids| - 1];
  }

  lemma NothingCleaned(db: Db, now: Time, actor: Actor, i: nat)
    requires i < |db.commands|
    ensures CleanedAt(db, [], now, actor, i)
  {
  }

  /** The loop leaves each fetched row reconciled, with the matching event, and every other
      row alone. */
  lemma {:induction false} CleanupAt(db: Db, ids: seq<nat>, now: Time, actor: Actor, i: nat)
    requires i < |db.commands| && PendingRows(db.commands, ids)
    ensures CleanedAt(db, ids, now, actor, i)
    decreases |ids|
  {
    if ids == [] {
      NothingCleaned(db, now, actor, i);
    } else {
      var init, last := LastPending(db.commands, ids);
      hide *;
      CleanupAt(db, init, now, actor, i);
      CleanedOneMoreAt(db, init, last, now, actor, i);
    }
  }

  lemma CleanupOneAllowed(db: Db, ids: seq<nat>, id: nat, now: Time, actor: Actor, ws: seq<Write>)
    requires id < |db.commands| && id !in ids && Pending(db.commands[id].status) && PendingRows(db.commands, ids)
    requires ws == Cleanup(db.commands, ids, now, actor) && AllAllowed(db, ws)
    ensures AllAllowed(db, ws + CleanupOne(db.commands, id, now, actor))
  {
    CleanupAt(db, ids, now, actor, id);
    hide Cleanup, ApplyAll, AllAllowed, PendingRows, History;
    var one := CleanupOne(db.commands, id, now, actor);
    if one == [] {
      assert ws + one == ws;
    } else {
      AllowedOneMore(db, ws, one[0]);
    }
  }

  lemma CleanupAppends(cs: seq<Command>, ids: seq<nat>, id: nat, now: Time, actor: Actor)
    ensures Cleanup(cs, ids + [id], now, actor) == Cleanup(cs, ids, now, actor) + CleanupOne(cs, id, now, actor)
  {
    assert (ids + [id])[..|ids|] == ids;
  }

  lemma {:induction false} CleanupAllowed(db: Db, ids: seq<nat>, now: Time, actor: Actor)
    requires PendingRows(db.commands, ids)
    ensures AllAllowed(db, Cleanup(db.commands, ids, now, actor))
    decreases |ids|
  {
    if ids != [] {
      var init, last := LastPending(db.commands, ids);
      hide *;
      CleanupAllowed(db, init, now, actor);
      CleanupOneAllowed(db, init, last, now, actor, Cleanup(db.commands, init, now, actor));
      CleanupAppends(db.commands, init, last, now, actor);
    }
  }

  // ---------- Leases ----------

  predicate IsLease(w: Write, cs: seq<Command>, queue: seq<nat>, until: Time, now: Time) {
    && w.Change? && w.id in queue && w.id < |cs|
    && w.move.Lease? && w.move.until == until
    && w.now == now && now < cs[w.id].expiresAt
  }

  ghost predicate AreLeases(ws: seq<Write>, cs: seq<Command>, queue: seq<nat>, until: Time, now: Time) {
    forall k :: 0 <= k < |ws| ==> IsLease(ws[k], cs, queue, until, now)
  }

  lemma {:induction false} LeasesFromQueue(cs: seq<Command>, queue: seq<nat>, max: nat, until: Time,
                                           tokens: LeaseTokens, hub: nat, now: Time)
    requires max <= MAX_PULL
    ensures AreLeases(LeaseWrites(cs, queue, max, until, tokens, hub, now), cs, queue, until, now)
  {
    if queue != [] {
      var init, last := queue[..|queue| - 1], queue[|queue| - 1];
      LeasesFromQueue(cs, init, max, until, tokens, hub, now);
      var ws := LeaseWrites(cs, init, max, until, tokens, hub, now);
      assert queue == init + [last] && last in queue;
      forall k | 0 <= k < |ws| ensures IsLease(ws[k], cs, queue, until, now) {
        assert IsLease(ws[k], cs, init, until, now);
      }
    }
  }

  /** When no queued row is overdue the loop leases the first `max` of them, in order. */
  lemma {:induction false} LeasesArePrefix(cs: seq<Command>, queue: seq<nat>, max: nat, until: Time,
                                           tokens: LeaseTokens, hub: nat, now: Time)
    requires max <= MAX_PULL && QueuedRows(cs, queue)
    requires forall k :: 0 <= k < |queue| ==> now < cs[queue[k]].expiresAt
    ensures var ws := LeaseWrites(cs, queue, max, until, tokens, hub, now);
            && |ws| == (if |queue| < max then |queue| else max)
            && forall k :: 0 <= k < |ws| ==> ws[k] == Change(queue[k], Lease(tokens[k], until), HubActor(hub), now)
  {
    if queue != [] {
      LeasesArePrefix(cs, queue[..|queue| - 1], max, until, tokens, hub, now);
    }
  }

  lemma {:induction false} LeasesAllowed(db: Db, queue: seq<nat>, max: nat, until: Time, tokens: LeaseTokens,
                                         hub: nat, now: Time)
    requires max <= MAX_PULL && QueuedRows(db.commands, queue) && now + MILLISECOND <= until
    ensures AllAllowed(db, LeaseWrites(db.commands, queue, max, until, tokens, hub, now))
  {
    if queue != [] {
      var init, id := queue[..|queue| - 1], queue[|queue| - 1];
      LeasesAllowed(db, init, max, until, tokens, hub, now);
      var ws := LeaseWrites(db.commands, init, max, until, tokens, hub, now);
      LeasesFromQueue(db.commands, init, max, until, tokens, hub, now);
      UntouchedStays(db, ws, id);
      if |ws| < max && now < db.commands[id].expiresAt {
        AllowedOneMore(db, ws, Change(id, Lease(tokens[|ws|], until), HubActor(hub), now));
      }
    }
  }

  // ---------- Every committed write meets its guard ----------

  lemma ListingIsPending(cs: seq<Command>, q: Query, ids: seq<nat>)
    requires IsListing(cs, q, ids) && !q.HubQueued?
    ensures PendingRows(cs, ids)
  {
  }

  lemma ListingIsQueued(cs: seq<Command>, hub: nat, ids: seq<nat>)
    requires IsListing(cs, HubQueued(hub), ids)
    ensures QueuedRows(cs, ids)
  {
  }

  // ---------- What the cleanup leaves, written out ----------

  /** Command `i`, pending in `d`, is expired in `e`. */
  ghost predicate ExpiredAt(d: Db, e: Db, i: nat, actor: Actor, now: Time) {
    && i < |d.commands| && i < |e.commands|
    && var c := d.commands[i];
    && e.commands[i] == c.(status := Expired, reason := Overdue, reasonMessage := "command expired before delivery",
                           leaseToken := None, leasedAt := None, leaseExpiresAt := None, completedAt := Some(now))
    && History(e.events, i)
       == History(d.events, i)
          + [Event(i, actor, Some(c.status), Expired, Overdue, "command expired before delivery",
                   "command expired before delivery", now)]
  }

  /** Command `i`, leased in `d`, is queued again in `e`. */
  ghost predicate RequeuedAt(d: Db, e: Db, i: nat, actor: Actor, now: Time) {
    && i < |d.commands| && i < |e.commands|
    && e.commands[i] == d.commands[i].(status := Queued, reason := NoReason, reasonMessage := "",
                                       leaseToken := None, leasedAt := None, leaseExpiresAt := None)
    && History(e.events, i)
       == History(d.events, i)
          + [Event(i, actor, Some(Leased), Queued, NoReason, "", "lease expired; command requeued", now)]
  }

  lemma CleanupLeavesOne(db: Db, ids: seq<nat>, now: Time, actor: Actor, i: nat, d: Db)
    requires i < |db.commands| && i in ids && d == Cleaned(db, ids, now, actor) && CleanedAt(db, ids, now, actor, i)
    requires db.commands[i].status == Queued || db.commands[i].status == Leased
    ensures db.commands[i].expiresAt <= now ==> ExpiredAt(db, d, i, actor, now)
    ensures var c := db.commands[i];
            var lapsed := c.status == Leased && c.leaseExpiresAt.Some? && c.leaseExpiresAt.value <= now;
            now < c.expiresAt ==> if lapsed then RequeuedAt(db, d, i, actor, now) else SameAt(db, d, i)
  {
    hide Cleaned, History;
  }

  /** The cleanup for a hub or for a target expires each queued or leased command that it is
      about once that is overdue, requeues each of the others whose lease has lapsed, and
      leaves everything else alone. */
  lemma CleanupLeaves(db: Db, q: Query, ids: seq<nat>, now: Time, actor: Actor, i: nat, d: Db)
    requires IsListing(db.commands, q, ids) && !q.HubQueued? && i < |db.commands|
    requires d == Cleaned(db, ids, now, actor)
    ensures |d.commands| == |db.commands|
    ensures var c := db.commands[i];
            var due := && c.hubId == q.hub && (q.TargetPending? ==> c.nodeId == q.node)
                       && (c.status == Queued || c.status == Leased);
            var lapsed := c.status == Leased && c.leaseExpiresAt.Some? && c.leaseExpiresAt.value <= now;
            if due && c.expiresAt <= now then ExpiredAt(db, d, i, actor, now)
            else if due && lapsed then RequeuedAt(db, d, i, actor, now)
            else SameAt(db, d, i)
  {
    ListingIsPending(db.commands, q, ids);
    CleanupAt(db, ids, now, actor, i);
    assert i in ids <==> Matches(db.commands[i], q);
    if i in ids {
      CleanupLeavesOne(db, ids, now, actor, i, d);
    }
  }

  lemma CleanupThenLeasesAllowed(db: Db, clean: seq<Write>, queue: seq<nat>, max: nat, until: Time,
                                 tokens: LeaseTokens, hub: nat, now: Time)
    requires AllAllowed(db, clean)
    requires IsListing(ApplyAll(db, clean).commands, HubQueued(hub), queue)
    requires max <= MAX_PULL && now + MILLISECOND <= until
    ensures AllAllowed(db, clean + LeaseWrites(ApplyAll(db, clean).commands, queue, max, until, tokens, hub, now))
  {
    var d := ApplyAll(db, clean);
    ListingIsQueued(d.commands, hub, queue);
    LeasesAllowed(d, queue, max, until, tokens, hub, now);
    AllowedAppend(db, clean, LeaseWrites(d.commands, queue, max, until, tokens, hub, now));
  }

  lemma PullIsCleanupThenTake(db: Db, hub: nat, lease: Time, max: nat, ids: seq<nat>, queue: seq<nat>,
                              tokens: LeaseTokens, now: Time,
                              clean: seq<Write>, d: Db, take: Outcome)
    requires max <= MAX_PULL
    requires clean == Cleanup(db.commands, ids, now, HubActor(hub)) && d == ApplyAll(db, clean)
    requires take == TakeQueue(d, hub, now + lease, max, queue, tokens, now)
    ensures PullCommands(db, hub, lease, max, ids, queue, tokens, now) == Outcome(clean + take.writes, take.reply)
  {
  }

  lemma PullAllowed(db: Db, hub: nat, lease: Time, max: nat, ids: seq<nat>, queue: seq<nat>, tokens: LeaseTokens,
                    now: Time)
    requires IsListing(db.commands, HubPending(hub), ids)
    requires IsListing(Cleaned(db, ids, now, HubActor(hub)).commands, HubQueued(hub), queue)
    requires max <= MAX_PULL && lease >= MILLISECOND
    ensures AllAllowed(db, PullCommands(db, hub, lease, max, ids, queue, tokens, now).writes)
  {
    hide ApplyAll, Cleanup, AllAllowed, LeaseWrites, ShowLeases, IsListing, PendingRows, PullCommands;
    var clean := Cleanup(db.commands, ids, now, HubActor(hub));
    var d := ApplyAll(db, clean);
    ListingIsPending(db.commands, HubPending(hub), ids);
    CleanupAllowed(db, ids, now, HubActor(hub));
    CleanupThenLeasesAllowed(db, clean, queue, max, now + lease, tokens, hub, now);
    PullIsCleanupThenTake(db, hub, lease, max, ids, queue, tokens, now, clean, d,
                          TakeQueue(d, hub, now + lease, max, queue, tokens, now));
  }

  lemma AckAllowed(db: Db, hub: nat, id: nat, req: AckRequest, ids: seq<nat>, now: Time)
    requires IsListing(db.commands, HubPending(hub), ids)
    ensures AllAllowed(db, AckCommand(db, hub, id, req, ids, now).writes)
  {
    ListingIsPending(db.commands, HubPending(hub), ids);
    CleanupAllowed(db, ids, now, HubActor(hub));
    var clean := Cleanup(db.commands, ids, now, HubActor(hub));
    var cs := ApplyAll(db, clean).commands;
    if id < |cs| {
      match JudgeAck(cs[id], hub, req, now)
      case Accept(m) => AllowedOneMore(db, clean, Change(id, m, HubActor(hub), now));
      case _ =>
    }
  }

  lemma OneWriteAllowed(db: Db, w: Write)
    requires Allowed(db, w)
    ensures AllAllowed(db, [w])
  {
    AllowedOneMore(db, [], w);
    assert [] + [w] == [w];
  }

  lemma CreateAllowed(db: Db, user: nat, req: CreateRequest, readAt: Time, capturedAt: Time, now: Time)
    requires readAt <= capturedAt <= now
    ensures AllAllowed(db, Create(db, user, req, readAt, capturedAt, now).writes)
  {
    var o := Create(db, user, req, readAt, capturedAt, now);
    if o.writes != [] {
      OneWriteAllowed(db, o.writes[0]);
    }
  }

  lemma ReadingAllowed(db: Db, hub: nat, node: string, readAt: Time, now: Time)
    ensures AllAllowed(db, InsertReading(db, hub, node, readAt, now).writes)
  {
    var o := InsertReading(db, hub, node, readAt, now);
    var r := AddReading(node, hub, readAt, now);
    if |o.writes| == 1 {
      OneWriteAllowed(db, r);
    } else if |o.writes| == 2 {
      var b := Bind(node, hub, now);
      OneWriteAllowed(db, b);
      assert ApplyAll(db, [b]) == Apply(ApplyAll(db, [b][..0]), b);
      AllowedOneMore(db, [b], r);
    }
  }

  lemma ProvisioningAllowed(db: Db, call: Call)
    requires call.AssociateCall? || call.ClaimCall? || call.RevokeCall? || call.StatusCall?
    ensures AllAllowed(db, Exec(db, call).writes)
  {
    var ws := Exec(db, call).writes;
    if ws != [] {
      OneWriteAllowed(db, ws[0]);
    }
  }

  lemma ExecAllowed(db: Db, call: Call)
    requires Legal(db, call)
    ensures AllAllowed(db, Exec(db, call).writes)
  {
    match call
    case ReconcileCall(user, hub, node, ids, now) =>
      ListingIsPending(db.commands, TargetPending(hub, node), ids);
      CleanupAllowed(db, ids, now, SystemActor);
    case CreateCall(user, req, readAt, capturedAt, now) =>
      CreateAllowed(db, user, req, readAt, capturedAt, now);
    case PullCall(hub, leaseMs, max, ids, queue, tokens, now) =>
      if ValidateLeaseDuration(leaseMs).Ok? && ValidatePullMax(max).Ok? {
        PullAllowed(db, hub, ValidateLeaseDuration(leaseMs).value, ValidatePullMax(max).value, ids, queue, tokens, now);
      }
    case AckCall(hub, req, ids, now) =>
      if req.commandId.Some? {
        AckAllowed(db, hub, req.commandId.value, req, ids, now);
      }
    case ReadingCall(hub, node, measuredAt, now) =>
      ReadingAllowed(db, hub, node, measuredAt, now);
    case _ =>
      ProvisioningAllowed(db, call);
  }

  ghost predicate AllAt(ws: seq<Write>, now: Time) {
    forall k :: 0 <= k < |ws| ==> ws[k].now == now
  }

  lemma CleanupClock(cs: seq<Command>, ids: seq<nat>, now: Time, actor: Actor)
    ensures AllAt(Cleanup(cs, ids, now, actor), now)
  {
    CleanupChangesOnly(cs, ids, now, actor);
  }

  lemma LeaseClock(cs: seq<Command>, queue: seq<nat>, max: nat, until: Time, tokens: LeaseTokens, hub: nat, now: Time)
    requires max <= MAX_PULL
    ensures AllAt(LeaseWrites(cs, queue, max, until, tokens, hub, now), now)
  {
    LeasesFromQueue(cs, queue, max, until, tokens, hub, now);
  }

  lemma PullClock(db: Db, hub: nat, lease: Time, max: nat, ids: seq<nat>, queue: seq<nat>, tokens: LeaseTokens,
                  now: Time)
    requires max <= MAX_PULL
    ensures AllAt(PullCommands(db, hub, lease, max, ids, queue, tokens, now).writes, now)
  {
    hide ApplyAll, Cleanup, LeaseWrites, ShowLeases, PullCommands;
    var clean := Cleanup(db.commands, ids, now, HubActor(hub));
    var d := ApplyAll(db, clean);
    CleanupClock(db.commands, ids, now, HubActor(hub));
    LeaseClock(d.commands, queue, max, now + lease, tokens, hub, now);
    PullIsCleanupThenTake(db, hub, lease, max, ids, queue, tokens, now, clean, d,
                          TakeQueue(d, hub, now + lease, max, queue, tokens, now));
  }

  lemma AckClock(db: Db, hub: nat, id: nat, req: AckRequest, ids: seq<nat>, now: Time)
    ensures AllAt(AckCommand(db, hub, id, req, ids, now).writes, now)
  {
    CleanupClock(db.commands, ids, now, HubActor(hub));
    hide Cleanup, ApplyAll, JudgeAck;
  }

  /** All writes of a call carry the call's clock reading. */
  lemma ExecClock(db: Db, call: Call)
    requires Legal(db, call)
    ensures AllAt(Exec(db, call).writes, call.now)
  {
    match call
    case ReconcileCall(user, hub, node, ids, now) =>
      CleanupChangesOnly(db.commands, ids, now, SystemActor);
    case PullCall(hub, leaseMs, max, ids, queue, tokens, now) =>
      if ValidateLeaseDuration(leaseMs).Ok? && ValidatePullMax(max).Ok? {
        PullClock(db, hub, ValidateLeaseDuration(leaseMs).value, ValidatePullMax(max).value, ids, queue, tokens, now);
      }
    case AckCall(hub, req, ids, now) =>
      if req.commandId.Some? {
        AckClock(db, hub, req.commandId.value, req, ids, now);
      }
    case _ =>
  }
}
