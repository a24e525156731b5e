/**
 The progress frontier at a command's expiry: what is still pending is cleared by whoever
 looks next, what was already sent stays as it is for ever and blocks its node.
 */
module Frontier {
  import opened Model
  import opened Validation
  import opened Lifecycle
  import opened Store
  import opened Transactions
  import opened Effects
  import opened Runs
  import opened Invariants
  import opened Queue

  // ---------- Pending commands are cleared ----------

  /** The calls that look at a command: an accepted pull or ack by its hub, a status read by
      its owner, the reconciling transaction of a create for its target. */
  predicate LooksAt(db: Db, call: Call, r: Reply, i: nat)
    requires i < |db.commands|
  {
    var c := db.commands[i];
    match call
    case PullCall(hub, _, _, _, _, _, _) => hub == c.hubId && !r.Rejected?
    case AckCall(hub, _, _, _) => hub == c.hubId && !r.Rejected?
    case StatusCall(user, id, _) => id == i && Visible(db, user, c)
    case ReconcileCall(user, hub, node, _, _) => Owned(db, user, hub, node) && OnTarget(c, hub, node)
    case _ => false
  }

  /** Leases and acks that follow the cleanup do not touch what it expired. */
  lemma TakeSkipsExpired(d: Db, hub: nat, until: Time, max: nat, queue: seq<nat>, tokens: LeaseTokens, now: Time,
                         i: nat)
    requires i < |d.commands| && d.commands[i].status == Expired
    requires QueuedRows(d.commands, queue) && max <= MAX_PULL
    ensures SameAt(d, ApplyAll(d, TakeQueue(d, hub, until, max, queue, tokens, now).writes), i)
  {
    var ws := LeaseWrites(d.commands, queue, max, until, tokens, hub, now);
    LeasesFromQueue(d.commands, queue, max, until, tokens, hub, now);
    forall k | 0 <= k < |ws| ensures ws[k].Change? && !Touches(ws[k], i) {
      assert IsLease(ws[k], d.commands, queue, until, now);
    }
    UntouchedStays(d, ws, i);
  }

  lemma PullExpires(db: Db, hub: nat, lease: Time, max: nat, ids: seq<nat>, queue: seq<nat>, tokens: LeaseTokens,
                    now: Time, i: nat,
                    clean: seq<Write>, d: Db, take: Outcome, o: Outcome)
    requires clean == Cleanup(db.commands, ids, now, HubActor(hub)) && d == ApplyAll(db, clean) && max <= MAX_PULL
    requires take == TakeQueue(d, hub, now + lease, max, queue, tokens, now)
    requires o == PullCommands(db, hub, lease, max, ids, queue, tokens, now)
    requires IsListing(d.commands, HubQueued(hub), queue)
    requires i < |d.commands| && d.commands[i].status == Expired
    ensures SameAt(d, ApplyAll(db, o.writes), i)
  {
    hide *;
    PullIsCleanupThenTake(db, hub, lease, max, ids, queue, tokens, now, clean, d, take);
    TakeAfter(db, clean, take, o);
    ListingIsQueued(d.commands, hub, queue);
    TakeSkipsExpired(d, hub, now + lease, max, queue, tokens, now, i);
  }

  lemma AckKeepsCleaned(db: Db, hub: nat, id: nat, req: AckRequest, ids: seq<nat>, now: Time, i: nat, clean: seq<Write>,
                        d: Db)
    requires clean == Cleanup(db.commands, ids, now, HubActor(hub)) && d == ApplyAll(db, clean)
    requires i < |d.commands| && (d.commands[i].status == Expired || d.commands[i].status == Queued)
    requires !AckCommand(db, hub, id, req, ids, now).reply.Rejected?
    ensures SameAt(d, ApplyAll(db, AckCommand(db, hub, id, req, ids, now).writes), i)
  {
    var o := AckCommand(db, hub, id, req, ids, now);
    if o.writes != clean {
      var w := o.writes[|clean|];
      assert o.writes == clean + [w] && w.Change? && w.id == id && id != i;
      ApplyOneMore(db, clean, w);
      ChangeAt(d, w, i);
    }
  }

  /** Who is said to have caused what a call cleans up. */
  function CleaningActor(call: Call): Actor {
    if call.PullCall? || call.AckCall? then HubActor(call.hub) else SystemActor
  }

  lemma PullExpiresOverdue(db: Db, call: Call, r: Reply, e: Db, i: nat)
    requires call.PullCall? && Performed(db, call, r, e) && !r.Rejected?
    requires i < |db.commands| && db.commands[i].hubId == call.hub
    requires Pending(db.commands[i].status) && db.commands[i].expiresAt <= call.now
    ensures ExpiredAt(db, e, i, HubActor(call.hub), call.now)
  {
    var hub, now := call.hub, call.now;
    PerformedIs(db, call, r, e);
    PullLists(db, call);
    var lease, max := AcceptedPullIsValid(db, call);
    PullIsExec(db, call, lease, max);
    var clean := Cleanup(db.commands, call.ids, now, HubActor(hub));
    var d := ApplyAll(db, clean);
    CleanupLeaves(db, HubPending(hub), call.ids, now, HubActor(hub), i, d);
    hide Exec, Cleanup, ApplyAll, IsListing, PullCommands, History, Legal;
    PullExpires(db, hub, lease, max, call.ids, call.queue, call.tokens, now, i, clean, d,
                TakeQueue(d, hub, now + lease, max, call.queue, call.tokens, now),
                PullCommands(db, hub, lease, max, call.ids, call.queue, call.tokens, now));
  }

  lemma AckExpiresOverdue(db: Db, call: Call, r: Reply, e: Db, i: nat)
    requires call.AckCall? && Performed(db, call, r, e) && !r.Rejected?
    requires i < |db.commands| && db.commands[i].hubId == call.hub
    requires Pending(db.commands[i].status) && db.commands[i].expiresAt <= call.now
    ensures ExpiredAt(db, e, i, HubActor(call.hub), call.now)
  {
    var clean := Cleanup(db.commands, call.ids, call.now, HubActor(call.hub));
    var d := ApplyAll(db, clean);
    CleanupLeaves(db, HubPending(call.hub), call.ids, call.now, HubActor(call.hub), i, d);
    hide Cleanup, ApplyAll, IsListing, History, AckCommand;
    AckKeepsCleaned(db, call.hub, call.ack.commandId.value, call.ack, call.ids, call.now, i, clean, d);
  }

  lemma StatusExpiresOverdue(db: Db, call: Call, r: Reply, e: Db)
    requires call.StatusCall? && Performed(db, call, r, e)
    requires call.id < |db.commands| && Visible(db, call.user, db.commands[call.id])
    requires Pending(db.commands[call.id].status) && db.commands[call.id].expiresAt <= call.now
    ensures ExpiredAt(db, e, call.id, SystemActor, call.now)
  {
    var w := Change(call.id, Expire, SystemActor, call.now);
    OneWrite(db, w);
    ChangeAt(db, w, call.id);
  }

  lemma ReconcileCleans(db: Db, call: Call, r: Reply, e: Db)
    requires call.ReconcileCall? && Performed(db, call, r, e) && Owned(db, call.user, call.hub, call.node)
    ensures IsListing(db.commands, TargetPending(call.hub, call.node), call.ids)
    ensures e == Cleaned(db, call.ids, call.now, SystemActor) && r == Done
  {
  }

  /** At or after its expiry, a queued or leased command is expired by whoever looks at it:
      its row and its history are then exactly these. */
  lemma OverdueIsCleared(db: Db, call: Call, r: Reply, e: Db, i: nat)
    requires Performed(db, call, r, e) && i < |db.commands| && LooksAt(db, call, r, i)
    requires Pending(db.commands[i].status) && db.commands[i].expiresAt <= call.now
    ensures i < |e.commands|
    ensures e.commands[i]
            == db.commands[i].(status := Expired, reason := Overdue, reasonMessage := "command expired before delivery",
                               leaseToken := None, leasedAt := None, leaseExpiresAt := None,
                               completedAt := Some(call.now))
    ensures History(e.events, i)
            == History(db.events, i)
               + [Event(i, CleaningActor(call), Some(db.commands[i].status), Expired, Overdue,
                        "command expired before delivery", "command expired before delivery", call.now)]
    ensures call.StatusCall? ==> r == Commands([Shown(i, e.commands[i])])
  {
    ShownToOwner(db, call, r, e, i);
    hide Exec, History, Legal;
    match call
    case PullCall(_, _, _, _, _, _, _) => PullExpiresOverdue(db, call, r, e, i);
    case AckCall(_, _, _, _) => AckExpiresOverdue(db, call, r, e, i);
    case StatusCall(_, _, _) => StatusExpiresOverdue(db, call, r, e);
    case ReconcileCall(_, hub, node, ids, now) =>
      ReconcileCleans(db, call, r, e);
      CleanupLeaves(db, TargetPending(hub, node), ids, now, SystemActor, i, e);
  }

  lemma ShownToOwner(db: Db, call: Call, r: Reply, e: Db, i: nat)
    requires Performed(db, call, r, e) && i < |db.commands| && LooksAt(db, call, r, i)
    requires Pending(db.commands[i].status) && db.commands[i].expiresAt <= call.now
    ensures call.StatusCall? ==> i < |e.commands| && r == Commands([Shown(i, e.commands[i])])
  {
    if call.StatusCall? {
      OneWrite(db, Change(i, Expire, SystemActor, call.now));
    }
  }

  // ---------- Lapsed leases are requeued ----------

  /** A command whose lease has lapsed before its own expiry. */
  predicate Lapsed(c: Command, now: Time) {
    c.status == Leased && c.leaseExpiresAt.Some? && c.leaseExpiresAt.value <= now < c.expiresAt
  }

  /** The reconciling transaction of a create, and every accepted ack of the hub, requeue a
      command whose lease has lapsed. */
  lemma LapsedIsRequeued(db: Db, call: Call, r: Reply, e: Db, i: nat)
    requires Performed(db, call, r, e) && i < |db.commands| && LooksAt(db, call, r, i)
    requires (call.ReconcileCall? || call.AckCall?) && Lapsed(db.commands[i], call.now)
    ensures i < |e.commands|
    ensures e.commands[i]
            == db.commands[i].(status := Queued, reason := NoReason, reasonMessage := "",
                               leaseToken := None, leasedAt := None, leaseExpiresAt := None)
    ensures History(e.events, i)
            == History(db.events, i)
               + [Event(i, CleaningActor(call), Some(Leased), Queued, NoReason, "",
                        "lease expired; command requeued", call.now)]
  {
    if call.ReconcileCall? {
      ReconcileCleans(db, call, r, e);
      CleanupLeaves(db, TargetPending(call.hub, call.node), call.ids, call.now, SystemActor, i, e);
    } else {
      AckRequeuesLapsed(db, call, r, e, i);
    }
  }

  lemma AckRequeuesLapsed(db: Db, call: Call, r: Reply, e: Db, i: nat)
    requires call.AckCall? && Performed(db, call, r, e) && !r.Rejected?
    requires i < |db.commands| && db.commands[i].hubId == call.hub && Lapsed(db.commands[i], call.now)
    ensures RequeuedAt(db, e, i, HubActor(call.hub), call.now)
  {
    var clean := Cleanup(db.commands, call.ids, call.now, HubActor(call.hub));
    var d := ApplyAll(db, clean);
    CleanupLeaves(db, HubPending(call.hub), call.ids, call.now, HubActor(call.hub), i, d);
    hide Cleanup, ApplyAll, IsListing, History, AckCommand;
    AckKeepsCleaned(db, call.hub, call.ack.commandId.value, call.ack, call.ids, call.now, i, clean, d);
  }

  lemma LapsedInPull(db: Db, call: Call, i: nat, d: Db)
    requires call.PullCall? && Legal(db, call) && d == Cleaned(db, call.ids, call.now, HubActor(call.hub))
    requires i < |db.commands| && db.commands[i].hubId == call.hub && Lapsed(db.commands[i], call.now)
    ensures RequeuedAt(db, d, i, HubActor(call.hub), call.now)
  {
    CleanupLeaves(db, HubPending(call.hub), call.ids, call.now, HubActor(call.hub), i, d);
  }

  lemma TakenOrLeft(d: Db, e: Db, shown: seq<Shown>, hub: nat, queue: seq<nat>, max: nat, until: Time,
                    tokens: LeaseTokens, now: Time, i: nat) returns (token: Option<string>)
    requires max <= MAX_PULL && IsFifoTake(d, e, shown, hub, queue, max, until, tokens, now) && i < |d.commands|
    ensures token.None? ==> SameAt(d, e, i)
    ensures token.Some? ==> LeasedTo(d, e, i, token.value, until, hub, now)
  {
    hide LeasedTo, SameAt;
    var n := Min(max, |queue|);
    if i in queue[..n] {
      var k :| 0 <= k < n && queue[..n][k] == i;
      assert queue[k] == i;
      token := Some(tokens[k]);
    } else {
      token := None;
    }
  }

  /** Command `i`, leased in `db`, was requeued and leased again in one go. */
  ghost predicate LeasedAnew(db: Db, e: Db, i: nat, hub: nat, lease: Time, now: Time) {
    && i < |db.commands| && i < |e.commands|
    && e.commands[i].leaseToken.Some?
    && e.commands[i] == db.commands[i].(status := Leased, reason := NoReason, reasonMessage := "",
                                        leaseToken := e.commands[i].leaseToken,
                                        leasedAt := Some(now), leaseExpiresAt := Some(now + lease))
    && History(e.events, i)
       == History(db.events, i)
          + [Event(i, HubActor(hub), Some(Leased), Queued, NoReason, "", "lease expired; command requeued", now),
             Event(i, HubActor(hub), Some(Queued), Leased, NoReason, "", "command leased to hub", now)]
  }

  lemma RequeuedThenLeased(db: Db, d: Db, e: Db, i: nat, token: string, hub: nat, lease: Time, now: Time)
    requires RequeuedAt(db, d, i, HubActor(hub), now) && LeasedTo(d, e, i, token, now + lease, hub, now)
    ensures LeasedAnew(db, e, i, hub, lease, now)
  {
    hide History;
  }

  lemma RequeuedAndLeft(db: Db, d: Db, e: Db, i: nat, actor: Actor, now: Time)
    requires RequeuedAt(db, d, i, actor, now) && SameAt(d, e, i)
    ensures RequeuedAt(db, e, i, actor, now)
  {
    hide History;
  }

  lemma RowKnown(db: Db, d: Db, i: nat, actor: Actor, now: Time)
    requires RequeuedAt(db, d, i, actor, now)
    ensures i < |d.commands|
  {
  }

  /** A pull of the hub requeues such a command too, and it may lease it again at once. */
  lemma LapsedIsRequeuedByPull(db: Db, call: Call, r: Reply, e: Db, i: nat)
    requires call.PullCall? && Performed(db, call, r, e) && !r.Rejected?
    requires i < |db.commands| && db.commands[i].hubId == call.hub && Lapsed(db.commands[i], call.now)
    ensures RequeuedAt(db, e, i, HubActor(call.hub), call.now)
            || LeasedAnew(db, e, i, call.hub, if call.leaseMs == 0 then 15 * SECOND else call.leaseMs * MILLISECOND,
                          call.now)
  {
    hide *;
    PerformedIs(db, call, r, e);
    var d, lease, max := PullIsFifo(db, call, r, e);
    LapsedInPull(db, call, i, d);
    RowKnown(db, d, i, HubActor(call.hub), call.now);
    var token := TakenOrLeft(d, e, r.shown, call.hub, call.queue, max, call.now + lease, call.tokens, call.now, i);
    if token.Some? {
      RequeuedThenLeased(db, d, e, i, token.value, call.hub, lease, call.now);
    } else {
      RequeuedAndLeft(db, d, e, i, HubActor(call.hub), call.now);
    }
  }

  // ---------- Sent commands are stuck ----------

  predicate Stuck(c: Command, now: Time) {
    (c.status == Sent || c.status == Executing) && c.expiresAt <= now
  }

  lemma WriteKeepsSettled(db: Db, w: Write, i: nat, now: Time)
    requires i < |db.commands| && !Pending(db.commands[i].status) && db.commands[i].expiresAt <= now
    requires now <= w.now && Allowed(db, w)
    ensures i < |Apply(db, w).commands| && Apply(db, w).commands[i] == db.commands[i]
  {
  }

  lemma {:induction false} SettledStays(db: Db, ws: seq<Write>, i: nat, now: Time)
    requires i < |db.commands| && !Pending(db.commands[i].status) && db.commands[i].expiresAt <= now
    requires AllAllowed(db, ws) && Clocked(ws, now)
    ensures i < |ApplyAll(db, ws).commands| && ApplyAll(db, ws).commands[i] == db.commands[i]
  {
    if ws != [] {
      var init, last := LastWrite(db, ws);
      assert Clocked(init, now);
      SettledStays(db, init, i, now);
      WriteKeepsSettled(ApplyAll(db, init), last, i, now);
    }
  }

  /** A command that was sent but not finished by its expiry keeps its row in every
      continuation, whatever its hub reports. */
  lemma SentPastExpiryIsStuck(db: Db, calls: seq<Call>, d: Db, i: nat, now: Time)
    requires i < |db.commands| && Stuck(db.commands[i], now)
    requires IsRun(db, calls, d) && ClockedRun(calls, now)
    ensures i < |d.commands| && d.commands[i] == db.commands[i]
  {
    RunIsItsLog(db, calls);
    LogIsClocked(db, calls, now);
    SettledStays(db, RunLog(db, calls), i, now);
  }

  lemma ActiveBlocksNode(d: Db, i: nat, create: Call)
    requires Aligned(d) && i < |d.commands| && Active(d.commands[i].status)
    requires create.CreateCall? && create.create.nodeId == d.commands[i].nodeId
    requires FindKey(d.commands, create.user, create.create.nodeId, create.create.key).None?
    ensures Exec(d, create).reply.Rejected?
  {
    var c := d.commands[i];
    assert Owned(d, c.userId, c.hubId, c.nodeId);
    assert OnTarget(c, c.hubId, c.nodeId);
    assert HasActive(d.commands, c.hubId, c.nodeId);
  }

  /** And from then on every create for its node with a new key, by anyone and through any
      hub, is refused. */
  lemma StuckCommandBlocksNode(db: Db, calls: seq<Call>, d: Db, i: nat, now: Time, create: Call, r: Reply, e: Db)
    requires Inv(db) && i < |db.commands| && Stuck(db.commands[i], now)
    requires IsRun(db, calls, d) && ClockedRun(calls, now) && Performed(d, create, r, e)
    requires create.CreateCall? && create.create.nodeId == db.commands[i].nodeId
    requires FindKey(d.commands, create.user, create.create.nodeId, create.create.key).None?
    ensures r.Rejected? && e == d
  {
    SentPastExpiryIsStuck(db, calls, d, i, now);
    RunKeepsInv(db, calls);
    ActiveBlocksNode(d, i, create);
    RejectedChangesNothing(d, create);
  }

  /** The frontier: once a command is overdue, a look at it leaves it terminal exactly when
      it had not been sent, or had been finished already. */
  lemma ProgressFrontier(db: Db, call: Call, r: Reply, e: Db, i: nat)
    requires Inv(db) && Performed(db, call, r, e) && i < |db.commands| && LooksAt(db, call, r, i)
    requires db.commands[i].expiresAt <= call.now
    ensures i < |e.commands|
    ensures Terminal(e.commands[i].status) <==>
              db.commands[i].status != Sent && db.commands[i].status != Executing
  {
    assert Sound(db.commands[i], History(db.events, i));
    ExecAllowed(db, call);
    ExecClock(db, call);
    var ws := Exec(db, call).writes;
    assert Clocked(ws, call.now);
    if Pending(db.commands[i].status) {
      OverdueIsCleared(db, call, r, e, i);
    } else {
      SettledStays(db, ws, i, call.now);
    }
  }
}
