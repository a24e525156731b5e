/**
 Pull and ack on one state: pull refines a first-in first-out take of the queue that the
 cleanup leaves, ack is all-or-nothing and can be repeated.
 */
module Queue {
  import opened Model
  import opened Validation
  import opened Lifecycle
  import opened Store
  import opened Transactions
  import opened Effects
  import opened Runs
  import opened Invariants

  // ---------- The state after a hub's cleanup ----------

  /** None of a hub's pending commands is overdue and none of its leases has lapsed. */
  ghost predicate Current(db: Db, hub: nat, now: Time) {
    forall i :: 0 <= i < |db.commands| && db.commands[i].hubId == hub && Pending(db.commands[i].status) ==>
                  CleanupMove(db.commands[i], now).None?
  }

  lemma CleanedRow(db: Db, hub: nat, ids: seq<nat>, now: Time, i: nat)
    requires IsListing(db.commands, HubPending(hub), ids) && i < |db.commands|
    ensures |Cleaned(db, ids, now, HubActor(hub)).commands| == |db.commands|
    ensures Cleaned(db, ids, now, HubActor(hub)).commands[i]
            == if db.commands[i].hubId == hub then Reconciled(db.commands[i], now) else db.commands[i]
  {
    ListingIsPending(db.commands, HubPending(hub), ids);
    CleanupAt(db, ids, now, HubActor(hub), i);
    assert db.commands[i].hubId == hub && Pending(db.commands[i].status) ==>
        Matches(db.commands[i], HubPending(hub)) && i in ids;
  }

  lemma CleanupMakesCurrent(db: Db, hub: nat, ids: seq<nat>, now: Time)
    requires IsListing(db.commands, HubPending(hub), ids)
    ensures Current(Cleaned(db, ids, now, HubActor(hub)), hub, now)
  {
    var d := Cleaned(db, ids, now, HubActor(hub));
    CleanupKeepsFrame(db, ids, now, HubActor(hub));
    forall i | 0 <= i < |d.commands| && d.commands[i].hubId == hub && Pending(d.commands[i].status)
      ensures CleanupMove(d.commands[i], now).None?
    {
      CleanedRow(db, hub, ids, now, i);
    }
  }

  lemma CleanupMakesCurrentState(db: Db, hub: nat, ids: seq<nat>, now: Time, clean: seq<Write>, d: Db)
    requires IsListing(db.commands, HubPending(hub), ids)
    requires clean == Cleanup(db.commands, ids, now, HubActor(hub)) && d == ApplyAll(db, clean)
    ensures Current(d, hub, now)
  {
    CleanupMakesCurrent(db, hub, ids, now);
  }

  lemma CleanupKeepsFrame(db: Db, ids: seq<nat>, now: Time, actor: Actor)
    ensures SameFrame(db, Cleaned(db, ids, now, actor))
  {
    CleanupIsOnlyChanges(db.commands, ids, now, actor);
    ChangesKeepFrame(db, Cleanup(db.commands, ids, now, actor));
  }

  lemma CleanupIsOnlyChanges(cs: seq<Command>, ids: seq<nat>, now: Time, actor: Actor)
    ensures OnlyChanges(Cleanup(cs, ids, now, actor))
  {
    CleanupChangesOnly(cs, ids, now, actor);
    var ws := Cleanup(cs, ids, now, actor);
    forall k | 0 <= k < |ws| ensures ws[k].Change? {
      assert IsCleanup(ws[k], ids, now);
    }
  }

  // ---------- Pull ----------

  lemma {:induction false} ShownLeases(cs: seq<Command>, ws: seq<Write>)
    requires forall k :: 0 <= k < |ws| ==> ws[k].Change? && ws[k].id < |cs|
    ensures |ShowLeases(cs, ws)| == |ws|
    ensures forall k :: 0 <= k < |ws| ==>
              ShowLeases(cs, ws)[k] == Shown(ws[k].id, Moved(cs[ws[k].id], ws[k].move, ws[k].now))
  {
    if ws != [] {
      ShownLeases(cs, ws[..|ws| - 1]);
    }
  }

  function Min(a: nat, b: nat): nat {
    if a < b then a else b
  }

  /** Command `i`, queued in `d`, is leased in `e`: its lease fields and reasons are set, the
      rest of its row is kept, and one event says so. */
  ghost predicate LeasedTo(d: Db, e: Db, i: nat, token: string, until: Time, hub: nat, now: Time) {
    && i < |d.commands| && i < |e.commands|
    && d.commands[i].status == Queued
    && e.commands[i] == d.commands[i].(status := Leased, reason := NoReason, reasonMessage := "",
                                       leaseToken := Some(token), leasedAt := Some(now), leaseExpiresAt := Some(until))
    && History(e.events, i)
       == History(d.events, i)
          + [Event(i, HubActor(hub), Some(Queued), Leased, NoReason, "", "command leased to hub", now)]
  }

  ghost predicate OncePerRow(db: Db, ws: seq<Write>) {
    && (forall k :: 0 <= k < |ws| ==> ws[k].Change? && ws[k].id < |db.commands|)
    && (forall j, k :: 0 <= j < k < |ws| ==> ws[j].id != ws[k].id)
  }

  lemma {:induction false} EachTakesEffect(db: Db, ws: seq<Write>, k: nat)
    requires OncePerRow(db, ws) && k < |ws|
    ensures var e := ApplyAll(db, ws);
            && |e.commands| == |db.commands|
            && e.commands[ws[k].id] == Moved(db.commands[ws[k].id], ws[k].move, ws[k].now)
            && History(e.events, ws[k].id)
               == History(db.events, ws[k].id)
                  + [MoveEvent(ws[k].id, db.commands[ws[k].id], ws[k].move, ws[k].actor, ws[k].now)]
  {
    hide History, Moved, MoveEvent;
    var init, last := ws[..|ws| - 1], ws[|ws| - 1];
    assert ws == init + [last];
    ChangesKeepFrame(db, init);
    ChangeAt(ApplyAll(db, init), last, ws[k].id);
    if k < |init| {
      EachTakesEffect(db, init, k);
    } else {
      UntouchedStays(db, init, last.id);
    }
  }

  /** The writes of the lease loop when it takes the first `n` of the queue. */
  ghost predicate TakesFirst(ws: seq<Write>, queue: seq<nat>, n: nat, until: Time, tokens: LeaseTokens, hub: nat,
                             now: Time) {
    && |ws| == n <= |queue| && n <= MAX_PULL
    && forall k :: 0 <= k < n ==> ws[k] == Change(queue[k], Lease(tokens[k], until), HubActor(hub), now)
  }

  lemma FirstOfLiveQueue(d: Db, queue: seq<nat>, max: nat, until: Time, tokens: LeaseTokens, hub: nat, now: Time)
    requires max <= MAX_PULL && QueuedRows(d.commands, queue)
    requires forall k :: 0 <= k < |queue| ==> now < d.commands[queue[k]].expiresAt
    ensures TakesFirst(LeaseWrites(d.commands, queue, max, until, tokens, hub, now), queue, Min(max, |queue|), until,
            tokens, hub, now)
    ensures OncePerRow(d, LeaseWrites(d.commands, queue, max, until, tokens, hub, now))
  {
    LeasesArePrefix(d.commands, queue, max, until, tokens, hub, now);
  }

  lemma LeaseWritten(d: Db, e: Db, i: nat, token: string, until: Time, hub: nat, now: Time)
    requires i < |d.commands| && i < |e.commands| && d.commands[i].status == Queued
    requires e.commands[i] == Moved(d.commands[i], Lease(token, until), now)
    requires History(e.events, i)
             == History(d.events, i) + [MoveEvent(i, d.commands[i], Lease(token, until), HubActor(hub), now)]
    ensures LeasedTo(d, e, i, token, until, hub, now)
  {
  }

  lemma TakeLeases(d: Db, ws: seq<Write>, queue: seq<nat>, n: nat, until: Time, tokens: LeaseTokens, hub: nat,
                   now: Time, k: nat)
    requires TakesFirst(ws, queue, n, until, tokens, hub, now) && OncePerRow(d, ws) && k < n
    requires queue[k] < |d.commands| && d.commands[queue[k]].status == Queued
    ensures |d.commands| == |ApplyAll(d, ws).commands|
    ensures LeasedTo(d, ApplyAll(d, ws), queue[k], tokens[k], until, hub, now)
    ensures |ShowLeases(d.commands, ws)| == n
    ensures ShowLeases(d.commands, ws)[k] == Shown(queue[k], ApplyAll(d, ws).commands[queue[k]])
  {
    assert ws[k] == Change(queue[k], Lease(tokens[k], until), HubActor(hub), now);
    ShownLeases(d.commands, ws);
    EachTakesEffect(d, ws, k);
    hide History, ApplyAll, LeasedTo, MoveEvent;
    LeaseWritten(d, ApplyAll(d, ws), queue[k], tokens[k], until, hub, now);
  }

  lemma TakeLeavesTheRest(d: Db, ws: seq<Write>, queue: seq<nat>, n: nat, until: Time, tokens: LeaseTokens, hub: nat,
                          now: Time, i: nat)
    requires TakesFirst(ws, queue, n, until, tokens, hub, now) && OncePerRow(d, ws) && i !in queue[..n]
    ensures SameAt(d, ApplyAll(d, ws), i)
  {
    forall k | 0 <= k < |ws| ensures ws[k].Change? && !Touches(ws[k], i) {
      assert queue[..n][k] == queue[k];
    }
    UntouchedStays(d, ws, i);
  }

  /** Every queued command of the hub that a take of `n` leaves is no older than those taken. */
  lemma LeftBehindIsYounger(cs: seq<Command>, hub: nat, queue: seq<nat>, n: nat, i: nat)
    requires IsListing(cs, HubQueued(hub), queue) && n <= |queue|
    requires i < |cs| && Matches(cs[i], HubQueued(hub)) && i !in queue[..n]
    ensures n < |queue|
    ensures forall k :: 0 <= k < n ==> queue[k] < |cs| && cs[queue[k]].createdAt <= cs[i].createdAt
  {
    var m :| 0 <= m < |queue| && queue[m] == i;
    assert n <= m;
  }

  /** The first `n` commands of `queue`, none of them overdue, were leased and shown in order. */
  ghost predicate LeasedInOrder(d: Db, e: Db, shown: seq<Shown>, queue: seq<nat>, n: nat, until: Time,
                                tokens: LeaseTokens, hub: nat, now: Time)
    requires n <= |queue| && n <= MAX_PULL && |d.commands| == |e.commands|
  {
    && |shown| == n
    && forall k :: 0 <= k < n ==>
         && queue[k] < |d.commands| && now < d.commands[queue[k]].expiresAt
         && LeasedTo(d, e, queue[k], tokens[k], until, hub, now)
         && shown[k] == Shown(queue[k], e.commands[queue[k]])
  }

  /** Every command but the first `n` of `queue` was left alone. */
  ghost predicate RestAlone(d: Db, e: Db, queue: seq<nat>, n: nat)
    requires n <= |queue|
  {
    forall i :: 0 <= i < |d.commands| && i !in queue[..n] ==> SameAt(d, e, i)
  }

  /** A command of the hub is still queued only if a full take of older ones was leased. */
  ghost predicate NoneOlderLeft(d: Db, e: Db, hub: nat, queue: seq<nat>, n: nat, max: nat)
    requires n <= |queue| && |d.commands| == |e.commands|
  {
    forall i :: 0 <= i < |d.commands| && Matches(e.commands[i], HubQueued(hub)) ==>
                  && n == max
                  && forall k :: 0 <= k < n ==>
                      queue[k] < |d.commands| && d.commands[queue[k]].createdAt <= d.commands[i].createdAt
  }

  ghost predicate IsFifoTake(d: Db, e: Db, shown: seq<Shown>, hub: nat, queue: seq<nat>, max: nat, until: Time,
                             tokens: LeaseTokens, now: Time)
    requires max <= MAX_PULL
  {
    && SameFrame(d, e)
    && LeasedInOrder(d, e, shown, queue, Min(max, |queue|), until, tokens, hub, now)
    && RestAlone(d, e, queue, Min(max, |queue|))
    && NoneOlderLeft(d, e, hub, queue, Min(max, |queue|), max)
  }

  lemma TakeLeasesInOrder(d: Db, ws: seq<Write>, queue: seq<nat>, n: nat, until: Time, tokens: LeaseTokens, hub: nat,
                          now: Time)
    requires TakesFirst(ws, queue, n, until, tokens, hub, now) && OncePerRow(d, ws)
    requires QueuedRows(d.commands, queue)
    requires forall k :: 0 <= k < n ==> queue[k] < |d.commands| && now < d.commands[queue[k]].expiresAt
    ensures SameFrame(d, ApplyAll(d, ws))
    ensures LeasedInOrder(d, ApplyAll(d, ws), ShowLeases(d.commands, ws), queue, n, until, tokens, hub, now)
  {
    ShownLeases(d.commands, ws);
    ChangesKeepFrame(d, ws);
    hide LeasedTo, History, ShowLeases, ApplyAll;
    forall k | 0 <= k < n
      ensures LeasedTo(d, ApplyAll(d, ws), queue[k], tokens[k], until, hub, now)
      ensures ShowLeases(d.commands, ws)[k] == Shown(queue[k], ApplyAll(d, ws).commands[queue[k]])
    {
      TakeLeases(d, ws, queue, n, until, tokens, hub, now, k);
    }
  }

  lemma TakeLeavesNoneOlder(d: Db, e: Db, shown: seq<Shown>, queue: seq<nat>, n: nat, until: Time,
                            tokens: LeaseTokens, hub: nat, now: Time, i: nat)
    requires n <= |queue| && n <= MAX_PULL && |d.commands| == |e.commands|
    requires LeasedInOrder(d, e, shown, queue, n, until, tokens, hub, now) && RestAlone(d, e, queue, n)
    requires IsListing(d.commands, HubQueued(hub), queue)
    requires i < |d.commands| && Matches(e.commands[i], HubQueued(hub))
    ensures n < |queue|
    ensures forall k :: 0 <= k < n ==>
            queue[k] < |d.commands| && d.commands[queue[k]].createdAt <= d.commands[i].createdAt
  {
    forall k | 0 <= k < n ensures queue[k] != i {
      assert LeasedTo(d, e, queue[k], tokens[k], until, hub, now);
    }
    assert i !in queue[..n];
    assert SameAt(d, e, i);
    LeftBehindIsYounger(d.commands, hub, queue, n, i);
  }

  lemma TakeIsFifo(d: Db, hub: nat, until: Time, max: nat, queue: seq<nat>, tokens: LeaseTokens, now: Time,
                   take: Outcome)
    returns (e: Db, shown: seq<Shown>)
    requires Current(d, hub, now) && IsListing(d.commands, HubQueued(hub), queue) && max <= MAX_PULL
    requires take == TakeQueue(d, hub, until, max, queue, tokens, now)
    ensures e == ApplyAll(d, take.writes) && take.reply == Commands(shown)
    ensures IsFifoTake(d, e, shown, hub, queue, max, until, tokens, now)
  {
    var n, ws := Min(max, |queue|), LeaseWrites(d.commands, queue, max, until, tokens, hub, now);
    e, shown := ApplyAll(d, ws), ShowLeases(d.commands, ws);
    ListingIsQueued(d.commands, hub, queue);
    assert forall k :: 0 <= k < |queue| ==> Matches(d.commands[queue[k]], HubQueued(hub));
    FirstOfLiveQueue(d, queue, max, until, tokens, hub, now);
    TakeLeasesInOrder(d, ws, queue, n, until, tokens, hub, now);
    forall i | 0 <= i < |d.commands| && i !in queue[..n] ensures SameAt(d, e, i) {
      TakeLeavesTheRest(d, ws, queue, n, until, tokens, hub, now, i);
    }
    assert RestAlone(d, e, queue, n);
    forall i | 0 <= i < |d.commands| && Matches(e.commands[i], HubQueued(hub))
      ensures n == max
      ensures forall k :: 0 <= k < n ==>
                queue[k] < |d.commands| && d.commands[queue[k]].createdAt <= d.commands[i].createdAt
    {
      TakeLeavesNoneOlder(d, e, shown, queue, n, until, tokens, hub, now, i);
    }
  }

  lemma TakeAfter(db: Db, clean: seq<Write>, take: Outcome, o: Outcome)
    requires o == Outcome(clean + take.writes, take.reply)
    ensures ApplyAll(db, o.writes) == ApplyAll(ApplyAll(db, clean), take.writes)
  {
    ApplyAppend(db, clean, take.writes);
  }

  lemma PullCommandsIsFifo(db: Db, hub: nat, lease: Time, max: nat, ids: seq<nat>, queue: seq<nat>,
                           tokens: LeaseTokens, now: Time,
                           clean: seq<Write>, d: Db, o: Outcome)
    returns (e: Db, shown: seq<Shown>)
    requires IsListing(db.commands, HubPending(hub), ids) && max <= MAX_PULL
    requires clean == Cleanup(db.commands, ids, now, HubActor(hub)) && d == ApplyAll(db, clean)
    requires IsListing(d.commands, HubQueued(hub), queue)
    requires o == PullCommands(db, hub, lease, max, ids, queue, tokens, now)
    ensures e == ApplyAll(db, o.writes) && o.reply == Commands(shown)
    ensures IsFifoTake(d, e, shown, hub, queue, max, now + lease, tokens, now)
  {
    hide *;
    var take := TakeQueue(d, hub, now + lease, max, queue, tokens, now);
    PullIsCleanupThenTake(db, hub, lease, max, ids, queue, tokens, now, clean, d, take);
    TakeAfter(db, clean, take, o);
    CleanupMakesCurrentState(db, hub, ids, now, clean, d);
    e, shown := TakeIsFifo(d, hub, now + lease, max, queue, tokens, now, take);
  }

  lemma PullIsExec(d: Db, call: Call, lease: Time, max: nat)
    requires call.PullCall?
    requires ValidateLeaseDuration(call.leaseMs) == Ok(lease) && ValidatePullMax(call.maxCommands) == Ok(max)
    ensures Exec(d, call) == PullCommands(d, call.hub, lease, max, call.ids, call.queue, call.tokens, call.now)
  {
  }

  lemma PullLists(db: Db, call: Call)
    requires call.PullCall? && Legal(db, call)
    ensures IsListing(db.commands, HubPending(call.hub), call.ids)
    ensures IsListing(ApplyAll(db, Cleanup(db.commands, call.ids, call.now, HubActor(call.hub))).commands,
            HubQueued(call.hub), call.queue)
  {
  }

  lemma PerformedIs(db: Db, call: Call, r: Reply, e: Db)
    requires Performed(db, call, r, e)
    ensures Legal(db, call) && r == Exec(db, call).reply && e == ApplyAll(db, Exec(db, call).writes)
  {
  }

  lemma CleanedIs(db: Db, ids: seq<nat>, now: Time, actor: Actor)
    ensures Cleaned(db, ids, now, actor) == ApplyAll(db, Cleanup(db.commands, ids, now, actor))
  {
  }

  lemma AcceptedPullIsValid(db: Db, call: Call) returns (lease: Time, max: nat)
    requires call.PullCall? && !Exec(db, call).reply.Rejected?
    ensures ValidateLeaseDuration(call.leaseMs) == Ok(lease) && ValidatePullMax(call.maxCommands) == Ok(max)
    ensures max <= MAX_PULL
    ensures lease == if call.leaseMs == 0 then 15 * SECOND else call.leaseMs * MILLISECOND
    ensures max == if call.maxCommands == 0 then 1 else if call.maxCommands > 10 then 10 else call.maxCommands
  {
    lease, max := ValidateLeaseDuration(call.leaseMs).value, ValidatePullMax(call.maxCommands).value;
  }

  /** Pull refines a first-in first-out take: after the cleanup it leases exactly the oldest
      `min(max, n)` of the hub's `n` queued commands, the expiry test inside its loop
      never skips one, and every other row is as the cleanup left it. */
  lemma PullIsFifo(db: Db, call: Call, r: Reply, e: Db) returns (d: Db, lease: Time, max: nat)
    requires call.PullCall? && Performed(db, call, r, e) && !r.Rejected?
    ensures ValidateLeaseDuration(call.leaseMs) == Ok(lease)
    ensures ValidatePullMax(call.maxCommands) == Ok(max) && max <= MAX_PULL
    ensures lease == if call.leaseMs == 0 then 15 * SECOND else call.leaseMs * MILLISECOND
    ensures max == if call.maxCommands == 0 then 1 else if call.maxCommands > 10 then 10 else call.maxCommands
    ensures d == Cleaned(db, call.ids, call.now, HubActor(call.hub)) && r.Commands?
    ensures IsFifoTake(d, e, r.shown, call.hub, call.queue, max, call.now + lease, call.tokens, call.now)
  {
    hide *;
    PerformedIs(db, call, r, e);
    lease, max := AcceptedPullIsValid(db, call);
    PullIsExec(db, call, lease, max);
    PullLists(db, call);
    d := Cleaned(db, call.ids, call.now, HubActor(call.hub));
    CleanedIs(db, call.ids, call.now, HubActor(call.hub));
    var f, shown := PullCommandsIsFifo(db, call.hub, lease, max, call.ids, call.queue, call.tokens, call.now,
                                       Cleanup(db.commands, call.ids, call.now, HubActor(call.hub)), d, Exec(db, call));
  }

  // ---------- Ack ----------

  /** A rejected call of any kind leaves every table as it was, the cleanup it had begun
      included. */
  lemma RejectedChangesNothing(db: Db, call: Call)
    requires Exec(db, call).reply.Rejected?
    ensures Step(db, call) == db
  {
  }

  /** An ack of the status that a command has already is accepted, whatever the clock says
      and however the lease and the expiry stand, and leaves the command and its history
      alone. */
  lemma AckCanBeRepeated(db: Db, call: Call, r: Reply, e: Db, i: nat)
    requires call.AckCall? && Performed(db, call, r, e)
    requires call.ack.commandId == Some(i) && i < |db.commands|
    requires call.ack.reason.Some? && AckStatus(call.ack.status)
    requires var c := db.commands[i];
             && c.hubId == call.hub && c.status == call.ack.status
             && (Trim(call.ack.nodeId) == "" || Trim(call.ack.nodeId) == c.nodeId)
    ensures r == Commands([Shown(i, db.commands[i])])
    ensures SameAt(db, e, i)
  {
    RepeatedRow(db, call.hub, i, call.ack, call.ids, call.now,
        Cleanup(db.commands, call.ids, call.now, HubActor(call.hub)));
  }

  lemma RepeatedRow(db: Db, hub: nat, i: nat, req: AckRequest, ids: seq<nat>, now: Time, clean: seq<Write>)
    requires IsListing(db.commands, HubPending(hub), ids) && i < |db.commands|
    requires clean == Cleanup(db.commands, ids, now, HubActor(hub)) && AckStatus(req.status)
    requires var c := db.commands[i];
             c.hubId == hub && c.status == req.status && (Trim(req.nodeId) == "" || Trim(req.nodeId) == c.nodeId)
    ensures AckCommand(db, hub, i, req, ids, now) == Outcome(clean, Commands([Shown(i, db.commands[i])]))
    ensures SameAt(db, ApplyAll(db, clean), i)
  {
    ListingIsPending(db.commands, HubPending(hub), ids);
    CleanupAt(db, ids, now, HubActor(hub), i);
    hide Cleanup, ApplyAll, History, CleanupEvents, Reconciled, IsListing, PendingRows;
    assert i !in ids by {
      NotListed(db.commands, HubPending(hub), ids, i);
    }
  }

  lemma NotListed(cs: seq<Command>, q: Query, ids: seq<nat>, i: nat)
    requires IsListing(cs, q, ids) && i < |cs| && !Matches(cs[i], q)
    ensures i !in ids
  {
  }

  lemma LeaseCheckOfRow(c: Command, hub: nat, now: Time, req: AckRequest)
    requires Shaped(c) && (Pending(c.status) ==> CleanupMove(c, now).None?)
    requires c.hubId == hub && now < c.expiresAt && AckEdge(c.status, req.status)
    requires Trim(req.nodeId) == "" || Trim(req.nodeId) == c.nodeId
    ensures c.leaseExpiresAt.Some?
    ensures JudgeAck(c, hub, req, now).Refuse? <==>
              c.status == Sent && req.status == Executing && c.leaseExpiresAt.value <= now
  {
  }

  lemma ReconciledIsShaped(c: Command, now: Time)
    requires Shaped(c)
    ensures Shaped(Reconciled(c, now))
    ensures Pending(Reconciled(c, now).status) ==> CleanupMove(Reconciled(c, now), now).None?
  {
  }

  /** The lease check of an ack can fail only between sent and executing: a leased command
      that the cleanup left leased can always be reported sent, and the nil-lease test
      never decides. */
  lemma LeaseCheckOnlyForExecuting(db: Db, hub: nat, ids: seq<nat>, now: Time, i: nat, req: AckRequest)
    requires SoundRows(db) && IsListing(db.commands, HubPending(hub), ids) && i < |db.commands|
    requires |Cleaned(db, ids, now, HubActor(hub)).commands| == |db.commands|
    requires var c := Cleaned(db, ids, now, HubActor(hub)).commands[i];
             && db.commands[i].hubId == c.hubId == hub && now < c.expiresAt && AckEdge(c.status, req.status)
             && (Trim(req.nodeId) == "" || Trim(req.nodeId) == c.nodeId)
    ensures var c := Cleaned(db, ids, now, HubActor(hub)).commands[i];
            && c.leaseExpiresAt.Some?
            && (JudgeAck(c, hub, req, now).Refuse? <==>
                  c.status == Sent && req.status == Executing && c.leaseExpiresAt.value <= now)
  {
    assert Sound(db.commands[i], History(db.events, i));
    CleanedRow(db, hub, ids, now, i);
    ReconciledIsShaped(db.commands[i], now);
    LeaseCheckOfRow(Reconciled(db.commands[i], now), hub, now, req);
  }
}
