/**
 The control service as it runs: it fetches copies of rows, changes their fields, saves
 them and appends events.  Every method is proved to do what its transaction function
 says, so that what holds of every run of `Transactions.Exec` holds of it.
 */
module Control {
  import opened Model
  import opened Validation
  import opened Callers
  import opened Lifecycle
  import opened Store
  import opened Transactions
  import opened Effects
  import opened Runs
  import opened Queue
  import opened Listings
  import opened Database

  function SavedWithEvent(db: Db, id: nat, c: Command, actor: Actor, previous: Status, message: string, at: Time): Db
    requires id < |db.commands|
  {
    db.(commands := db.commands[id := c],
        events := db.events + [EventOf(id, actor, Some(previous), c, message, at)])
  }

  lemma SavedMove(db: Db, id: nat, m: Move, actor: Actor, now: Time)
    requires id < |db.commands|
    ensures SavedWithEvent(db, id, Moved(db.commands[id], m, now), actor, db.commands[id].status, MoveMessage(m), now)
            == Apply(db, Change(id, m, actor, now))
  {
  }

  // ---------- Loop steps ----------

  /** When the cleanup loop reaches row `i` its copy is still what is stored. */
  lemma CleanupReaches(before: Db, rows: seq<Shown>, i: nat, now: Time, actor: Actor, d: Db)
    requires Copies(rows, before.commands) && PendingRows(before.commands, Ids(rows)) && i < |rows|
    requires d == Cleaned(before, Ids(rows)[..i], now, actor)
    ensures rows[i].id < |d.commands| && d.commands[rows[i].id] == rows[i].command
    ensures Cleaned(before, Ids(rows)[..i + 1], now, actor)
            == match CleanupMove(rows[i].command, now)
               case None => d
               case Some(m) => Apply(d, Change(rows[i].id, m, actor, now))
  {
    var ids := Ids(rows);
    assert ids[..i + 1] == ids[..i] + [ids[i]];
    assert PendingRows(before.commands, ids[..i]);
    CleanupAt(before, ids[..i], now, actor, ids[i]);
    CleanedOneMore(before, ids[..i], ids[i], now, actor);
  }

  lemma LeasesSkip(d: Db, ids: seq<nat>, id: nat, max: nat, until: Time, tokens: LeaseTokens, hub: nat, now: Time)
    requires id !in ids && max <= MAX_PULL
    ensures SameAt(d, ApplyAll(d, LeaseWrites(d.commands, ids, max, until, tokens, hub, now)), id)
  {
    var ws := LeaseWrites(d.commands, ids, max, until, tokens, hub, now);
    LeasesFromQueue(d.commands, ids, max, until, tokens, hub, now);
    forall k | 0 <= k < |ws| ensures ws[k].Change? && !Touches(ws[k], id) {
      assert IsLease(ws[k], d.commands, ids, until, now);
    }
    UntouchedStays(d, ws, id);
  }

  /** When the lease loop reaches row `i` its copy is still what is stored. */
  lemma LeasingReaches(d: Db, rows: seq<Shown>, i: nat, max: nat, until: Time, tokens: LeaseTokens, hub: nat,
                       now: Time, ws: seq<Write>, e: Db)
    requires Copies(rows, d.commands) && QueuedRows(d.commands, Ids(rows)) && i < |rows| && max <= MAX_PULL
    requires ws == LeaseWrites(d.commands, Ids(rows)[..i], max, until, tokens, hub, now) && e == ApplyAll(d, ws)
    ensures rows[i].id < |e.commands| && e.commands[rows[i].id] == rows[i].command
  {
    assert Ids(rows)[i] == rows[i].id && rows[i].id !in Ids(rows)[..i];
    LeasesSkip(d, Ids(rows)[..i], rows[i].id, max, until, tokens, hub, now);
  }

  lemma LeasesOneMore(cs: seq<Command>, rows: seq<Shown>, i: nat, max: nat, until: Time, tokens: LeaseTokens,
                      hub: nat, now: Time, ws: seq<Write>)
    requires Copies(rows, cs) && i < |rows| && max <= MAX_PULL
    requires ws == LeaseWrites(cs, Ids(rows)[..i], max, until, tokens, hub, now)
    ensures LeaseWrites(cs, Ids(rows)[..i + 1], max, until, tokens, hub, now)
            == if |ws| >= max || rows[i].command.expiresAt <= now then ws
               else ws + [Change(rows[i].id, Lease(tokens[|ws|], until), HubActor(hub), now)]
  {
    assert Ids(rows)[..i + 1][..i] == Ids(rows)[..i] && Ids(rows)[..i + 1][i] == rows[i].id;
  }

  /** Once the loop has leased `max` commands, the rest of the queue changes nothing. */
  lemma {:induction false} FullTakeIsDone(cs: seq<Command>, queue: seq<nat>, i: nat, max: nat, until: Time,
                                          tokens: LeaseTokens, hub: nat, now: Time)
    requires i <= |queue| && max <= MAX_PULL
    requires |LeaseWrites(cs, queue[..i], max, until, tokens, hub, now)| >= max
    ensures LeaseWrites(cs, queue, max, until, tokens, hub, now)
            == LeaseWrites(cs, queue[..i], max, until, tokens, hub, now)
    decreases |queue|
  {
    if i < |queue| {
      assert queue[..|queue| - 1][..i] == queue[..i];
      FullTakeIsDone(cs, queue[..|queue| - 1], i, max, until, tokens, hub, now);
    } else {
      assert queue[..i] == queue;
    }
  }

  lemma NothingTaken(d: Db, max: nat, until: Time, tokens: LeaseTokens, hub: nat, now: Time)
    requires max <= MAX_PULL
    ensures LeaseWrites(d.commands, [], max, until, tokens, hub, now) == [] && ShowLeases(d.commands, []) == []
    ensures ApplyAll(d, []) == d
  {
  }

  lemma ShowOneMore(cs: seq<Command>, ws: seq<Write>, w: Write)
    requires w.Change? && w.id < |cs|
    ensures ShowLeases(cs, ws + [w]) == ShowLeases(cs, ws) + [Shown(w.id, Moved(cs[w.id], w.move, w.now))]
  {
    assert (ws + [w])[..|ws|] == ws;
  }

  // ---------- Ack, after its cleanup ----------

  function RowReply(d: Db, hub: nat, id: nat, req: AckRequest, now: Time): Reply
    requires id < |d.commands|
  {
    match JudgeAck(d.commands[id], hub, req, now)
    case Refuse(code) => Rejected(code)
    case AlreadyApplied => Commands([Shown(id, d.commands[id])])
    case Accept(m) => Commands([Shown(id, Moved(d.commands[id], m, now))])
  }

  function RowAfter(d: Db, hub: nat, id: nat, req: AckRequest, now: Time): Db
    requires id < |d.commands|
  {
    var v := JudgeAck(d.commands[id], hub, req, now);
    if v.Accept? then Apply(d, Change(id, v.move, HubActor(hub), now)) else d
  }

  lemma AckIsCleanupThenRow(db: Db, hub: nat, id: nat, req: AckRequest, ids: seq<nat>, now: Time, d: Db)
    requires d == Cleaned(db, ids, now, HubActor(hub)) && id < |d.commands|
    ensures AckCommand(db, hub, id, req, ids, now).reply == RowReply(d, hub, id, req, now)
    ensures ApplyAll(db, AckCommand(db, hub, id, req, ids, now).writes)
            == if RowReply(d, hub, id, req, now).Rejected? then db else RowAfter(d, hub, id, req, now)
  {
    var v := JudgeAck(d.commands[id], hub, req, now);
    if v.Accept? {
      ApplyOneMore(db, Cleanup(db.commands, ids, now, HubActor(hub)), Change(id, v.move, HubActor(hub), now));
    }
  }

  // ---------- The service ----------

  class ControlService {
    const db: Tables

    constructor (db: Tables)
      ensures this.db == db
    {
      this.db := db;
    }

    method AppendMotorCommandEvent(id: nat, c: Command, actor: Actor, previous: Option<Status>, message: string,
                                   at: Time)
      modifies db`events
      ensures db.Contents()
              == old(db.Contents()).(events := old(db.events) + [EventOf(id, actor, previous, c, message, at)])
    {
      db.AddEvent(Event(id, actor, previous, c.status, c.reason, c.reasonMessage, message, at));
    }

    method SaveMotorCommandWithEvent(id: nat, c: Command, actor: Actor, previous: Status, message: string, at: Time)
      requires id < |db.commands|
      modifies db
      ensures db.Contents() == SavedWithEvent(old(db.Contents()), id, c, actor, previous, message, at)
    {
      db.Save(id, c);
      AppendMotorCommandEvent(id, c, actor, Some(previous), message, at);
    }

    method ExpireMotorCommand(id: nat, c: Command, actor: Actor, now: Time) returns (d: Command)
      requires id < |db.commands| && db.commands[id] == c
      modifies db
      ensures d == Moved(c, Expire, now)
      ensures db.Contents() == Apply(old(db.Contents()), Change(id, Expire, actor, now))
    {
      d := c;
      d := d.(status := Expired);
      d := d.(reason := Overdue, reasonMessage := EXPIRED_MESSAGE);
      d := d.(leaseToken := None, leasedAt := None, leaseExpiresAt := None);
      d := d.(completedAt := Some(now));
      SavedMove(db.Contents(), id, Expire, actor, now);
      SaveMotorCommandWithEvent(id, d, actor, c.status, EXPIRED_MESSAGE, now);
    }

    /** The cleanup loop over fetched rows. */
    method ReconcilePendingMotorCommands(rows: seq<Shown>, now: Time, actor: Actor)
      requires Copies(rows, db.commands) && PendingRows(db.commands, Ids(rows))
      modifies db
      ensures db.Contents() == Cleaned(old(db.Contents()), Ids(rows), now, actor)
    {
      ghost var before := db.Contents();
      for i := 0 to |rows|
        invariant db.Contents() == Cleaned(before, Ids(rows)[..i], now, actor)
      {
        var id, c := rows[i].id, rows[i].command;
        CleanupReaches(before, rows, i, now, actor, db.Contents());
        var leaseExpired := c.status == Leased && c.leaseExpiresAt.Some? && c.leaseExpiresAt.value <= now;
        var commandExpired := c.expiresAt <= now;
        if !leaseExpired && !commandExpired {
          continue;
        }
        if commandExpired {
          var _ := ExpireMotorCommand(id, c, actor, now);
          continue;
        }
        if leaseExpired {
          SavedMove(db.Contents(), id, Requeue, actor, now);
          var d := c.(status := Queued);
          d := d.(reason := NoReason, reasonMessage := "");
          d := d.(leaseToken := None, leasedAt := None, leaseExpiresAt := None);
          SaveMotorCommandWithEvent(id, d, actor, c.status, "lease expired; command requeued", now);
        }
      }
      assert Ids(rows)[..|rows|] == Ids(rows);
    }

    method CleanupExpiredAndStaleLeases(hub: nat, now: Time) returns (ghost ids: seq<nat>)
      modifies db
      ensures IsListing(old(db.commands), HubPending(hub), ids)
      ensures db.Contents() == Cleaned(old(db.Contents()), ids, now, HubActor(hub))
    {
      var rows := db.Find(HubPending(hub));
      ids := Ids(rows);
      ListingIsPending(db.commands, HubPending(hub), ids);
      ReconcilePendingMotorCommands(rows, now, HubActor(hub));
    }

    // ---------- Create ----------

    /** The first transaction of a create. */
    method ReconcilePendingCommandsForTarget(user: nat, hub: nat, node: string, now: Time)
      returns (reply: Reply, ghost ids: seq<nat>)
      modifies db
      ensures Performed(old(db.Contents()), ReconcileCall(user, hub, node, ids, now), reply, db.Contents())
    {
      ids := Listing(db.commands, TargetPending(hub, node));
      if !Owned(db.Contents(), user, hub, node) {
        return Rejected(PermissionDenied), ids;
      }
      var rows := db.Find(TargetPending(hub, node));
      ids := Ids(rows);
      ListingIsPending(db.commands, TargetPending(hub, node), ids);
      ReconcilePendingMotorCommands(rows, now, SystemActor);
      reply := Done;
    }

    /** The second transaction of a create. */
    method CommitMotorCommand(user: nat, d: Draft, createdAt: Time, now: Time) returns (reply: Reply)
      modifies db
      ensures reply == CreateCommand(old(db.Contents()), user, d, createdAt, now).reply
      ensures db.Contents()
              == ApplyAll(old(db.Contents()), CreateCommand(old(db.Contents()), user, d, createdAt, now).writes)
    {
      if !Owned(db.Contents(), user, d.hubId, d.nodeId) {
        return Rejected(PermissionDenied);
      }
      var existing := FindKey(db.commands, user, d.nodeId, d.key);
      if existing.Some? {
        return Commands([Shown(existing.value, db.commands[existing.value])]);
      }
      var windowStart := createdAt - RATE_WINDOW;
      if CountSince(db.commands, user, d.nodeId, windowStart) >= RATE_MAX {
        return Rejected(ResourceExhausted);
      }
      if HasActive(db.commands, d.hubId, d.nodeId) {
        return Rejected(FailedPrecondition);
      }
      var command := NewCommand(user, d, now);
      OneWrite(db.Contents(), Insert(command, UserActor(user), createdAt, now));
      var id := db.Create(command);
      AppendMotorCommandEvent(id, command, UserActor(user), None, "command queued", createdAt);
      reply := Commands([Shown(id, command)]);
    }

    /** Both transactions of a create; `mid` is the state between them.  A refusal by the
        validators or by the ownership check before the first changes nothing. */
    method CreateMotorCommand(caller: Caller, req: CreateRequest, readAt: Time, capturedAt: Time, now: Time)
      returns (reply: Reply, ghost ids: seq<nat>, ghost mid: Db)
      requires readAt <= capturedAt <= now
      modifies db
      ensures RequireAuthenticatedUser(caller).Err? ==>
                reply == Rejected(RequireAuthenticatedUser(caller).code) && db.Contents() == old(db.Contents())
      ensures RequireAuthenticatedUser(caller).Ok? && Prepare(req, readAt).Err? ==>
                reply == Rejected(Prepare(req, readAt).code) && db.Contents() == old(db.Contents())
      ensures RequireAuthenticatedUser(caller).Ok? && Prepare(req, readAt).Ok? ==>
                var user, d := RequireAuthenticatedUser(caller).value, Prepare(req, readAt).value;
                var first := ReconcileCall(user, d.hubId, d.nodeId, ids, capturedAt);
                && Performed(old(db.Contents()), first, Exec(old(db.Contents()), first).reply, mid)
                && (if Exec(old(db.Contents()), first).reply.Rejected?
                    then reply == Exec(old(db.Contents()), first).reply && db.Contents() == mid
                    else Performed(mid, CreateCall(user, req, readAt, capturedAt, now), reply, db.Contents()))
    {
      ids, mid := [], db.Contents();
      var user := RequireAuthenticatedUser(caller);
      if user.Err? {
        return Rejected(user.code), ids, mid;
      }
      var draft := Prepare(req, readAt);
      if draft.Err? {
        return Rejected(draft.code), ids, mid;
      }
      var d := draft.value;
      if !Owned(db.Contents(), user.value, d.hubId, d.nodeId) {
        ids := Listing(db.commands, TargetPending(d.hubId, d.nodeId));
        return Rejected(PermissionDenied), ids, mid;
      }
      reply, ids := ReconcilePendingCommandsForTarget(user.value, d.hubId, d.nodeId, capturedAt);
      mid := db.Contents();
      if reply.Rejected? {
        return;
      }
      reply := CommitMotorCommand(user.value, d, capturedAt, now);
    }

    // ---------- Status ----------

    method GetVisibleCommandByID(user: nat, id: nat) returns (r: Option<Command>)
      ensures r.Some? <==> id < |db.commands| && Visible(db.Contents(), user, db.commands[id])
      ensures r.Some? ==> r.value == db.commands[id]
    {
      r := if id < |db.commands| && Visible(db.Contents(), user, db.commands[id]) then Some(db.commands[id]) else None;
    }

    /** The second half of a status read, which is given the copy that the first half
        fetched and looks at the stored row again only when that copy is overdue. */
    method ExpireVisibleCommandOnAccess(user: nat, id: nat, command: Command, now: Time) returns (reply: Reply)
      modifies db
      ensures !ShouldExpire(command, now) ==>
                reply == Commands([Shown(id, command)]) && db.Contents() == old(db.Contents())
      ensures ShouldExpire(command, now) && !ReadStatus(old(db.Contents()), user, id, now).reply.Rejected? ==>
                Performed(old(db.Contents()), StatusCall(user, id, now), reply, db.Contents())
      ensures ShouldExpire(command, now) && ReadStatus(old(db.Contents()), user, id, now).reply.Rejected? ==>
                reply == Rejected(Internal) && db.Contents() == old(db.Contents())
    {
      if !ShouldExpire(command, now) {
        return Commands([Shown(id, command)]);
      }
      var visible := GetVisibleCommandByID(user, id);
      if visible.None? {
        return Rejected(Internal);
      }
      if !ShouldExpire(visible.value, now) {
        return Commands([Shown(id, visible.value)]);
      }
      OneWrite(db.Contents(), Change(id, Expire, SystemActor, now));
      var updated := ExpireMotorCommand(id, visible.value, SystemActor, now);
      reply := Commands([Shown(id, updated)]);
    }

    method GetMotorCommandStatus(caller: Caller, commandId: Option<nat>, now: Time) returns (reply: Reply)
      modifies db
      ensures RequireAuthenticatedUser(caller).Err? ==>
                reply == Rejected(RequireAuthenticatedUser(caller).code) && db.Contents() == old(db.Contents())
      ensures RequireAuthenticatedUser(caller).Ok? && commandId.None? ==>
                reply == Rejected(InvalidArgument) && db.Contents() == old(db.Contents())
      ensures RequireAuthenticatedUser(caller).Ok? && commandId.Some? ==>
                Performed(old(db.Contents()), StatusCall(RequireAuthenticatedUser(caller).value, commandId.value, now),
                          reply, db.Contents())
    {
      var user := RequireAuthenticatedUser(caller);
      if user.Err? {
        return Rejected(user.code);
      }
      if commandId.None? {
        return Rejected(InvalidArgument);
      }
      var command := GetVisibleCommandByID(user.value, commandId.value);
      if command.None? {
        return Rejected(NotFound);
      }
      reply := ExpireVisibleCommandOnAccess(user.value, commandId.value, command.value, now);
    }

    // ---------- Pull ----------

    /** The lease loop over the fetched queue. */
    method LeaseQueuedCommands(rows: seq<Shown>, hub: nat, max: nat, leaseExpiresAt: Time, tokens: LeaseTokens,
                               now: Time)
      returns (leased: seq<Shown>)
      requires Copies(rows, db.commands) && QueuedRows(db.commands, Ids(rows)) && max <= MAX_PULL
      modifies db
      ensures var take := TakeQueue(old(db.Contents()), hub, leaseExpiresAt, max, Ids(rows), tokens, now);
              Commands(leased) == take.reply && db.Contents() == ApplyAll(old(db.Contents()), take.writes)
    {
      hide ApplyAll, LeaseWrites, ShowLeases, QueuedRows;
      ghost var before := db.Contents();
      ghost var cs := db.commands;
      ghost var ws: seq<Write> := [];
      leased := [];
      NothingTaken(before, max, leaseExpiresAt, tokens, hub, now);
      for i := 0 to |rows|
        invariant ws == LeaseWrites(cs, Ids(rows)[..i], max, leaseExpiresAt, tokens, hub, now)
        invariant |leased| == |ws| && leased == ShowLeases(cs, ws)
        invariant db.Contents() == ApplyAll(before, ws)
      {
        if |leased| >= max {
          FullTakeIsDone(cs, Ids(rows), i, max, leaseExpiresAt, tokens, hub, now);
          return;
        }
        LeasesOneMore(cs, rows, i, max, leaseExpiresAt, tokens, hub, now, ws);
        var id, c := rows[i].id, rows[i].command;
        if c.expiresAt <= now {
          continue;
        }
        LeasingReaches(before, rows, i, max, leaseExpiresAt, tokens, hub, now, ws, db.Contents());
        ghost var w := Change(id, Lease(tokens[|ws|], leaseExpiresAt), HubActor(hub), now);
        SavedMove(db.Contents(), id, w.move, HubActor(hub), now);
        ApplyOneMore(before, ws, w);
        ShowOneMore(cs, ws, w);
        var d := c.(status := Leased);
        d := d.(leaseToken := Some(tokens[|leased|]));
        d := d.(leasedAt := Some(now), leaseExpiresAt := Some(leaseExpiresAt));
        d := d.(reason := NoReason, reasonMessage := "");
        SaveMotorCommandWithEvent(id, d, HubActor(hub), c.status, "command leased to hub", now);
        leased := leased + [Shown(id, d)];
        ws := ws + [w];
      }
      assert Ids(rows)[..|rows|] == Ids(rows);
    }

    method PullPendingMotorCommands(caller: Caller, leaseDurationMs: int, maxCommands: int, tokens: LeaseTokens,
                                    now: Time)
      returns (reply: Reply, ghost ids: seq<nat>, ghost queue: seq<nat>)
      modifies db
      ensures RequireHubServiceAccount(caller).Err? ==>
                reply == Rejected(RequireHubServiceAccount(caller).code) && db.Contents() == old(db.Contents())
      ensures RequireHubServiceAccount(caller).Ok? ==>
                Performed(old(db.Contents()),
                          PullCall(RequireHubServiceAccount(caller).value, leaseDurationMs, maxCommands,
                                   ids, queue, tokens, now),
                          reply, db.Contents())
    {
      var hub := RequireHubServiceAccount(caller);
      ids, queue := [], [];
      if hub.Err? {
        return Rejected(hub.code), ids, queue;
      }
      ids := Listing(db.commands, HubPending(hub.value));
      queue := Listing(Cleaned(db.Contents(), ids, now, HubActor(hub.value)).commands, HubQueued(hub.value));
      var lease := ValidateLeaseDuration(leaseDurationMs);
      if lease.Err? {
        return Rejected(lease.code), ids, queue;
      }
      var max := ValidatePullMax(maxCommands);
      if max.Err? {
        return Rejected(max.code), ids, queue;
      }
      reply, ids, queue := LeasePendingCommands(hub.value, lease.value, max.value, tokens, now);
    }

    /** The transaction of a pull. */
    method LeasePendingCommands(hub: nat, lease: Time, max: nat, tokens: LeaseTokens, now: Time)
      returns (reply: Reply, ghost ids: seq<nat>, ghost queue: seq<nat>)
      requires max <= MAX_PULL
      modifies db
      ensures IsListing(old(db.commands), HubPending(hub), ids)
      ensures IsListing(Cleaned(old(db.Contents()), ids, now, HubActor(hub)).commands, HubQueued(hub), queue)
      ensures reply == PullCommands(old(db.Contents()), hub, lease, max, ids, queue, tokens, now).reply
      ensures db.Contents()
              == ApplyAll(old(db.Contents()),
                          PullCommands(old(db.Contents()), hub, lease, max, ids, queue, tokens, now).writes)
    {
      hide ApplyAll, Cleanup, LeaseWrites, ShowLeases, TakeQueue, PullCommands, IsListing, QueuedRows;
      ghost var before := db.Contents();
      ids := CleanupExpiredAndStaleLeases(hub, now);
      ghost var clean := Cleanup(before.commands, ids, now, HubActor(hub));
      var rows := db.Find(HubQueued(hub));
      queue := Ids(rows);
      ListingIsQueued(db.commands, hub, queue);
      ghost var take := TakeQueue(db.Contents(), hub, now + lease, max, queue, tokens, now);
      PullIsCleanupThenTake(before, hub, lease, max, ids, queue, tokens, now, clean, db.Contents(), take);
      TakeAfter(before, clean, take, PullCommands(before, hub, lease, max, ids, queue, tokens, now));
      var leased := LeaseQueuedCommands(rows, hub, max, now + lease, tokens, now);
      reply := Commands(leased);
    }

    // ---------- Ack ----------

    method AckMotorCommandEvent(caller: Caller, req: AckRequest, now: Time) returns (reply: Reply, ghost ids: seq<nat>)
      modifies db
      ensures RequireHubServiceAccount(caller).Err? ==>
                reply == Rejected(RequireHubServiceAccount(caller).code) && db.Contents() == old(db.Contents())
      ensures RequireHubServiceAccount(caller).Ok? ==>
                Performed(old(db.Contents()), AckCall(RequireHubServiceAccount(caller).value, req, ids, now),
                          reply, db.Contents())
    {
      var hub := RequireHubServiceAccount(caller);
      ids := [];
      if hub.Err? {
        return Rejected(hub.code), ids;
      }
      ids := Listing(db.commands, HubPending(hub.value));
      if req.commandId.None? {
        return Rejected(InvalidArgument), ids;
      }
      if !AckStatus(req.status) {
        return Rejected(InvalidArgument), ids;
      }
      if req.reason.None? {
        return Rejected(InvalidArgument), ids;
      }
      reply, ids := ApplyAck(hub.value, req.commandId.value, req, req.reason.value, now);
    }

    /** The transaction of an ack; an error rolls it back. */
    method ApplyAck(hub: nat, id: nat, req: AckRequest, reason: Reason, now: Time) returns (reply: Reply,
                                                                                            ghost ids: seq<nat>)
      requires req.reason == Some(reason)
      modifies db
      ensures IsListing(old(db.commands), HubPending(hub), ids)
      ensures reply == AckCommand(old(db.Contents()), hub, id, req, ids, now).reply
      ensures db.Contents()
              == ApplyAll(old(db.Contents()), AckCommand(old(db.Contents()), hub, id, req, ids, now).writes)
    {
      var saved := db.Contents();
      ids := CleanupExpiredAndStaleLeases(hub, now);
      if id >= |db.commands| {
        db.Restore(saved);
        return Rejected(NotFound), ids;
      }
      ghost var d := db.Contents();
      reply := AckRow(hub, id, req, reason, now);
      if reply.Rejected? {
        db.Restore(saved);
      }
      AckIsCleanupThenRow(saved, hub, id, req, ids, now, d);
    }

    /** What an ack does once its cleanup is done; an error may leave changes behind, which
        the caller rolls back. */
    method AckRow(hub: nat, id: nat, req: AckRequest, reason: Reason, now: Time) returns (reply: Reply)
      requires id < |db.commands| && req.reason == Some(reason)
      modifies db
      ensures reply == RowReply(old(db.Contents()), hub, id, req, now)
      ensures db.Contents() == RowAfter(old(db.Contents()), hub, id, req, now)
    {
      var c := db.commands[id];
      if c.hubId != hub {
        return Rejected(PermissionDenied);
      }
      var node := Trim(req.nodeId);
      if node != "" && node != c.nodeId {
        return Rejected(PermissionDenied);
      }
      if c.status == req.status {
        return Commands([Shown(id, c)]);
      }
      if c.expiresAt <= now {
        return Rejected(FailedPrecondition);
      }
      if !AckEdge(c.status, req.status) {
        return Rejected(FailedPrecondition);
      }
      var d := c.(status := req.status);
      d := d.(reason := reason, reasonMessage := Trim(req.message));
      if Terminal(req.status) {
        d := d.(completedAt := Some(now));
        d := d.(leaseToken := None, leasedAt := None, leaseExpiresAt := None);
      } else if d.leaseExpiresAt.None? || d.leaseExpiresAt.value <= now {
        return Rejected(FailedPrecondition);
      }
      SavedMove(db.Contents(), id, Ack(req.status, reason, Trim(req.message)), HubActor(hub), now);
      SaveMotorCommandWithEvent(id, d, HubActor(hub), c.status, AckEventMessage(req.status), now);
      reply := Commands([Shown(id, d)]);
    }
  }
}
