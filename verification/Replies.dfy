/**
 What callers get: who may change and see a command, what a reply shows, and exactly
 which pulls and acks succeed, told from the rows stored before the call and so across
 the cleanup that the call begins with.
 */
module Replies {
  import opened Model
  import opened Validation
  import opened Lifecycle
  import opened Store
  import opened Transactions
  import opened Effects
  import opened Runs
  import opened Invariants
  import opened Queue
  import opened Commuting

  // ---------- Confinement ----------

  /** The callers that a command is any business of. */
  predicate Party(call: Call, c: Command) {
    match call
    case ReconcileCall(user, hub, node, _, _) => c.userId == user && OnTarget(c, hub, node)
    case CreateCall(user, _, _, _, _) => c.userId == user
    case StatusCall(user, _, _) => c.userId == user
    case PullCall(hub, _, _, _, _, _, _) => c.hubId == hub
    case AckCall(hub, _, _, _) => c.hubId == hub
    case _ => false
  }

  lemma {:induction false} UntouchedRow(db: Db, ws: seq<Write>, i: nat)
    requires i < |db.commands| && forall k :: 0 <= k < |ws| ==> !Touches(ws[k], i)
    ensures i < |ApplyAll(db, ws).commands| && SameAt(db, ApplyAll(db, ws), i)
  {
    if ws != [] {
      var init, last := ws[..|ws| - 1], ws[|ws| - 1];
      UntouchedRow(db, init, i);
      WriteElsewhere(ApplyAll(db, init), last, i);
    }
  }

  lemma WriteElsewhere(db: Db, w: Write, i: nat)
    requires i < |db.commands| && !Touches(w, i)
    ensures i < |Apply(db, w).commands| && SameAt(db, Apply(db, w), i)
  {
    if w.Change? {
      ChangeAt(db, w, i);
    } else if w.Insert? {
      HistoryAppend(db.events, QueuedEvent(|db.commands|, w.command, w.actor, w.capturedAt), i);
    }
  }

  lemma AlignedUser(db: Db, user: nat, i: nat)
    requires Aligned(db) && i < |db.commands|
    ensures Visible(db, user, db.commands[i]) <==> db.commands[i].userId == user
    ensures forall hub, node :: Owned(db, user, hub, node) && OnTarget(db.commands[i], hub, node) ==>
            db.commands[i].userId == user
  {
    assert Owned(db, db.commands[i].userId, db.commands[i].hubId, db.commands[i].nodeId);
  }

  lemma CleanupTouches(db: Db, q: Query, ids: seq<nat>, now: Time, actor: Actor, i: nat)
    requires IsListing(db.commands, q, ids) && i < |db.commands| && !Matches(db.commands[i], q)
    ensures forall k :: 0 <= k < |Cleanup(db.commands, ids, now, actor)| ==>
            !Touches(Cleanup(db.commands, ids, now, actor)[k], i)
  {
    var ws := Cleanup(db.commands, ids, now, actor);
    CleanupChangesOnly(db.commands, ids, now, actor);
    forall k | 0 <= k < |ws| ensures !Touches(ws[k], i) {
      assert IsCleanup(ws[k], ids, now);
    }
  }

  lemma HubCallTouches(db: Db, call: Call, i: nat)
    requires HubCall(call) && Legal(db, call) && i < |db.commands| && db.commands[i].hubId != call.hub
    ensures forall k :: 0 <= k < |Exec(db, call).writes| ==> !Touches(Exec(db, call).writes[k], i)
  {
    CallStaysInHub(db, call);
  }

  lemma ReconcileTouches(db: Db, call: Call, i: nat)
    requires Aligned(db) && call.ReconcileCall? && Legal(db, call) && i < |db.commands| && !Party(call, db.commands[i])
    ensures forall k :: 0 <= k < |Exec(db, call).writes| ==> !Touches(Exec(db, call).writes[k], i)
  {
    if Owned(db, call.user, call.hub, call.node) {
      AlignedUser(db, call.user, i);
      CleanupTouches(db, TargetPending(call.hub, call.node), call.ids, call.now, SystemActor, i);
    }
  }

  lemma OtherCallTouches(db: Db, call: Call, i: nat)
    requires Aligned(db) && !HubCall(call) && !call.ReconcileCall? && !call.CreateCall? && i < |db.commands|
            && !Party(call, db.commands[i])
    ensures forall k :: 0 <= k < |Exec(db, call).writes| ==> !Touches(Exec(db, call).writes[k], i)
  {
    if call.StatusCall? {
      AlignedUser(db, call.user, i);
    }
  }

  /** No call changes the row or the history of a command of another user or hub. */
  lemma ChangesAreConfined(db: Db, call: Call, r: Reply, e: Db, i: nat)
    requires Aligned(db) && Performed(db, call, r, e) && i < |db.commands| && !Party(call, db.commands[i])
    ensures i < |e.commands| && SameAt(db, e, i)
  {
    if HubCall(call) {
      HubCallTouches(db, call, i);
    } else if call.ReconcileCall? {
      ReconcileTouches(db, call, i);
    } else if call.CreateCall? {
      CreateTouches(db, call, i);
    } else {
      OtherCallTouches(db, call, i);
    }
    UntouchedRow(db, Exec(db, call).writes, i);
  }

  lemma CreateTouches(db: Db, call: Call, i: nat)
    requires call.CreateCall?
    ensures forall k :: 0 <= k < |Exec(db, call).writes| ==> !Touches(Exec(db, call).writes[k], i)
  {
  }

  // ---------- What a reply shows ----------

  /** Every command that a reply shows is stored just so when the call is over, and the
      caller is a party to it. */
  ghost predicate ShowsStored(d: Db, call: Call, shown: seq<Shown>) {
    forall k :: 0 <= k < |shown| ==>
      shown[k].id < |d.commands| && shown[k].command == d.commands[shown[k].id] && Party(call, shown[k].command)
  }

  lemma CreateShowsStored(db: Db, call: Call)
    requires call.CreateCall? && Exec(db, call).reply.Commands?
    ensures ShowsStored(Step(db, call), call, Exec(db, call).reply.shown)
  {
    var o := Exec(db, call);
    if o.writes != [] {
      OneWrite(db, o.writes[0]);
    }
  }

  lemma StatusShowsStored(db: Db, call: Call)
    requires Aligned(db) && call.StatusCall? && Exec(db, call).reply.Commands?
    ensures ShowsStored(Step(db, call), call, Exec(db, call).reply.shown)
  {
    AlignedUser(db, call.user, call.id);
    var o := Exec(db, call);
    if o.writes != [] {
      OneWrite(db, o.writes[0]);
    }
  }

  lemma AckShowsStored(db: Db, call: Call)
    requires call.AckCall? && Legal(db, call) && Exec(db, call).reply.Commands?
    ensures ShowsStored(Step(db, call), call, Exec(db, call).reply.shown)
  {
    var clean := Cleanup(db.commands, call.ids, call.now, HubActor(call.hub));
    AcceptedAckShows(db, call, call.ack.commandId.value, clean, ApplyAll(db, clean), Exec(db, call));
  }

  lemma AcceptedAckShows(db: Db, call: Call, id: nat, clean: seq<Write>, d: Db, o: Outcome)
    requires call.AckCall? && o == AckCommand(db, call.hub, id, call.ack, call.ids, call.now) && o.reply.Commands?
    requires clean == Cleanup(db.commands, call.ids, call.now, HubActor(call.hub)) && d == ApplyAll(db, clean)
    ensures ShowsStored(ApplyAll(db, o.writes), call, o.reply.shown)
  {
    hide Cleanup, ApplyAll, JudgeAck, ShowsStored, Moved;
    var c := d.commands[id];
    var v := JudgeAck(c, call.hub, call.ack, call.now);
    JudgedIsOfHub(c, call.hub, call.ack, call.now);
    if v.Accept? {
      var w := Change(id, v.move, HubActor(call.hub), call.now);
      ApplyOneMore(db, clean, w);
      OneIsShown(Apply(d, w), call, id);
    } else {
      OneIsShown(d, call, id);
    }
  }

  lemma JudgedIsOfHub(c: Command, hub: nat, req: AckRequest, now: Time)
    requires !JudgeAck(c, hub, req, now).Refuse?
    ensures c.hubId == hub
    ensures JudgeAck(c, hub, req, now).Accept? ==> Moved(c, JudgeAck(c, hub, req, now).move, now).hubId == hub
  {
  }

  lemma OneIsShown(d: Db, call: Call, id: nat)
    requires id < |d.commands| && call.AckCall? && d.commands[id].hubId == call.hub
    ensures ShowsStored(d, call, [Shown(id, d.commands[id])])
  {
  }

  lemma FifoShowsStored(d: Db, e: Db, shown: seq<Shown>, call: Call, until: Time, max: nat)
    requires call.PullCall? && max <= MAX_PULL && IsListing(d.commands, HubQueued(call.hub), call.queue)
    requires IsFifoTake(d, e, shown, call.hub, call.queue, max, until, call.tokens, call.now)
    ensures ShowsStored(e, call, shown)
  {
    forall k | 0 <= k < |shown|
      ensures shown[k].id < |e.commands| && shown[k].command == e.commands[shown[k].id] && Party(call, shown[k].command)
    {
      var q := call.queue[k];
      assert Matches(d.commands[q], HubQueued(call.hub));
      assert LeasedTo(d, e, q, call.tokens[k], until, call.hub, call.now);
    }
  }

  lemma PullShowsStored(db: Db, call: Call, r: Reply, e: Db)
    requires call.PullCall? && Performed(db, call, r, e) && r.Commands?
    ensures ShowsStored(e, call, r.shown)
  {
    hide *;
    PerformedIs(db, call, r, e);
    assert !r.Rejected?;
    var d, lease, max := PullIsFifo(db, call, r, e);
    CleanedIs(db, call.ids, call.now, HubActor(call.hub));
    PullLists(db, call);
    FifoShowsStored(d, e, r.shown, call, call.now + lease, max);
  }

  lemma RepliesShowWhatIsStored(db: Db, call: Call, r: Reply, e: Db)
    requires Aligned(db) && Performed(db, call, r, e) && r.Commands?
    ensures ShowsStored(e, call, r.shown)
  {
    match call
    case CreateCall(_, _, _, _, _) => CreateShowsStored(db, call);
    case StatusCall(_, _, _) => StatusShowsStored(db, call);
    case AckCall(_, _, _, _) => AckShowsStored(db, call);
    case PullCall(_, _, _, _, _, _, _) => PullShowsStored(db, call, r, e);
    case _ =>
  }

  // ---------- Which commands a pull may lease ----------

  /** A command that a pull by its hub may lease: queued, or leased under a lease that has
      lapsed, and not overdue. */
  predicate Available(c: Command, hub: nat, now: Time) {
    c.hubId == hub && now < c.expiresAt && (c.status == Queued || LeaseLapsed(c, now))
  }

  /** The queue of a pull consists of the commands that were available before it, the ones
      its cleanup requeues included, oldest first. */
  lemma QueueIsWhatWasAvailable(db: Db, hub: nat, ids: seq<nat>, queue: seq<nat>, now: Time, i: nat)
    requires IsListing(db.commands, HubPending(hub), ids)
    requires IsListing(Cleaned(db, ids, now, HubActor(hub)).commands, HubQueued(hub), queue)
    ensures i in queue <==> i < |db.commands| && Available(db.commands[i], hub, now)
  {
    var d := Cleaned(db, ids, now, HubActor(hub));
    CleanupKeepsFrame(db, ids, now, HubActor(hub));
    if i < |db.commands| {
      CleanedRow(db, hub, ids, now, i);
      assert i in queue <==> Matches(d.commands[i], HubQueued(hub));
    }
  }

  // ---------- Which acks succeed ----------

  /** The steps of the protocol that a hub may report. */
  predicate Reportable(current: Status, next: Status) {
    || (current == Leased && (next == Sent || next == Failed || next == Expired))
    || (current == Sent && (next == Executing || next == Succeeded || next == Failed || next == Expired))
    || (current == Executing && (next == Succeeded || next == Failed || next == Expired))
  }

  /** An ack whose fields are all known; `Queued`, `Leased` and `Cancelled` are no reports. */
  predicate ProperAck(req: AckRequest) {
    && req.commandId.Some? && req.reason.Some?
    && (|| req.status == Sent || req.status == Executing || req.status == Succeeded
        || req.status == Failed || req.status == Expired)
  }

  /** The hub, and the node if it names one, are those of the command. */
  predicate Addressed(c: Command, hub: nat, req: AckRequest) {
    c.hubId == hub && (Trim(req.nodeId) == "" || Trim(req.nodeId) == c.nodeId)
  }

  /** A report that the stored row allows: it repeats the row's status, it reports as expired a
      command that is overdue before it was sent, or it makes a step of the protocol in
      time.  A lease must be running to leave leased, and to go from sent to executing. */
  predicate Timely(c: Command, next: Status, now: Time) {
    || c.status == next
    || (next == Expired && (c.status == Queued || c.status == Leased) && c.expiresAt <= now)
    || (&& now < c.expiresAt
        && Reportable(c.status, next)
        && (c.status == Leased || next == Executing ==> c.leaseExpiresAt.Some? && now < c.leaseExpiresAt.value))
  }

  lemma JudgedAfterCleanup(c: Command, hub: nat, req: AckRequest, now: Time)
    requires Shaped(c) && ProperAck(req)
    ensures var v := JudgeAck(if c.hubId == hub then Reconciled(c, now) else c, hub, req, now);
            && (v.Refuse? <==> !Addressed(c, hub, req) || !Timely(c, req.status, now))
            && (v.Refuse? ==> v.code == if Addressed(c, hub, req) then FailedPrecondition else PermissionDenied)
  {
  }

  lemma AckedRow(db: Db, call: Call, i: nat)
    requires call.AckCall? && Legal(db, call) && call.ack.commandId == Some(i) && i < |db.commands|
    ensures var d := Cleaned(db, call.ids, call.now, HubActor(call.hub));
            && |d.commands| == |db.commands|
            && d.commands[i]
               == if db.commands[i].hubId == call.hub then Reconciled(db.commands[i], call.now) else db.commands[i]
  {
    CleanedRow(db, call.hub, call.ids, call.now, i);
  }

  lemma ImproperAck(db: Db, call: Call)
    requires call.AckCall? && !ProperAck(call.ack)
    ensures Exec(db, call) == Reject(InvalidArgument)
  {
  }

  lemma ProperAckIsJudged(db: Db, call: Call, i: nat, d: Db)
    requires call.AckCall? && ProperAck(call.ack) && call.ack.commandId == Some(i)
    requires d == Cleaned(db, call.ids, call.now, HubActor(call.hub))
    ensures i >= |d.commands| ==> Exec(db, call) == Reject(NotFound)
    ensures i < |d.commands| ==>
              var v := JudgeAck(d.commands[i], call.hub, call.ack, call.now);
              if v.Refuse? then Exec(db, call) == Reject(v.code) else Exec(db, call).reply.Commands?
  {
  }

  /** An ack succeeds exactly when it is proper, addressed to its command and allowed by the
      row stored before the call, and each refusal has its code. */
  lemma AckAcceptedExactly(db: Db, call: Call, r: Reply, e: Db)
    requires SoundRows(db) && Performed(db, call, r, e) && call.AckCall?
    ensures r.Rejected? ==> e == db
    ensures !ProperAck(call.ack) ==> r == Rejected(InvalidArgument)
    ensures ProperAck(call.ack) ==>
              var i := call.ack.commandId.value;
              if i >= |db.commands| then r == Rejected(NotFound)
              else if !Addressed(db.commands[i], call.hub, call.ack) then r == Rejected(PermissionDenied)
              else if !Timely(db.commands[i], call.ack.status, call.now) then r == Rejected(FailedPrecondition)
              else i < |e.commands| && r == Commands([Shown(i, e.commands[i])])
  {
    NoWrites(db);
    if !ProperAck(call.ack) {
      ImproperAck(db, call);
    } else {
      var i, d := call.ack.commandId.value, Cleaned(db, call.ids, call.now, HubActor(call.hub));
      CleanupKeepsFrame(db, call.ids, call.now, HubActor(call.hub));
      ProperAckIsJudged(db, call, i, d);
      if i < |db.commands| {
        assert Shaped(db.commands[i]) by {
          assert Sound(db.commands[i], History(db.events, i));
        }
        AckedRow(db, call, i);
        hide Exec, JudgeAck, Cleanup, ApplyAll, Reconciled, Legal, SoundRows;
        JudgedAfterCleanup(db.commands[i], call.hub, call.ack, call.now);
        if !r.Rejected? {
          AckWritesLast(db, call, i, Cleanup(db.commands, call.ids, call.now, HubActor(call.hub)), d, d.commands[i],
                        JudgeAck(d.commands[i], call.hub, call.ack, call.now));
        }
      }
    }
  }

  lemma AckWritesLast(db: Db, call: Call, i: nat, clean: seq<Write>, d: Db, c: Command, v: Verdict)
    requires call.AckCall? && call.ack.commandId == Some(i) && i < |d.commands|
    requires clean == Cleanup(db.commands, call.ids, call.now, HubActor(call.hub)) && d == ApplyAll(db, clean)
    requires c == d.commands[i] && v == JudgeAck(c, call.hub, call.ack, call.now)
    requires !Exec(db, call).reply.Rejected?
    ensures v.AlreadyApplied? ==> Step(db, call) == d
    ensures i < |Step(db, call).commands|
    ensures Exec(db, call).reply == Commands([Shown(i, Step(db, call).commands[i])])
    ensures v.Accept? ==>
              && Step(db, call).commands[i] == Moved(c, v.move, call.now)
              && History(Step(db, call).events, i)
                  == History(d.events, i) + [MoveEvent(i, c, v.move, HubActor(call.hub), call.now)]
  {
    if v.Accept? {
      var w := Change(i, v.move, HubActor(call.hub), call.now);
      ApplyOneMore(db, clean, w);
      ChangeAt(d, w, i);
    }
  }

  lemma NeedsNoCleanup(db: Db, hub: nat, ids: seq<nat>, now: Time, i: nat, d: Db)
    requires IsListing(db.commands, HubPending(hub), ids) && i < |db.commands|
    requires d == Cleaned(db, ids, now, HubActor(hub))
    requires Pending(db.commands[i].status) ==> CleanupMove(db.commands[i], now).None?
    ensures i < |d.commands| && SameAt(db, d, i)
  {
    ListingIsPending(db.commands, HubPending(hub), ids);
    CleanupAt(db, ids, now, HubActor(hub), i);
  }

  lemma OnTimeAck(c: Command, hub: nat, req: AckRequest, now: Time)
    requires Shaped(c) && c.status != req.status && !ShouldExpire(c, now) && ProperAck(req)
    requires !JudgeAck(if c.hubId == hub then Reconciled(c, now) else c, hub, req, now).Refuse?
    ensures Pending(c.status) ==> CleanupMove(c, now).None?
    ensures JudgeAck(c, hub, req, now) == Accept(Ack(req.status, req.reason.value, Trim(req.message)))
  {
  }

  /** What an ack leaves of the row and adds to the history of command `i`. */
  ghost predicate Reported(d: Db, e: Db, i: nat, hub: nat, req: AckRequest, now: Time)
    requires i < |d.commands| && req.reason.Some?
  {
    && i < |e.commands|
    && var c := d.commands[i].(status := req.status, reason := req.reason.value, reasonMessage := Trim(req.message));
    && e.commands[i]
       == (if req.status == Sent || req.status == Executing then c
           else c.(leaseToken := None, leasedAt := None, leaseExpiresAt := None, completedAt := Some(now)))
    && History(e.events, i)
       == History(d.events, i)
          + [Event(i, HubActor(hub), Some(d.commands[i].status), req.status, req.reason.value, Trim(req.message),
                   match req.status
                   case Sent => "command sent to probe"
                   case Executing => "command executing"
                   case Succeeded => "command completed successfully"
                   case Failed => "command failed"
                   case _ => "command expired",
                   now)]
  }

  lemma AckNotRejected(db: Db, call: Call, i: nat, d: Db)
    requires call.AckCall? && call.ack.commandId == Some(i) && !Exec(db, call).reply.Rejected?
    requires d == Cleaned(db, call.ids, call.now, HubActor(call.hub)) && i < |d.commands|
    ensures ProperAck(call.ack) && !JudgeAck(d.commands[i], call.hub, call.ack, call.now).Refuse?
  {
  }

  lemma ReportIsMade(db: Db, call: Call, i: nat, d: Db)
    requires call.AckCall? && call.ack.commandId == Some(i) && !Exec(db, call).reply.Rejected?
    requires d == Cleaned(db, call.ids, call.now, HubActor(call.hub)) && i < |db.commands| && i < |d.commands|
    requires SameAt(db, d, i) && ProperAck(call.ack)
    requires JudgeAck(db.commands[i], call.hub, call.ack, call.now)
             == Accept(Ack(call.ack.status, call.ack.reason.value, Trim(call.ack.message)))
    ensures Reported(db, Step(db, call), i, call.hub, call.ack, call.now)
  {
    hide Exec, JudgeAck, Trim, Cleanup, ApplyAll;
    AckWritesLast(db, call, i, Cleanup(db.commands, call.ids, call.now, HubActor(call.hub)), d, d.commands[i],
                  JudgeAck(d.commands[i], call.hub, call.ack, call.now));
    var e, m := Step(db, call), Ack(call.ack.status, call.ack.reason.value, Trim(call.ack.message));
    assert e.commands[i] == Moved(db.commands[i], m, call.now);
    assert History(e.events, i)
        == History(db.events, i) + [MoveEvent(i, db.commands[i], m, HubActor(call.hub), call.now)];
  }

  lemma AckIsRecorded(db: Db, call: Call, i: nat, d: Db)
    requires call.AckCall? && call.ack.commandId == Some(i) && !Exec(db, call).reply.Rejected?
    requires i < |db.commands| && Shaped(db.commands[i])
    requires db.commands[i].status != call.ack.status && !ShouldExpire(db.commands[i], call.now)
    requires IsListing(db.commands, HubPending(call.hub), call.ids)
    requires d == Cleaned(db, call.ids, call.now, HubActor(call.hub))
    ensures call.ack.reason.Some?
    ensures Reported(db, Step(db, call), i, call.hub, call.ack, call.now)
  {
    hide Exec, JudgeAck, Reported, Cleaned, IsListing;
    CleanedRow(db, call.hub, call.ids, call.now, i);
    AckNotRejected(db, call, i, d);
    OnTimeAck(db.commands[i], call.hub, call.ack, call.now);
    NeedsNoCleanup(db, call.hub, call.ids, call.now, i, d);
    ReportIsMade(db, call, i, d);
  }

  /** An ack that brings a new status to a command that is not overdue records exactly what
      the hub reported, as one event of that hub, and nothing else happens to the command. */
  lemma AckRecordsTheReport(db: Db, call: Call, r: Reply, e: Db, i: nat)
    requires SoundRows(db) && Performed(db, call, r, e) && !r.Rejected?
    requires call.AckCall? && call.ack.commandId == Some(i) && i < |db.commands|
    requires db.commands[i].status != call.ack.status && !ShouldExpire(db.commands[i], call.now)
    ensures call.ack.reason.Some?
    ensures Reported(db, e, i, call.hub, call.ack, call.now)
  {
    assert Sound(db.commands[i], History(db.events, i));
    AckIsRecorded(db, call, i, Cleaned(db, call.ids, call.now, HubActor(call.hub)));
  }
}
