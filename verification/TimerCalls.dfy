/** The calls of the service against the same calls of the reference machine. */
module TimerCalls {
  import opened Model
  import opened Validation
  import opened Lifecycle
  import opened Store
  import opened Transactions
  import opened Effects
  import opened Queue
  import opened Timer

  /** The same answer, but for the times of completion in the rows shown. */
  ghost predicate SameReply(r: Reply, s: Reply) {
    if r.Commands? && s.Commands? then
      && |r.shown| == |s.shown|
      && forall k :: 0 <= k < |r.shown| ==>
           r.shown[k].id == s.shown[k].id && SameButCompletion(r.shown[k].command, s.shown[k].command)
    else r == s
  }

  lemma CleaningByCall(l: Db, e: Db, q: Query, ids: seq<nat>, now: Time, actor: Actor, clean: seq<Write>, d: Db)
    requires AllShaped(l.commands) && Twins(l, e, now) && IsListing(l.commands, q, ids) && !q.HubQueued?
    requires clean == Cleanup(l.commands, ids, now, actor) && d == ApplyAll(l, clean)
    ensures Twins(d, e, now) && AllShaped(d.commands)
  {
    ListingIsPending(l.commands, q, ids);
    CleanupKeepsMirror(l, e, ids, now, actor);
  }

  lemma NoCleanup(cs: seq<Command>, now: Time, actor: Actor)
    ensures Cleanup(cs, [], now, actor) == []
  {
  }

  // ---------- Pull ----------

  lemma BarePull(e: Db, hub: nat, lease: Time, max: nat, queue: seq<nat>, tokens: LeaseTokens, now: Time)
    requires max <= MAX_PULL
    ensures PullCommands(e, hub, lease, max, [], queue, tokens, now)
            == TakeQueue(e, hub, now + lease, max, queue, tokens, now)
  {
    NoCleanup(e.commands, now, HubActor(hub));
    var take := TakeQueue(e, hub, now + lease, max, queue, tokens, now);
    assert [] + take.writes == take.writes;
  }

  lemma PullCommandsAgree(l: Db, e: Db, hub: nat, lease: Time, max: nat, ids: seq<nat>, queue: seq<nat>,
                          tokens: LeaseTokens, now: Time,
                          clean: seq<Write>, d: Db, take: Outcome, o: Outcome)
    requires AllShaped(d.commands) && Twins(d, e, now) && LiveQueue(d.commands, queue, now)
    requires clean == Cleanup(l.commands, ids, now, HubActor(hub)) && d == ApplyAll(l, clean)
    requires max <= MAX_PULL && lease >= MILLISECOND
    requires take == TakeQueue(d, hub, now + lease, max, queue, tokens, now)
    requires o == PullCommands(l, hub, lease, max, ids, queue, tokens, now)
    ensures o.reply == PullCommands(e, hub, lease, max, [], queue, tokens, now).reply
    ensures Twins(ApplyAll(l, o.writes), ApplyAll(e, PullCommands(e, hub, lease, max, [], queue, tokens, now).writes),
            now)
  {
    hide *;
    PullIsCleanupThenTake(l, hub, lease, max, ids, queue, tokens, now, clean, d, take);
    TakeAfter(l, clean, take, o);
    TakesAgree(d, e, hub, now + lease, max, queue, tokens, now);
    BarePull(e, hub, lease, max, queue, tokens, now);
  }

  /** The queue that a hub's cleanup leaves is the reference machine's. */
  lemma ReferenceQueue(d: Db, e: Db, hub: nat, queue: seq<nat>, now: Time)
    requires Current(d, hub, now) && Twins(d, e, now) && IsListing(d.commands, HubQueued(hub), queue)
    ensures IsListing(e.commands, HubQueued(hub), queue)
  {
    forall i | 0 <= i < |d.commands|
      ensures d.commands[i].createdAt == e.commands[i].createdAt
      ensures Matches(d.commands[i], HubQueued(hub)) <==> Matches(e.commands[i], HubQueued(hub))
    {
      assert SameButCompletion(Reconciled(d.commands[i], now), e.commands[i]);
    }
  }

  lemma PullTakesReferenceQueue(l: Db, e: Db, call: Call)
    requires call.PullCall? && AllShaped(l.commands) && Twins(l, e, call.now) && Legal(l, call)
    ensures IsListing(e.commands, HubQueued(call.hub), call.queue)
  {
    PullLists(l, call);
    hide IsListing, ApplyAll, Cleanup, AllShaped, Twins, Current, Legal;
    var clean := Cleanup(l.commands, call.ids, call.now, HubActor(call.hub));
    var d := ApplyAll(l, clean);
    CleaningByCall(l, e, HubPending(call.hub), call.ids, call.now, HubActor(call.hub), clean, d);
    CleanupMakesCurrentState(l, call.hub, call.ids, call.now, clean, d);
    ReferenceQueue(d, e, call.hub, call.queue, call.now);
  }

  /** A pull takes from a queue that the reference machine's own tables list, leases the same
      commands and returns the same rows. */
  lemma PullAgrees(l: Db, e: Db, call: Call)
    requires call.PullCall? && AllShaped(l.commands) && Twins(l, e, call.now) && Legal(l, call)
    ensures IsListing(e.commands, HubQueued(call.hub), call.queue)
    ensures Exec(l, call).reply == Exec(e, Bare(call)).reply
    ensures Twins(Step(l, call), Step(e, Bare(call)), call.now)
  {
    PullTakesReferenceQueue(l, e, call);
    if ValidatePullMax(call.maxCommands).Ok? && ValidateLeaseDuration(call.leaseMs).Ok? {
      var lease, max := ValidateLeaseDuration(call.leaseMs).value, ValidatePullMax(call.maxCommands).value;
      PullIsExec(l, call, lease, max);
      PullIsExec(e, Bare(call), lease, max);
      PullOkAgrees(l, e, call.hub, lease, max, call.ids, call.queue, call.tokens, call.now,
                   Cleanup(l.commands, call.ids, call.now, HubActor(call.hub)),
                   Cleaned(l, call.ids, call.now, HubActor(call.hub)));
    }
  }

  lemma PullOkAgrees(l: Db, e: Db, hub: nat, lease: Time, max: nat, ids: seq<nat>, queue: seq<nat>,
                     tokens: LeaseTokens, now: Time,
                     clean: seq<Write>, d: Db)
    requires AllShaped(l.commands) && Twins(l, e, now)
    requires IsListing(l.commands, HubPending(hub), ids) && IsListing(d.commands, HubQueued(hub), queue)
    requires clean == Cleanup(l.commands, ids, now, HubActor(hub)) && d == ApplyAll(l, clean)
    requires max <= MAX_PULL && lease >= MILLISECOND
    ensures PullCommands(l, hub, lease, max, ids, queue, tokens, now).reply
            == PullCommands(e, hub, lease, max, [], queue, tokens, now).reply
    ensures Twins(ApplyAll(l, PullCommands(l, hub, lease, max, ids, queue, tokens, now).writes),
                  ApplyAll(e, PullCommands(e, hub, lease, max, [], queue, tokens, now).writes), now)
  {
    hide *;
    IsNotQueued(hub);
    CleaningByCall(l, e, HubPending(hub), ids, now, HubActor(hub), clean, d);
    CleanupMakesCurrentState(l, hub, ids, now, clean, d);
    QueueIsLiveQueue(d, hub, queue, now);
    PullCommandsAgree(l, e, hub, lease, max, ids, queue, tokens, now, clean, d,
                      TakeQueue(d, hub, now + lease, max, queue, tokens, now),
                      PullCommands(l, hub, lease, max, ids, queue, tokens, now));
  }

  lemma IsNotQueued(hub: nat)
    ensures !HubPending(hub).HubQueued?
  {
  }

  // ---------- Ack ----------

  lemma JudgedIsEnabled(c: Command, hub: nat, req: AckRequest, now: Time)
    requires JudgeAck(c, hub, req, now).Accept?
    ensures Enabled(c, JudgeAck(c, hub, req, now).move, now) && c.hubId == hub
    ensures JudgeAck(c, hub, req, now).move.Ack?
  {
  }

  /** The verdict on an ack is the same on both sides. */
  lemma SameVerdict(c: Command, d: Command, hub: nat, req: AckRequest, now: Time)
    requires SameButCompletion(Reconciled(c, now), d)
    requires c.hubId == hub && Pending(c.status) ==> CleanupMove(c, now).None?
    ensures JudgeAck(c, hub, req, now) == JudgeAck(d, hub, req, now)
    ensures c.hubId == hub ==> SameButCompletion(c, d)
    ensures !JudgeAck(c, hub, req, now).Refuse? ==> c.hubId == hub
  {
  }

  lemma AckedAlike(c: Command, d: Command, m: Move, now: Time)
    requires SameButCompletion(c, d) && m.Ack?
    ensures SameButCompletion(Moved(c, m, now), Moved(d, m, now))
  {
  }

  lemma AckCommandAgrees(l: Db, e: Db, hub: nat, id: nat, req: AckRequest, ids: seq<nat>, now: Time,
                         clean: seq<Write>, d: Db)
    requires clean == Cleanup(l.commands, ids, now, HubActor(hub)) && d == ApplyAll(l, clean)
    requires Twins(l, e, now) && Twins(d, e, now) && Current(d, hub, now)
    ensures SameReply(AckCommand(l, hub, id, req, ids, now).reply, AckCommand(e, hub, id, req, [], now).reply)
    ensures Twins(ApplyAll(l, AckCommand(l, hub, id, req, ids, now).writes),
            ApplyAll(e, AckCommand(e, hub, id, req, [], now).writes), now)
  {
    NoCleanup(e.commands, now, HubActor(hub));
    NoWrites(l);
    NoWrites(e);
    hide Cleanup, ApplyAll, JudgeAck, Enabled, Moved, Reconciled, CleanupMove;
    if id < |d.commands| {
      var c := d.commands[id];
      SameVerdict(c, e.commands[id], hub, req, now);
      match JudgeAck(c, hub, req, now)
      case Refuse(_) =>
      case AlreadyApplied => SameSingle(id, c, e.commands[id]);
      case Accept(m) =>
        JudgedIsEnabled(c, hub, req, now);
        var w := Change(id, m, HubActor(hub), now);
        MoveKeepsMirror(d, e, w);
        AckedAlike(c, e.commands[id], m, now);
        SameSingle(id, Moved(c, m, now), Moved(e.commands[id], m, now));
        ApplyOneMore(l, clean, w);
        OneWrite(e, w);
        assert [] + [w] == [w];
    }
  }

  lemma AckAgrees(l: Db, e: Db, call: Call)
    requires call.AckCall? && AllShaped(l.commands) && Twins(l, e, call.now) && Legal(l, call)
    ensures SameReply(Exec(l, call).reply, Exec(e, Bare(call)).reply)
    ensures Twins(Step(l, call), Step(e, Bare(call)), call.now)
  {
    var hub, now := call.hub, call.now;
    var clean := Cleanup(l.commands, call.ids, now, HubActor(hub));
    CleaningByCall(l, e, HubPending(hub), call.ids, now, HubActor(hub), clean, ApplyAll(l, clean));
    CleanupMakesCurrentState(l, hub, call.ids, now, clean, ApplyAll(l, clean));
    if call.ack.commandId.Some? {
      AckCommandAgrees(l, e, hub, call.ack.commandId.value, call.ack, call.ids, now, clean, ApplyAll(l, clean));
    }
  }

  // ---------- Status and the reconciling transaction ----------

  lemma SameSingle(id: nat, c: Command, d: Command)
    ensures SameReply(Commands([Shown(id, c)]), Commands([Shown(id, d)])) <==> SameButCompletion(c, d)
  {
    var r, s := Commands([Shown(id, c)]), Commands([Shown(id, d)]);
    assert r.shown[0] == Shown(id, c) && s.shown[0] == Shown(id, d);
  }

  lemma StatusOfRow(c: Command, d: Command, now: Time)
    requires Shaped(c) && SameButCompletion(Reconciled(c, now), d)
    ensures ShouldExpire(c, now) ==> SameButCompletion(Moved(c, Expire, now), d)
    ensures !ShouldExpire(c, now) ==> (SameButCompletion(c, d) <==> !LeaseLapsed(c, now))
    ensures !ShouldExpire(d, now)
  {
  }

  lemma SameVisibility(l: Db, e: Db, call: Call)
    requires call.StatusCall? && Twins(l, e, call.now)
    ensures |l.commands| == |e.commands|
    ensures call.id < |l.commands| ==>
              && SameButCompletion(Reconciled(l.commands[call.id], call.now), e.commands[call.id])
              && (Visible(l, call.user, l.commands[call.id]) <==> Visible(e, call.user, e.commands[call.id]))
  {
  }

  /** A status read shows what the reference machine shows, except that it shows a lapsed
      lease as leased. */
  lemma StatusAgrees(l: Db, e: Db, call: Call)
    requires call.StatusCall? && AllShaped(l.commands) && Twins(l, e, call.now)
    ensures Twins(Step(l, call), Step(e, Bare(call)), call.now)
    ensures SameReply(Exec(l, call).reply, Exec(e, Bare(call)).reply) <==>
              !(&& call.id < |l.commands| && Visible(l, call.user, l.commands[call.id])
                && LeaseLapsed(l.commands[call.id], call.now) && call.now < l.commands[call.id].expiresAt)
    ensures Exec(l, call).reply.Rejected? <==> Exec(e, Bare(call)).reply.Rejected?
  {
    var id, now := call.id, call.now;
    SameVisibility(l, e, call);
    if id < |l.commands| && Visible(l, call.user, l.commands[id]) {
      var c, d := l.commands[id], e.commands[id];
      StatusOfRow(c, d, now);
      SameSingle(id, c, d);
      SameSingle(id, Moved(c, Expire, now), d);
      if ShouldExpire(c, now) {
        var w := Change(id, Expire, SystemActor, now);
        OneWrite(l, w);
        MoveKeepsMirror(l, e, w);
      }
    }
  }

  lemma ReconcileAgrees(l: Db, e: Db, call: Call)
    requires call.ReconcileCall? && AllShaped(l.commands) && Twins(l, e, call.now) && Legal(l, call)
    ensures Exec(l, call).reply == Exec(e, Bare(call)).reply
    ensures Twins(Step(l, call), Step(e, Bare(call)), call.now)
  {
    NoCleanup(e.commands, call.now, SystemActor);
    var clean := Cleanup(l.commands, call.ids, call.now, SystemActor);
    CleaningByCall(l, e, TargetPending(call.hub, call.node), call.ids, call.now, SystemActor, clean,
        ApplyAll(l, clean));
  }
}
