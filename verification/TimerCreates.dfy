/**
 Creates of the service against the same creates of the reference machine.  There are
 exactly two ways in which the answers differ, and both need time to pass or another call to
 come between the two transactions of the create.
 */
module TimerCreates {
  import opened Model
  import opened Validation
  import opened Lifecycle
  import opened Store
  import opened Transactions
  import opened Runs
  import opened Safety
  import opened Creating
  import opened Timer
  import opened TimerCalls

  // ---------- The two differences ----------

  /** A create that reaches the active check and is refused there only because of commands
      that are overdue but not yet cleaned up: they lapsed after the reconciling
      transaction of the create. */
  predicate OverdueBlocks(l: Db, call: Call) {
    && call.CreateCall?
    && Prepare(call.create, call.readAt).Ok?
    && Blocked(l, call.user, Prepare(call.create, call.readAt).value, call.capturedAt, call.now)
  }

  predicate Blocked(l: Db, user: nat, d: Draft, capturedAt: Time, now: Time) {
    && Owned(l, user, d.hubId, d.nodeId)
    && FindKey(l.commands, user, d.nodeId, d.key).None?
    && CountSince(l.commands, user, d.nodeId, capturedAt - RATE_WINDOW) < RATE_MAX
    && HasActive(l.commands, d.hubId, d.nodeId)
    && !Held(l.commands, d.hubId, d.nodeId, now)
  }

  /** A create that finds its key at a pending command whose lease or lifetime has lapsed
      since the cleanup: it shows the command as it stands. */
  predicate ReplaysLapsed(l: Db, call: Call) {
    && call.CreateCall?
    && Prepare(call.create, call.readAt).Ok?
    && var d := Prepare(call.create, call.readAt).value;
    && Owned(l, call.user, d.hubId, d.nodeId)
    && KeyLapsed(l.commands, call.user, d, call.now)
  }

  predicate KeyLapsed(cs: seq<Command>, user: nat, d: Draft, now: Time) {
    var found := FindKey(cs, user, d.nodeId, d.key);
    found.Some? && Pending(cs[found.value].status) && CleanupMove(cs[found.value], now).Some?
  }

  // ---------- What a create reads ----------

  lemma MirrorsHaveIdentities(ls: seq<Command>, es: seq<Command>, now: Time)
    requires Mirrors(ls, es, now)
    ensures SameIdentities(ls, es)
  {
  }

  /** The reference machine sees the active commands that are not overdue. */
  lemma ActiveInReference(ls: seq<Command>, es: seq<Command>, now: Time, hub: nat, node: string)
    requires Mirrors(ls, es, now)
    ensures HasActive(es, hub, node) <==> Held(ls, hub, node, now)
    ensures HasActive(es, hub, node) ==> HasActive(ls, hub, node)
  {
    forall i | 0 <= i < |ls|
      ensures OnTarget(ls[i], hub, node) == OnTarget(es[i], hub, node)
      ensures Active(es[i].status) <==> Active(ls[i].status) && !ShouldExpire(ls[i], now)
    {
      assert SameButCompletion(Reconciled(ls[i], now), es[i]);
    }
  }

  /** What a create reads is the same on both sides, but for the active check. */
  lemma SameCreateReads(l: Db, e: Db, user: nat, d: Draft, capturedAt: Time, now: Time)
    requires Twins(l, e, now)
    ensures Owned(l, user, d.hubId, d.nodeId) == Owned(e, user, d.hubId, d.nodeId)
    ensures FindKey(l.commands, user, d.nodeId, d.key) == FindKey(e.commands, user, d.nodeId, d.key)
    ensures CountSince(l.commands, user, d.nodeId, capturedAt - RATE_WINDOW)
            == CountSince(e.commands, user, d.nodeId, capturedAt - RATE_WINDOW)
    ensures HasActive(e.commands, d.hubId, d.nodeId) <==> Held(l.commands, d.hubId, d.nodeId, now)
    ensures HasActive(e.commands, d.hubId, d.nodeId) ==> HasActive(l.commands, d.hubId, d.nodeId)
    ensures |l.commands| == |e.commands|
  {
    MirrorsHaveIdentities(l.commands, e.commands, now);
    FindKeyByIdentity(l.commands, e.commands, user, d.nodeId, d.key);
    CountSinceByIdentity(l.commands, e.commands, user, d.nodeId, capturedAt - RATE_WINDOW);
    ActiveInReference(l.commands, e.commands, now, d.hubId, d.nodeId);
  }

  // ---------- The reference machine after one more turn of its timer ----------

  function Ticked(e: Db, now: Time): Db {
    e.(commands := Tick(e.commands, now))
  }

  lemma TickedTwins(l: Db, e: Db, now: Time)
    requires AllShaped(l.commands) && Twins(l, e, now)
    ensures Twins(l, Ticked(e, now), now)
  {
    TickKeepsMirror(l.commands, e.commands, now, now);
  }

  lemma InsertKeepsTwins(l: Db, e: Db, w: Write, now: Time)
    requires AllShaped(l.commands) && Twins(l, e, now) && w.Insert?
    ensures Twins(Apply(l, w), Ticked(Apply(e, w), now), now)
  {
    TickKeepsMirror(l.commands, e.commands, now, now);
    forall i | 0 <= i < |l.commands|
      ensures SameButCompletion(Reconciled(l.commands[i], now), Tick(Apply(e, w).commands, now)[i])
    {
      assert Tick(Apply(e, w).commands, now)[i] == Tick(e.commands, now)[i];
    }
  }

  // ---------- Known keys, new keys, refusals ----------

  /** A stored row looks like the reference machine's unless it is due for cleanup. */
  lemma LooksLikeReference(c: Command, d: Command, now: Time)
    requires Shaped(c) && SameButCompletion(Reconciled(c, now), d)
    ensures SameButCompletion(c, d) <==> !(Pending(c.status) && CleanupMove(c, now).Some?)
  {
  }

  lemma FoundCreateAgrees(l: Db, e: Db, user: nat, d: Draft, now: Time, i: nat, r: Reply, s: Reply)
    requires AllShaped(l.commands) && Twins(l, e, now) && i < |l.commands| == |e.commands|
    requires FindKey(l.commands, user, d.nodeId, d.key) == Some(i)
    requires r == Commands([Shown(i, l.commands[i])]) && s == Commands([Shown(i, e.commands[i])])
    ensures SameReply(r, s) <==> !KeyLapsed(l.commands, user, d, now)
  {
    LooksLikeReference(l.commands[i], e.commands[i], now);
    SameSingle(i, l.commands[i], e.commands[i]);
  }

  lemma NewCreateAgrees(l: Db, e: Db, user: nat, d: Draft, capturedAt: Time, now: Time, r: Outcome, s: Outcome)
    requires AllShaped(l.commands) && Twins(l, e, now)
    requires r == CreateCommand(l, user, d, capturedAt, now) && s == CreateCommand(e, user, d, capturedAt, now)
    requires r.writes != [] && s.writes != []
    ensures SameReply(r.reply, s.reply)
    ensures Twins(ApplyAll(l, r.writes), Ticked(ApplyAll(e, s.writes), now), now)
  {
    var c := NewCommand(user, d, now);
    var w := Insert(c, UserActor(user), capturedAt, now);
    InsertKeepsTwins(l, e, w, now);
    OneWrite(l, w);
    OneWrite(e, w);
    SameSingle(|l.commands|, c, c);
  }

  lemma RejectedAgree(c: Code, r: Reply)
    ensures SameReply(Rejected(c), r) <==> r == Rejected(c)
    ensures Reject(c).writes == [] && Reject(c).reply == Rejected(c)
  {
  }

  // ---------- The create transaction ----------

  /** Both sides find the key. */
  lemma KnownKeyAgrees(l: Db, e: Db, user: nat, d: Draft, capturedAt: Time, now: Time, r: Outcome, s: Outcome)
    requires AllShaped(l.commands) && Twins(l, e, now)
    requires r == CreateCommand(l, user, d, capturedAt, now) && s == CreateCommand(e, user, d, capturedAt, now)
    requires Owned(l, user, d.hubId, d.nodeId) && FindKey(l.commands, user, d.nodeId, d.key).Some?
    ensures var i := FindKey(l.commands, user, d.nodeId, d.key).value;
            && i < |e.commands|
            && r == Read([Shown(i, l.commands[i])]) && s == Read([Shown(i, e.commands[i])])
    ensures SameReply(r.reply, s.reply) <==> !KeyLapsed(l.commands, user, d, now)
  {
    var i := FindKey(l.commands, user, d.nodeId, d.key).value;
    SameCreateReads(l, e, user, d, capturedAt, now);
    CreateDecides(l, user, d, capturedAt, now, r);
    CreateDecides(e, user, d, capturedAt, now, s);
    hide CreateCommand, FindKey, KeyLapsed, SameReply, Twins;
    FoundCreateAgrees(l, e, user, d, now, i, r.reply, s.reply);
  }

  /** Neither side finds the key, or the target is not the user's. */
  lemma NewKeyAgrees(l: Db, e: Db, user: nat, d: Draft, capturedAt: Time, now: Time, r: Outcome, s: Outcome)
    requires AllShaped(l.commands) && Twins(l, e, now) && Twins(l, Ticked(e, now), now)
    requires r == CreateCommand(l, user, d, capturedAt, now) && s == CreateCommand(e, user, d, capturedAt, now)
    requires !Owned(l, user, d.hubId, d.nodeId) || FindKey(l.commands, user, d.nodeId, d.key).None?
    ensures SameReply(r.reply, s.reply) <==> !Blocked(l, user, d, capturedAt, now)
    ensures Blocked(l, user, d, capturedAt, now) ==>
            r == Reject(FailedPrecondition) && s.writes != [] && s.reply.Commands?
    ensures !Blocked(l, user, d, capturedAt, now) ==>
              Twins(ApplyAll(l, r.writes), Ticked(ApplyAll(e, s.writes), now), now)
  {
    assert Blocked(l, user, d, capturedAt, now) <==>
           && Owned(l, user, d.hubId, d.nodeId)
           && FindKey(l.commands, user, d.nodeId, d.key).None?
           && CountSince(l.commands, user, d.nodeId, capturedAt - RATE_WINDOW) < RATE_MAX
           && HasActive(l.commands, d.hubId, d.nodeId)
           && !Held(l.commands, d.hubId, d.nodeId, now);
    hide *;
    SameCreateReads(l, e, user, d, capturedAt, now);
    CreateDecides(l, user, d, capturedAt, now, r);
    CreateDecides(e, user, d, capturedAt, now, s);
    NoWrites(l);
    NoWrites(e);
    RejectedAgree(PermissionDenied, s.reply);
    RejectedAgree(ResourceExhausted, s.reply);
    RejectedAgree(FailedPrecondition, s.reply);
    if r.writes != [] && s.writes != [] {
      NewCreateAgrees(l, e, user, d, capturedAt, now, r, s);
    }
  }

  lemma CreateIsCommand(db: Db, call: Call, d: Draft)
    requires call.CreateCall? && Prepare(call.create, call.readAt) == Ok(d)
    ensures Exec(db, call) == CreateCommand(db, call.user, d, call.capturedAt, call.now)
    ensures OverdueBlocks(db, call) <==> Blocked(db, call.user, d, call.capturedAt, call.now)
    ensures ReplaysLapsed(db, call) <==>
              Owned(db, call.user, d.hubId, d.nodeId) && KeyLapsed(db.commands, call.user, d, call.now)
  {
  }

  lemma UnpreparedCreate(db: Db, call: Call)
    requires call.CreateCall? && Prepare(call.create, call.readAt).Err?
    ensures Exec(db, call) == Reject(Prepare(call.create, call.readAt).code)
    ensures !OverdueBlocks(db, call) && !ReplaysLapsed(db, call)
  {
  }

  lemma LapsedKeyIsKnown(cs: seq<Command>, user: nat, d: Draft, now: Time)
    ensures KeyLapsed(cs, user, d, now) ==> FindKey(cs, user, d.nodeId, d.key).Some?
  {
  }

  lemma BlockedIsNew(l: Db, user: nat, d: Draft, capturedAt: Time, now: Time)
    ensures Blocked(l, user, d, capturedAt, now) ==>
              Owned(l, user, d.hubId, d.nodeId) && FindKey(l.commands, user, d.nodeId, d.key).None?
  {
  }

  lemma CommitAgrees(l: Db, e: Db, user: nat, d: Draft, capturedAt: Time, now: Time, r: Outcome, s: Outcome)
    requires AllShaped(l.commands) && Twins(l, e, now) && Twins(l, Ticked(e, now), now)
    requires r == CreateCommand(l, user, d, capturedAt, now) && s == CreateCommand(e, user, d, capturedAt, now)
    ensures SameReply(r.reply, s.reply) <==>
              && !Blocked(l, user, d, capturedAt, now)
              && !(Owned(l, user, d.hubId, d.nodeId) && KeyLapsed(l.commands, user, d, now))
    ensures Blocked(l, user, d, capturedAt, now) ==>
            r == Reject(FailedPrecondition) && s.writes != [] && s.reply.Commands?
    ensures !Blocked(l, user, d, capturedAt, now) ==>
              Twins(ApplyAll(l, r.writes), Ticked(ApplyAll(e, s.writes), now), now)
  {
    hide *;
    LapsedKeyIsKnown(l.commands, user, d, now);
    BlockedIsNew(l, user, d, capturedAt, now);
    if Owned(l, user, d.hubId, d.nodeId) && FindKey(l.commands, user, d.nodeId, d.key).Some? {
      KnownKeyAgrees(l, e, user, d, capturedAt, now, r, s);
      ReadWritesNothing(r);
      ReadWritesNothing(s);
      NoWrites(l);
      NoWrites(e);
    } else {
      NewKeyAgrees(l, e, user, d, capturedAt, now, r, s);
    }
  }

  lemma ReadWritesNothing(o: Outcome)
    ensures forall shown :: o == Read(shown) ==> o.writes == []
  {
  }

  lemma CreateDecisionsAgree(l: Db, e: Db, call: Call)
    requires call.CreateCall? && AllShaped(l.commands) && Twins(l, e, call.now)
    ensures SameReply(Exec(l, call).reply, Exec(e, call).reply) <==> !OverdueBlocks(l, call) && !ReplaysLapsed(l, call)
    ensures OverdueBlocks(l, call) ==>
              && Exec(l, call) == Reject(FailedPrecondition)
              && Exec(e, call).reply.Commands? && Exec(e, call).writes != []
    ensures !OverdueBlocks(l, call) ==> Twins(Step(l, call), Ticked(Step(e, call), call.now), call.now)
  {
    TickedTwins(l, e, call.now);
    StepIs(l, call);
    StepIs(e, call);
    hide *;
    if Prepare(call.create, call.readAt).Ok? {
      var d := Prepare(call.create, call.readAt).value;
      CreateIsCommand(l, call, d);
      CreateIsCommand(e, call, d);
      CommitAgrees(l, e, call.user, d, call.capturedAt, call.now, Exec(l, call), Exec(e, call));
    } else {
      UnpreparedCreate(l, call);
      UnpreparedCreate(e, call);
      RejectedAgree(Prepare(call.create, call.readAt).code, Exec(e, call).reply);
      NoWrites(l);
      NoWrites(e);
    }
  }

  lemma StepIs(db: Db, call: Call)
    ensures Step(db, call) == ApplyAll(db, Exec(db, call).writes)
  {
  }

  /** The row at which a create finds its key, on both sides. */
  lemma LapsedReplayShows(l: Db, e: Db, call: Call) returns (i: nat)
    requires AllShaped(l.commands) && Twins(l, e, call.now) && ReplaysLapsed(l, call)
    ensures i < |l.commands| == |e.commands| && Pending(l.commands[i].status)
    ensures CleanupMove(l.commands[i], call.now).Some?
    ensures Exec(l, call) == Read([Shown(i, l.commands[i])]) && Exec(e, call) == Read([Shown(i, e.commands[i])])
  {
    var d := Prepare(call.create, call.readAt).value;
    i := FindKey(l.commands, call.user, d.nodeId, d.key).value;
    CreateIsCommand(l, call, d);
    CreateIsCommand(e, call, d);
    hide Exec, CreateCommand, SameReply, Twins, FindKey;
    KnownKeyAgrees(l, e, call.user, d, call.capturedAt, call.now, Exec(l, call), Exec(e, call));
  }

  /** A create gets the reference machine's answer exactly unless commands that are overdue
      block it, when the service refuses and the reference machine makes the command,
      or its key belongs to a command that is due for cleanup, which the service shows
      uncleaned.  Only the first of these makes the tables part. */
  lemma CreateAgrees(l: Db, e: Db, call: Call, r: Reply, l': Db, s: Reply, e': Db)
    requires call.CreateCall? && AllShaped(l.commands) && Twins(l, e, call.now)
    requires Performed(l, call, r, l') && Performed(e, call, s, e')
    ensures SameReply(r, s) <==> !OverdueBlocks(l, call) && !ReplaysLapsed(l, call)
    ensures OverdueBlocks(l, call) ==> r == Rejected(FailedPrecondition) && l' == l && s.Commands?
    ensures !OverdueBlocks(l, call) ==> Twins(l', Ticked(e', call.now), call.now)
  {
    CreateDecisionsAgree(l, e, call);
    NoWrites(l);
  }
}
