/**
 Safety over whole runs: one active command per node, ownership alignment, the audit log
 as the truth about each row, status-determined rows and idempotent creation.
 */
module Safety {
  import opened Model
  import opened Validation
  import opened Lifecycle
  import opened Store
  import opened Transactions
  import opened Runs
  import opened Invariants

  // ---------- Ownership ----------

  /** Everyone who may see a command through its hub created it, and the other way round;
      its hub is the one its node is bound to. */
  lemma VisibleMeansCreated(db: Db, calls: seq<Call>, d: Db, i: nat, user: nat)
    requires Initial(db) && IsRun(db, calls, d) && i < |d.commands|
    ensures var c := d.commands[i];
            && (Visible(d, user, c) <==> c.userId == user)
            && c.nodeId in d.nodes && d.nodes[c.nodeId] == Some(c.hubId)
  {
    ReachableInv(db, calls, d);
    assert Owned(d, d.commands[i].userId, d.commands[i].hubId, d.commands[i].nodeId);
  }

  /** All commands of a node were created by one user for one hub. */
  lemma NodeHasOneUser(db: Db, i: nat, j: nat)
    requires Aligned(db) && i < |db.commands| && j < |db.commands|
    requires db.commands[i].nodeId == db.commands[j].nodeId
    ensures db.commands[i].hubId == db.commands[j].hubId && db.commands[i].userId == db.commands[j].userId
  {
    assert Owned(db, db.commands[i].userId, db.commands[i].hubId, db.commands[i].nodeId);
    assert Owned(db, db.commands[j].userId, db.commands[j].hubId, db.commands[j].nodeId);
  }

  lemma {:induction false} WritesKeepOwned(db: Db, ws: seq<Write>, user: nat, hub: nat, node: string)
    requires Owned(db, user, hub, node) && AllAllowed(db, ws)
    ensures Owned(ApplyAll(db, ws), user, hub, node)
  {
    if ws != [] {
      var init, last := LastWrite(db, ws);
      WritesKeepOwned(db, init, user, hub, node);
      WriteKeepsOwned(ApplyAll(db, init), last, user, hub, node);
    }
  }

  /** The right to command a node, once held, is never lost: the check before the first
      transaction of a create decides those inside both. */
  lemma OwnershipIsPermanent(db: Db, calls: seq<Call>, d: Db, user: nat, hub: nat, node: string)
    requires IsRun(db, calls, d) && Owned(db, user, hub, node)
    ensures Owned(d, user, hub, node)
  {
    RunIsItsLog(db, calls);
    WritesKeepOwned(db, RunLog(db, calls), user, hub, node);
  }

  /** Two accepted readings of one node came from the same hub, whatever happened between. */
  lemma ReadingsOfANodeComeFromOneHub(db: Db, first: Call, r: Reply, d: Db, calls: seq<Call>, e: Db, second: Call,
                                      s: Reply, f: Db)
    requires Performed(db, first, r, d) && IsRun(d, calls, e) && Performed(e, second, s, f)
    requires first.ReadingCall? && second.ReadingCall? && first.node == second.node
    requires !r.Rejected? && !s.Rejected?
    ensures first.hub == second.hub
  {
    ReadingBinds(db, first);
    BindingIsPermanent(d, calls, e, first.node, first.hub);
    AcceptedReadingMatches(e, second, first.hub);
  }

  lemma AcceptedReadingMatches(db: Db, call: Call, hub: nat)
    requires call.ReadingCall? && !Exec(db, call).reply.Rejected?
    requires call.node in db.nodes && db.nodes[call.node] == Some(hub)
    ensures call.hub == hub
  {
  }

  lemma ReadingWrites(db: Db, hub: nat, node: string, readAt: Time, now: Time, b: Write, r: Write)
    requires b == Bind(node, hub, now) && r == AddReading(node, hub, readAt, now)
    requires !InsertReading(db, hub, node, readAt, now).reply.Rejected?
    ensures var ws := InsertReading(db, hub, node, readAt, now).writes;
            ws == [b] + [r] || (ws == [r] && node in db.nodes && db.nodes[node] == Some(hub))
  {
    assert [] + [r] == [r];
  }

  lemma BindThenRead(db: Db, b: Write, r: Write)
    requires b.Bind? && r.AddReading? && b.node == r.node && b.hub == r.hub
    ensures ApplyAll(db, [r]).nodes == db.nodes
    ensures ApplyAll(db, [b] + [r]).nodes == db.nodes[b.node := Some(b.hub)]
  {
    OneWrite(db, r);
    OneWrite(db, b);
    ApplyOneMore(db, [b], r);
  }

  lemma ReadingBinds(db: Db, call: Call)
    requires call.ReadingCall? && !Exec(db, call).reply.Rejected?
    ensures call.node in Step(db, call).nodes && Step(db, call).nodes[call.node] == Some(call.hub)
  {
    var b, r := Bind(call.node, call.hub, call.now), Write.AddReading(call.node, call.hub, call.measuredAt, call.now);
    hide ApplyAll, InsertReading;
    ReadingWrites(db, call.hub, call.node, call.measuredAt, call.now, b, r);
    BindThenRead(db, b, r);
  }

  lemma WriteKeepsBinding(db: Db, w: Write, node: string, hub: nat)
    requires node in db.nodes && db.nodes[node] == Some(hub) && Allowed(db, w)
    ensures var d := Apply(db, w); node in d.nodes && d.nodes[node] == Some(hub)
  {
  }

  lemma {:induction false} WritesKeepBinding(db: Db, ws: seq<Write>, node: string, hub: nat)
    requires node in db.nodes && db.nodes[node] == Some(hub) && AllAllowed(db, ws)
    ensures var d := ApplyAll(db, ws); node in d.nodes && d.nodes[node] == Some(hub)
  {
    if ws != [] {
      var init, last := LastWrite(db, ws);
      WritesKeepBinding(db, init, node, hub);
      WriteKeepsBinding(ApplyAll(db, init), last, node, hub);
    }
  }

  /** First sight binds a node for ever. */
  lemma BindingIsPermanent(db: Db, calls: seq<Call>, d: Db, node: string, hub: nat)
    requires IsRun(db, calls, d) && node in db.nodes && db.nodes[node] == Some(hub)
    ensures node in d.nodes && d.nodes[node] == Some(hub)
  {
    RunIsItsLog(db, calls);
    WritesKeepBinding(db, RunLog(db, calls), node, hub);
  }

  lemma {:induction false} WritesKeepHubs(db: Db, ws: seq<Write>, h: nat)
    requires h < |db.hubs|
    ensures h < |ApplyAll(db, ws).hubs| && ApplyAll(db, ws).hubs[h] == db.hubs[h]
  {
    if ws != [] {
      WritesKeepHubs(db, ws[..|ws| - 1], h);
    }
  }

  // ---------- At most one active command per node ----------

  /** The create transaction looks at one hub and node; permanent binding makes that the
      node. */
  lemma OneActivePerNode(db: Db, calls: seq<Call>, d: Db, i: nat, j: nat)
    requires Initial(db) && IsRun(db, calls, d) && i < j < |d.commands|
    requires d.commands[i].nodeId == d.commands[j].nodeId
    ensures !Active(d.commands[i].status) || !Active(d.commands[j].status)
  {
    ReachableInv(db, calls, d);
    NodeHasOneUser(d, i, j);
  }

  // ---------- Rows and their audit log ----------

  /** Folding the events of a command gives its stored status, reason, lease start and
      completion time; the events are one chained word of the protocol's automaton. */
  lemma AuditLogReplaysToRow(db: Db, calls: seq<Call>, d: Db, i: nat)
    requires Initial(db) && IsRun(db, calls, d) && i < |d.commands|
    ensures var c := d.commands[i]; var v := Replay(History(d.events, i));
            && v.status == c.status && v.reason == c.reason && v.reasonMessage == c.reasonMessage
            && v.leasedAt == c.leasedAt && v.completedAt == c.completedAt
            && Word(History(d.events, i))
  {
    ReachableInv(db, calls, d);
    assert Sound(d.commands[i], History(d.events, i));
  }

  /** The status of a row says which of its optional fields are set; no command is ever
      cancelled. */
  lemma StatusDeterminesShape(db: Db, calls: seq<Call>, d: Db, i: nat)
    requires Initial(db) && IsRun(db, calls, d) && i < |d.commands|
    ensures var c := d.commands[i];
            && (Active(c.status) <==> c.completedAt.None?)
            && (c.status == Queued || Terminal(c.status) <==> NoLease(c))
            && (c.status == Leased || c.status == Sent || c.status == Executing <==> HasLease(c))
            && c.status != Cancelled
  {
    ReachableInv(db, calls, d);
    assert Sound(d.commands[i], History(d.events, i));
  }

  // ---------- Idempotent creation ----------

  /** The fields that no call changes. */
  predicate SameIdentity(c: Command, d: Command) {
    && c.userId == d.userId && c.hubId == d.hubId && c.nodeId == d.nodeId
    && c.action == d.action && c.durationMs == d.durationMs && c.key == d.key
    && c.expiresAt == d.expiresAt && c.createdAt == d.createdAt
  }

  lemma {:induction false} WritesKeepIdentity(db: Db, ws: seq<Write>, i: nat)
    requires i < |db.commands|
    ensures var d := ApplyAll(db, ws); |db.commands| <= |d.commands| && SameIdentity(db.commands[i], d.commands[i])
  {
    if ws != [] {
      WritesKeepIdentity(db, ws[..|ws| - 1], i);
    }
  }

  lemma RunKeepsIdentity(db: Db, calls: seq<Call>, d: Db, i: nat)
    requires IsRun(db, calls, d) && i < |db.commands|
    ensures |db.commands| <= |d.commands| && SameIdentity(db.commands[i], d.commands[i])
  {
    RunIsItsLog(db, calls);
    WritesKeepIdentity(db, RunLog(db, calls), i);
  }

  ghost predicate SameIdentities(ls: seq<Command>, es: seq<Command>) {
    |ls| == |es| && forall i :: 0 <= i < |ls| ==> SameIdentity(ls[i], es[i])
  }

  lemma {:induction false} FindKeyByIdentity(ls: seq<Command>, es: seq<Command>, user: nat, node: string, key: string)
    requires SameIdentities(ls, es)
    ensures FindKey(ls, user, node, key) == FindKey(es, user, node, key)
  {
    if ls != [] {
      FindKeyByIdentity(ls[..|ls| - 1], es[..|es| - 1], user, node, key);
    }
  }

  lemma {:induction false} CountSinceByIdentity(ls: seq<Command>, es: seq<Command>, user: nat, node: string, lo: Time)
    requires SameIdentities(ls, es)
    ensures CountSince(ls, user, node, lo) == CountSince(es, user, node, lo)
  {
    if ls != [] {
      CountSinceByIdentity(ls[..|ls| - 1], es[..|es| - 1], user, node, lo);
    }
  }

  /** Whatever happens after a command was created, and whatever state it is in by then, a
      create with its user, node and key writes nothing.  It returns that command as it
      stands, unless the request is malformed or names another hub; in particular neither
      the rate limit nor the active check ever refuses it. */
  lemma CreateIsIdempotent(db: Db, before: seq<Call>, d: Db, after: seq<Call>, e: Db, i: nat, again: Call, r: Reply,
                           f: Db)
    requires Initial(db) && IsRun(db, before, d) && IsRun(d, after, e) && Performed(e, again, r, f)
    requires i < |d.commands| && again.CreateCall?
    requires var c := d.commands[i];
             again.user == c.userId && again.create.nodeId == c.nodeId && again.create.key == c.key
    ensures i < |e.commands| && SameIdentity(d.commands[i], e.commands[i])
    ensures !r.Rejected? ==> r == Commands([Shown(i, e.commands[i])])
    ensures r.Rejected? <==>
              Prepare(again.create, again.readAt).Err? || again.create.hubId != Id(d.commands[i].hubId)
    ensures f == e
  {
    ReachableInv(db, before, d);
    RunKeepsInv(d, after);
    RunKeepsIdentity(d, after, e, i);
    KeyFindsItsRow(e, i);
    CreateReturnsItsRow(e, again, i);
  }

  lemma KeyFindsItsRow(d: Db, i: nat)
    requires UniqueKeys(d) && i < |d.commands|
    ensures FindKey(d.commands, d.commands[i].userId, d.commands[i].nodeId, d.commands[i].key) == Some(i)
  {
  }

  lemma CreateReturnsItsRow(e: Db, again: Call, i: nat)
    requires Aligned(e) && i < |e.commands| && again.CreateCall?
    requires var c := e.commands[i];
             && again.user == c.userId && again.create.nodeId == c.nodeId && again.create.key == c.key
             && FindKey(e.commands, c.userId, c.nodeId, c.key) == Some(i)
    ensures Prepare(again.create, again.readAt).Ok? && again.create.hubId == Id(e.commands[i].hubId) ==>
              Exec(e, again) == Outcome([], Commands([Shown(i, e.commands[i])]))
    ensures Prepare(again.create, again.readAt).Err? || again.create.hubId != Id(e.commands[i].hubId) ==>
              Exec(e, again).reply.Rejected? && Exec(e, again).writes == []
  {
    assert Owned(e, e.commands[i].userId, e.commands[i].hubId, e.commands[i].nodeId);
  }

  /** At most one row ever exists per user, node and key; the user follows from the node. */
  lemma OneRowPerNodeAndKey(db: Db, calls: seq<Call>, d: Db, i: nat, j: nat)
    requires Initial(db) && IsRun(db, calls, d) && i < j < |d.commands|
    ensures d.commands[i].nodeId == d.commands[j].nodeId ==> d.commands[i].key != d.commands[j].key
  {
    ReachableInv(db, calls, d);
    if d.commands[i].nodeId == d.commands[j].nodeId {
      NodeHasOneUser(d, i, j);
    }
  }

  // ---------- Status reads ----------

  /** A status read fetches a command at one time and looks at it again, if at all, at a
      later one.  What it answers is what it would answer at one of the two: the second
      look never fails, and no call in between can make the two disagree. */
  lemma StatusReadIsOneStep(db: Db, calls: seq<Call>, d: Db, user: nat, id: nat, now: Time)
    requires IsRun(db, calls, d) && id < |db.commands| && Visible(db, user, db.commands[id])
    ensures !ShouldExpire(db.commands[id], now) ==> ReadStatus(db, user, id, now) == Read([Shown(id, db.commands[id])])
    ensures !ReadStatus(d, user, id, now).reply.Rejected?
  {
    RunKeepsIdentity(db, calls, d, id);
    RunIsItsLog(db, calls);
    WritesKeepHubs(db, RunLog(db, calls), db.commands[id].hubId);
  }
}
