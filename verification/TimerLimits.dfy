/**
 Where the service and the reference machine part: creates whose target or key belongs to a
 command that lapses between their two transactions.
 */
module TimerLimits {
  import opened Model
  import opened Validation
  import opened Lifecycle
  import opened Store
  import opened Transactions
  import opened Queue
  import opened Runs
  import opened Invariants
  import opened Safety
  import opened Creating
  import opened Timer
  import opened TimerCreates
  import opened TimerRuns

  // ---------- Adjacent transactions ----------

  /** The two transactions of one create, with nothing between them; `m` is the state after
      the first. */
  ghost predicate Adjacent(l: Db, reconcile: Call, m: Db, create: Call, d: Draft) {
    && reconcile.ReconcileCall? && create.CreateCall? && Legal(l, reconcile) && m == Step(l, reconcile)
    && Prepare(create.create, create.readAt) == Ok(d)
    && reconcile.user == create.user && reconcile.hub == d.hubId && reconcile.node == d.nodeId
    && reconcile.now == create.capturedAt <= create.now
  }

  lemma HeldLater(l: Db, hub: nat, node: string, ids: seq<nat>, t1: Time, t2: Time, m: Db)
    requires IsListing(l.commands, TargetPending(hub, node), ids) && m == Cleaned(l, ids, t1, SystemActor) && t1 <= t2
    ensures Held(m.commands, hub, node, t2) <==> Held(l.commands, hub, node, t2)
  {
    CleanupKeepsFrame(l, ids, t1, SystemActor);
    hide Cleaned, IsListing;
    forall i | 0 <= i < |l.commands|
      ensures OnTarget(m.commands[i], hub, node) == OnTarget(l.commands[i], hub, node)
      ensures OnTarget(l.commands[i], hub, node) ==>
                (Active(m.commands[i].status) && !ShouldExpire(m.commands[i], t2)
                 <==> Active(l.commands[i].status) && !ShouldExpire(l.commands[i], t2))
    {
      ReconciledTargetRow(l, hub, node, ids, t1, m, i);
      IdentityKeepsTarget(l.commands[i], m.commands[i], hub, node);
    }
  }

  /** A pending command of the target that lapses after `t1` and no later than `t2`. */
  predicate LapsesMeanwhile(cs: seq<Command>, hub: nat, node: string, t1: Time, t2: Time) {
    exists i :: 0 <= i < |cs| && OnTarget(cs[i], hub, node) && Pending(cs[i].status) && t1 < cs[i].expiresAt <= t2
  }

  /** The only active command of a target holds it up to the expiry that it has while
      pending. */
  lemma HeldThenFree(l: Db, hub: nat, node: string, t1: Time, t2: Time)
    requires OneActivePerTarget(l) && t1 <= t2
    ensures Held(l.commands, hub, node, t1) && !Held(l.commands, hub, node, t2) <==>
              LapsesMeanwhile(l.commands, hub, node, t1, t2)
  {
    if LapsesMeanwhile(l.commands, hub, node, t1, t2) {
      var i :| 0 <= i < |l.commands| && OnTarget(l.commands[i], hub, node)
               && Pending(l.commands[i].status) && t1 < l.commands[i].expiresAt <= t2;
      forall j | 0 <= j < |l.commands| && OnTarget(l.commands[j], hub, node) && Active(l.commands[j].status)
        ensures j == i
      {
      }
    }
  }

  lemma AdjacentIsCleanup(l: Db, reconcile: Call, m: Db, create: Call, d: Draft)
    requires Adjacent(l, reconcile, m, create, d)
    ensures IsListing(l.commands, TargetPending(d.hubId, d.nodeId), reconcile.ids)
    ensures Owned(l, create.user, d.hubId, d.nodeId) ==> m == Cleaned(l, reconcile.ids, create.capturedAt, SystemActor)
    ensures !Owned(l, create.user, d.hubId, d.nodeId) ==> m == l
  {
  }

  lemma AdjacentReads(l: Db, reconcile: Call, m: Db, create: Call, d: Draft)
    requires Adjacent(l, reconcile, m, create, d) && Owned(l, create.user, d.hubId, d.nodeId)
    ensures SameFrame(l, m) && SameIdentities(l.commands, m.commands)
    ensures HasActive(m.commands, d.hubId, d.nodeId) <==> Held(l.commands, d.hubId, d.nodeId, create.capturedAt)
    ensures Held(m.commands, d.hubId, d.nodeId, create.now) <==> Held(l.commands, d.hubId, d.nodeId, create.now)
    ensures FindKey(m.commands, create.user, d.nodeId, d.key) == FindKey(l.commands, create.user, d.nodeId, d.key)
    ensures CountSince(m.commands, create.user, d.nodeId, create.capturedAt - RATE_WINDOW)
            == CountSince(l.commands, create.user, d.nodeId, create.capturedAt - RATE_WINDOW)
  {
    AdjacentIsCleanup(l, reconcile, m, create, d);
    hide IsListing, Cleaned, HasActive, Held, FindKey, CountSince, SameIdentities;
    ReconciledTarget(l, d.hubId, d.nodeId, reconcile.ids, create.capturedAt, m);
    HeldLater(l, d.hubId, d.nodeId, reconcile.ids, create.capturedAt, create.now, m);
    FindKeyByIdentity(l.commands, m.commands, create.user, d.nodeId, d.key);
    CountSinceByIdentity(l.commands, m.commands, create.user, d.nodeId, create.capturedAt - RATE_WINDOW);
  }

  /** With nothing between its transactions, a create for a new key and within the rate limit
      is blocked by an overdue command exactly when the command that holds its target is
      pending and lapses between the two clock readings. */
  lemma AdjacentCreateIsBlockedExactly(l: Db, reconcile: Call, m: Db, create: Call, d: Draft)
    requires OneActivePerTarget(l) && Adjacent(l, reconcile, m, create, d)
    ensures OverdueBlocks(m, create) <==>
              && Owned(l, create.user, d.hubId, d.nodeId)
              && FindKey(l.commands, create.user, d.nodeId, d.key).None?
              && CountSince(l.commands, create.user, d.nodeId, create.capturedAt - RATE_WINDOW) < RATE_MAX
              && LapsesMeanwhile(l.commands, d.hubId, d.nodeId, create.capturedAt, create.now)
  {
    AdjacentIsCleanup(l, reconcile, m, create, d);
    CreateIsCommand(m, create, d);
    hide IsListing, Cleaned, HasActive, Held, FindKey, CountSince, SameIdentities, LapsesMeanwhile, OverdueBlocks,
        OneActivePerTarget;
    if Owned(l, create.user, d.hubId, d.nodeId) {
      AdjacentReads(l, reconcile, m, create, d);
      HeldThenFree(l, d.hubId, d.nodeId, create.capturedAt, create.now);
    }
  }

  /** A pending command whose lifetime or lease ends after `t1` and no later than `t2`. */
  predicate ChangesMeanwhile(c: Command, t1: Time, t2: Time) {
    && Pending(c.status) && t1 < c.expiresAt
    && (c.expiresAt <= t2 || (LeaseLapsed(c, t2) && !LeaseLapsed(c, t1)))
  }

  lemma ChangedMeanwhile(c: Command, t1: Time, t2: Time)
    requires t1 <= t2
    ensures Pending(Reconciled(c, t1).status) && CleanupMove(Reconciled(c, t1), t2).Some? <==>
            ChangesMeanwhile(c, t1, t2)
  {
  }

  lemma KeyIsOnTarget(l: Db, user: nat, d: Draft, i: nat)
    requires Aligned(l) && Owned(l, user, d.hubId, d.nodeId) && FindKey(l.commands, user, d.nodeId, d.key) == Some(i)
    ensures i < |l.commands| && OnTarget(l.commands[i], d.hubId, d.nodeId)
  {
    assert Owned(l, l.commands[i].userId, l.commands[i].hubId, l.commands[i].nodeId);
  }

  /** With nothing between its transactions, a create shows a command that is due for cleanup
      exactly when the command that has its key changes between the two clock readings. */
  lemma AdjacentReplayIsLapsedExactly(l: Db, reconcile: Call, m: Db, create: Call, d: Draft)
    requires Aligned(l) && Adjacent(l, reconcile, m, create, d)
    ensures ReplaysLapsed(m, create) <==>
              && Owned(l, create.user, d.hubId, d.nodeId)
              && var found := FindKey(l.commands, create.user, d.nodeId, d.key);
              && found.Some? && ChangesMeanwhile(l.commands[found.value], create.capturedAt, create.now)
  {
    AdjacentIsCleanup(l, reconcile, m, create, d);
    CreateIsCommand(m, create, d);
    if Owned(l, create.user, d.hubId, d.nodeId) {
      AdjacentReads(l, reconcile, m, create, d);
      var found := FindKey(l.commands, create.user, d.nodeId, d.key);
      if found.Some? {
        var i := found.value;
        KeyIsOnTarget(l, create.user, d, i);
        hide Cleaned, IsListing, FindKey, HasActive, Held, CountSince, ReplaysLapsed, ChangesMeanwhile, Reconciled;
        ReconciledTargetRow(l, d.hubId, d.nodeId, reconcile.ids, create.capturedAt, m, i);
        ChangedMeanwhile(l.commands[i], create.capturedAt, create.now);
      }
    }
  }

  /** When no time passes either, a create is answered as the reference machine answers it. */
  lemma PromptCreateAgrees(l: Db, reconcile: Call, m: Db, create: Call, d: Draft)
    requires Adjacent(l, reconcile, m, create, d) && create.capturedAt == create.now
    ensures !OverdueBlocks(m, create)
    ensures Aligned(l) ==> !ReplaysLapsed(m, create)
  {
    AdjacentIsCleanup(l, reconcile, m, create, d);
    CreateIsCommand(m, create, d);
    hide IsListing, Cleaned, HasActive, Held, FindKey, CountSince, OverdueBlocks, ReplaysLapsed, Adjacent, Aligned;
    if Owned(l, create.user, d.hubId, d.nodeId) {
      AdjacentReads(l, reconcile, m, create, d);
    }
    if Aligned(l) {
      AdjacentReplayIsLapsedExactly(l, reconcile, m, create, d);
    }
  }

  // ---------- Runs in which they differ ----------

  const SOME_DB := Db([], [], map["n" := Some(0)], [Hub(7, "h", None, None, 0)], [], [])

  function Asking(key: string): CreateRequest {
    CreateRequest(key, Id(0), "n", Some(Stop), 0, 0)
  }

  const FIRST := CreateCall(7, Asking("a"), 0, 0, 0)
  const RECONCILE := ReconcileCall(7, 0, "n", [0], DEFAULT_EXPIRY - 1)
  const SECOND := CreateCall(7, Asking("b"), DEFAULT_EXPIRY - 1, DEFAULT_EXPIRY - 1, DEFAULT_EXPIRY)

  const REPLAY := CreateCall(7, Asking("a"), DEFAULT_EXPIRY - 1, DEFAULT_EXPIRY - 1, DEFAULT_EXPIRY)

  lemma TrimOne(s: string)
    requires |s| == 1 && !IsSpace(s[0])
    ensures Trim(s) == s
  {
  }

  lemma AskingIsPrepared(key: string, at: Time)
    requires |key| == 1 && !IsSpace(key[0])
    ensures Prepare(Asking(key), at) == Ok(Draft(0, "n", key, Stop, 0, at + DEFAULT_EXPIRY))
  {
    TrimOne(key);
    TrimOne("n");
  }

  function FirstCommand(): Command {
    NewCommand(7, Draft(0, "n", "a", Stop, 0, DEFAULT_EXPIRY), 0)
  }

  lemma FirstIsQueued() returns (d: Db)
    ensures d == Step(SOME_DB, FIRST)
    ensures d.commands == [FirstCommand()] && d.nodes == SOME_DB.nodes && d.hubs == SOME_DB.hubs
  {
    AskingIsPrepared("a", 0);
    d := Step(SOME_DB, FIRST);
    OneWrite(SOME_DB, Insert(FirstCommand(), UserActor(7), 0, 0));
  }

  lemma NothingIsReconciled(d: Db)
    requires d.commands == [FirstCommand()]
    ensures Legal(d, RECONCILE) && Step(d, RECONCILE) == d
  {
    var c := d.commands[0];
    assert CleanupMove(c, DEFAULT_EXPIRY - 1).None?;
    assert [0][..0] == [];
    assert Cleanup(d.commands, [0], DEFAULT_EXPIRY - 1, SystemActor)
        == Cleanup(d.commands, [], DEFAULT_EXPIRY - 1, SystemActor)
            + CleanupOne(d.commands, 0, DEFAULT_EXPIRY - 1, SystemActor);
    assert 0 in [0];
  }

  lemma SecondIsBlocked(d: Db)
    requires d.commands == [FirstCommand()] && d.nodes == SOME_DB.nodes && d.hubs == SOME_DB.hubs
    ensures OverdueBlocks(d, SECOND)
  {
    AskingIsPrepared("b", DEFAULT_EXPIRY - 1);
    var c := d.commands[0];
    assert !SameKey(c, 7, "n", "b") by {
      assert c.key[0] != "b"[0];
    }
    assert FindKey(d.commands, 7, "n", "b").None?;
    assert d.commands[..0] == [];
    assert CountSince(d.commands, 7, "n", DEFAULT_EXPIRY - 1 - RATE_WINDOW) == 0;
    assert OnTarget(c, 0, "n") && Active(c.status);
  }

  lemma ReplayIsLapsed(d: Db)
    requires d.commands == [FirstCommand()] && d.nodes == SOME_DB.nodes && d.hubs == SOME_DB.hubs
    ensures ReplaysLapsed(d, REPLAY)
  {
    AskingIsPrepared("a", DEFAULT_EXPIRY - 1);
    assert d.commands[..0] == [];
    assert SameKey(d.commands[0], 7, "n", "a");
    assert FindKey(d.commands, 7, "n", "a") == Some(0);
  }

  lemma RunOfTwo(db: Db, a: Call, b: Call)
    ensures Run(db, []) == db && Run(db, [a]) == Step(db, a) && Run(db, [a, b]) == Step(Step(db, a), b)
  {
    assert [a][..0] == [] && [a, b][..1] == [a];
  }

  lemma RunOfTwoIsLegal(db: Db, a: Call, b: Call, d: Db)
    requires Legal(Run(db, []), a) && Legal(Run(db, [a]), b) && d == Run(db, [a, b])
    ensures IsRun(db, [a, b], d)
  {
    var calls := [a, b];
    assert calls[..0] == [] && calls[..1] == [a];
    forall k | 0 <= k < |calls| ensures LegalAt(db, calls, k) {
    }
  }

  lemma CreatesAreLegal(db: Db)
    ensures Legal(db, FIRST) && Legal(db, SECOND) && Legal(db, REPLAY)
    ensures ClockedRun([FIRST, RECONCILE], 0) && Initial(SOME_DB)
    ensures ClockOf([FIRST, RECONCILE], 0) <= DEFAULT_EXPIRY == SECOND.now == REPLAY.now
  {
  }

  /** After the first create and the reconciling transaction of a later one. */
  lemma AfterReconcile() returns (d: Db)
    ensures IsRun(SOME_DB, [FIRST, RECONCILE], d) && ClockedRun([FIRST, RECONCILE], 0) && Initial(SOME_DB)
    ensures d.commands == [FirstCommand()] && d.nodes == SOME_DB.nodes && d.hubs == SOME_DB.hubs
  {
    hide *;
    d := FirstIsQueued();
    NothingIsReconciled(d);
    RunOfTwo(SOME_DB, FIRST, RECONCILE);
    CreatesAreLegal(SOME_DB);
    RunOfTwoIsLegal(SOME_DB, FIRST, RECONCILE, d);
  }

  /** A command expires at the instant at which a later create commits, after the cleanup of
      that create: the service refuses it, the reference machine makes a new command. */
  lemma CreateCanDiffer() returns (d: Db)
    ensures Initial(SOME_DB) && IsRun(SOME_DB, [FIRST, RECONCILE], d) && ClockedRun([FIRST, RECONCILE, SECOND], 0)
    ensures Legal(d, SECOND) && OverdueBlocks(d, SECOND)
    ensures Exec(d, SECOND) == Reject(FailedPrecondition)
    ensures Exec(TimerState(SOME_DB, [FIRST, RECONCILE], 0, DEFAULT_EXPIRY), SECOND).reply.Commands?
  {
    assert ClockedRun([FIRST, RECONCILE, SECOND], 0);
    hide *;
    d := AfterReconcile();
    SecondIsBlocked(d);
    CreatesAreLegal(d);
    TimerStateTwins(SOME_DB, [FIRST, RECONCILE], d, 0, DEFAULT_EXPIRY);
    IsACreate();
    CreateDecisionsAgree(d, TimerState(SOME_DB, [FIRST, RECONCILE], 0, DEFAULT_EXPIRY), SECOND);
  }

  lemma IsACreate()
    ensures SECOND.CreateCall? && REPLAY.CreateCall?
  {
  }

  lemma FirstIsOverdue(c: Command)
    requires SameButCompletion(Reconciled(FirstCommand(), DEFAULT_EXPIRY), c)
    ensures FirstCommand().status == Queued && c.status == Expired
  {
  }

  lemma TwinRow(d: Db, e: Db, now: Time, i: nat)
    requires Twins(d, e, now) && i < |d.commands|
    ensures i < |e.commands| && SameButCompletion(Reconciled(d.commands[i], now), e.commands[i])
  {
  }

  /** At the same instant a create with the first command's key shows that command as queued;
      the reference machine shows it as expired. */
  lemma ReplayCanDiffer() returns (d: Db, c: Command)
    ensures Initial(SOME_DB) && IsRun(SOME_DB, [FIRST, RECONCILE], d) && ClockedRun([FIRST, RECONCILE, REPLAY], 0)
    ensures Legal(d, REPLAY) && ReplaysLapsed(d, REPLAY)
    ensures Exec(d, REPLAY) == Read([Shown(0, FirstCommand())]) && FirstCommand().status == Queued
    ensures Exec(TimerState(SOME_DB, [FIRST, RECONCILE], 0, DEFAULT_EXPIRY), REPLAY) == Read([Shown(0, c)])
    ensures c.status == Expired
  {
    assert ClockedRun([FIRST, RECONCILE, REPLAY], 0);
    hide *;
    d := AfterReconcile();
    ReplayIsLapsed(d);
    CreatesAreLegal(d);
    TimerStateTwins(SOME_DB, [FIRST, RECONCILE], d, 0, DEFAULT_EXPIRY);
    var e := TimerState(SOME_DB, [FIRST, RECONCILE], 0, DEFAULT_EXPIRY);
    var i := LapsedReplayShows(d, e, REPLAY);
    assert i == 0;
    c := e.commands[0];
    TwinRow(d, e, DEFAULT_EXPIRY, 0);
    FirstIsOverdue(c);
  }
}
