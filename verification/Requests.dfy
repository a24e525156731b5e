/** What creates and status reads store and answer, told in full from the request. */
module Requests {
  import opened Model
  import opened Validation
  import opened Lifecycle
  import opened Store
  import opened Transactions
  import opened Effects
  import opened Runs
  import opened Creating

  // ---------- Which creates are well-formed ----------

  predicate WellFormed(req: CreateRequest, readAt: Time) {
    && !Blank(req.key) && !Blank(req.nodeId) && req.hubId.Id?
    && (|| (req.action == Some(RunForDuration) && 1 <= req.durationMs <= 5000)
        || (req.action == Some(Stop) && req.durationMs == 0))
    && (req.expiresAtMillis == 0
        || readAt + 5 * SECOND <= req.expiresAtMillis * MILLISECOND <= readAt + 5 * MINUTE)
  }

  /** The validators pass exactly the well-formed requests, field by field. */
  lemma PreparedExactly(req: CreateRequest, readAt: Time)
    ensures Prepare(req, readAt)
            == if WellFormed(req, readAt) then
                 Ok(Draft(hubId := req.hubId.id, nodeId := req.nodeId, key := req.key, action := req.action.value,
                          durationMs := req.durationMs,
                          expiresAt := if req.expiresAtMillis == 0 then readAt + 5 * MINUTE
                                       else req.expiresAtMillis * MILLISECOND))
               else Err(InvalidArgument)
  {
    var _, _ := TrimCutsBlanks(req.key);
    var _, _ := TrimCutsBlanks(req.nodeId);
    hide Trim, Blank;
  }

  // ---------- What a create reads ----------

  /** The node is bound to the hub, and the hub is the user's. */
  predicate MayCommand(db: Db, user: nat, hub: nat, node: string) {
    node in db.nodes && db.nodes[node] == Some(hub) && hub < |db.hubs| && db.hubs[hub].userId == user
  }

  predicate KnownKey(db: Db, user: nat, node: string, key: string) {
    exists i :: 0 <= i < |db.commands| && db.commands[i].userId == user && db.commands[i].nodeId == node
                && db.commands[i].key == key
  }

  /** The commands that a user made for a node at `since` or later. */
  function Recent(cs: seq<Command>, user: nat, node: string, since: Time): set<nat> {
    set i: nat | i < |cs| && cs[i].userId == user && cs[i].nodeId == node && since <= cs[i].createdAt
  }

  /** The commands of a target that are not finished. */
  predicate Busy(db: Db, hub: nat, node: string) {
    exists i :: 0 <= i < |db.commands| && db.commands[i].hubId == hub && db.commands[i].nodeId == node
                && db.commands[i].status in {Queued, Leased, Sent, Executing}
  }

  lemma RecentOneMore(cs: seq<Command>, c: Command, user: nat, node: string, since: Time)
    ensures Recent(cs + [c], user, node, since)
            == Recent(cs, user, node, since)
               + (if c.userId == user && c.nodeId == node && since <= c.createdAt then {|cs|} else {})
    ensures |cs| !in Recent(cs, user, node, since)
  {
  }

  /** The rate limiter counts each recent command once and no other. */
  lemma {:induction false} CountSinceIsCardinality(cs: seq<Command>, user: nat, node: string, since: Time)
    ensures CountSince(cs, user, node, since) == |Recent(cs, user, node, since)|
  {
    if cs != [] {
      hide Recent;
      var init, c := cs[..|cs| - 1], cs[|cs| - 1];
      CountSinceIsCardinality(init, user, node, since);
      RecentOneMore(init, c, user, node, since);
      assert cs == init + [c];
    } else {
      assert Recent(cs, user, node, since) == {};
    }
  }

  lemma ReadsAre(db: Db, user: nat, hub: nat, node: string, key: string)
    ensures Owned(db, user, hub, node) <==> MayCommand(db, user, hub, node)
    ensures FindKey(db.commands, user, node, key).Some? <==> KnownKey(db, user, node, key)
    ensures HasActive(db.commands, hub, node) <==> Busy(db, hub, node)
  {
    var found := FindKey(db.commands, user, node, key);
    if found.Some? {
      assert SameKey(db.commands[found.value], user, node, key);
    } else {
      assert forall i :: 0 <= i < |db.commands| ==> !SameKey(db.commands[i], user, node, key);
    }
  }

  // ---------- What a create answers ----------

  /** The committing transaction of a create answers this, in this order, and nothing else:
      a malformed request, a target that is not the user's, a key that is known, five
      commands in the last 30 seconds, an unfinished command on the target. */
  lemma CreateAnswersExactly(db: Db, call: Call, r: Reply, e: Db)
    requires call.CreateCall? && Performed(db, call, r, e)
    ensures r.Rejected? ==> e == db
    ensures !WellFormed(call.create, call.readAt) ==> r == Rejected(InvalidArgument)
    ensures WellFormed(call.create, call.readAt) ==>
              var req := call.create;
              if !MayCommand(db, call.user, req.hubId.id, req.nodeId) then r == Rejected(PermissionDenied)
              else if KnownKey(db, call.user, req.nodeId, req.key) then
                e == db && exists i :: 0 <= i < |db.commands| && r == Commands([Shown(i, db.commands[i])])
                                       && db.commands[i].userId == call.user && db.commands[i].nodeId == req.nodeId
                                       && db.commands[i].key == req.key
              else if |Recent(db.commands, call.user, req.nodeId, call.capturedAt - 30 * SECOND)| >= 5 then
                r == Rejected(ResourceExhausted)
              else if Busy(db, req.hubId.id, req.nodeId) then r == Rejected(FailedPrecondition)
              else r.Commands?
  {
    PreparedExactly(call.create, call.readAt);
    NoWrites(db);
    if WellFormed(call.create, call.readAt) {
      CommitAnswers(db, call, Prepare(call.create, call.readAt).value, Exec(db, call));
    }
  }

  lemma CommitAnswers(db: Db, call: Call, d: Draft, o: Outcome)
    requires call.CreateCall? && Prepare(call.create, call.readAt) == Ok(d) && o == Exec(db, call)
    ensures o == CreateCommand(db, call.user, d, call.capturedAt, call.now)
    ensures !MayCommand(db, call.user, d.hubId, d.nodeId) ==> o == Reject(PermissionDenied)
    ensures MayCommand(db, call.user, d.hubId, d.nodeId) && KnownKey(db, call.user, d.nodeId, d.key) ==>
              exists i :: 0 <= i < |db.commands| && o == Read([Shown(i, db.commands[i])])
                          && db.commands[i].userId == call.user && db.commands[i].nodeId == d.nodeId
                          && db.commands[i].key == d.key
    ensures MayCommand(db, call.user, d.hubId, d.nodeId) && !KnownKey(db, call.user, d.nodeId, d.key) ==>
              if |Recent(db.commands, call.user, d.nodeId, call.capturedAt - 30 * SECOND)| >= 5 then
                o == Reject(ResourceExhausted)
              else if Busy(db, d.hubId, d.nodeId) then o == Reject(FailedPrecondition)
              else o.reply.Commands? && o.writes != []
  {
    assert o == CreateCommand(db, call.user, d, call.capturedAt, call.now);
    ReadsAre(db, call.user, d.hubId, d.nodeId, d.key);
    CountSinceIsCardinality(db.commands, call.user, d.nodeId, call.capturedAt - RATE_WINDOW);
    hide Exec, CreateCommand, Owned, CountSince, HasActive, MayCommand, Busy, Recent, KnownKey, Prepare;
    CreateDecides(db, call.user, d, call.capturedAt, call.now, o);
    var found := FindKey(db.commands, call.user, d.nodeId, d.key);
    if found.Some? {
      assert SameKey(db.commands[found.value], call.user, d.nodeId, d.key);
    }
  }

  /** A create that makes a new command stores exactly what was asked for, shows it, and
      logs that the user queued it; nothing else changes. */
  lemma CreateStoresTheRequest(db: Db, call: Call, r: Reply, e: Db) returns (c: Command)
    requires call.CreateCall? && Performed(db, call, r, e) && !r.Rejected?
    requires !KnownKey(db, call.user, call.create.nodeId, call.create.key)
    ensures WellFormed(call.create, call.readAt)
    ensures c == Command(
                   userId := call.user,
                   hubId := call.create.hubId.id,
                   nodeId := call.create.nodeId,
                   action := call.create.action.value,
                   durationMs := call.create.durationMs,
                   status := Queued,
                   key := call.create.key,
                   reason := NoReason,
                   reasonMessage := "",
                   leaseToken := None,
                   leasedAt := None,
                   leaseExpiresAt := None,
                   expiresAt := if call.create.expiresAtMillis == 0 then call.readAt + 5 * MINUTE
                                else call.create.expiresAtMillis * MILLISECOND,
                   completedAt := None,
                   createdAt := call.now)
    ensures r == Commands([Shown(|db.commands|, c)])
    ensures e == db.(commands := db.commands + [c],
                     events := db.events + [Event(
                                              commandId := |db.commands|,
                                              actor := UserActor(call.user),
                                              previous := None,
                                              status := Queued,
                                              reason := NoReason,
                                              reasonMessage := "",
                                              message := "command queued",
                                              occurredAt := call.capturedAt)])
  {
    PreparedExactly(call.create, call.readAt);
    var d := Prepare(call.create, call.readAt).value;
    ReadsAre(db, call.user, d.hubId, d.nodeId, d.key);
    hide Prepare, WellFormed, KnownKey, MayCommand, Busy, FindKey, CountSince, HasActive, Owned;
    c := NewCommand(call.user, d, call.now);
    OneWrite(db, Insert(c, UserActor(call.user), call.capturedAt, call.now));
  }

  // ---------- Status ----------

  /** A status read answers this and nothing else; only an overdue command that was not sent
      is changed by it. */
  lemma StatusAnswersExactly(db: Db, call: Call, r: Reply, e: Db)
    requires call.StatusCall? && Performed(db, call, r, e)
    ensures var i := call.id;
            if i >= |db.commands| || db.commands[i].hubId >= |db.hubs|
               || db.hubs[db.commands[i].hubId].userId != call.user then
              r == Rejected(NotFound) && e == db
            else
              var c := db.commands[i];
              if (c.status == Queued || c.status == Leased) && c.expiresAt <= call.now then
                var expired := c.(status := Expired, reason := Overdue,
                                  reasonMessage := "command expired before delivery", leaseToken := None,
                                  leasedAt := None, leaseExpiresAt := None, completedAt := Some(call.now));
                && r == Commands([Shown(i, expired)])
                && e == db.(commands := db.commands[i := expired],
                            events := db.events
                                      + [Event(i, SystemActor, Some(c.status), Expired, Overdue,
                                               "command expired before delivery",
                                               "command expired before delivery", call.now)])
              else r == Commands([Shown(i, c)]) && e == db
  {
    NoWrites(db);
    OneWrite(db, Change(call.id, Expire, SystemActor, call.now));
  }

  // ---------- Refusals of the remaining queue calls ----------

  /** A pull is refused exactly for a negative number, the reconciling transaction of a create
      exactly for a target that is not the user's. */
  lemma PullAndReconcileRefusals(db: Db, call: Call, r: Reply, e: Db)
    requires (call.PullCall? || call.ReconcileCall?) && Performed(db, call, r, e)
    ensures call.PullCall? ==>
              if call.leaseMs < 0 || call.maxCommands < 0 then r == Rejected(InvalidArgument) && e == db
              else r.Commands?
    ensures call.ReconcileCall? ==>
              if MayCommand(db, call.user, call.hub, call.node) then r == Done
              else r == Rejected(PermissionDenied) && e == db
  {
    hide Cleanup, LeaseWrites, ShowLeases;
    NoWrites(db);
  }
}
