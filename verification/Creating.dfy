/**
 Creating across both of its transactions, when nothing else comes between them: the
 outcome told from the state before the first.
 */
module Creating {
  import opened Model
  import opened Validation
  import opened Lifecycle
  import opened Store
  import opened Transactions
  import opened Effects
  import opened Safety
  import opened Queue

  /** A command of the target holds it at `now`: it is active, and not one that the
      reconciling transaction expires. */
  predicate Held(cs: seq<Command>, hub: nat, node: string, now: Time) {
    exists i :: 0 <= i < |cs| && OnTarget(cs[i], hub, node) && Active(cs[i].status) && !ShouldExpire(cs[i], now)
  }

  lemma ReconciledTargetRow(db: Db, hub: nat, node: string, ids: seq<nat>, now: Time, mid: Db, i: nat)
    requires IsListing(db.commands, TargetPending(hub, node), ids) && mid == Cleaned(db, ids, now, SystemActor)
    requires i < |db.commands|
    ensures |mid.commands| == |db.commands| && SameIdentity(db.commands[i], mid.commands[i])
    ensures OnTarget(db.commands[i], hub, node) ==> mid.commands[i] == Reconciled(db.commands[i], now)
  {
    ListingIsPending(db.commands, TargetPending(hub, node), ids);
    CleanupAt(db, ids, now, SystemActor, i);
    assert i in ids <==> Matches(db.commands[i], TargetPending(hub, node));
  }

  lemma ReconciledTarget(db: Db, hub: nat, node: string, ids: seq<nat>, now: Time, mid: Db)
    requires IsListing(db.commands, TargetPending(hub, node), ids) && mid == Cleaned(db, ids, now, SystemActor)
    ensures SameFrame(db, mid) && SameIdentities(db.commands, mid.commands)
    ensures HasActive(mid.commands, hub, node) <==> Held(db.commands, hub, node, now)
  {
    CleanupKeepsFrame(db, ids, now, SystemActor);
    hide Cleaned, IsListing, SameIdentity;
    forall i | 0 <= i < |db.commands|
      ensures SameIdentity(db.commands[i], mid.commands[i])
      ensures OnTarget(mid.commands[i], hub, node) == OnTarget(db.commands[i], hub, node)
      ensures OnTarget(db.commands[i], hub, node) ==>
                (Active(mid.commands[i].status) <==>
                    Active(db.commands[i].status) && !ShouldExpire(db.commands[i], now))
    {
      ReconciledTargetRow(db, hub, node, ids, now, mid, i);
      IdentityKeepsTarget(db.commands[i], mid.commands[i], hub, node);
    }
  }

  lemma IdentityKeepsTarget(c: Command, d: Command, hub: nat, node: string)
    requires SameIdentity(c, d)
    ensures OnTarget(d, hub, node) == OnTarget(c, hub, node)
  {
  }

  /** The answer of a create by `user` for the draft `d`: the command that has the key, or a
      new one. */
  predicate Succeeds(db: Db, user: nat, d: Draft, at: Time) {
    && Owned(db, user, d.hubId, d.nodeId)
    && (|| FindKey(db.commands, user, d.nodeId, d.key).Some?
        || (&& CountSince(db.commands, user, d.nodeId, at - RATE_WINDOW) < RATE_MAX
            && !Held(db.commands, d.hubId, d.nodeId, at)))
  }

  /** The decisions of the create transaction, in its order. */
  lemma CreateDecides(db: Db, user: nat, d: Draft, capturedAt: Time, now: Time, o: Outcome)
    requires o == CreateCommand(db, user, d, capturedAt, now)
    ensures !Owned(db, user, d.hubId, d.nodeId) ==> o == Reject(PermissionDenied)
    ensures var found := FindKey(db.commands, user, d.nodeId, d.key);
            Owned(db, user, d.hubId, d.nodeId) ==>
              if found.Some? then
                found.value < |db.commands| && o == Read([Shown(found.value, db.commands[found.value])])
              else if CountSince(db.commands, user, d.nodeId, capturedAt - RATE_WINDOW) >= RATE_MAX then
                o == Reject(ResourceExhausted)
              else if HasActive(db.commands, d.hubId, d.nodeId) then o == Reject(FailedPrecondition)
              else o.reply.Commands? && o.writes != []
  {
  }

  /** A well-formed create succeeds exactly when the target is the user's and either its key
      was used before, or the user has made fewer than five commands for the node in the
      last 30 seconds and none of them holds the target; and it makes a new command
      exactly when it succeeds with a new key. */
  lemma CreateSucceedsExactly(db: Db, user: nat, d: Draft, ids: seq<nat>, at: Time, now: Time, mid: Db)
    requires IsListing(db.commands, TargetPending(d.hubId, d.nodeId), ids)
    requires mid == Step(db, ReconcileCall(user, d.hubId, d.nodeId, ids, at))
    ensures CreateCommand(mid, user, d, at, now).reply.Commands? <==> Succeeds(db, user, d, at)
    ensures CreateCommand(mid, user, d, at, now).writes != [] <==>
              Succeeds(db, user, d, at) && FindKey(db.commands, user, d.nodeId, d.key).None?
  {
    CreateDecides(mid, user, d, at, now, CreateCommand(mid, user, d, at, now));
    if Owned(db, user, d.hubId, d.nodeId) {
      ReconcileIsCleanup(db, user, d.hubId, d.nodeId, ids, at);
      hide CreateCommand, Step, IsListing, Cleaned, FindKey, CountSince, HasActive, Held;
      ReconciledTarget(db, d.hubId, d.nodeId, ids, at, mid);
      FindKeyByIdentity(db.commands, mid.commands, user, d.nodeId, d.key);
      CountSinceByIdentity(db.commands, mid.commands, user, d.nodeId, at - RATE_WINDOW);
    }
  }

  lemma ReconcileIsCleanup(db: Db, user: nat, hub: nat, node: string, ids: seq<nat>, at: Time)
    requires Owned(db, user, hub, node)
    ensures Step(db, ReconcileCall(user, hub, node, ids, at)) == Cleaned(db, ids, at, SystemActor)
  {
  }
}
