/**
 What every reachable state keeps, whatever calls are interleaved and whatever clock
 readings they carry.
 */
module Invariants {
  import opened Model
  import opened Lifecycle
  import opened Store
  import opened Transactions
  import opened Runs

  // ---------- The invariants ----------

  /** Row and history of every command agree. */
  ghost predicate SoundRows(db: Db) {
    && (forall i :: 0 <= i < |db.commands| ==> Sound(db.commands[i], History(db.events, i)))
    && (forall k :: 0 <= k < |db.events| ==> db.events[k].commandId < |db.commands|)
  }

  /** One row per user, node and idempotency key. */
  ghost predicate UniqueKeys(db: Db) {
    forall i, j :: 0 <= i < j < |db.commands| ==>
                     !SameKey(db.commands[i], db.commands[j].userId, db.commands[j].nodeId, db.commands[j].key)
  }

  /** One active command per hub and node: what the create transaction checks. */
  ghost predicate OneActivePerTarget(db: Db) {
    forall i, j :: 0 <= i < j < |db.commands| && Active(db.commands[i].status) && Active(db.commands[j].status) ==>
                     !OnTarget(db.commands[i], db.commands[j].hubId, db.commands[j].nodeId)
  }

  /** A command's node is bound to its hub, and its hub belongs to its user. */
  ghost predicate Aligned(db: Db) {
    forall i :: 0 <= i < |db.commands| ==>
                  Owned(db, db.commands[i].userId, db.commands[i].hubId, db.commands[i].nodeId)
  }

  ghost predicate BoundedRows(db: Db) {
    forall i :: 0 <= i < |db.commands| ==>
                  && 0 <= db.commands[i].durationMs <= MAX_DURATION_MS
                  && db.commands[i].expiresAt <= db.commands[i].createdAt + MAX_TTL
  }

  ghost predicate DistinctHubs(tokens: seq<Token>) {
    forall i, j :: 0 <= i < j < |tokens| ==> tokens[i].hubId != tokens[j].hubId
  }

  ghost predicate OneToken(db: Db) {
    && DistinctHubs(db.tokens)
    && (forall i :: 0 <= i < |db.tokens| ==>
                      db.tokens[i].hubId < |db.hubs| && !db.tokens[i].revoked && db.tokens[i].claimedAt.Some?)
  }

  ghost predicate Inv(db: Db) {
    && SoundRows(db)
    && UniqueKeys(db)
    && OneActivePerTarget(db)
    && Aligned(db)
    && BoundedRows(db)
    && UniqueDevices(db)
    && OneToken(db)
  }

  lemma InitialInv(db: Db)
    requires Initial(db)
    ensures Inv(db)
  {
  }

  // ---------- One write keeps them ----------

  lemma FreshIsSound(c: Command, id: nat, actor: Actor, at: Time)
    requires Fresh(c)
    ensures Sound(c, [QueuedEvent(id, c, actor, at)])
  {
    var e := QueuedEvent(id, c, actor, at);
    assert [e][..0] == [];
    assert Replay([e]) == Record(Replay([]), e);
  }

  lemma InsertKeepsSound(db: Db, w: Write)
    requires SoundRows(db) && w.Insert? && Allowed(db, w)
    ensures SoundRows(Apply(db, w))
  {
    var d := Apply(db, w);
    var n := |db.commands|;
    var e := QueuedEvent(n, w.command, w.actor, w.capturedAt);
    HistoryOfUnknown(db.events, n);
    FreshIsSound(w.command, n, w.actor, w.capturedAt);
    forall i | 0 <= i < |d.commands| ensures Sound(d.commands[i], History(d.events, i)) {
      HistoryAppend(db.events, e, i);
      assert History(d.events, i) == if i == n then [e] else History(db.events, i);
    }
  }

  lemma ChangeKeepsSound(db: Db, w: Write)
    requires SoundRows(db) && w.Change? && Allowed(db, w)
    ensures SoundRows(Apply(db, w))
  {
    var d := Apply(db, w);
    forall i | 0 <= i < |d.commands| ensures Sound(d.commands[i], History(d.events, i)) {
      ChangeAt(db, w, i);
      if i == w.id {
        MoveKeepsSound(db.commands[i], History(db.events, i), i, w.move, w.actor, w.now);
      }
    }
  }

  lemma WriteKeepsSound(db: Db, w: Write)
    requires SoundRows(db) && Allowed(db, w)
    ensures SoundRows(Apply(db, w))
  {
    if w.Insert? {
      InsertKeepsSound(db, w);
    } else if w.Change? {
      ChangeKeepsSound(db, w);
    }
  }

  lemma WriteKeepsKeys(db: Db, w: Write)
    requires UniqueKeys(db) && Allowed(db, w)
    ensures UniqueKeys(Apply(db, w))
  {
  }

  lemma WriteKeepsOneActive(db: Db, w: Write)
    requires OneActivePerTarget(db) && Allowed(db, w)
    ensures OneActivePerTarget(Apply(db, w))
  {
  }

  lemma WriteKeepsOwned(db: Db, w: Write, user: nat, hub: nat, node: string)
    requires Owned(db, user, hub, node) && Allowed(db, w)
    ensures Owned(Apply(db, w), user, hub, node)
  {
  }

  lemma WriteKeepsAligned(db: Db, w: Write)
    requires Aligned(db) && Allowed(db, w)
    ensures Aligned(Apply(db, w))
  {
    var d := Apply(db, w);
    forall i | 0 <= i < |d.commands| ensures Owned(d, d.commands[i].userId, d.commands[i].hubId, d.commands[i].nodeId) {
      WriteKeepsOwned(db, w, d.commands[i].userId, d.commands[i].hubId, d.commands[i].nodeId);
    }
  }

  lemma WriteKeepsBounds(db: Db, w: Write)
    requires BoundedRows(db) && Allowed(db, w)
    ensures BoundedRows(Apply(db, w))
  {
  }

  lemma WriteKeepsDevices(db: Db, w: Write)
    requires UniqueDevices(db) && Allowed(db, w)
    ensures UniqueDevices(Apply(db, w))
  {
  }

  lemma {:induction false} DroppingKeepsDistinct(tokens: seq<Token>, hub: nat)
    requires DistinctHubs(tokens)
    ensures DistinctHubs(WithoutHub(tokens, hub))
  {
    if tokens != [] {
      var init, t := tokens[..|tokens| - 1], tokens[|tokens| - 1];
      DroppingKeepsDistinct(init, hub);
      var r := WithoutHub(init, hub);
      forall i | 0 <= i < |r| ensures r[i].hubId != t.hubId {
        assert r[i] in init;
      }
      assert WithoutHub(tokens, hub) == r + if t.hubId == hub then [] else [t];
    }
  }

  lemma WriteKeepsOneToken(db: Db, w: Write)
    requires OneToken(db) && Allowed(db, w)
    ensures OneToken(Apply(db, w))
  {
    if w.DropTokens? {
      DroppingKeepsDistinct(db.tokens, w.hub);
      var r := WithoutHub(db.tokens, w.hub);
      forall i | 0 <= i < |r| ensures r[i] in db.tokens {
        assert r[i] in r;
      }
    }
  }

  lemma WriteKeepsInv(db: Db, w: Write)
    requires Inv(db) && Allowed(db, w)
    ensures Inv(Apply(db, w))
  {
    WriteKeepsSound(db, w);
    WriteKeepsKeys(db, w);
    WriteKeepsOneActive(db, w);
    WriteKeepsAligned(db, w);
    WriteKeepsBounds(db, w);
    WriteKeepsDevices(db, w);
    WriteKeepsOneToken(db, w);
  }

  // ---------- Every run keeps them ----------

  lemma {:induction false} WritesKeepInv(db: Db, ws: seq<Write>)
    requires Inv(db) && AllAllowed(db, ws)
    ensures Inv(ApplyAll(db, ws))
  {
    if ws != [] {
      var init, last := LastWrite(db, ws);
      WritesKeepInv(db, init);
      WriteKeepsInv(ApplyAll(db, init), last);
    }
  }

  lemma RunKeepsInv(db: Db, calls: seq<Call>)
    requires Inv(db) && LegalRun(db, calls)
    ensures Inv(Run(db, calls))
  {
    RunIsItsLog(db, calls);
    WritesKeepInv(db, RunLog(db, calls));
  }

  lemma ReachableInv(db: Db, calls: seq<Call>, d: Db)
    requires Initial(db) && IsRun(db, calls, d)
    ensures Inv(d)
  {
    InitialInv(db);
    RunKeepsInv(db, calls);
  }
}
