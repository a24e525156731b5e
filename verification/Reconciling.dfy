/**
 Laws of the cleanup: it can be repeated, an earlier one is absorbed by a later one, and
 the hub-wide cleanup is the cleanup of the hub's targets one by one in any order.
 */
module Reconciling {
  import opened Model
  import opened Lifecycle
  import opened Store
  import opened Transactions
  import opened Effects
  import opened Invariants
  import opened Queue

  // ---------- Repeating and absorbing ----------

  lemma {:induction false} NothingToClean(cs: seq<Command>, ids: seq<nat>, now: Time, actor: Actor)
    requires forall k :: 0 <= k < |ids| ==> ids[k] < |cs| ==> CleanupMove(cs[ids[k]], now).None?
    ensures Cleanup(cs, ids, now, actor) == []
  {
    if ids != [] {
      NothingToClean(cs, ids[..|ids| - 1], now, actor);
    }
  }

  /** The commands that a query for pending ones is about, whatever their status. */
  predicate InScope(c: Command, q: Query) {
    match q
    case TargetPending(hub, node) => OnTarget(c, hub, node)
    case _ => c.hubId == q.hub
  }

  /** The row that the cleanup for `q` leaves in place of `c`. */
  function CleanedFor(c: Command, q: Query, now: Time): Command {
    if InScope(c, q) then Reconciled(c, now) else c
  }

  /** Both cleanups, hub-wide and of one target, leave exactly this. */
  lemma CleanedForQuery(db: Db, q: Query, ids: seq<nat>, now: Time, actor: Actor, i: nat)
    requires IsListing(db.commands, q, ids) && !q.HubQueued? && i < |db.commands|
    ensures |Cleaned(db, ids, now, actor).commands| == |db.commands|
    ensures Cleaned(db, ids, now, actor).commands[i] == CleanedFor(db.commands[i], q, now)
  {
    ListingIsPending(db.commands, q, ids);
    CleanupAt(db, ids, now, actor, i);
    ListsMatching(db.commands, q, ids, i);
  }

  lemma CleanedForNeedsNothing(c: Command, q: Query, now: Time)
    requires Matches(CleanedFor(c, q, now), q) && !q.HubQueued?
    ensures CleanupMove(CleanedFor(c, q, now), now).None?
  {
  }

  /** A second cleanup at the same instant, for a hub or for a target, writes nothing. */
  lemma CleanupIsIdempotent(db: Db, q: Query, ids: seq<nat>, d: Db, again: seq<nat>, now: Time, actor: Actor)
    requires IsListing(db.commands, q, ids) && !q.HubQueued? && d == Cleaned(db, ids, now, actor)
    requires IsListing(d.commands, q, again)
    ensures Cleanup(d.commands, again, now, actor) == []
  {
    CleanupKeepsFrame(db, ids, now, actor);
    forall k | 0 <= k < |again| ensures again[k] < |d.commands| && CleanupMove(d.commands[again[k]], now).None? {
      assert Matches(d.commands[again[k]], q);
      CleanedForQuery(db, q, ids, now, actor, again[k]);
      CleanedForNeedsNothing(db.commands[again[k]], q, now);
    }
    NothingToClean(d.commands, again, now, actor);
  }

  lemma CleanedForTwice(c: Command, q: Query, t1: Time, t2: Time)
    requires t1 <= t2 && Shaped(c)
    ensures SameButCompletion(CleanedFor(CleanedFor(c, q, t1), q, t2), CleanedFor(c, q, t2))
  {
    ReconcileTwice(c, t1, t2);
  }

  lemma RowIsShaped(db: Db, i: nat)
    requires SoundRows(db) && i < |db.commands|
    ensures Shaped(db.commands[i])
  {
    assert Sound(db.commands[i], History(db.events, i));
  }

  /** Two cleanups for a hub or for a target leave the rows that the later one alone would
      leave, but for the times of completion. */
  lemma EarlierCleanupIsAbsorbed(db: Db, q: Query, ids: seq<nat>, d: Db, again: seq<nat>, t1: Time, t2: Time,
                                 actor: Actor, i: nat)
    requires SoundRows(db) && t1 <= t2 && i < |db.commands| && !q.HubQueued?
    requires IsListing(db.commands, q, ids) && d == Cleaned(db, ids, t1, actor)
    requires IsListing(d.commands, q, again)
    ensures var twice, once := Cleaned(d, again, t2, actor).commands, Cleaned(db, ids, t2, actor).commands;
            |twice| == |once| == |db.commands| && SameButCompletion(twice[i], once[i])
  {
    hide *;
    RowIsShaped(db, i);
    CleanedForQuery(db, q, ids, t1, actor, i);
    CleanedForQuery(db, q, ids, t2, actor, i);
    CleanedForQuery(d, q, again, t2, actor, i);
    CleanedForTwice(db.commands[i], q, t1, t2);
  }

  // ---------- Hub by hub, or target by target ----------

  /** The cleanup of one target: a node and the rows that the target's query lists. */
  datatype Visit = Visit(node: string, ids: seq<nat>)

  function Sweep(db: Db, visits: seq<Visit>, now: Time): Db {
    if visits == [] then db
    else Cleaned(Sweep(db, visits[..|visits| - 1], now), visits[|visits| - 1].ids, now, SystemActor)
  }

  /** Each visit cleans what the query lists for its target when it is made. */
  ghost predicate IsSweep(db: Db, hub: nat, visits: seq<Visit>, now: Time) {
    visits == []
    || (&& IsSweep(db, hub, visits[..|visits| - 1], now)
        && IsListing(Sweep(db, visits[..|visits| - 1], now).commands,
                     TargetPending(hub, visits[|visits| - 1].node), visits[|visits| - 1].ids))
  }

  predicate Visited(visits: seq<Visit>, node: string) {
    exists k :: 0 <= k < |visits| && visits[k].node == node
  }

  /** What the visits so far have done to one row. */
  ghost predicate SweptAt(db: Db, hub: nat, visits: seq<Visit>, now: Time, i: nat)
    requires i < |db.commands|
  {
    var c, d := db.commands[i], Sweep(db, visits, now);
    var due := c.hubId == hub && Pending(c.status) && Visited(visits, c.nodeId);
    && |d.commands| == |db.commands|
    && d.commands[i] == (if due then Reconciled(c, now) else c)
    && History(d.events, i) == History(db.events, i) + (if due then CleanupEvents(c, i, now, SystemActor) else [])
  }

  lemma VisitedOneMore(init: seq<Visit>, last: Visit, node: string)
    ensures Visited(init + [last], node) <==> Visited(init, node) || last.node == node
  {
    var visits := init + [last];
    assert visits[|init|] == last;
    assert forall k :: 0 <= k < |init| ==> visits[k] == init[k];
  }

  lemma VisitedRow(d: Db, hub: nat, node: string, ids: seq<nat>, now: Time, i: nat, e: Db)
    requires i < |d.commands| && IsListing(d.commands, TargetPending(hub, node), ids)
    requires e == Cleaned(d, ids, now, SystemActor)
    ensures |e.commands| == |d.commands|
    ensures Matches(d.commands[i], TargetPending(hub, node)) ==>
              && e.commands[i] == Reconciled(d.commands[i], now)
              && History(e.events, i) == History(d.events, i) + CleanupEvents(d.commands[i], i, now, SystemActor)
    ensures !Matches(d.commands[i], TargetPending(hub, node)) ==> SameAt(d, e, i)
  {
    ListingIsPending(d.commands, TargetPending(hub, node), ids);
    CleanupAt(d, ids, now, SystemActor, i);
    assert i in ids <==> Matches(d.commands[i], TargetPending(hub, node));
  }

  lemma ReconciledNeedsNothing(c: Command, i: nat, now: Time, actor: Actor)
    requires Pending(Reconciled(c, now).status) && Pending(c.status)
    ensures Reconciled(Reconciled(c, now), now) == Reconciled(c, now)
    ensures CleanupEvents(Reconciled(c, now), i, now, actor) == []
  {
  }

  lemma OneMoreVisit(db: Db, hub: nat, visits: seq<Visit>, init: seq<Visit>, last: Visit, now: Time, i: nat, d: Db)
    requires i < |db.commands| && SweptAt(db, hub, init, now, i)
    requires visits == init + [last] && d == Sweep(db, init, now)
    requires Sweep(db, visits, now) == Cleaned(d, last.ids, now, SystemActor)
    requires IsListing(d.commands, TargetPending(hub, last.node), last.ids)
    ensures SweptAt(db, hub, visits, now, i)
  {
    hide Sweep, Cleaned, History, Visited, IsListing;
    var c := db.commands[i];
    VisitedOneMore(init, last, c.nodeId);
    VisitedRow(d, hub, last.node, last.ids, now, i, Sweep(db, visits, now));
    if Pending(c.status) && Pending(Reconciled(c, now).status) {
      ReconciledNeedsNothing(c, i, now, SystemActor);
    }
  }

  lemma LastVisit(db: Db, hub: nat, visits: seq<Visit>, now: Time) returns (init: seq<Visit>, last: Visit, d: Db)
    requires visits != [] && IsSweep(db, hub, visits, now)
    ensures visits == init + [last] && |init| < |visits|
    ensures IsSweep(db, hub, init, now) && d == Sweep(db, init, now)
    ensures Sweep(db, visits, now) == Cleaned(d, last.ids, now, SystemActor)
    ensures IsListing(d.commands, TargetPending(hub, last.node), last.ids)
  {
    hide IsListing, Cleaned;
    init, last := visits[..|visits| - 1], visits[|visits| - 1];
    d := Sweep(db, init, now);
  }

  lemma {:induction false} SweepAt(db: Db, hub: nat, visits: seq<Visit>, now: Time, i: nat)
    requires i < |db.commands| && IsSweep(db, hub, visits, now)
    ensures SweptAt(db, hub, visits, now, i)
    decreases |visits|
  {
    if visits == [] {
      NoVisit(db, hub, now, i);
    } else {
      hide *;
      var init, last, d := LastVisit(db, hub, visits, now);
      SweepAt(db, hub, init, now, i);
      OneMoreVisit(db, hub, visits, init, last, now, i, d);
    }
  }

  lemma NoVisit(db: Db, hub: nat, now: Time, i: nat)
    requires i < |db.commands|
    ensures SweptAt(db, hub, [], now, i)
  {
  }

  /** The same events but for who is said to have caused them. */
  ghost predicate SameButActor(h: seq<Event>, g: seq<Event>) {
    |h| == |g| && forall k :: 0 <= k < |h| ==> h[k] == g[k].(actor := h[k].actor)
  }

  lemma EventsButActor(h: seq<Event>, c: Command, i: nat, now: Time, a: Actor, b: Actor)
    ensures SameButActor(h, h) && SameButActor(h + [], h + [])
    ensures SameButActor(h + CleanupEvents(c, i, now, a), h + CleanupEvents(c, i, now, b))
  {
  }

  lemma CleanedIsSwept(db: Db, hub: nat, ids: seq<nat>, visits: seq<Visit>, now: Time, i: nat)
    requires i < |db.commands| && CleanedAt(db, ids, now, HubActor(hub), i) && SweptAt(db, hub, visits, now, i)
    requires i in ids <==> Matches(db.commands[i], HubPending(hub))
    requires i in ids ==> Visited(visits, db.commands[i].nodeId)
    ensures var d, e := Cleaned(db, ids, now, HubActor(hub)), Sweep(db, visits, now);
            && |d.commands| == |e.commands| == |db.commands|
            && d.commands[i] == e.commands[i]
            && SameButActor(History(d.events, i), History(e.events, i))
  {
    hide Cleaned, Sweep, Visited, History, Reconciled, CleanupEvents, SameButActor;
    EventsButActor(History(db.events, i), db.commands[i], i, now, HubActor(hub), SystemActor);
  }

  lemma ListsMatching(cs: seq<Command>, q: Query, ids: seq<nat>, i: nat)
    requires IsListing(cs, q, ids) && i < |cs|
    ensures i in ids <==> Matches(cs[i], q)
  {
  }

  /** The hub-wide cleanup leaves every row as visiting the hub's targets does, in any order
      and however often each, and appends the same events to every history but for their
      actor. */
  lemma HubCleanupIsASweep(db: Db, hub: nat, ids: seq<nat>, visits: seq<Visit>, now: Time, i: nat)
    requires IsListing(db.commands, HubPending(hub), ids) && IsSweep(db, hub, visits, now) && i < |db.commands|
    requires forall j :: 0 <= j < |db.commands| && Matches(db.commands[j], HubPending(hub)) ==>
            Visited(visits, db.commands[j].nodeId)
    ensures var d, e := Cleaned(db, ids, now, HubActor(hub)), Sweep(db, visits, now);
            && |d.commands| == |e.commands| == |db.commands|
            && d.commands[i] == e.commands[i]
            && SameButActor(History(d.events, i), History(e.events, i))
  {
    hide Cleaned, Sweep, IsSweep, SweptAt, CleanedAt, IsListing, PendingRows, History, Visited, SameButActor;
    SweepAt(db, hub, visits, now, i);
    ListingIsPending(db.commands, HubPending(hub), ids);
    CleanupAt(db, ids, now, HubActor(hub), i);
    ListsMatching(db.commands, HubPending(hub), ids, i);
    CleanedIsSwept(db, hub, ids, visits, now, i);
  }
}
