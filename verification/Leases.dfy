/**
 Leases over whole runs with a clock that never goes back: the leases of one command are
 disjoint in time, and there is a bound on how often a command can be leased and
 requeued.
 */
module Leases {
  import opened Model
  import opened Lifecycle
  import opened Store
  import opened Transactions
  import opened Runs
  import opened Invariants

  predicate IsLeaseOf(w: Write, id: nat) {
    w.Change? && w.id == id && w.move.Lease?
  }

  // ---------- Exclusivity ----------

  /** An earlier lease that ran until `until` is over by `now`, or it is the one that the
      row still carries, and then the row is not queued. */
  predicate OverOrHeld(c: Command, until: Time, now: Time) {
    until <= now || (c.status != Queued && (c.status == Leased ==> c.leaseExpiresAt == Some(until)))
  }

  lemma MoveKeepsOverOrHeld(c: Command, m: Move, until: Time, before: Time, now: Time)
    requires OverOrHeld(c, until, before) && before <= now && Enabled(c, m, now)
    ensures OverOrHeld(Moved(c, m, now), until, now)
  {
  }

  lemma WriteKeepsOverOrHeld(db: Db, w: Write, id: nat, until: Time, before: Time)
    requires id < |db.commands| && OverOrHeld(db.commands[id], until, before)
    requires Allowed(db, w) && before <= w.now
    ensures id < |Apply(db, w).commands| && OverOrHeld(Apply(db, w).commands[id], until, w.now)
  {
    if Touches(w, id) {
      MoveKeepsOverOrHeld(db.commands[id], w.move, until, before, w.now);
    }
  }

  /** Once a command was leased, that lease stays over or held. */
  lemma {:induction false} LeaseStaysOverOrHeld(db: Db, ws: seq<Write>, id: nat, until: Time, start: Time)
    requires AllAllowed(db, ws) && Clocked(ws, start)
    requires id < |db.commands| && OverOrHeld(db.commands[id], until, start)
    ensures var d := ApplyAll(db, ws);
            id < |d.commands| && OverOrHeld(d.commands[id], until, ClockAfter(ws, start))
  {
    if ws != [] {
      var init, last := LastWrite(db, ws);
      assert Clocked(init, start);
      LeaseStaysOverOrHeld(db, init, id, until, start);
      assert ClockAfter(init, start) <= last.now;
      WriteKeepsOverOrHeld(ApplyAll(db, init), last, id, until, ClockAfter(init, start));
    }
  }

  /** A lease that is handed out is held. */
  lemma LeaseIsHeld(db: Db, w: Write)
    requires Allowed(db, w) && w.Change? && w.move.Lease?
    ensures w.id < |Apply(db, w).commands| && OverOrHeld(Apply(db, w).commands[w.id], w.move.until, w.now)
    ensures w.now < w.move.until && db.commands[w.id].status == Queued
  {
  }

  /** The interval of a lease ends before the next lease of the same command begins. */
  lemma LeasesAreDisjoint(db: Db, ws: seq<Write>, j: nat, k: nat, start: Time)
    requires AllAllowed(db, ws) && Clocked(ws, start) && j < k < |ws|
    requires ws[j].Change? && IsLeaseOf(ws[j], ws[j].id) && IsLeaseOf(ws[k], ws[j].id)
    ensures ws[j].now < ws[j].move.until <= ws[k].now
  {
    assert ClockAfter(ws[j + 1..k], ws[j].now) <= ws[k].now && Clocked(ws[j + 1..k], ws[j].now);
    hide Allowed, AllAllowed, ApplyAll, Apply, Clocked, ClockAfter;
    var id, until := ws[j].id, ws[j].move.until;
    var after := ApplyAll(db, ws[..j + 1]);
    WriteAt(db, ws, j);
    LeaseIsHeld(ApplyAll(db, ws[..j]), ws[j]);
    AllowedBetween(db, ws, j + 1, k);
    ApplyBetween(db, ws, j + 1, k);
    var between := ws[j + 1..k];
    LeaseStaysOverOrHeld(after, between, id, until, ws[j].now);
    WriteAt(db, ws, k);
    LeaseIsHeld(ApplyAll(db, ws[..k]), ws[k]);
  }

  /** Over a whole run no pull hands out a command whose earlier lease still runs. */
  lemma LeaseExclusivity(db: Db, calls: seq<Call>, start: Time, j: nat, k: nat)
    requires LegalRun(db, calls) && ClockedRun(calls, start) && j < k < |RunLog(db, calls)|
    requires var ws := RunLog(db, calls); ws[j].Change? && IsLeaseOf(ws[j], ws[j].id) && IsLeaseOf(ws[k], ws[j].id)
    ensures var ws := RunLog(db, calls); ws[j].now < ws[j].move.until <= ws[k].now
  {
    RunIsItsLog(db, calls);
    LogIsClocked(db, calls, start);
    LeasesAreDisjoint(db, RunLog(db, calls), j, k, start);
  }

  // ---------- Bounded requeueing ----------

  ghost predicate PacedRows(db: Db, now: Time) {
    forall i :: 0 <= i < |db.commands| ==> Paced(db.commands[i], Leases(History(db.events, i)), now)
  }

  lemma LeasesOneMore(h: seq<Event>, e: Event)
    ensures Leases(h + [e]) == Leases(h) + if e.status == Leased then 1 else 0
  {
    assert (h + [e])[..|h|] == h;
  }

  lemma InsertKeepsPace(db: Db, w: Write, before: Time)
    requires SoundRows(db) && PacedRows(db, before) && w.Insert? && Allowed(db, w) && before <= w.now
    ensures PacedRows(Apply(db, w), w.now)
  {
    var d, n := Apply(db, w), |db.commands|;
    var e := QueuedEvent(n, w.command, w.actor, w.capturedAt);
    HistoryOfUnknown(db.events, n);
    forall i | 0 <= i < |d.commands| ensures Paced(d.commands[i], Leases(History(d.events, i)), w.now) {
      HistoryAppend(db.events, e, i);
      LeasesOneMore(History(db.events, i), e);
      assert i < n ==> History(d.events, i) == History(db.events, i);
    }
  }

  lemma ChangeKeepsPace(db: Db, w: Write, before: Time)
    requires SoundRows(db) && PacedRows(db, before) && w.Change? && Allowed(db, w) && before <= w.now
    ensures PacedRows(Apply(db, w), w.now)
  {
    var d := Apply(db, w);
    forall i | 0 <= i < |d.commands| ensures Paced(d.commands[i], Leases(History(d.events, i)), w.now) {
      ChangeAt(db, w, i);
      var c, h := db.commands[i], History(db.events, i);
      assert Paced(c, Leases(h), before) && Sound(c, h);
      if i == w.id {
        LeasesOneMore(h, MoveEvent(i, c, w.move, w.actor, w.now));
        MoveKeepsPace(c, Leases(h), w.move, before, w.now);
      }
    }
  }

  lemma WriteKeepsPace(db: Db, w: Write, before: Time)
    requires SoundRows(db) && PacedRows(db, before) && Allowed(db, w) && before <= w.now
    ensures PacedRows(Apply(db, w), w.now)
  {
    if w.Insert? {
      InsertKeepsPace(db, w, before);
    } else if w.Change? {
      ChangeKeepsPace(db, w, before);
    }
  }

  lemma {:induction false} WritesKeepPace(db: Db, ws: seq<Write>, start: Time)
    requires Inv(db) && PacedRows(db, start) && AllAllowed(db, ws) && Clocked(ws, start)
    ensures PacedRows(ApplyAll(db, ws), ClockAfter(ws, start))
  {
    if ws != [] {
      var init, last := LastWrite(db, ws);
      assert Clocked(init, start);
      WritesKeepPace(db, init, start);
      WritesKeepInv(db, init);
      assert ClockAfter(init, start) <= last.now;
      WriteKeepsPace(ApplyAll(db, init), last, ClockAfter(init, start));
    }
  }

  /** A lease lasts at least a millisecond and a lifetime at most five minutes: no command
      is leased more than 300000 times, and its history has at most 600003 events. */
  lemma RequeueingIsBounded(db: Db, calls: seq<Call>, d: Db, start: Time, i: nat)
    requires Initial(db) && IsRun(db, calls, d) && ClockedRun(calls, start) && i < |d.commands|
    ensures var h := History(d.events, i);
            && Leases(h) <= 300_000
            && Requeues(h) <= Leases(h) <= Requeues(h) + 1
            && |h| <= 600_003
  {
    ReachableInv(db, calls, d);
    InitialInv(db);
    RunIsItsLog(db, calls);
    LogIsClocked(db, calls, start);
    WritesKeepPace(db, RunLog(db, calls), start);
    var h := History(d.events, i);
    assert Sound(d.commands[i], h);
    assert Paced(d.commands[i], Leases(h), ClockAfter(RunLog(db, calls), start));
    WordLength(h);
  }
}
