/** Runs: calls of any callers, interleaved transaction by transaction. */
module Runs {
  import opened Model
  import opened Store
  import opened Transactions
  import opened Effects

  /** The unique index on device ids. */
  ghost predicate UniqueDevices(db: Db) {
    forall i, j :: 0 <= i < j < |db.hubs| && db.hubs[i].deviceId.Some? ==> db.hubs[i].deviceId != db.hubs[j].deviceId
  }

  /** Before the first command the hub and node tables may hold anything that the unique
      index on device ids permits. */
  ghost predicate Initial(db: Db) {
    && db.commands == [] && db.events == [] && db.tokens == [] && db.readings == []
    && UniqueDevices(db)
  }

  function Run(db: Db, calls: seq<Call>): Db {
    if calls == [] then db else Step(Run(db, calls[..|calls| - 1]), calls[|calls| - 1])
  }

  /** All writes that a run commits, in order. */
  function RunLog(db: Db, calls: seq<Call>): seq<Write> {
    if calls == [] then []
    else
      var init := calls[..|calls| - 1];
      RunLog(db, init) + Exec(Run(db, init), calls[|calls| - 1]).writes
  }

  ghost predicate LegalAt(db: Db, calls: seq<Call>, k: nat)
    requires k < |calls|
  {
    Legal(Run(db, calls[..k]), calls[k])
  }

  ghost predicate LegalRun(db: Db, calls: seq<Call>) {
    forall k :: 0 <= k < |calls| ==> LegalAt(db, calls, k)
  }

  /** The calls of a run are legal one after the other, and lead from `db` to `d`. */
  ghost predicate IsRun(db: Db, calls: seq<Call>, d: Db) {
    LegalRun(db, calls) && d == Run(db, calls)
  }

  /** The clock never goes back from one transaction to the next. */
  ghost predicate ClockedRun(calls: seq<Call>, start: Time) {
    && (forall k :: 0 <= k < |calls| ==> start <= calls[k].now)
    && (forall j, k :: 0 <= j < k < |calls| ==> calls[j].now <= calls[k].now)
  }

  function ClockOf(calls: seq<Call>, start: Time): Time {
    if calls == [] then start else calls[|calls| - 1].now
  }

  lemma LastStep(db: Db, calls: seq<Call>)
    requires calls != []
    ensures Run(db, calls) == Step(Run(db, calls[..|calls| - 1]), calls[|calls| - 1])
  {
  }

  lemma RunPrefix(db: Db, calls: seq<Call>, n: nat)
    requires LegalRun(db, calls) && n <= |calls|
    ensures LegalRun(db, calls[..n])
  {
    forall k | 0 <= k < n ensures LegalAt(db, calls[..n], k) {
      assert LegalAt(db, calls, k);
      assert calls[..n][..k] == calls[..k];
    }
  }

  lemma {:induction false} RunAppend(db: Db, calls: seq<Call>, more: seq<Call>)
    ensures Run(db, calls + more) == Run(Run(db, calls), more)
  {
    if more == [] {
      assert calls + more == calls;
    } else {
      var init := more[..|more| - 1];
      RunAppend(db, calls, init);
      assert (calls + more)[..|calls + more| - 1] == calls + init;
    }
  }

  /** The part of a run between two of its states. */
  lemma RunBetween(db: Db, calls: seq<Call>, j: nat, k: nat)
    requires j <= k <= |calls|
    ensures Run(Run(db, calls[..j]), calls[j..k]) == Run(db, calls[..k])
  {
    JoinSlices(calls, j, k);
    RunAppend(db, calls[..j], calls[j..k]);
  }

  lemma LegalBetweenAt(db: Db, calls: seq<Call>, j: nat, k: nat, n: nat)
    requires LegalRun(db, calls) && j <= k <= |calls| && n < k - j
    ensures LegalAt(Run(db, calls[..j]), calls[j..k], n)
  {
    hide Run, Legal;
    assert LegalAt(db, calls, j + n);
    RunBetween(db, calls, j, j + n);
    SliceOfSlice(calls, j, k, n);
  }

  lemma LegalBetween(db: Db, calls: seq<Call>, j: nat, k: nat)
    requires LegalRun(db, calls) && j <= k <= |calls|
    ensures LegalRun(Run(db, calls[..j]), calls[j..k])
  {
    forall n | 0 <= n < k - j ensures LegalAt(Run(db, calls[..j]), calls[j..k], n) {
      LegalBetweenAt(db, calls, j, k, n);
    }
  }

  /** A run is its log of writes, each of which met its guard when it was made. */
  lemma {:induction false} RunIsItsLog(db: Db, calls: seq<Call>)
    requires LegalRun(db, calls)
    ensures Run(db, calls) == ApplyAll(db, RunLog(db, calls))
    ensures AllAllowed(db, RunLog(db, calls))
  {
    if calls != [] {
      var init, last := calls[..|calls| - 1], calls[|calls| - 1];
      RunPrefix(db, calls, |calls| - 1);
      RunIsItsLog(db, init);
      assert LegalAt(db, calls, |calls| - 1);
      ExecAllowed(Run(db, init), last);
      var ws := Exec(Run(db, init), last).writes;
      ApplyAppend(db, RunLog(db, init), ws);
      AllowedAppend(db, RunLog(db, init), ws);
    }
  }

  lemma {:induction false} LogIsClocked(db: Db, calls: seq<Call>, start: Time)
    requires LegalRun(db, calls) && ClockedRun(calls, start)
    ensures Clocked(RunLog(db, calls), start)
    ensures forall k :: 0 <= k < |RunLog(db, calls)| ==> RunLog(db, calls)[k].now <= ClockOf(calls, start)
  {
    if calls != [] {
      var init, last := calls[..|calls| - 1], calls[|calls| - 1];
      RunPrefix(db, calls, |calls| - 1);
      LogIsClocked(db, init, start);
      assert LegalAt(db, calls, |calls| - 1);
      ExecClock(Run(db, init), last);
      assert ClockOf(init, start) <= last.now;
    }
  }

  // ---------- Calls that were performed ----------

  /** The database went from `d` to `e` by the legal call `call`, which answered `reply`. */
  ghost predicate Performed(d: Db, call: Call, reply: Reply, e: Db) {
    Legal(d, call) && reply == Exec(d, call).reply && e == Step(d, call)
  }

  /** Performing one more call after a legal run is a legal run again: whatever services and
      clients interleave their calls, the database is always at the end of such a run. */
  lemma PerformedExtendsRun(db: Db, calls: seq<Call>, d: Db, call: Call, reply: Reply, e: Db)
    requires IsRun(db, calls, d) && Performed(d, call, reply, e)
    ensures IsRun(db, calls + [call], e)
  {
    var longer := calls + [call];
    hide Run, Exec, Legal, Step;
    assert longer[..|longer| - 1] == calls;
    LastStep(db, longer);
    forall k | 0 <= k < |longer| ensures LegalAt(db, longer, k) {
      assert longer[..k] == calls[..k];
      assert k < |calls| ==> LegalAt(db, calls, k);
      assert calls[..|calls|] == calls;
    }
  }
}
