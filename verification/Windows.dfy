/**
 The sliding-window rate limit over whole runs.  The limit is checked against a clock
 reading captured before the row lock, the row is stamped when it is inserted.
 */
module Windows {
  import opened Model
  import opened Store
  import opened Transactions
  import opened Runs
  import opened Invariants
  import opened Safety

  function InWindow(cs: seq<Command>, user: nat, node: string, lo: Time): nat {
    CountIn(cs, user, node, lo, lo + RATE_WINDOW)
  }

  /** Every closed interval of one window length holds at most `RATE_MAX` creations. */
  ghost predicate Limited(cs: seq<Command>) {
    forall user, node, lo :: InWindow(cs, user, node, lo) <= RATE_MAX
  }

  // ---------- Counting ----------

  lemma CountInAppend(cs: seq<Command>, c: Command, user: nat, node: string, lo: Time, hi: Time)
    ensures CountIn(cs + [c], user, node, lo, hi)
            == CountIn(cs, user, node, lo, hi)
               + if c.userId == user && c.nodeId == node && lo <= c.createdAt <= hi then 1 else 0
  {
    assert (cs + [c])[..|cs|] == cs;
  }

  /** An interval that starts no earlier than `since` holds no more than `CountSince`. */
  lemma {:induction false} CountInAtMostSince(cs: seq<Command>, user: nat, node: string, since: Time, lo: Time,
                                              hi: Time)
    requires since <= lo
    ensures CountIn(cs, user, node, lo, hi) <= CountSince(cs, user, node, since)
  {
    if cs != [] {
      CountInAtMostSince(cs[..|cs| - 1], user, node, since, lo, hi);
    }
  }

  lemma {:induction false} CountInIgnoresMoves(cs: seq<Command>, ds: seq<Command>, user: nat, node: string, lo: Time,
                                               hi: Time)
    requires |cs| == |ds| && forall i :: 0 <= i < |cs| ==> SameIdentity(cs[i], ds[i])
    ensures CountIn(cs, user, node, lo, hi) == CountIn(ds, user, node, lo, hi)
  {
    if cs != [] {
      CountInIgnoresMoves(cs[..|cs| - 1], ds[..|ds| - 1], user, node, lo, hi);
    }
  }

  lemma {:induction false} CountInSplits(cs: seq<Command>, user: nat, node: string, lo: Time, mid: Time, hi: Time)
    requires lo <= mid <= hi
    ensures CountIn(cs, user, node, lo, hi) <= CountIn(cs, user, node, lo, mid) + CountIn(cs, user, node, mid, hi)
  {
    if cs != [] {
      CountInSplits(cs[..|cs| - 1], user, node, lo, mid, hi);
    }
  }

  // ---------- Every run stays within the limit ----------

  lemma InsertKeepsLimit(db: Db, w: Write)
    requires Limited(db.commands) && w.Insert? && Allowed(db, w)
    ensures Limited(Apply(db, w).commands)
  {
    var c := w.command;
    forall user, node, lo ensures InWindow(db.commands + [c], user, node, lo) <= RATE_MAX {
      assert InWindow(db.commands, user, node, lo) <= RATE_MAX;
      CountInAppend(db.commands, c, user, node, lo, lo + RATE_WINDOW);
      if c.userId == user && c.nodeId == node && lo <= c.createdAt <= lo + RATE_WINDOW {
        CountInAtMostSince(db.commands, user, node, w.capturedAt - RATE_WINDOW, lo, lo + RATE_WINDOW);
      }
    }
  }

  lemma WriteKeepsLimit(db: Db, w: Write)
    requires Limited(db.commands) && Allowed(db, w)
    ensures Limited(Apply(db, w).commands)
  {
    if w.Insert? {
      InsertKeepsLimit(db, w);
    } else if w.Change? {
      var cs, ds := db.commands, Apply(db, w).commands;
      forall user, node, lo ensures InWindow(ds, user, node, lo) <= RATE_MAX {
        assert InWindow(cs, user, node, lo) <= RATE_MAX;
        CountInIgnoresMoves(cs, ds, user, node, lo, lo + RATE_WINDOW);
      }
    }
  }

  lemma {:induction false} WritesKeepLimit(db: Db, ws: seq<Write>)
    requires Limited(db.commands) && AllAllowed(db, ws)
    ensures Limited(ApplyAll(db, ws).commands)
  {
    if ws != [] {
      var init, last := LastWrite(db, ws);
      WritesKeepLimit(db, init);
      WriteKeepsLimit(ApplyAll(db, init), last);
    }
  }

  /** At most five commands per user and node in any closed 30 seconds of any run. */
  lemma RunsAreLimited(db: Db, calls: seq<Call>, d: Db, user: nat, node: string, lo: Time)
    requires Initial(db) && IsRun(db, calls, d)
    ensures CountIn(d.commands, user, node, lo, lo + 30 * SECOND) <= 5
  {
    RunIsItsLog(db, calls);
    assert Limited(db.commands);
    WritesKeepLimit(db, RunLog(db, calls));
    assert InWindow(d.commands, user, node, lo) <= RATE_MAX;
  }

  // ---------- Per node, over several windows, in motor time ----------

  /** How many commands anyone created for a node from `lo` to `hi`. */
  function NodeCount(cs: seq<Command>, node: string, lo: Time, hi: Time): nat {
    if cs == [] then 0
    else
      var c := cs[|cs| - 1];
      NodeCount(cs[..|cs| - 1], node, lo, hi) + if c.nodeId == node && lo <= c.createdAt <= hi then 1 else 0
  }

  /** The motor time, in milliseconds, that they ask for. */
  function MotorTime(cs: seq<Command>, node: string, lo: Time, hi: Time): int {
    if cs == [] then 0
    else
      var c := cs[|cs| - 1];
      MotorTime(cs[..|cs| - 1], node, lo, hi) + if c.nodeId == node && lo <= c.createdAt <= hi then c.durationMs else 0
  }

  lemma {:induction false} MotorTimeBound(cs: seq<Command>, node: string, lo: Time, hi: Time)
    requires forall i :: 0 <= i < |cs| ==> 0 <= cs[i].durationMs <= MAX_DURATION_MS
    ensures 0 <= MotorTime(cs, node, lo, hi) <= MAX_DURATION_MS * NodeCount(cs, node, lo, hi)
  {
    if cs != [] {
      MotorTimeBound(cs[..|cs| - 1], node, lo, hi);
    }
  }

  lemma {:induction false} NodeCountIsUserCount(cs: seq<Command>, user: nat, node: string, lo: Time, hi: Time)
    requires forall i :: 0 <= i < |cs| && cs[i].nodeId == node ==> cs[i].userId == user
    ensures NodeCount(cs, node, lo, hi) == CountIn(cs, user, node, lo, hi)
  {
    if cs != [] {
      NodeCountIsUserCount(cs[..|cs| - 1], user, node, lo, hi);
    }
  }

  lemma NodeCountHasAUser(db: Db, node: string, lo: Time, hi: Time) returns (user: nat)
    requires Aligned(db)
    ensures NodeCount(db.commands, node, lo, hi) == CountIn(db.commands, user, node, lo, hi)
  {
    if i :| 0 <= i < |db.commands| && db.commands[i].nodeId == node {
      user := db.commands[i].userId;
      forall j | 0 <= j < |db.commands| && db.commands[j].nodeId == node ensures db.commands[j].userId == user {
        NodeHasOneUser(db, i, j);
      }
    } else {
      user := 0;
    }
    NodeCountIsUserCount(db.commands, user, node, lo, hi);
  }

  lemma {:induction false} WindowsAddUp(cs: seq<Command>, user: nat, node: string, lo: Time, k: nat)
    requires k > 0 && Limited(cs)
    ensures CountIn(cs, user, node, lo, lo + k * RATE_WINDOW) <= k * RATE_MAX
  {
    assert InWindow(cs, user, node, lo + (k - 1) * RATE_WINDOW) <= RATE_MAX;
    if k > 1 {
      WindowsAddUp(cs, user, node, lo, k - 1);
      CountInSplits(cs, user, node, lo, lo + (k - 1) * RATE_WINDOW, lo + k * RATE_WINDOW);
    }
  }

  lemma MotorTimeIsBoundedIn(db: Db, node: string, lo: Time, k: nat)
    requires Aligned(db) && BoundedRows(db) && Limited(db.commands) && k > 0
    ensures NodeCount(db.commands, node, lo, lo + k * RATE_WINDOW) <= RATE_MAX * k
    ensures 0 <= MotorTime(db.commands, node, lo, lo + k * RATE_WINDOW) <= MAX_DURATION_MS * (RATE_MAX * k)
  {
    var user := NodeCountHasAUser(db, node, lo, lo + k * RATE_WINDOW);
    WindowsAddUp(db.commands, user, node, lo, k);
    MotorTimeBound(db.commands, node, lo, lo + k * RATE_WINDOW);
  }

  /** Over any `k` consecutive windows a node gets at most `5 k` commands, from anyone, and
      at most `25000 k` milliseconds of motor time. */
  lemma MotorTimeIsBounded(db: Db, calls: seq<Call>, d: Db, node: string, lo: Time, k: nat)
    requires Initial(db) && IsRun(db, calls, d) && k > 0
    ensures NodeCount(d.commands, node, lo, lo + k * (30 * SECOND)) <= 5 * k
    ensures 0 <= MotorTime(d.commands, node, lo, lo + k * (30 * SECOND)) <= 25_000 * k
  {
    ReachableInv(db, calls, d);
    RunIsItsLog(db, calls);
    WritesKeepLimit(db, RunLog(db, calls));
    MotorTimeIsBoundedIn(d, node, lo, k);
  }
}
