/**
 Lazy expiry refines a timer.  The reference machine expires and requeues commands at
 every instant and its calls make no cleanup of their own; the service, which cleans up
 only when someone calls, is its image up to one cleanup and the times of completion.
 */
module Timer {
  import opened Model
  import opened Validation
  import opened Lifecycle
  import opened Store
  import opened Transactions
  import opened Effects
  import opened Queue

  // ---------- The reference machine ----------

  /** What the timer does to every command at one instant. */
  function Tick(cs: seq<Command>, at: Time): seq<Command> {
    seq(|cs|, i requires 0 <= i < |cs| => Reconciled(cs[i], at))
  }

  /** The timer's work at every instant after `t1` up to `t2`. */
  function Advance(cs: seq<Command>, t1: Time, t2: Time): seq<Command>
    decreases if t1 < t2 then t2 - t1 else 0
  {
    if t2 <= t1 then cs else Tick(Advance(cs, t1, t2 - 1), t2)
  }

  /** The same call without its cleanup: its query lists nothing. */
  function Bare(call: Call): Call {
    match call
    case ReconcileCall(user, hub, node, _, now) => ReconcileCall(user, hub, node, [], now)
    case PullCall(hub, leaseMs, max, _, queue, tokens, now) => PullCall(hub, leaseMs, max, [], queue, tokens, now)
    case AckCall(hub, req, _, now) => AckCall(hub, req, [], now)
    case _ => call
  }

  // ---------- The correspondence at one instant ----------

  /** The service's rows, if cleaned at `now`, are the reference machine's. */
  ghost predicate Mirrors(ls: seq<Command>, es: seq<Command>, now: Time) {
    && |ls| == |es|
    && forall i :: 0 <= i < |ls| ==> SameButCompletion(Reconciled(ls[i], now), es[i])
  }

  ghost predicate AllShaped(cs: seq<Command>) {
    forall i :: 0 <= i < |cs| ==> Shaped(cs[i])
  }

  ghost predicate Twins(l: Db, e: Db, now: Time) {
    && Mirrors(l.commands, e.commands, now)
    && l.nodes == e.nodes && l.hubs == e.hubs && l.tokens == e.tokens && l.readings == e.readings
  }

  lemma TickKeepsMirror(ls: seq<Command>, es: seq<Command>, before: Time, now: Time)
    requires AllShaped(ls) && before <= now && Mirrors(ls, es, before)
    ensures Mirrors(ls, Tick(es, now), now)
  {
    forall i | 0 <= i < |ls| ensures SameButCompletion(Reconciled(ls[i], now), Tick(es, now)[i]) {
      ReconcileTwice(ls[i], before, now);
      ReconcileRespectsCompletion(Reconciled(ls[i], before), es[i], now);
    }
  }

  /** Time alone keeps the correspondence. */
  lemma {:induction false} AdvanceKeepsMirror(ls: seq<Command>, es: seq<Command>, t1: Time, t2: Time)
    requires AllShaped(ls) && t1 <= t2 && Mirrors(ls, es, t1)
    ensures Mirrors(ls, Advance(es, t1, t2), t2)
    decreases t2 - t1
  {
    if t1 < t2 {
      AdvanceKeepsMirror(ls, es, t1, t2 - 1);
      TickKeepsMirror(ls, Advance(es, t1, t2 - 1), t2 - 1, t2);
    }
  }

  /** A cleanup on the service's side keeps it, whatever it lists. */
  lemma CleanupKeepsMirror(l: Db, e: Db, ids: seq<nat>, now: Time, actor: Actor)
    requires AllShaped(l.commands) && PendingRows(l.commands, ids) && Twins(l, e, now)
    ensures Twins(Cleaned(l, ids, now, actor), e, now)
    ensures AllShaped(Cleaned(l, ids, now, actor).commands)
  {
    var d := Cleaned(l, ids, now, actor);
    CleanupKeepsFrame(l, ids, now, actor);
    forall i | 0 <= i < |l.commands|
      ensures SameButCompletion(Reconciled(d.commands[i], now), e.commands[i]) && Shaped(d.commands[i])
    {
      CleanupAt(l, ids, now, actor, i);
      ReconcileTwice(l.commands[i], now, now);
      ReconciledIsShaped(l.commands[i], now);
    }
  }

  /** A command that needs no cleanup is the same on both sides. */
  lemma CurrentRowIsMirrored(c: Command, d: Command, now: Time)
    requires SameButCompletion(Reconciled(c, now), d) && (Pending(c.status) ==> CleanupMove(c, now).None?)
    ensures SameButCompletion(c, d)
    ensures Shaped(c) && Active(c.status) ==> c == d
  {
  }

  lemma MovedRowIsMirrored(c: Command, d: Command, m: Move, now: Time)
    requires SameButCompletion(c, d) && Enabled(c, m, now)
    ensures SameButCompletion(Reconciled(Moved(c, m, now), now), Moved(d, m, now))
  {
  }

  /** A move of a command that needs no cleanup, made on both sides, keeps the
      correspondence. */
  lemma MoveKeepsMirror(l: Db, e: Db, w: Write)
    requires w.Change? && Allowed(l, w) && Twins(l, e, w.now)
    requires w.move != Expire ==> Pending(l.commands[w.id].status) ==> CleanupMove(l.commands[w.id], w.now).None?
    ensures w.move != Expire ==> Twins(Apply(l, w), Apply(e, w), w.now)
    ensures w.move == Expire ==> Twins(Apply(l, w), e, w.now)
  {
    var c, d := l.commands[w.id], e.commands[w.id];
    if w.move != Expire {
      CurrentRowIsMirrored(c, d, w.now);
      MovedRowIsMirrored(c, d, w.move, w.now);
    }
  }

  // ---------- Pull ----------

  lemma {:induction false} SameLeases(ls: seq<Command>, es: seq<Command>, queue: seq<nat>, max: nat, until: Time,
                                      tokens: LeaseTokens, hub: nat, now: Time)
    requires Mirrors(ls, es, now) && max <= MAX_PULL
    ensures LeaseWrites(ls, queue, max, until, tokens, hub, now) == LeaseWrites(es, queue, max, until, tokens, hub, now)
  {
    if queue != [] {
      SameLeases(ls, es, queue[..|queue| - 1], max, until, tokens, hub, now);
    }
  }

  ghost predicate LiveQueue(cs: seq<Command>, queue: seq<nat>, now: Time) {
    && QueuedRows(cs, queue)
    && forall k :: 0 <= k < |queue| ==> CleanupMove(cs[queue[k]], now).None?
  }

  lemma {:induction false} LeasesKeepMirror(l: Db, e: Db, queue: seq<nat>, max: nat, until: Time, tokens: LeaseTokens,
                                            hub: nat, now: Time)
    requires Twins(l, e, now) && LiveQueue(l.commands, queue, now) && max <= MAX_PULL && now + MILLISECOND <= until
    ensures var ws := LeaseWrites(l.commands, queue, max, until, tokens, hub, now);
            Twins(ApplyAll(l, ws), ApplyAll(e, ws), now)
  {
    if queue != [] {
      var init, id := queue[..|queue| - 1], queue[|queue| - 1];
      LeasesKeepMirror(l, e, init, max, until, tokens, hub, now);
      var ws := LeaseWrites(l.commands, init, max, until, tokens, hub, now);
      LeasesFromQueue(l.commands, init, max, until, tokens, hub, now);
      forall k | 0 <= k < |ws| ensures ws[k].Change? && !Touches(ws[k], id) {
        assert IsLease(ws[k], l.commands, init, until, now);
      }
      UntouchedStays(l, ws, id);
      if |ws| < max && now < l.commands[id].expiresAt {
        var w := Change(id, Lease(tokens[|ws|], until), HubActor(hub), now);
        MoveKeepsMirror(ApplyAll(l, ws), ApplyAll(e, ws), w);
        ApplyOneMore(l, ws, w);
        ApplyOneMore(e, ws, w);
      }
    }
  }

  lemma {:induction false} SameShownLeases(ls: seq<Command>, es: seq<Command>, ws: seq<Write>)
    requires |ls| == |es|
    requires forall k :: 0 <= k < |ws| ==> ws[k].Change? && ws[k].id < |ls| && ls[ws[k].id] == es[ws[k].id]
    ensures ShowLeases(ls, ws) == ShowLeases(es, ws)
  {
    if ws != [] {
      SameShownLeases(ls, es, ws[..|ws| - 1]);
    }
  }

  /** A take from the cleaned queue and one from the reference machine's queue lease the same
      commands and show the same rows. */
  lemma TakesAgree(l: Db, e: Db, hub: nat, until: Time, max: nat, queue: seq<nat>, tokens: LeaseTokens, now: Time)
    requires AllShaped(l.commands) && Twins(l, e, now) && LiveQueue(l.commands, queue, now)
    requires max <= MAX_PULL && now + MILLISECOND <= until
    ensures TakeQueue(l, hub, until, max, queue, tokens, now) == TakeQueue(e, hub, until, max, queue, tokens, now)
    ensures Twins(ApplyAll(l, TakeQueue(l, hub, until, max, queue, tokens, now).writes),
                  ApplyAll(e, TakeQueue(e, hub, until, max, queue, tokens, now).writes), now)
  {
    var ws := LeaseWrites(l.commands, queue, max, until, tokens, hub, now);
    SameLeases(l.commands, e.commands, queue, max, until, tokens, hub, now);
    LeasesKeepMirror(l, e, queue, max, until, tokens, hub, now);
    LeasesFromQueue(l.commands, queue, max, until, tokens, hub, now);
    forall k | 0 <= k < |ws|
      ensures ws[k].Change? && ws[k].id < |l.commands| && l.commands[ws[k].id] == e.commands[ws[k].id]
    {
      assert IsLease(ws[k], l.commands, queue, until, now);
      CurrentRowIsMirrored(l.commands[ws[k].id], e.commands[ws[k].id], now);
    }
    SameShownLeases(l.commands, e.commands, ws);
  }

  lemma QueueIsLiveQueue(l: Db, hub: nat, queue: seq<nat>, now: Time)
    requires Current(l, hub, now) && IsListing(l.commands, HubQueued(hub), queue)
    ensures LiveQueue(l.commands, queue, now)
  {
    forall k | 0 <= k < |queue| ensures CleanupMove(l.commands[queue[k]], now).None? {
      assert Matches(l.commands[queue[k]], HubQueued(hub));
    }
  }
}
