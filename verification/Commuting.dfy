/**
 Transactions of different hubs: a pull or ack reads and writes its own hub's commands
 only, so two of them commute.
 */
module Commuting {
  import opened Model
  import opened Validation
  import opened Store
  import opened Transactions
  import opened Effects
  import opened Runs
  import opened Queue

  predicate HubCall(call: Call) {
    call.PullCall? || call.AckCall?
  }

  /** The same commands of one hub, and as many others of no matter what state. */
  ghost predicate AgreeOn(ds: seq<Command>, es: seq<Command>, hub: nat) {
    && |ds| == |es|
    && forall i :: 0 <= i < |ds| ==> ds[i].hubId == es[i].hubId && (ds[i].hubId == hub ==> ds[i] == es[i])
  }

  ghost predicate OfHub(cs: seq<Command>, hub: nat, ids: seq<nat>) {
    forall k :: 0 <= k < |ids| ==> ids[k] < |cs| && cs[ids[k]].hubId == hub
  }

  lemma ListingOfHub(cs: seq<Command>, q: Query, ids: seq<nat>)
    requires IsListing(cs, q, ids)
    ensures OfHub(cs, q.hub, ids)
  {
  }

  lemma ListingElsewhere(ds: seq<Command>, es: seq<Command>, q: Query, ids: seq<nat>)
    requires AgreeOn(ds, es, q.hub) && IsListing(ds, q, ids)
    ensures IsListing(es, q, ids)
  {
    forall i | 0 <= i < |es| && Matches(es[i], q) ensures i in ids {
      assert Matches(ds[i], q);
    }
  }

  // ---------- A transaction depends on its own hub's commands ----------

  lemma {:induction false} CleanupElsewhere(ds: seq<Command>, es: seq<Command>, ids: seq<nat>, hub: nat, now: Time,
                                            actor: Actor)
    requires AgreeOn(ds, es, hub) && OfHub(ds, hub, ids)
    ensures Cleanup(ds, ids, now, actor) == Cleanup(es, ids, now, actor)
  {
    if ids != [] {
      CleanupElsewhere(ds, es, ids[..|ids| - 1], hub, now, actor);
    }
  }

  lemma {:induction false} LeasesElsewhere(ds: seq<Command>, es: seq<Command>, queue: seq<nat>, max: nat, until: Time,
                                           tokens: LeaseTokens, hub: nat, now: Time)
    requires AgreeOn(ds, es, hub) && OfHub(ds, hub, queue) && max <= MAX_PULL
    ensures LeaseWrites(ds, queue, max, until, tokens, hub, now) == LeaseWrites(es, queue, max, until, tokens, hub, now)
  {
    if queue != [] {
      LeasesElsewhere(ds, es, queue[..|queue| - 1], max, until, tokens, hub, now);
    }
  }

  ghost predicate WritesOfHub(cs: seq<Command>, hub: nat, ws: seq<Write>) {
    forall k :: 0 <= k < |ws| ==> ws[k].Change? && ws[k].id < |cs| && cs[ws[k].id].hubId == hub
  }

  lemma {:induction false} ShowElsewhere(ds: seq<Command>, es: seq<Command>, hub: nat, ws: seq<Write>)
    requires AgreeOn(ds, es, hub) && WritesOfHub(ds, hub, ws)
    ensures ShowLeases(ds, ws) == ShowLeases(es, ws)
  {
    if ws != [] {
      ShowElsewhere(ds, es, hub, ws[..|ws| - 1]);
    }
  }

  /** The same changes keep two tables in agreement. */
  lemma {:induction false} ChangesKeepAgreement(d: Db, e: Db, hub: nat, ws: seq<Write>)
    requires AgreeOn(d.commands, e.commands, hub) && OnlyChanges(ws)
    ensures AgreeOn(ApplyAll(d, ws).commands, ApplyAll(e, ws).commands, hub)
  {
    if ws != [] {
      ChangesKeepAgreement(d, e, hub, ws[..|ws| - 1]);
    }
  }

  /** Changes to one hub's commands keep the agreement on another's. */
  lemma {:induction false} OthersKeepAgreement(d: Db, hub: nat, other: nat, ws: seq<Write>)
    requires WritesOfHub(d.commands, other, ws) && other != hub
    ensures AgreeOn(d.commands, ApplyAll(d, ws).commands, hub)
  {
    if ws != [] {
      OthersKeepAgreement(d, hub, other, ws[..|ws| - 1]);
    }
  }

  lemma CleaningElsewhere(d: Db, e: Db, hub: nat, ids: seq<nat>, now: Time, clean: seq<Write>)
    requires AgreeOn(d.commands, e.commands, hub) && IsListing(d.commands, HubPending(hub), ids)
    requires clean == Cleanup(d.commands, ids, now, HubActor(hub))
    ensures IsListing(e.commands, HubPending(hub), ids)
    ensures clean == Cleanup(e.commands, ids, now, HubActor(hub))
    ensures AgreeOn(ApplyAll(d, clean).commands, ApplyAll(e, clean).commands, hub)
  {
    ListingOfHub(d.commands, HubPending(hub), ids);
    ListingElsewhere(d.commands, e.commands, HubPending(hub), ids);
    CleanupElsewhere(d.commands, e.commands, ids, hub, now, HubActor(hub));
    CleanupIsOnlyChanges(d.commands, ids, now, HubActor(hub));
    ChangesKeepAgreement(d, e, hub, clean);
  }

  lemma PullElsewhere(d: Db, e: Db, hub: nat, lease: Time, max: nat, ids: seq<nat>, queue: seq<nat>,
                      tokens: LeaseTokens, now: Time,
                      clean: seq<Write>, d1: Db, e1: Db)
    requires d1 == ApplyAll(d, clean) && e1 == ApplyAll(e, clean)
    requires clean == Cleanup(d.commands, ids, now, HubActor(hub))
    requires clean == Cleanup(e.commands, ids, now, HubActor(hub))
    requires max <= MAX_PULL
    requires TakeQueue(d1, hub, now + lease, max, queue, tokens, now)
            == TakeQueue(e1, hub, now + lease, max, queue, tokens, now)
    ensures PullCommands(d, hub, lease, max, ids, queue, tokens, now)
            == PullCommands(e, hub, lease, max, ids, queue, tokens, now)
  {
  }

  lemma TakeElsewhere(d: Db, e: Db, hub: nat, until: Time, max: nat, queue: seq<nat>, tokens: LeaseTokens, now: Time)
    requires AgreeOn(d.commands, e.commands, hub) && max <= MAX_PULL && IsListing(d.commands, HubQueued(hub), queue)
    ensures IsListing(e.commands, HubQueued(hub), queue)
    ensures TakeQueue(d, hub, until, max, queue, tokens, now) == TakeQueue(e, hub, until, max, queue, tokens, now)
  {
    ListingOfHub(d.commands, HubQueued(hub), queue);
    ListingElsewhere(d.commands, e.commands, HubQueued(hub), queue);
    LeasesElsewhere(d.commands, e.commands, queue, max, until, tokens, hub, now);
    LeasesStayInHub(d.commands, queue, max, until, tokens, hub, now);
    ShowElsewhere(d.commands, e.commands, hub, LeaseWrites(d.commands, queue, max, until, tokens, hub, now));
  }

  lemma LeasesStayInHub(cs: seq<Command>, queue: seq<nat>, max: nat, until: Time, tokens: LeaseTokens, hub: nat,
                        now: Time)
    requires OfHub(cs, hub, queue) && max <= MAX_PULL
    ensures WritesOfHub(cs, hub, LeaseWrites(cs, queue, max, until, tokens, hub, now))
  {
    var ws := LeaseWrites(cs, queue, max, until, tokens, hub, now);
    LeasesFromQueue(cs, queue, max, until, tokens, hub, now);
    forall k | 0 <= k < |ws| ensures ws[k].Change? && ws[k].id < |cs| && cs[ws[k].id].hubId == hub {
      assert IsLease(ws[k], cs, queue, until, now);
    }
  }

  lemma CleanupStaysInHub(cs: seq<Command>, ids: seq<nat>, hub: nat, now: Time, actor: Actor)
    requires OfHub(cs, hub, ids)
    ensures WritesOfHub(cs, hub, Cleanup(cs, ids, now, actor))
  {
    var ws := Cleanup(cs, ids, now, actor);
    CleanupChangesOnly(cs, ids, now, actor);
    forall k | 0 <= k < |ws| ensures ws[k].Change? && ws[k].id < |cs| && cs[ws[k].id].hubId == hub {
      assert IsCleanup(ws[k], ids, now);
    }
  }

  lemma AckElsewhere(d: Db, e: Db, hub: nat, id: nat, req: AckRequest, ids: seq<nat>, now: Time)
    requires AgreeOn(d.commands, e.commands, hub) && IsListing(d.commands, HubPending(hub), ids)
    ensures AckCommand(d, hub, id, req, ids, now) == AckCommand(e, hub, id, req, ids, now)
  {
    CleaningElsewhere(d, e, hub, ids, now, Cleanup(d.commands, ids, now, HubActor(hub)));
  }

  lemma PullCallElsewhere(d: Db, e: Db, call: Call, lease: Time, max: nat, clean: seq<Write>, d1: Db, e1: Db)
    requires call.PullCall? && d1 == ApplyAll(d, clean) && e1 == ApplyAll(e, clean)
    requires ValidateLeaseDuration(call.leaseMs) == Ok(lease) && ValidatePullMax(call.maxCommands) == Ok(max)
    requires clean == Cleanup(d.commands, call.ids, call.now, HubActor(call.hub))
    requires clean == Cleanup(e.commands, call.ids, call.now, HubActor(call.hub))
    requires AgreeOn(d1.commands, e1.commands, call.hub)
    requires IsListing(d1.commands, HubQueued(call.hub), call.queue)
    ensures Exec(d, call) == Exec(e, call)
  {
    hide *;
    PullIsExec(d, call, lease, max);
    PullIsExec(e, call, lease, max);
    TakeElsewhere(d1, e1, call.hub, call.now + lease, max, call.queue, call.tokens, call.now);
    PullElsewhere(d, e, call.hub, lease, max, call.ids, call.queue, call.tokens, call.now, clean, d1, e1);
  }

  /** The outcome of a hub's call, and its legality, depend on that hub's commands alone. */
  lemma CallElsewhere(d: Db, e: Db, call: Call)
    requires HubCall(call) && Legal(d, call) && AgreeOn(d.commands, e.commands, call.hub)
    ensures Legal(e, call)
    ensures Exec(d, call) == Exec(e, call)
  {
    var clean := Cleanup(d.commands, call.ids, call.now, HubActor(call.hub));
    CleaningElsewhere(d, e, call.hub, call.ids, call.now, clean);
    if call.PullCall? {
      if ValidatePullMax(call.maxCommands).Ok? && ValidateLeaseDuration(call.leaseMs).Ok? {
        var lease, max := ValidateLeaseDuration(call.leaseMs).value, ValidatePullMax(call.maxCommands).value;
        PullCallElsewhere(d, e, call, lease, max, clean, ApplyAll(d, clean), ApplyAll(e, clean));
      }
      ListingElsewhere(ApplyAll(d, clean).commands, ApplyAll(e, clean).commands, HubQueued(call.hub), call.queue);
    } else {
      var id := if call.ack.commandId.Some? then call.ack.commandId.value else 0;
      AckElsewhere(d, e, call.hub, id, call.ack, call.ids, call.now);
    }
  }

  lemma AppendStaysInHub(cs: seq<Command>, hub: nat, ws: seq<Write>, vs: seq<Write>)
    requires WritesOfHub(cs, hub, ws) && WritesOfHub(cs, hub, vs)
    ensures WritesOfHub(cs, hub, ws + vs)
  {
  }

  lemma SameHubs(d: Db, ws: seq<Write>, hub: nat, vs: seq<Write>)
    requires OnlyChanges(ws) && WritesOfHub(ApplyAll(d, ws).commands, hub, vs)
    ensures WritesOfHub(d.commands, hub, vs)
  {
    ChangesKeepFrame(d, ws);
    forall k | 0 <= k < |vs| ensures vs[k].Change? && vs[k].id < |d.commands| && d.commands[vs[k].id].hubId == hub {
      ChangesKeepHub(d, ws, vs[k].id);
    }
  }

  lemma {:induction false} ChangesKeepHub(d: Db, ws: seq<Write>, i: nat)
    requires OnlyChanges(ws) && i < |d.commands|
    ensures |ApplyAll(d, ws).commands| == |d.commands| && ApplyAll(d, ws).commands[i].hubId == d.commands[i].hubId
  {
    if ws != [] {
      ChangesKeepHub(d, ws[..|ws| - 1], i);
    }
  }

  lemma TakeStaysInHub(d: Db, hub: nat, until: Time, max: nat, queue: seq<nat>, tokens: LeaseTokens, now: Time)
    requires IsListing(d.commands, HubQueued(hub), queue) && max <= MAX_PULL
    ensures WritesOfHub(d.commands, hub, TakeQueue(d, hub, until, max, queue, tokens, now).writes)
  {
    ListingOfHub(d.commands, HubQueued(hub), queue);
    LeasesStayInHub(d.commands, queue, max, until, tokens, hub, now);
  }

  lemma CleanThenTakeStayInHub(d: Db, hub: nat, clean: seq<Write>, take: seq<Write>)
    requires WritesOfHub(d.commands, hub, clean) && WritesOfHub(ApplyAll(d, clean).commands, hub, take)
    ensures WritesOfHub(d.commands, hub, clean + take)
  {
    SameHubs(d, clean, hub, take);
    AppendStaysInHub(d.commands, hub, clean, take);
  }

  lemma PullStaysInHub(d: Db, hub: nat, until: Time, max: nat, ids: seq<nat>, queue: seq<nat>, tokens: LeaseTokens,
                       now: Time,
                       clean: seq<Write>, d1: Db, take: Outcome)
    requires clean == Cleanup(d.commands, ids, now, HubActor(hub)) && d1 == ApplyAll(d, clean) && max <= MAX_PULL
    requires take == TakeQueue(d1, hub, until, max, queue, tokens, now)
    requires OfHub(d.commands, hub, ids) && IsListing(d1.commands, HubQueued(hub), queue)
    ensures WritesOfHub(d.commands, hub, clean + take.writes)
  {
    CleanupStaysInHub(d.commands, ids, hub, now, HubActor(hub));
    TakeStaysInHub(d1, hub, until, max, queue, tokens, now);
    CleanThenTakeStayInHub(d, hub, clean, take.writes);
  }

  lemma PullCommandsStayInHub(d: Db, hub: nat, lease: Time, max: nat, ids: seq<nat>, queue: seq<nat>,
                              tokens: LeaseTokens, now: Time,
                              clean: seq<Write>, d1: Db, take: Outcome, o: Outcome)
    requires OfHub(d.commands, hub, ids) && IsListing(d1.commands, HubQueued(hub), queue) && max <= MAX_PULL
    requires clean == Cleanup(d.commands, ids, now, HubActor(hub)) && d1 == ApplyAll(d, clean)
    requires take == TakeQueue(d1, hub, now + lease, max, queue, tokens, now)
    requires o == Outcome(clean + take.writes, take.reply)
    ensures WritesOfHub(d.commands, hub, o.writes)
  {
    hide *;
    PullStaysInHub(d, hub, now + lease, max, ids, queue, tokens, now, clean, d1, take);
  }

  lemma PullCallStaysInHub(d: Db, call: Call, lease: Time, max: nat, clean: seq<Write>, d1: Db, take: Outcome,
                           o: Outcome)
    requires call.PullCall? && OfHub(d.commands, call.hub, call.ids)
    requires IsListing(d1.commands, HubQueued(call.hub), call.queue)
    requires max <= MAX_PULL && o == PullCommands(d, call.hub, lease, max, call.ids, call.queue, call.tokens, call.now)
    requires clean == Cleanup(d.commands, call.ids, call.now, HubActor(call.hub)) && d1 == ApplyAll(d, clean)
    requires take == TakeQueue(d1, call.hub, call.now + lease, max, call.queue, call.tokens, call.now)
    ensures WritesOfHub(d.commands, call.hub, o.writes)
  {
    hide *;
    PullIsCleanupThenTake(d, call.hub, lease, max, call.ids, call.queue, call.tokens, call.now, clean, d1, take);
    PullCommandsStayInHub(d, call.hub, lease, max, call.ids, call.queue, call.tokens, call.now, clean, d1, take, o);
  }

  lemma AckStaysInHub(d: Db, hub: nat, id: nat, req: AckRequest, ids: seq<nat>, now: Time)
    requires IsListing(d.commands, HubPending(hub), ids)
    ensures WritesOfHub(d.commands, hub, AckCommand(d, hub, id, req, ids, now).writes)
  {
    var clean := Cleanup(d.commands, ids, now, HubActor(hub));
    ListingOfHub(d.commands, HubPending(hub), ids);
    CleanupStaysInHub(d.commands, ids, hub, now, HubActor(hub));
    var cs := ApplyAll(d, clean).commands;
    if id < |cs| && JudgeAck(cs[id], hub, req, now).Accept? {
      SameHubs(d, clean, hub, [Change(id, JudgeAck(cs[id], hub, req, now).move, HubActor(hub), now)]);
    }
  }

  lemma CallStaysInHub(d: Db, call: Call)
    requires HubCall(call) && Legal(d, call)
    ensures WritesOfHub(d.commands, call.hub, Exec(d, call).writes)
  {
    if call.PullCall? {
      if ValidatePullMax(call.maxCommands).Ok? && ValidateLeaseDuration(call.leaseMs).Ok? {
        var lease, max := ValidateLeaseDuration(call.leaseMs).value, ValidatePullMax(call.maxCommands).value;
        var clean := Cleanup(d.commands, call.ids, call.now, HubActor(call.hub));
        ListingOfHub(d.commands, HubPending(call.hub), call.ids);
        PullIsExec(d, call, lease, max);
        var take := TakeQueue(ApplyAll(d, clean), call.hub, call.now + lease, max, call.queue, call.tokens, call.now);
        PullCallStaysInHub(d, call, lease, max, clean, ApplyAll(d, clean), take, Exec(d, call));
      }
    } else {
      var id := if call.ack.commandId.Some? then call.ack.commandId.value else 0;
      AckStaysInHub(d, call.hub, id, call.ack, call.ids, call.now);
    }
  }

  // ---------- Commuting ----------

  /** Changes to different hubs' commands give the same rows and histories in either order. */
  lemma ChangesCommute(d: Db, ws: seq<Write>, vs: seq<Write>, hub: nat, other: nat, i: nat)
    requires hub != other && WritesOfHub(d.commands, hub, ws) && WritesOfHub(d.commands, other, vs) && i < |d.commands|
    ensures SameAt(ApplyAll(ApplyAll(d, ws), vs), ApplyAll(ApplyAll(d, vs), ws), i)
  {
    ChangesKeepFrame(d, ws);
    ChangesKeepFrame(d, vs);
    if d.commands[i].hubId == hub {
      UntouchedStays(d, vs, i);
      UntouchedStays(ApplyAll(d, ws), vs, i);
      ChangesAreLocal(d, ApplyAll(d, vs), ws, i);
    } else {
      UntouchedStays(d, ws, i);
      UntouchedStays(ApplyAll(d, vs), ws, i);
      ChangesAreLocal(d, ApplyAll(d, ws), vs, i);
    }
  }

  lemma FramesCommute(d: Db, ws: seq<Write>, vs: seq<Write>)
    requires OnlyChanges(ws) && OnlyChanges(vs)
    ensures SameFrame(ApplyAll(ApplyAll(d, ws), vs), ApplyAll(ApplyAll(d, vs), ws))
    ensures |ApplyAll(ApplyAll(d, ws), vs).commands| == |d.commands|
  {
    ChangesKeepFrame(d, ws);
    ChangesKeepFrame(d, vs);
    ChangesKeepFrame(ApplyAll(d, ws), vs);
    ChangesKeepFrame(ApplyAll(d, vs), ws);
  }

  /** A call of one hub is legal after a call of another and has the outcome it would have
      had before it. */
  lemma OutcomeIsIndependent(d: Db, a: Call, b: Call)
    requires HubCall(a) && HubCall(b) && a.hub != b.hub && Legal(d, a) && Legal(d, b)
    ensures Legal(Step(d, b), a) && Exec(Step(d, b), a) == Exec(d, a)
  {
    CallStaysInHub(d, b);
    OthersKeepAgreement(d, a.hub, b.hub, Exec(d, b).writes);
    CallElsewhere(d, Step(d, b), a);
  }

  /** A pull or ack by one hub and one by another give, in either order, the same replies,
      rows, per-command histories and other tables. */
  lemma DifferentHubsCommute(d: Db, a: Call, ra: Reply, da: Db, b: Call, rb: Reply, db: Db) returns (dab: Db, dba: Db)
    requires HubCall(a) && HubCall(b) && a.hub != b.hub
    requires Performed(d, a, ra, da) && Performed(d, b, rb, db)
    ensures Performed(da, b, rb, dab) && Performed(db, a, ra, dba)
    ensures SameFrame(dab, dba)
    ensures forall i :: 0 <= i < |d.commands| ==> SameAt(dab, dba, i)
  {
    dab, dba := Step(da, b), Step(db, a);
    OutcomeIsIndependent(d, a, b);
    OutcomeIsIndependent(d, b, a);
    CallStaysInHub(d, a);
    CallStaysInHub(d, b);
    FramesCommute(d, Exec(d, a).writes, Exec(d, b).writes);
    forall i | 0 <= i < |d.commands| ensures SameAt(dab, dba, i) {
      ChangesCommute(d, Exec(d, a).writes, Exec(d, b).writes, a.hub, b.hub, i);
    }
  }
}
