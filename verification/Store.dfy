/**
 Writes: the single row changes that transactions consist of, each with the guard under
 which the code issues it.  A committed transaction is a sequence of writes.
 */
module Store {
  import opened Model
  import opened Lifecycle

  datatype Write =
    | Insert(command: Command, actor: Actor, capturedAt: Time, now: Time)
    | Change(id: nat, move: Move, actor: Actor, now: Time)
    | Bind(node: string, hub: nat, now: Time)
    | AddReading(node: string, hub: nat, readAt: Time, now: Time)
    | AddHub(newHub: Hub, now: Time)
    | AddToken(token: Token, now: Time)
    | DropTokens(hub: nat, owner: nat, now: Time)

  /** The events of one command, oldest first. */
  function History(events: seq<Event>, id: nat): seq<Event> {
    if events == [] then []
    else
      var e := events[|events| - 1];
      History(events[..|events| - 1], id) + if e.commandId == id then [e] else []
  }

  lemma HistoryAppend(events: seq<Event>, e: Event, id: nat)
    ensures History(events + [e], id) == History(events, id) + if e.commandId == id then [e] else []
  {
    assert (events + [e])[..|events|] == events;
  }

  lemma {:induction false} HistoryOfUnknown(events: seq<Event>, id: nat)
    requires forall k :: 0 <= k < |events| ==> events[k].commandId < id
    ensures History(events, id) == []
  {
    if events != [] {
      HistoryOfUnknown(events[..|events| - 1], id);
    }
  }

  function QueuedEvent(id: nat, c: Command, actor: Actor, at: Time): Event {
    EventOf(id, actor, None, c, "command queued", at)
  }

  function Apply(db: Db, w: Write): Db {
    match w
    case Insert(c, actor, capturedAt, _) =>
      db.(commands := db.commands + [c],
          events := db.events + [QueuedEvent(|db.commands|, c, actor, capturedAt)])
    case Change(id, m, actor, now) =>
      if id < |db.commands| then
        var c := db.commands[id];
        db.(commands := db.commands[id := Moved(c, m, now)],
            events := db.events + [MoveEvent(id, c, m, actor, now)])
      else db
    case Bind(node, hub, _) => db.(nodes := db.nodes[node := Some(hub)])
    case AddReading(node, _, readAt, _) => db.(readings := db.readings + [Reading(node, readAt)])
    case AddHub(hub, _) => db.(hubs := db.hubs + [hub])
    case AddToken(token, _) => db.(tokens := db.tokens + [token])
    case DropTokens(hub, _, _) => db.(tokens := WithoutHub(db.tokens, hub))
  }

  function ApplyAll(db: Db, ws: seq<Write>): Db {
    if ws == [] then db else Apply(ApplyAll(db, ws[..|ws| - 1]), ws[|ws| - 1])
  }

  lemma ApplyOneMore(db: Db, ws: seq<Write>, w: Write)
    ensures ApplyAll(db, ws + [w]) == Apply(ApplyAll(db, ws), w)
  {
    assert (ws + [w])[..|ws|] == ws;
  }

  lemma NoWrites(db: Db)
    ensures ApplyAll(db, []) == db
  {
  }

  lemma OneWrite(db: Db, w: Write)
    ensures ApplyAll(db, [w]) == Apply(db, w)
  {
    ApplyOneMore(db, [], w);
    assert [] + [w] == [w];
  }

  lemma {:induction false} ApplyAppend(db: Db, ws: seq<Write>, vs: seq<Write>)
    ensures ApplyAll(db, ws + vs) == ApplyAll(ApplyAll(db, ws), vs)
  {
    if vs == [] {
      assert ws + vs == ws;
    } else {
      var last := |vs| - 1;
      ApplyAppend(db, ws, vs[..last]);
      assert ws + vs == (ws + vs[..last]) + [vs[last]];
      ApplyOneMore(db, ws + vs[..last], vs[last]);
    }
  }

  // ---------- Guards ----------

  /** A command as the create transaction builds it. */
  predicate Fresh(c: Command) {
    && c.status == Queued && c.reason == NoReason && c.reasonMessage == ""
    && NoLease(c) && c.completedAt.None?
    && 0 <= c.durationMs <= MAX_DURATION_MS
    && (c.durationMs == 0 <==> c.action == Stop)
  }

  predicate Allowed(db: Db, w: Write) {
    match w
    case Insert(c, _, capturedAt, now) =>
      && Fresh(c)
      && c.createdAt == now && capturedAt <= now
      && c.expiresAt <= now + MAX_TTL
      && Owned(db, c.userId, c.hubId, c.nodeId)
      && FindKey(db.commands, c.userId, c.nodeId, c.key).None?
      && CountSince(db.commands, c.userId, c.nodeId, capturedAt - RATE_WINDOW) < RATE_MAX
      && !HasActive(db.commands, c.hubId, c.nodeId)
    case Change(id, m, _, now) =>
      id < |db.commands| && Enabled(db.commands[id], m, now)
    case Bind(node, _, _) =>
      node in db.nodes ==> db.nodes[node].None?
    case AddReading(node, hub, _, _) =>
      node in db.nodes && db.nodes[node] == Some(hub)
    case AddHub(hub, _) =>
      hub.deviceId.Some? && FindDevice(db.hubs, hub.deviceId.value).None?
    case AddToken(token, _) =>
      token.hubId < |db.hubs| && !HasToken(db.tokens, token.hubId) && !token.revoked && token.claimedAt.Some?
    case DropTokens(hub, owner, _) =>
      hub < |db.hubs| && db.hubs[hub].userId == owner
  }

  /** Write number `k` meets its guard in the state that the writes before it leave. */
  predicate AllowedAt(db: Db, ws: seq<Write>, k: nat)
    requires k < |ws|
  {
    Allowed(ApplyAll(db, ws[..k]), ws[k])
  }

  ghost predicate AllAllowed(db: Db, ws: seq<Write>) {
    forall k :: 0 <= k < |ws| ==> AllowedAt(db, ws, k)
  }

  lemma AllowedOneMore(db: Db, ws: seq<Write>, w: Write)
    requires AllAllowed(db, ws) && Allowed(ApplyAll(db, ws), w)
    ensures AllAllowed(db, ws + [w])
  {
    var vs := ws + [w];
    forall k | 0 <= k < |vs| ensures AllowedAt(db, vs, k) {
      if k < |ws| {
        assert AllowedAt(db, ws, k);
        assert vs[..k] == ws[..k];
      } else {
        assert vs[..k] == ws;
      }
    }
  }

  lemma AllowedPrefix(db: Db, ws: seq<Write>, n: nat)
    requires AllAllowed(db, ws) && n <= |ws|
    ensures AllAllowed(db, ws[..n])
  {
    forall k | 0 <= k < n ensures AllowedAt(db, ws[..n], k) {
      assert AllowedAt(db, ws, k);
      assert ws[..n][..k] == ws[..k];
    }
  }

  /** Peels off the last write. */
  lemma LastWrite(db: Db, ws: seq<Write>) returns (init: seq<Write>, last: Write)
    requires AllAllowed(db, ws) && ws != []
    ensures ws == init + [last] && |init| == |ws| - 1 && AllAllowed(db, init)
    ensures Allowed(ApplyAll(db, init), last) && ApplyAll(db, ws) == Apply(ApplyAll(db, init), last)
  {
    init, last := ws[..|ws| - 1], ws[|ws| - 1];
    AllowedPrefix(db, ws, |ws| - 1);
    assert AllowedAt(db, ws, |ws| - 1);
  }

  lemma WriteAt(db: Db, ws: seq<Write>, k: nat)
    requires AllAllowed(db, ws) && k < |ws|
    ensures Allowed(ApplyAll(db, ws[..k]), ws[k])
    ensures ApplyAll(db, ws[..k + 1]) == Apply(ApplyAll(db, ws[..k]), ws[k])
  {
    assert AllowedAt(db, ws, k);
    assert ws[..k + 1][..k] == ws[..k];
  }

  lemma ApplyBetween(db: Db, ws: seq<Write>, j: nat, k: nat)
    requires j <= k <= |ws|
    ensures ApplyAll(ApplyAll(db, ws[..j]), ws[j..k]) == ApplyAll(db, ws[..k])
  {
    JoinSlices(ws, j, k);
    ApplyAppend(db, ws[..j], ws[j..k]);
  }

  lemma AllowedBetweenAt(db: Db, ws: seq<Write>, j: nat, k: nat, n: nat)
    requires AllAllowed(db, ws) && j <= k <= |ws| && n < k - j
    ensures AllowedAt(ApplyAll(db, ws[..j]), ws[j..k], n)
  {
    hide ApplyAll, Apply, Allowed;
    WriteAt(db, ws, j + n);
    ApplyBetween(db, ws, j, j + n);
    SliceOfSlice(ws, j, k, n);
  }

  /** The writes between two points of a sequence. */
  lemma AllowedBetween(db: Db, ws: seq<Write>, j: nat, k: nat)
    requires AllAllowed(db, ws) && j <= k <= |ws|
    ensures AllAllowed(ApplyAll(db, ws[..j]), ws[j..k])
  {
    forall n | 0 <= n < k - j ensures AllowedAt(ApplyAll(db, ws[..j]), ws[j..k], n) {
      AllowedBetweenAt(db, ws, j, k, n);
    }
  }

  lemma AllowedAppendAt(db: Db, ws: seq<Write>, vs: seq<Write>, k: nat)
    requires AllAllowed(db, ws) && AllAllowed(ApplyAll(db, ws), vs) && k < |ws| + |vs|
    ensures AllowedAt(db, ws + vs, k)
  {
    TakeOfSum(ws, vs, k);
    if k < |ws| {
      assert AllowedAt(db, ws, k);
    } else {
      assert AllowedAt(ApplyAll(db, ws), vs, k - |ws|);
      ApplyAppend(db, ws, vs[..k - |ws|]);
    }
  }

  lemma AllowedAppend(db: Db, ws: seq<Write>, vs: seq<Write>)
    requires AllAllowed(db, ws) && AllAllowed(ApplyAll(db, ws), vs)
    ensures AllAllowed(db, ws + vs)
  {
    forall k | 0 <= k < |ws + vs| ensures AllowedAt(db, ws + vs, k) {
      AllowedAppendAt(db, ws, vs, k);
    }
  }

  /** The writes carry clock readings that never go back, starting from `start`. */
  ghost predicate Clocked(ws: seq<Write>, start: Time) {
    && (forall k :: 0 <= k < |ws| ==> start <= ws[k].now)
    && (forall j, k :: 0 <= j < k < |ws| ==> ws[j].now <= ws[k].now)
  }

  function ClockAfter(ws: seq<Write>, start: Time): Time {
    if ws == [] then start else ws[|ws| - 1].now
  }

  // ---------- Locality: a write to one command leaves the others alone ----------

  predicate Touches(w: Write, id: nat) {
    w.Change? && w.id == id
  }

  /** Two databases hold the same row and history for one command. */
  predicate SameAt(d: Db, e: Db, id: nat) {
    && (id < |d.commands| <==> id < |e.commands|)
    && (id < |d.commands| ==> d.commands[id] == e.commands[id])
    && History(d.events, id) == History(e.events, id)
  }

  predicate OnlyChanges(ws: seq<Write>) {
    forall k :: 0 <= k < |ws| ==> ws[k].Change?
  }

  /** Changes keep everything but command rows and events. */
  predicate SameFrame(d: Db, e: Db) {
    && |d.commands| == |e.commands|
    && d.nodes == e.nodes && d.hubs == e.hubs && d.tokens == e.tokens && d.readings == e.readings
  }

  lemma {:induction false} ChangesKeepFrame(db: Db, ws: seq<Write>)
    requires OnlyChanges(ws)
    ensures SameFrame(db, ApplyAll(db, ws))
  {
    if ws != [] {
      ChangesKeepFrame(db, ws[..|ws| - 1]);
    }
  }

  lemma ChangeAt(db: Db, w: Write, id: nat)
    requires w.Change?
    ensures !Touches(w, id) ==> SameAt(db, Apply(db, w), id)
    ensures Touches(w, id) && id < |db.commands| ==>
              && Apply(db, w).commands[id] == Moved(db.commands[id], w.move, w.now)
              && History(Apply(db, w).events, id)
                 == History(db.events, id) + [MoveEvent(id, db.commands[id], w.move, w.actor, w.now)]
  {
    if w.id < |db.commands| {
      HistoryAppend(db.events, MoveEvent(w.id, db.commands[w.id], w.move, w.actor, w.now), id);
    }
  }

  lemma {:induction false} UntouchedStays(db: Db, ws: seq<Write>, id: nat)
    requires OnlyChanges(ws)
    requires forall k :: 0 <= k < |ws| ==> !Touches(ws[k], id)
    ensures SameAt(db, ApplyAll(db, ws), id)
  {
    if ws != [] {
      var last := |ws| - 1;
      UntouchedStays(db, ws[..last], id);
      ChangeAt(ApplyAll(db, ws[..last]), ws[last], id);
    }
  }

  /** What changes do to one command depends on that command alone. */
  lemma {:induction false} ChangesAreLocal(d: Db, e: Db, ws: seq<Write>, id: nat)
    requires OnlyChanges(ws) && |d.commands| == |e.commands| && SameAt(d, e, id)
    ensures SameAt(ApplyAll(d, ws), ApplyAll(e, ws), id)
  {
    if ws != [] {
      var last := |ws| - 1;
      ChangesAreLocal(d, e, ws[..last], id);
      ChangesKeepFrame(d, ws[..last]);
      ChangesKeepFrame(e, ws[..last]);
      ChangeAt(ApplyAll(d, ws[..last]), ws[last], id);
      ChangeAt(ApplyAll(e, ws[..last]), ws[last], id);
    }
  }
}
