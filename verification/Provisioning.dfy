/**
 Hub provisioning over whole runs: a device belongs to one hub and one owner for ever, its
 successful claims are separated by its owner's revocations, and listing a user's hubs
 shows which claims stand.
 */
module Provisioning {
  import opened Model
  import opened Store
  import opened Transactions
  import opened Runs
  import opened Invariants
  import opened Safety
  import opened Queue
  import opened Commuting
  import opened Listings

  // ---------- Devices ----------

  lemma FindDeviceIsUnique(db: Db, device: string, h: nat)
    requires UniqueDevices(db) && h < |db.hubs| && db.hubs[h].deviceId == Some(device)
    ensures FindDevice(db.hubs, device) == Some(h)
  {
  }

  lemma DeviceStays(db: Db, calls: seq<Call>, d: Db, device: string, h: nat)
    requires Inv(db) && IsRun(db, calls, d) && FindDevice(db.hubs, device) == Some(h)
    ensures FindDevice(d.hubs, device) == Some(h)
    ensures h < |d.hubs| && d.hubs[h] == db.hubs[h]
  {
    RunKeepsInv(db, calls);
    RunIsItsLog(db, calls);
    WritesKeepHubs(db, RunLog(db, calls), h);
    FindDeviceIsUnique(d, device, h);
  }

  /** Once a device maps to a hub it maps to it for ever, with the same owner and secret, and
      nobody can associate it again. */
  lemma DeviceIsPermanent(db: Db, calls: seq<Call>, d: Db, device: string, h: nat, again: Call, r: Reply, e: Db)
    requires Inv(db) && IsRun(db, calls, d) && FindDevice(db.hubs, device) == Some(h)
    requires again.AssociateCall? && again.device == device && Performed(d, again, r, e)
    ensures FindDevice(d.hubs, device) == Some(h)
    ensures h < |d.hubs| && d.hubs[h] == db.hubs[h]
    ensures r.Rejected? && e == d
  {
    DeviceStays(db, calls, d, device, h);
    RejectedChangesNothing(d, again);
  }

  // ---------- Tokens ----------

  lemma {:induction false} NonTokenWritesKeepTokens(db: Db, ws: seq<Write>)
    requires forall k :: 0 <= k < |ws| ==> !ws[k].AddToken? && !ws[k].DropTokens?
    ensures ApplyAll(db, ws).tokens == db.tokens
  {
    if ws != [] {
      NonTokenWritesKeepTokens(db, ws[..|ws| - 1]);
    }
  }

  lemma HubCallsKeepTokens(db: Db, call: Call)
    requires Legal(db, call) && HubCall(call)
    ensures Step(db, call).tokens == db.tokens
  {
    CallStaysInHub(db, call);
    ChangesKeepFrame(db, Exec(db, call).writes);
  }

  lemma OtherCallsKeepTokens(db: Db, call: Call)
    requires Legal(db, call) && !call.ClaimCall? && !call.RevokeCall?
    ensures Step(db, call).tokens == db.tokens
  {
    if HubCall(call) {
      HubCallsKeepTokens(db, call);
    } else if call.ReconcileCall? {
      CleanupKeepsFrame(db, call.ids, call.now, SystemActor);
    } else {
      NonTokenWritesKeepTokens(db, Exec(db, call).writes);
    }
  }

  lemma {:induction false} DroppedHasNone(tokens: seq<Token>, hub: nat, h: nat)
    ensures HasToken(WithoutHub(tokens, hub), h) <==> h != hub && HasToken(tokens, h)
  {
    var r := WithoutHub(tokens, hub);
    assert forall k :: 0 <= k < |r| ==> r[k] in r;
    if h != hub && HasToken(tokens, h) {
      var k :| 0 <= k < |tokens| && tokens[k].hubId == h;
      assert tokens[k] in r;
    }
  }

  /** This call hands out a token for hub `h`. */
  predicate ClaimsHub(db: Db, call: Call, h: nat) {
    call.ClaimCall? && Exec(db, call).reply.HubJwt? && Exec(db, call).reply.hub == h
  }

  /** This call revokes hub `h`. */
  predicate RevokesHub(db: Db, call: Call, h: nat) {
    call.RevokeCall? && call.hub == h && !Exec(db, call).reply.Rejected?
  }

  lemma TokenAppended(tokens: seq<Token>, t: Token, h: nat)
    ensures HasToken(tokens + [t], h) <==> HasToken(tokens, h) || t.hubId == h
  {
    var longer := tokens + [t];
    assert longer[|tokens|] == t;
    assert forall k :: 0 <= k < |tokens| ==> longer[k] == tokens[k];
  }

  lemma ClaimOnToken(db: Db, device: string, secret: string, now: Time, h: nat, o: Outcome)
    requires o == Claim(db, device, secret, now)
    ensures HasToken(ApplyAll(db, o.writes).tokens, h) <==>
            (o.reply.HubJwt? && o.reply.hub == h) || HasToken(db.tokens, h)
    ensures o.reply.HubJwt? && o.reply.hub == h ==> !HasToken(db.tokens, h) && FindDevice(db.hubs, device) == Some(h)
  {
    hide ApplyAll, HasToken, FindDevice;
    NoWrites(db);
    if o.reply.HubJwt? {
      var w := o.writes[0];
      assert o.writes == [w] && w.AddToken? && w.token.hubId == o.reply.hub;
      OneWrite(db, w);
      TokenAppended(db.tokens, w.token, h);
    }
  }

  lemma RevokeOnToken(db: Db, user: nat, hub: nat, now: Time, h: nat, o: Outcome)
    requires o == Revoke(db, user, hub, now)
    ensures HasToken(ApplyAll(db, o.writes).tokens, h) <==>
            HasToken(db.tokens, h) && !(hub == h && !o.reply.Rejected?)
    ensures !o.reply.Rejected? ==> hub < |db.hubs| && db.hubs[hub].userId == user
  {
    hide ApplyAll, HasToken, WithoutHub;
    NoWrites(db);
    if !o.reply.Rejected? {
      assert o.writes == [DropTokens(hub, user, now)];
      OneWrite(db, DropTokens(hub, user, now));
      DroppedHasNone(db.tokens, hub, h);
    }
  }

  /** Only a claim gives a hub its token and only a revocation takes it away; a claim
      succeeds only while there is none. */
  lemma CallOnToken(db: Db, call: Call, h: nat)
    requires Legal(db, call)
    ensures HasToken(Step(db, call).tokens, h) <==>
              ClaimsHub(db, call, h) || (HasToken(db.tokens, h) && !RevokesHub(db, call, h))
    ensures ClaimsHub(db, call, h) ==> !HasToken(db.tokens, h) && FindDevice(db.hubs, call.device) == Some(h)
    ensures RevokesHub(db, call, h) ==> h < |db.hubs| && db.hubs[h].userId == call.user
  {
    hide Claim, Revoke, ApplyAll, HasToken, FindDevice, Legal;
    match call
    case ClaimCall(device, secret, now) => ClaimOnToken(db, device, secret, now, h, Exec(db, call));
    case RevokeCall(user, hub, now) => RevokeOnToken(db, user, hub, now, h, Exec(db, call));
    case _ => OtherCallsKeepTokens(db, call);
  }

  // ---------- Claims and revocations over a run ----------

  predicate ClaimedAt(db: Db, calls: seq<Call>, k: nat, h: nat)
    requires k < |calls|
  {
    ClaimsHub(Run(db, calls[..k]), calls[k], h)
  }

  predicate RevokedAt(db: Db, calls: seq<Call>, k: nat, h: nat)
    requires k < |calls|
  {
    RevokesHub(Run(db, calls[..k]), calls[k], h)
  }

  ghost predicate NotRevokedFrom(db: Db, calls: seq<Call>, j: nat, h: nat) {
    forall m :: j <= m < |calls| ==> !RevokedAt(db, calls, m, h)
  }

  /** Some claim of the hub is newer than its last revocation. */
  ghost predicate ClaimStands(db: Db, calls: seq<Call>, h: nat) {
    exists j :: 0 <= j < |calls| && ClaimedAt(db, calls, j, h) && NotRevokedFrom(db, calls, j, h)
  }

  lemma SameBefore(db: Db, init: seq<Call>, last: Call, h: nat, k: nat)
    requires k <= |init|
    ensures k < |init| ==> ClaimedAt(db, init + [last], k, h) == ClaimedAt(db, init, k, h)
    ensures k < |init| ==> RevokedAt(db, init + [last], k, h) == RevokedAt(db, init, k, h)
    ensures k == |init| ==> ClaimedAt(db, init + [last], k, h) == ClaimsHub(Run(db, init), last, h)
    ensures k == |init| ==> RevokedAt(db, init + [last], k, h) == RevokesHub(Run(db, init), last, h)
  {
    assert (init + [last])[..k] == init[..k];
    assert init[..|init|] == init;
  }

  lemma NotRevokedOneMore(db: Db, init: seq<Call>, last: Call, j: nat, h: nat)
    requires j <= |init|
    ensures NotRevokedFrom(db, init + [last], j, h) <==>
              NotRevokedFrom(db, init, j, h) && !RevokesHub(Run(db, init), last, h)
  {
    forall m | j <= m <= |init|
      ensures m < |init| ==> RevokedAt(db, init + [last], m, h) == RevokedAt(db, init, m, h)
      ensures m == |init| ==> RevokedAt(db, init + [last], m, h) == RevokesHub(Run(db, init), last, h)
    {
      SameBefore(db, init, last, h, m);
    }
    assert NotRevokedFrom(db, init + [last], j, h) ==>
        RevokedAt(db, init + [last], |init|, h) == RevokesHub(Run(db, init), last, h);
  }

  lemma ClaimStandsOneMore(db: Db, init: seq<Call>, last: Call, h: nat)
    ensures ClaimStands(db, init + [last], h) <==>
              (ClaimsHub(Run(db, init), last, h) || (ClaimStands(db, init, h) && !RevokesHub(Run(db, init), last, h)))
  {
    hide Run, ClaimsHub, RevokesHub, NotRevokedFrom, ClaimedAt, RevokedAt;
    var calls := init + [last];
    forall j | 0 <= j <= |init|
      ensures j < |init| ==> ClaimedAt(db, calls, j, h) == ClaimedAt(db, init, j, h)
      ensures j == |init| ==> ClaimedAt(db, calls, j, h) == ClaimsHub(Run(db, init), last, h)
      ensures NotRevokedFrom(db, calls, j, h) <==> NotRevokedFrom(db, init, j, h) && !RevokesHub(Run(db, init), last, h)
    {
      SameBefore(db, init, last, h, j);
      NotRevokedOneMore(db, init, last, j, h);
    }
    NothingAfterTheEnd(db, init, last, h);
    if ClaimsHub(Run(db, init), last, h) {
      assert ClaimedAt(db, calls, |init|, h) && NotRevokedFrom(db, calls, |init|, h);
    }
    if ClaimStands(db, init, h) && !RevokesHub(Run(db, init), last, h) {
      var j :| 0 <= j < |init| && ClaimedAt(db, init, j, h) && NotRevokedFrom(db, init, j, h);
      assert ClaimedAt(db, calls, j, h) && NotRevokedFrom(db, calls, j, h);
    }
    if ClaimStands(db, calls, h) {
      var j :| 0 <= j < |calls| && ClaimedAt(db, calls, j, h) && NotRevokedFrom(db, calls, j, h);
      assert j < |init| ==> ClaimedAt(db, init, j, h) && NotRevokedFrom(db, init, j, h);
    }
  }

  lemma NothingAfterTheEnd(db: Db, init: seq<Call>, last: Call, h: nat)
    ensures NotRevokedFrom(db, init, |init|, h)
    ensures ClaimsHub(Run(db, init), last, h) ==> !RevokesHub(Run(db, init), last, h)
  {
  }

  /** A hub has a token exactly when it was claimed and not revoked since. */
  lemma {:induction false} TokenMeansClaimStands(db: Db, calls: seq<Call>, d: Db, h: nat)
    requires Initial(db) && IsRun(db, calls, d)
    ensures HasToken(d.tokens, h) <==> ClaimStands(db, calls, h)
    decreases |calls|
  {
    if calls != [] {
      hide Run, Initial, Legal, Exec, ClaimsHub, RevokesHub, ClaimStands, HasToken;
      var init, last := calls[..|calls| - 1], calls[|calls| - 1];
      LastStep(db, calls);
      RunPrefix(db, calls, |calls| - 1);
      assert LegalAt(db, calls, |calls| - 1);
      TokenMeansClaimStands(db, init, Run(db, init), h);
      CallOnToken(Run(db, init), last, h);
      ClaimStandsOneMore(db, init, last, h);
      assert calls == init + [last];
    }
  }

  /** A claim of a device at `j` names the hub that the device has at every later time. */
  lemma ClaimedDeviceStays(db: Db, calls: seq<Call>, j: nat, k: nat, h: nat)
    requires Initial(db) && LegalRun(db, calls) && j < k < |calls|
    requires ClaimedAt(db, calls, j, h)
    ensures FindDevice(Run(db, calls[..k]).hubs, calls[j].device) == Some(h)
    ensures h < |Run(db, calls[..j]).hubs| && h < |Run(db, calls).hubs|
    ensures Run(db, calls[..j]).hubs[h] == Run(db, calls[..k]).hubs[h] == Run(db, calls).hubs[h]
  {
    var d := Run(db, calls[..j]);
    RunPrefix(db, calls, j);
    ReachableInv(db, calls[..j], Run(db, calls[..j]));
    assert LegalAt(db, calls, j);
    CallOnToken(d, calls[j], h);
    HubStays(db, calls, j, k, calls[j].device, h);
    HubStays(db, calls, j, |calls|, calls[j].device, h);
    assert calls[..|calls|] == calls;
  }

  lemma HubStays(db: Db, calls: seq<Call>, j: nat, k: nat, device: string, h: nat)
    requires LegalRun(db, calls) && j <= k <= |calls| && Inv(Run(db, calls[..j]))
    requires FindDevice(Run(db, calls[..j]).hubs, device) == Some(h)
    ensures FindDevice(Run(db, calls[..k]).hubs, device) == Some(h)
    ensures h < |Run(db, calls[..k]).hubs| && Run(db, calls[..k]).hubs[h] == Run(db, calls[..j]).hubs[h]
  {
    LegalBetween(db, calls, j, k);
    RunBetween(db, calls, j, k);
    DeviceStays(Run(db, calls[..j]), calls[j..k], Run(db, calls[..k]), device, h);
  }

  /** Two successful claims of one device name the same hub, and its owner revoked it in
      between. */
  lemma ClaimsAlternateWithRevocations(db: Db, calls: seq<Call>, d: Db, j: nat, k: nat, h: nat, g: nat) returns (m: nat)
    requires Initial(db) && IsRun(db, calls, d) && j < k < |calls|
    requires ClaimedAt(db, calls, j, h) && ClaimedAt(db, calls, k, g) && calls[j].device == calls[k].device
    ensures g == h && h < |d.hubs|
    ensures j < m < k && RevokedAt(db, calls, m, h) && calls[m].user == d.hubs[h].userId
  {
    ClaimedDeviceStays(db, calls, j, k, h);
    assert LegalAt(db, calls, k);
    CallOnToken(Run(db, calls[..k]), calls[k], g);
    RunPrefix(db, calls, k);
    TokenMeansClaimStands(db, calls[..k], Run(db, calls[..k]), h);
    m := RevokedBetween(db, calls, j, k, h);
    assert LegalAt(db, calls, m);
    CallOnToken(Run(db, calls[..m]), calls[m], h);
    RevokerOwns(db, calls, j, m, h);
  }

  lemma RevokerOwns(db: Db, calls: seq<Call>, j: nat, m: nat, h: nat)
    requires Initial(db) && LegalRun(db, calls) && j < m < |calls|
    requires ClaimedAt(db, calls, j, h) && RevokedAt(db, calls, m, h)
    ensures h < |Run(db, calls).hubs| && calls[m].user == Run(db, calls).hubs[h].userId
  {
    ClaimedDeviceStays(db, calls, j, m, h);
    assert LegalAt(db, calls, m);
    CallOnToken(Run(db, calls[..m]), calls[m], h);
  }

  lemma RevokedBetween(db: Db, calls: seq<Call>, j: nat, k: nat, h: nat) returns (m: nat)
    requires j < k < |calls| && ClaimedAt(db, calls, j, h) && !ClaimStands(db, calls[..k], h)
    ensures j < m < k && RevokedAt(db, calls, m, h)
  {
    hide Run, ClaimsHub, RevokesHub;
    var before := calls[..k];
    assert before[..j] == calls[..j];
    assert ClaimedAt(db, before, j, h);
    assert !NotRevokedFrom(db, before, j, h);
    m :| j <= m < |before| && RevokedAt(db, before, m, h);
    SamePrefix(db, calls, k, m, h);
    RevokedIsNotClaimed(db, calls, m, h);
  }

  lemma SamePrefix(db: Db, calls: seq<Call>, k: nat, m: nat, h: nat)
    requires m < k <= |calls|
    ensures RevokedAt(db, calls[..k], m, h) == RevokedAt(db, calls, m, h)
  {
    assert calls[..k][..m] == calls[..m];
  }

  lemma RevokedIsNotClaimed(db: Db, calls: seq<Call>, m: nat, h: nat)
    requires m < |calls| && RevokedAt(db, calls, m, h)
    ensures !ClaimedAt(db, calls, m, h)
  {
  }

  // ---------- Listing a user's hubs ----------

  datatype HubInfo = HubInfo(
    id: nat,
    userId: nat,
    name: string,
    deviceId: string,
    claimed: bool,
    revoked: bool,
    createdAt: Time,
    claimedAt: Option<Time>)

  /** The first token row of a hub. */
  function FindToken(tokens: seq<Token>, hub: nat): (r: Option<Token>)
    ensures r.Some? <==> HasToken(tokens, hub)
    ensures r.Some? ==> r.value in tokens && r.value.hubId == hub
  {
    if tokens == [] then None
    else if tokens[0].hubId == hub then
      assert HasToken(tokens, hub);
      Some(tokens[0])
    else
      var r := FindToken(tokens[1..], hub);
      assert HasToken(tokens[1..], hub) ==> HasToken(tokens, hub) by {
        assert forall k :: 0 <= k < |tokens[1..]| ==> tokens[1..][k] == tokens[k + 1];
      }
      assert HasToken(tokens, hub) ==> HasToken(tokens[1..], hub) by {
        assert forall k :: 0 < k < |tokens| ==> tokens[1..][k - 1] == tokens[k];
      }
      r
  }

  lemma {:induction false} FindTokenAppend(tokens: seq<Token>, t: Token, h: nat)
    ensures FindToken(tokens + [t], h) == if HasToken(tokens, h) || t.hubId != h then FindToken(tokens, h) else Some(t)
  {
    if tokens == [] {
      assert tokens + [t] == [t];
    } else {
      FindTokenAppend(tokens[1..], t, h);
      assert (tokens + [t])[1..] == tokens[1..] + [t];
      assert tokens[0].hubId != h ==> (HasToken(tokens[1..], h) <==> HasToken(tokens, h)) by {
        assert FindToken(tokens, h).Some? == HasToken(tokens, h);
      }
    }
  }

  lemma {:induction false} FindTokenDropped(tokens: seq<Token>, hub: nat, h: nat)
    requires h != hub
    ensures FindToken(WithoutHub(tokens, hub), h) == FindToken(tokens, h)
  {
    hide FindToken, HasToken;
    if tokens != [] {
      var init, t := tokens[..|tokens| - 1], tokens[|tokens| - 1];
      FindTokenDropped(init, hub, h);
      FindTokenAppend(init, t, h);
      FindTokenAppend(WithoutHub(init, hub), t, h);
      DroppedHasNone(init, hub, h);
      assert tokens == init + [t];
      assert WithoutHub(tokens, hub) == if t.hubId == hub then WithoutHub(init, hub) else WithoutHub(init, hub) + [t];
    }
  }

  lemma ClaimOnTokenRow(db: Db, device: string, secret: string, now: Time, h: nat, o: Outcome)
    requires o == Claim(db, device, secret, now)
    ensures o.reply.HubJwt? && o.reply.hub == h ==>
              var t := FindToken(ApplyAll(db, o.writes).tokens, h); t.Some? && t.value.claimedAt == Some(now)
    ensures (o.reply.HubJwt? && o.reply.hub == h)
            || FindToken(ApplyAll(db, o.writes).tokens, h) == FindToken(db.tokens, h)
  {
    if o.writes != [] {
      var w := o.writes[0];
      assert w.AddToken? && w.token.hubId == o.reply.hub && !HasToken(db.tokens, w.token.hubId);
      OneWrite(db, w);
      FindTokenAppend(db.tokens, w.token, h);
    }
  }

  lemma RevokeOnTokenRow(db: Db, user: nat, hub: nat, now: Time, h: nat, o: Outcome)
    requires o == Revoke(db, user, hub, now)
    ensures (h == hub && !o.reply.Rejected?) || FindToken(ApplyAll(db, o.writes).tokens, h) == FindToken(db.tokens, h)
  {
    hide ApplyAll, FindToken, HasToken, WithoutHub;
    if o.reply.Rejected? {
      assert o.writes == [];
      NoWrites(db);
    } else if h != hub {
      assert o.writes == [DropTokens(hub, user, now)];
      OneWrite(db, DropTokens(hub, user, now));
      FindTokenDropped(db.tokens, hub, h);
    }
  }

  lemma CallOnTokenRow(db: Db, call: Call, h: nat)
    requires Legal(db, call)
    ensures ClaimsHub(db, call, h) ==>
              var t := FindToken(Step(db, call).tokens, h); t.Some? && t.value.claimedAt == Some(call.now)
    ensures !ClaimsHub(db, call, h) && !RevokesHub(db, call, h) ==>
              FindToken(Step(db, call).tokens, h) == FindToken(db.tokens, h)
  {
    hide Claim, Revoke, ApplyAll, FindToken, Legal;
    match call
    case ClaimCall(device, secret, now) => ClaimOnTokenRow(db, device, secret, now, h, Exec(db, call));
    case RevokeCall(user, hub, now) => RevokeOnTokenRow(db, user, hub, now, h, Exec(db, call));
    case _ => OtherCallsKeepTokens(db, call);
  }

  /** While a claim stands, the token row carries its time. */
  lemma {:induction false} TokenHasTheTimeOfItsClaim(db: Db, calls: seq<Call>, h: nat, j: nat)
    requires Initial(db) && LegalRun(db, calls)
    requires j < |calls| && ClaimedAt(db, calls, j, h) && NotRevokedFrom(db, calls, j, h)
    ensures var t := FindToken(Run(db, calls).tokens, h); t.Some? && t.value.claimedAt == Some(calls[j].now)
  {
    hide Run, Exec, ClaimsHub, RevokesHub, Initial, Legal;
    var init, last := calls[..|calls| - 1], calls[|calls| - 1];
    assert calls == init + [last];
    assert Run(db, calls) == Step(Run(db, init), last) by { LastStep(db, calls); }
    RunPrefix(db, calls, |calls| - 1);
    assert LegalAt(db, calls, |calls| - 1);
    CallOnTokenRow(Run(db, init), last, h);
    SameBefore(db, init, last, h, j);
    if j < |init| {
      NotRevokedOneMore(db, init, last, j, h);
      TokenHasTheTimeOfItsClaim(db, init, h, j);
      StandingBlocksClaim(db, init, last, h, j);
    }
  }

  lemma StandingBlocksClaim(db: Db, init: seq<Call>, last: Call, h: nat, j: nat)
    requires Initial(db) && LegalRun(db, init) && Legal(Run(db, init), last)
    requires j < |init| && ClaimedAt(db, init, j, h) && NotRevokedFrom(db, init, j, h)
    ensures !ClaimsHub(Run(db, init), last, h)
  {
    assert ClaimStands(db, init, h);
    TokenMeansClaimStands(db, init, Run(db, init), h);
    CallOnToken(Run(db, init), last, h);
  }

  function InfoOf(db: Db, h: nat): HubInfo
    requires h < |db.hubs|
  {
    var hub := db.hubs[h];
    var token := FindToken(db.tokens, h);
    HubInfo(h, hub.userId, hub.name, if hub.deviceId.Some? then hub.deviceId.value else "",
            token.Some?, token.Some? && token.value.revoked, hub.createdAt,
            if token.Some? then token.value.claimedAt else None)
  }

  function HubList(db: Db, ids: seq<nat>): (infos: seq<HubInfo>)
    requires forall k :: 0 <= k < |ids| ==> ids[k] < |db.hubs|
  {
    seq(|ids|, k requires 0 <= k < |ids| => InfoOf(db, ids[k]))
  }

  /** The list shows each of the user's hubs once and no other; it says claimed exactly of
      those that were claimed and not revoked since, with the time of that claim, and never
      says revoked. */
  lemma ListShowsStandingClaims(db: Db, calls: seq<Call>, d: Db, user: nat, ids: seq<nat>, h: nat)
    requires Initial(db) && IsRun(db, calls, d)
    requires IsHubListing(d.hubs, user, ids) && h < |d.hubs|
    ensures h in ids <==> d.hubs[h].userId == user
    ensures var info, hub := InfoOf(d, h), d.hubs[h];
            && info.id == h && info.userId == hub.userId && info.name == hub.name && info.createdAt == hub.createdAt
            && info.deviceId == match hub.deviceId { case Some(device) => device case None => "" }
    ensures InfoOf(d, h).claimed <==> ClaimStands(db, calls, h)
    ensures forall j :: 0 <= j < |calls| && ClaimedAt(db, calls, j, h) && NotRevokedFrom(db, calls, j, h) ==>
                          InfoOf(d, h).claimedAt == Some(calls[j].now)
    ensures !InfoOf(d, h).claimed ==> InfoOf(d, h).claimedAt.None?
    ensures !InfoOf(d, h).revoked
  {
    ReachableInv(db, calls, d);
    hide Run, ClaimedAt, NotRevokedFrom;
    TokenMeansClaimStands(db, calls, d, h);
    assert h in ids ==> d.hubs[h].userId == user;
    forall j | 0 <= j < |calls| && ClaimedAt(db, calls, j, h) && NotRevokedFrom(db, calls, j, h)
      ensures InfoOf(d, h).claimedAt == Some(calls[j].now)
    {
      TokenHasTheTimeOfItsClaim(db, calls, h, j);
    }
  }
}
