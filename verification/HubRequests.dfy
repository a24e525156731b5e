/** What provisioning calls and sensor readings store and answer, told in full. */
module HubRequests {
  import opened Model
  import opened Store
  import opened Transactions
  import opened Runs

  // ---------- Associating ----------

  predicate DeviceTaken(db: Db, device: string) {
    exists h :: 0 <= h < |db.hubs| && db.hubs[h].deviceId == Some(device)
  }

  /** A device that no hub has yet becomes a new hub of the user with the given name and
      secret; a known device, or an empty argument, is refused. */
  lemma AssociateAnswersExactly(db: Db, call: Call, r: Reply, e: Db)
    requires call.AssociateCall? && Performed(db, call, r, e)
    ensures if call.device == "" || call.secret == "" || call.name == "" then r == Rejected(Internal) && e == db
            else if DeviceTaken(db, call.device) then r == Rejected(DeviceAlreadyAssociated) && e == db
            else
              && r == HubId(|db.hubs|)
              && e == db.(hubs := db.hubs + [Hub(userId := call.user, name := call.name, deviceId := Some(call.device),
                                                 secretHash := Some(Digest(call.secret)), createdAt := call.now)])
  {
    NoWrites(db);
    var hub := Hub(call.user, call.name, Some(call.device), Some(Digest(call.secret)), call.now);
    OneWrite(db, AddHub(hub, call.now));
  }

  // ---------- Claiming ----------

  /** Device and secret are those that hub `h` was associated with. */
  predicate Proves(db: Db, device: string, secret: string, h: nat) {
    && device != "" && secret != ""
    && h < |db.hubs| && db.hubs[h].deviceId == Some(device) && db.hubs[h].secretHash == Some(Digest(secret))
  }

  predicate Claimed(db: Db, h: nat) {
    exists k :: 0 <= k < |db.tokens| && db.tokens[k].hubId == h
  }

  lemma ClaimOutcome(db: Db, device: string, secret: string, now: Time, o: Outcome)
    requires UniqueDevices(db) && o == Claim(db, device, secret, now)
    ensures device == "" || secret == "" ==> o == Reject(Internal)
    ensures device != "" && secret != "" && (forall h :: 0 <= h < |db.hubs| ==> !Proves(db, device, secret, h)) ==>
              o == Reject(InvalidDeviceCredentials)
    ensures forall h :: 0 <= h < |db.hubs| && Proves(db, device, secret, h) ==>
              if Claimed(db, h) then o == Reject(HubAlreadyClaimed)
              else
                var hub := db.hubs[h];
                o == Outcome([AddToken(Token(hub.userId, hub.name, h, false, Some(now)), now)], HubJwt(hub.userId, h))
  {
    var found := FindDevice(db.hubs, device);
    if found.Some? {
      assert HasToken(db.tokens, found.value) <==> Claimed(db, found.value);
      if db.hubs[found.value].secretHash == Some(Digest(secret)) && device != "" && secret != "" {
        assert Proves(db, device, secret, found.value);
      }
      forall h | 0 <= h < |db.hubs| && Proves(db, device, secret, h) ensures h == found.value {
      }
    }
  }

  /** A claim hands out the token of a hub exactly when it gives the hub's device and secret
      and the hub has no token; then one token row is stored.  Every refusal has its
      own code and stores nothing. */
  lemma ClaimAnswersExactly(db: Db, call: Call, r: Reply, e: Db, user: nat, h: nat)
    requires UniqueDevices(db) && call.ClaimCall? && Performed(db, call, r, e)
    ensures r == HubJwt(user, h) <==>
              Proves(db, call.device, call.secret, h) && user == db.hubs[h].userId && !Claimed(db, h)
    ensures r == HubJwt(user, h) ==>
              e == db.(tokens := db.tokens + [Token(userId := db.hubs[h].userId, hubName := db.hubs[h].name, hubId := h,
                                                    revoked := false, claimedAt := Some(call.now))])
    ensures !r.HubJwt? ==> e == db
    ensures r == Rejected(Internal) <==> call.device == "" || call.secret == ""
    ensures r == Rejected(InvalidDeviceCredentials) <==>
              && call.device != "" && call.secret != ""
              && forall g :: 0 <= g < |db.hubs| ==> !Proves(db, call.device, call.secret, g)
    ensures r == Rejected(HubAlreadyClaimed) <==>
              exists g :: 0 <= g < |db.hubs| && Proves(db, call.device, call.secret, g) && Claimed(db, g)
  {
    ClaimedAnswer(db, call, r, e, Exec(db, call));
    hide Exec, Claim, ApplyAll, Claimed, UniqueDevices, Performed;
    ClaimOutcome(db, call.device, call.secret, call.now, Exec(db, call));
    if g :| 0 <= g < |db.hubs| && Proves(db, call.device, call.secret, g) {
      var hub := db.hubs[g];
      NoWrites(db);
      OneWrite(db, AddToken(Token(hub.userId, hub.name, g, false, Some(call.now)), call.now));
    } else {
      NoWrites(db);
    }
  }

  lemma ClaimedAnswer(db: Db, call: Call, r: Reply, e: Db, o: Outcome)
    requires call.ClaimCall? && Performed(db, call, r, e) && o == Exec(db, call)
    ensures o == Claim(db, call.device, call.secret, call.now) && r == o.reply && e == ApplyAll(db, o.writes)
  {
  }

  // ---------- Revoking ----------

  lemma {:induction false} WithoutHubKeepsOthers(tokens: seq<Token>, hub: nat, t: Token)
    ensures multiset(WithoutHub(tokens, hub))[t] == if t.hubId == hub then 0 else multiset(tokens)[t]
  {
    if tokens != [] {
      var init, last := tokens[..|tokens| - 1], tokens[|tokens| - 1];
      WithoutHubKeepsOthers(init, hub, t);
      assert tokens == init + [last];
    }
  }

  /** The owner's revocation is always accepted and removes exactly the token rows of the hub;
      anybody else's is refused. */
  lemma RevokeAnswersExactly(db: Db, call: Call, r: Reply, e: Db)
    requires call.RevokeCall? && Performed(db, call, r, e)
    ensures if call.hub < |db.hubs| && db.hubs[call.hub].userId == call.user then
              && r == Done && e == db.(tokens := e.tokens)
              && forall t :: multiset(e.tokens)[t] == if t.hubId == call.hub then 0 else multiset(db.tokens)[t]
            else r == Rejected(HubNotFound) && e == db
  {
    NoWrites(db);
    OneWrite(db, DropTokens(call.hub, call.user, call.now));
    forall t ensures multiset(WithoutHub(db.tokens, call.hub))[t]
                     == if t.hubId == call.hub then 0 else multiset(db.tokens)[t]
    {
      WithoutHubKeepsOthers(db.tokens, call.hub, t);
    }
  }

  // ---------- Readings ----------

  lemma ReadingWrites(db: Db, hub: nat, node: string, at: Time, now: Time, b: Write, w: Write)
    requires b == Bind(node, hub, now) && w == Write.AddReading(node, hub, at, now)
    ensures ApplyAll(db, []) == db
    ensures ApplyAll(db, [w]) == db.(readings := db.readings + [Reading(nodeId := node, time := at)])
    ensures ApplyAll(db, [b] + [w])
            == db.(nodes := db.nodes[node := Some(hub)],
                   readings := db.readings + [Reading(nodeId := node, time := at)])
  {
    OneWrite(db, b);
    OneWrite(db, w);
    ApplyOneMore(db, [b], w);
  }

  lemma ReadingOutcome(db: Db, hub: nat, node: string, at: Time, now: Time, b: Write, w: Write, o: Outcome)
    requires b == Bind(node, hub, now) && w == Write.AddReading(node, hub, at, now)
    requires o == InsertReading(db, hub, node, at, now)
    ensures if node == "" then o == Reject(InvalidArgument)
            else if node !in db.nodes || db.nodes[node].None? then o == Outcome([b] + [w], Done)
            else if db.nodes[node] == Some(hub) then o == Outcome([w], Done)
            else o == Reject(PermissionDenied)
  {
    assert [] + [w] == [w];
  }

  /** A reading is refused exactly without a node, or when the node is bound to another hub;
      otherwise the node is bound to the hub afterwards and the reading is stored. */
  lemma ReadingAnswersExactly(db: Db, call: Call, r: Reply, e: Db)
    requires call.ReadingCall? && Performed(db, call, r, e)
    ensures if call.node == "" then r == Rejected(InvalidArgument) && e == db
            else if call.node in db.nodes && db.nodes[call.node].Some? && db.nodes[call.node] != Some(call.hub) then
              r == Rejected(PermissionDenied) && e == db
            else
              && r == Done
              && e == db.(nodes := db.nodes[call.node := Some(call.hub)],
                          readings := db.readings + [Reading(nodeId := call.node, time := call.measuredAt)])
  {
    var b := Bind(call.node, call.hub, call.now);
    var w := Write.AddReading(call.node, call.hub, call.measuredAt, call.now);
    hide InsertReading, ApplyAll;
    ReadingWrites(db, call.hub, call.node, call.measuredAt, call.now, b, w);
    ReadingOutcome(db, call.hub, call.node, call.measuredAt, call.now, b, w, Exec(db, call));
    assert call.node in db.nodes && db.nodes[call.node] == Some(call.hub) ==>
        db.nodes == db.nodes[call.node := Some(call.hub)];
  }
}
