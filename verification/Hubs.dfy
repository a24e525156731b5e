/** The auth service's hub provisioning and the garden service's node binding, as they run. */
module Hubs {
  import opened Model
  import opened Validation
  import opened Callers
  import opened Store
  import opened Transactions
  import opened Runs
  import opened Listings
  import opened Provisioning
  import opened Database

  class AuthService {
    const db: Tables

    constructor (db: Tables)
      ensures this.db == db
    {
      this.db := db;
    }

    method AssociateHub(userId: IdField, device: string, secret: string, name: string, now: Time) returns (reply: Reply)
      modifies db
      ensures !userId.Id? ==> reply == Rejected(Internal) && db.Contents() == old(db.Contents())
      ensures userId.Id? ==>
                Performed(old(db.Contents()), AssociateCall(userId.id, device, secret, name, now), reply, db.Contents())
    {
      if userId == BlankId {
        return Rejected(Internal);
      }
      if device == "" {
        return Rejected(Internal);
      }
      if secret == "" {
        return Rejected(Internal);
      }
      if name == "" {
        return Rejected(Internal);
      }
      if userId == MalformedId {
        return Rejected(Internal);
      }
      var hub := Hub(userId.id, name, Some(device), Some(Digest(secret)), now);
      if FindDevice(db.hubs, device).Some? {
        return Rejected(DeviceAlreadyAssociated);
      }
      OneWrite(db.Contents(), AddHub(hub, now));
      var id := db.CreateHub(hub);
      reply := HubId(id);
    }

    method ClaimHubToken(device: string, secret: string, now: Time) returns (reply: Reply)
      modifies db
      ensures Performed(old(db.Contents()), ClaimCall(device, secret, now), reply, db.Contents())
    {
      if device == "" {
        return Rejected(Internal);
      }
      if secret == "" {
        return Rejected(Internal);
      }
      var found := FindDevice(db.hubs, device);
      if found.None? {
        return Rejected(InvalidDeviceCredentials);
      }
      var id, hub := found.value, db.hubs[found.value];
      if hub.secretHash.None? {
        return Rejected(InvalidDeviceCredentials);
      }
      if hub.secretHash.value != Digest(secret) {
        return Rejected(InvalidDeviceCredentials);
      }
      if HasToken(db.tokens, id) {
        return Rejected(HubAlreadyClaimed);
      }
      var token := Token(hub.userId, hub.name, id, false, Some(now));
      OneWrite(db.Contents(), AddToken(token, now));
      db.CreateToken(token);
      reply := HubJwt(hub.userId, id);
    }

    method RevokeHub(user: Option<nat>, hub: Option<nat>, now: Time) returns (reply: Reply)
      modifies db
      ensures user.None? || hub.None? ==> reply == Rejected(Internal) && db.Contents() == old(db.Contents())
      ensures user.Some? && hub.Some? ==>
                Performed(old(db.Contents()), RevokeCall(user.value, hub.value, now), reply, db.Contents())
    {
      if user.None? {
        return Rejected(Internal);
      }
      if hub.None? {
        return Rejected(Internal);
      }
      if hub.value >= |db.hubs| || db.hubs[hub.value].userId != user.value {
        return Rejected(HubNotFound);
      }
      OneWrite(db.Contents(), DropTokens(hub.value, user.value, now));
      db.DeleteTokens(hub.value);
      reply := Done;
    }

    method ListHubs(user: Option<nat>) returns (infos: Result<seq<HubInfo>>, ghost ids: seq<nat>)
      ensures infos.Err? <==> user.None?
      ensures user.Some? ==> IsHubListing(db.hubs, user.value, ids) && infos.value == HubList(db.Contents(), ids)
    {
      if user.None? {
        return Err(Internal), [];
      }
      var found := db.FindHubs(user.value);
      ids := found;
      var result := new HubInfo[|found|];
      for i := 0 to |found|
        invariant forall k :: 0 <= k < i ==> result[k] == InfoOf(db.Contents(), found[k])
      {
        var hub := db.hubs[found[i]];
        var claimed, revoked := false, false;
        var claimedAt: Option<Time> := None;
        var token := FindToken(db.tokens, found[i]);
        if token.Some? {
          claimed := true;
          revoked := token.value.revoked;
          claimedAt := token.value.claimedAt;
        }
        var deviceId := "";
        if hub.deviceId.Some? {
          deviceId := hub.deviceId.value;
        }
        result[i] := HubInfo(found[i], hub.userId, hub.name, deviceId, claimed, revoked, hub.createdAt, claimedAt);
      }
      assert result[..] == HubList(db.Contents(), ids);
      infos := Ok(result[..]);
    }
  }

  class GardenService {
    const db: Tables

    constructor (db: Tables)
      ensures this.db == db
    {
      this.db := db;
    }

    method BindNodeToHub(node: string, hub: nat, now: Time) returns (reply: Reply)
      modifies db
      ensures reply == BindNode(old(db.Contents()), node, hub, now).reply
      ensures db.Contents() == ApplyAll(old(db.Contents()), BindNode(old(db.Contents()), node, hub, now).writes)
    {
      OneWrite(db.Contents(), Bind(node, hub, now));
      if node !in db.nodes {
        db.BindNode(node, hub);
        return Done;
      }
      var owner := db.nodes[node];
      if owner.Some? && owner.value != hub {
        return Rejected(PermissionDenied);
      }
      if owner.None? {
        db.BindNode(node, hub);
      }
      reply := Done;
    }

    /** The caller must be a hub; a timestamp of 0 stands for the time of the call. */
    method InsertSensorData(caller: Caller, node: string, timestampMs: int, now: Time) returns (reply: Reply)
      modifies db
      ensures RequireHubServiceAccount(caller).Err? ==>
                reply == Rejected(RequireHubServiceAccount(caller).code) && db.Contents() == old(db.Contents())
      ensures RequireHubServiceAccount(caller).Ok? ==>
                Performed(old(db.Contents()),
                          ReadingCall(RequireHubServiceAccount(caller).value, node,
                                      if timestampMs == 0 then now else timestampMs * MILLISECOND, now),
                          reply, db.Contents())
    {
      var hub := RequireHubServiceAccount(caller);
      if hub.Err? {
        return Rejected(hub.code);
      }
      if node == "" {
        return Rejected(InvalidArgument);
      }
      ghost var before := db.Contents();
      reply := BindNodeToHub(node, hub.value, now);
      if reply.Rejected? {
        return;
      }
      var timestamp := timestampMs * MILLISECOND;
      if timestampMs == 0 {
        timestamp := now;
      }
      ApplyOneMore(before, BindNode(before, node, hub.value, now).writes,
          Write.AddReading(node, hub.value, timestamp, now));
      db.AddReading(Reading(node, timestamp));
      reply := Done;
    }
  }
}
