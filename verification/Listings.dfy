/** Answers to the ordered queries exist, whatever the tables hold. */
module Listings {
  import opened Model

  /** Different row numbers, by rising key. */
  ghost predicate Ordered(keys: seq<int>, ids: seq<nat>) {
    && (forall k :: 0 <= k < |ids| ==> ids[k] < |keys|)
    && (forall j, k :: 0 <= j < k < |ids| ==> ids[j] != ids[k] && keys[ids[j]] <= keys[ids[k]])
  }

  /** Puts a row number behind all whose keys are not larger. */
  function Place(keys: seq<int>, ids: seq<nat>, i: nat): (r: seq<nat>)
    requires i < |keys| && Ordered(keys, ids) && i !in ids
    ensures Ordered(keys, r) && forall x :: x in r <==> x in ids || x == i
  {
    if ids == [] then [i]
    else
      var init, last := ids[..|ids| - 1], ids[|ids| - 1];
      if keys[last] <= keys[i] then ids + [i]
      else
        var r := Place(keys, init, i);
        assert forall k :: 0 <= k < |r| ==> r[k] != last && keys[r[k]] <= keys[last] by {
          forall k | 0 <= k < |r| ensures r[k] != last && keys[r[k]] <= keys[last] {
            assert r[k] in r;
          }
        }
        r + [last]
  }

  /** The wanted ones of the first `n` rows, by key; ties are broken by primary key. */
  function Sorted(keys: seq<int>, wanted: nat -> bool, n: nat): (ids: seq<nat>)
    requires n <= |keys|
    ensures Ordered(keys, ids)
    ensures forall x: nat :: x in ids <==> x < n && wanted(x)
  {
    if n == 0 then []
    else if wanted(n - 1) then Place(keys, Sorted(keys, wanted, n - 1), n - 1)
    else Sorted(keys, wanted, n - 1)
  }

  /** An answer to a command query, oldest first. */
  function Listing(cs: seq<Command>, q: Query): (ids: seq<nat>)
    ensures IsListing(cs, q, ids)
  {
    var keys := seq(|cs|, i requires 0 <= i < |cs| => cs[i].createdAt);
    var ids := Sorted(keys, (i: nat) => i < |cs| && Matches(cs[i], q), |cs|);
    assert forall k :: 0 <= k < |ids| ==> ids[k] in ids;
    ids
  }

  /** `ids` is an answer that the database may give to the query for a user's hubs, newest
      first. */
  ghost predicate IsHubListing(hubs: seq<Hub>, user: nat, ids: seq<nat>) {
    && (forall k :: 0 <= k < |ids| ==> ids[k] < |hubs| && hubs[ids[k]].userId == user)
    && (forall j, k :: 0 <= j < k < |ids| ==> ids[j] != ids[k] && hubs[ids[j]].createdAt >= hubs[ids[k]].createdAt)
    && (forall h :: 0 <= h < |hubs| && hubs[h].userId == user ==> h in ids)
  }

  function HubListing(hubs: seq<Hub>, user: nat): (ids: seq<nat>)
    ensures IsHubListing(hubs, user, ids)
  {
    var keys := seq(|hubs|, i requires 0 <= i < |hubs| => -hubs[i].createdAt);
    var ids := Sorted(keys, (i: nat) => i < |hubs| && hubs[i].userId == user, |hubs|);
    assert forall k :: 0 <= k < |ids| ==> ids[k] in ids;
    ids
  }
}
