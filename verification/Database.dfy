/** The database that the services share, and the statements they issue. */
module Database {
  import opened Model
  import opened Store
  import opened Transactions
  import opened Listings

  /** The primary keys of fetched rows. */
  function Ids(rows: seq<Shown>): seq<nat> {
    seq(|rows|, k requires 0 <= k < |rows| => rows[k].id)
  }

  /** Fetched rows are copies of stored ones. */
  ghost predicate Copies(rows: seq<Shown>, cs: seq<Command>) {
    forall k :: 0 <= k < |rows| ==> rows[k].id < |cs| && rows[k].command == cs[rows[k].id]
  }

  class Tables {
    var commands: seq<Command>
    var events: seq<Event>
    var nodes: map<string, Option<nat>>
    var hubs: seq<Hub>
    var tokens: seq<Token>
    var readings: seq<Reading>

    constructor (initial: Db)
      ensures Contents() == initial
    {
      commands, events, nodes := initial.commands, initial.events, initial.nodes;
      hubs, tokens, readings := initial.hubs, initial.tokens, initial.readings;
    }

    function Contents(): Db
      reads this
    {
      Db(commands, events, nodes, hubs, tokens, readings)
    }

    /** Rolls back to the state at the start of a transaction. */
    method Restore(saved: Db)
      modifies this
      ensures Contents() == saved
    {
      commands, events, nodes := saved.commands, saved.events, saved.nodes;
      hubs, tokens, readings := saved.hubs, saved.tokens, saved.readings;
    }

    /** The answer to an ordered query; which of the possible ones is left open. */
    method Find(q: Query) returns (rows: seq<Shown>)
      ensures IsListing(commands, q, Ids(rows)) && Copies(rows, commands)
    {
      var cs := commands;
      var ids := Listing(cs, q);
      rows := seq(|ids|, k requires 0 <= k < |ids| && ids[k] < |cs| => Shown(ids[k], cs[ids[k]]));
      assert Ids(rows) == ids;
    }

    method FindHubs(user: nat) returns (ids: seq<nat>)
      ensures IsHubListing(hubs, user, ids)
    {
      ids := HubListing(hubs, user);
    }

    /** Overwrites a whole row. */
    method Save(id: nat, c: Command)
      requires id < |commands|
      modifies this`commands
      ensures Contents() == old(Contents()).(commands := old(commands)[id := c])
    {
      commands := commands[id := c];
    }

    method Create(c: Command) returns (id: nat)
      modifies this`commands
      ensures id == |old(commands)|
      ensures Contents() == old(Contents()).(commands := old(commands) + [c])
    {
      id := |commands|;
      commands := commands + [c];
    }

    method AddEvent(e: Event)
      modifies this`events
      ensures Contents() == old(Contents()).(events := old(events) + [e])
    {
      events := events + [e];
    }

    method CreateHub(hub: Hub) returns (id: nat)
      modifies this`hubs
      ensures id == |old(hubs)|
      ensures Contents() == old(Contents()).(hubs := old(hubs) + [hub])
    {
      id := |hubs|;
      hubs := hubs + [hub];
    }

    method CreateToken(token: Token)
      modifies this`tokens
      ensures Contents() == old(Contents()).(tokens := old(tokens) + [token])
    {
      tokens := tokens + [token];
    }

    method DeleteTokens(hub: nat)
      modifies this`tokens
      ensures Contents() == old(Contents()).(tokens := WithoutHub(old(tokens), hub))
    {
      var kept: seq<Token> := [];
      for i := 0 to |tokens|
        invariant tokens == old(tokens)
        invariant kept == WithoutHub(tokens[..i], hub)
      {
        assert tokens[..i + 1][..i] == tokens[..i];
        if tokens[i].hubId != hub {
          kept := kept + [tokens[i]];
        }
      }
      assert tokens[..|tokens|] == tokens;
      tokens := kept;
    }

    method BindNode(node: string, hub: nat)
      modifies this`nodes
      ensures Contents() == old(Contents()).(nodes := old(nodes)[node := Some(hub)])
    {
      nodes := nodes[node := Some(hub)];
    }

    method AddReading(reading: Reading)
      modifies this`readings
      ensures Contents() == old(Contents()).(readings := old(readings) + [reading])
    {
      readings := readings + [reading];
    }
  }
}
