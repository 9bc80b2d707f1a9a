// The hub (internal/server/websocket/hub.go): redundant indexes over the live connections. Each method is
// tied to a function on the index tables; the runs of those functions are studied in HubRuns and
// HubNames.
module Hubs {
  import opened Collections
  import opened Connection

  datatype Member = Member(id: string, name: string, agent: bool)

  // A daemon connection that answers for several agents: agent name -> agent id.
  datatype Proxy<C> = Proxy(conn: C, agents: map<string, string>)

  datatype Tables<C> = Tables(
    connections: map<string, C>,            // member id -> connection
    agents: map<string, C>,                 // agent id -> connection
    agentNames: map<string, C>,             // agent name -> connection
    channels: map<string, map<string, C>>,  // channel -> member id -> connection
    presence: map<string, string>,
    daemons: map<string, Proxy<C>>,         // daemon id -> proxy
    daemonAgents: map<string, C>)           // agent name -> daemon connection

  function NoTables<C>(): Tables<C> { Tables(map[], map[], map[], map[], map[], map[], map[]) }

  // ---- The operations on values ----

  function Added<C>(t: Tables<C>, id: string, name: string, isAgent: bool, c: C): Tables<C> {
    t.(connections := t.connections[id := c],
       agents := if isAgent then t.agents[id := c] else t.agents,
       agentNames := if isAgent then t.agentNames[name := c] else t.agentNames,
       presence := t.presence[id := "online"])
  }

  // Every channel table loses the member; tables left empty go.
  function Dropped<C>(channels: map<string, map<string, C>>, id: string): map<string, map<string, C>> {
    map ch | ch in channels && channels[ch] - {id} != map[] :: channels[ch] - {id}
  }

  // By member id: whatever connection is registered under the id goes.
  function Removed<C>(t: Tables<C>, id: string, name: string, isAgent: bool): Tables<C> {
    t.(connections := t.connections - {id},
       agents := if isAgent then t.agents - {id} else t.agents,
       agentNames := if isAgent then t.agentNames - {name} else t.agentNames,
       channels := Dropped(t.channels, id),
       presence := t.presence[id := "offline"])
  }

  function Listing<C>(t: Tables<C>, channel: string): map<string, C> {
    if channel in t.channels then t.channels[channel] else map[]
  }

  function Joined<C>(t: Tables<C>, channel: string, id: string, c: C): Tables<C> {
    t.(channels := t.channels[channel := Listing(t, channel)[id := c]])
  }

  function Left<C>(t: Tables<C>, channel: string, id: string): Tables<C> {
    if channel !in t.channels then t
    else
      var rest := t.channels[channel] - {id};
      t.(channels := if rest == map[] then t.channels - {channel} else t.channels[channel := rest])
  }

  // ---- The channel tables as a relation ----

  ghost predicate Listed<C>(channels: map<string, map<string, C>>, ch: string, id: string, c: C) {
    ch in channels && id in channels[ch] && channels[ch][id] == c
  }

  ghost predicate NoEmptyTable<C>(channels: map<string, map<string, C>>) {
    forall ch :: ch in channels ==> channels[ch] != map[]
  }

  // Joining puts the connection in place of whatever was listed there, and touches no other entry.
  lemma {:induction false} JoinedLists<C>(t: Tables<C>, channel: string, member: string, joiner: C)
    ensures forall ch, id, c :: Listed(Joined(t, channel, member, joiner).channels, ch, id, c) <==>
                                if ch == channel && id == member then c == joiner else Listed(t.channels, ch, id, c)
    ensures NoEmptyTable(t.channels) ==> NoEmptyTable(Joined(t, channel, member, joiner).channels)
  {
    var table := Listing(t, channel)[member := joiner];
    assert member in table;
  }

  // Leaving takes away the one entry, and never leaves an empty table behind.
  lemma {:induction false} LeftLists<C>(t: Tables<C>, channel: string, member: string)
    ensures forall ch, id, c :: Listed(Left(t, channel, member).channels, ch, id, c) <==>
                                Listed(t.channels, ch, id, c) && !(ch == channel && id == member)
    ensures NoEmptyTable(t.channels) ==> NoEmptyTable(Left(t, channel, member).channels)
  {
    forall ch, id, c
      ensures Listed(Left(t, channel, member).channels, ch, id, c) <==>
              Listed(t.channels, ch, id, c) && !(ch == channel && id == member)
    {
      LeftListsOne(t, channel, member, ch, id, c);
    }
  }

  lemma {:induction false} LeftListsOne<C>(t: Tables<C>, channel: string, member: string, ch: string, id: string, c: C)
    ensures Listed(Left(t, channel, member).channels, ch, id, c) <==>
            Listed(t.channels, ch, id, c) && !(ch == channel && id == member)
  {
    if channel in t.channels && ch == channel {
      var rest := t.channels[channel] - {member};
      assert id in t.channels[channel] && id != member ==> id in rest;
    }
  }

  // Removing takes away every entry of the member, and every empty table.
  lemma {:induction false} DroppedLists<C>(channels: map<string, map<string, C>>, member: string)
    ensures forall ch, id, c :: Listed(Dropped(channels, member), ch, id, c) <==>
                                Listed(channels, ch, id, c) && id != member
    ensures NoEmptyTable(Dropped(channels, member))
  {
    forall ch, id | ch in channels && id in channels[ch] && id != member
      ensures ch in Dropped(channels, member)
    {
      assert id in channels[ch] - {member};
    }
  }

  function Routed<C>(table: map<string, C>, names: set<string>, c: C): map<string, C> {
    table + map n | n in names :: c
  }

  function DaemonAdded<C>(t: Tables<C>, daemon: string, c: C, agents: map<string, string>): Tables<C> {
    t.(daemons := t.daemons[daemon := Proxy(c, agents)],
       daemonAgents := Routed(t.daemonAgents, agents.Keys, c),
       agentNames := Routed(t.agentNames, agents.Keys, c))
  }

  function DaemonRemoved<C>(t: Tables<C>, daemon: string): Tables<C> {
    if daemon !in t.daemons then t
    else
      var names := t.daemons[daemon].agents.Keys;
      t.(daemons := t.daemons - {daemon}, daemonAgents := t.daemonAgents - names, agentNames := t.agentNames - names)
  }

  // Close leaves the daemon tables alone.
  function Emptied<C>(t: Tables<C>): Tables<C> {
    t.(connections := map[], agents := map[], agentNames := map[], channels := map[], presence := map[])
  }

  // WakeAgentByName: daemons first, then direct connections.
  function Resolve<C>(t: Tables<C>, name: string): Option<C> {
    if name in t.daemonAgents then Some(t.daemonAgents[name])
    else if name in t.agentNames then Some(t.agentNames[name])
    else None
  }

  // ---- Sending one message to a connection listed several times ----

  function SentTimes<M>(p: Pipe<M>, m: M, n: nat): Pipe<M> {
    if n == 0 then p else AfterSend(SentTimes(p, m, n - 1), m)
  }

  // Sending n times: n attempts of the message; an open queue takes copies as long as it has fewer than 256
  // messages, a closed one none; nothing is received meanwhile.
  lemma {:induction false} SentExactly<M>(p: Pipe<M>, m: M, n: nat)
    ensures var q := SentTimes(p, m, n);
            var room := if p.closed || |p.queue| >= 256 then 0 else 256 - |p.queue|;
            && q.closed == p.closed && q.drained == p.drained
            && q.queue == p.queue + seq(if n <= room then n else room, _ => m)
            && |q.attempts| == |p.attempts| + n && q.attempts[..|p.attempts|] == p.attempts
            && forall i :: |p.attempts| <= i < |q.attempts| ==> q.attempts[i].msg == m
  {
    if n > 0 {
      SentExactly(p, m, n - 1);
    }
  }

  // How often a connection is listed in a channel table.
  ghost function Listings<C>(table: map<string, C>, c: C): nat { |set id | id in table && table[id] == c| }

  ghost function Times<C>(conns: seq<C>, c: C): nat { multiset(conns)[c] }

  // A connection listed under its own id only is listed once.
  lemma {:induction false} ListedOnce<C>(table: map<string, C>, id: string)
    requires id in table && forall k :: k in table && table[k] == table[id] ==> k == id
    ensures Listings(table, table[id]) == 1
  {
    assert (set k | k in table && table[k] == table[id]) == {id};
  }

  lemma {:induction false} OneMore<C>(conns: seq<C>, i: nat, c: C)
    requires i < |conns|
    ensures Times(conns[..i + 1], c) == Times(conns[..i], c) + (if conns[i] == c then 1 else 0)
  {
    assert conns[..i + 1] == conns[..i] + [conns[i]];
  }

  lemma {:induction false} NotListed<C>(c: C)
    ensures Times([], c) == Listings(map[], c) == 0
  {
    var none: map<string, C> := map[];
    assert (set id | id in none && none[id] == c) == {};
  }

  lemma {:induction false} ListedMore<C>(table: map<string, C>, id: string, d: C, c: C)
    requires id !in table
    ensures Listings(table[id := d], c) == Listings(table, c) + (if d == c then 1 else 0)
  {
    var more := table[id := d];
    var ids := set k | k in table && table[k] == c;
    assert (set k | k in more && more[k] == c) == if d == c then ids + {id} else ids;
  }

  // Part of a table has been collected into a list, entry by entry.
  ghost predicate Collected<C>(table: map<string, C>, done: map<string, C>, conns: seq<C>) {
    && (forall id :: id in done ==> id in table && done[id] == table[id] && done[id] in conns)
    && (forall c :: c in conns ==> c in table.Values)
    && (forall c :: c in table.Values ==> Times(conns, c) == Listings(done, c))
  }

  lemma {:induction false} NothingCollected<C>(table: map<string, C>)
    ensures Collected(table, map[], [])
  {
    forall c | c in table.Values { NotListed(c); }
    hide Times, Listings;
  }

  lemma {:induction false} CollectedMore<C>(table: map<string, C>, done: map<string, C>, conns: seq<C>, id: string)
    requires Collected(table, done, conns) && id in table && id !in done
    ensures Collected(table, done[id := table[id]], conns + [table[id]])
  {
    hide Times, Listings;
    var next := table[id];
    forall c | c in table.Values
      ensures Times(conns + [next], c) == Listings(done[id := next], c)
    {
      ListedMore(done, id, next, c);
      OneMore(conns + [next], |conns|, c);
      assert (conns + [next])[..|conns|] == conns && (conns + [next])[..|conns| + 1] == conns + [next];
    }
    assert next in conns + [next];
  }

  lemma {:induction false} AllCollected<C>(table: map<string, C>, done: map<string, C>, conns: seq<C>)
    requires Collected(table, done, conns) && done.Keys == table.Keys
    ensures forall c :: c in conns <==> c in table.Values
    ensures forall c :: c in table.Values ==> Times(conns, c) == Listings(table, c)
  {
    assert done == table;
    hide Times, Listings;
  }

  lemma {:induction false} RouteNone<C>(table: map<string, C>, c: C)
    ensures Routed(table, {}, c) == table
  {
  }

  lemma {:induction false} RouteOneMore<C>(table: map<string, C>, names: set<string>, name: string, c: C)
    ensures Routed(table, names + {name}, c) == Routed(table, names, c)[name := c]
  {
  }

  // ---- The hub ----

  class Hub {
    var connections: map<string, Conn>
    var agents: map<string, Conn>
    var agentNames: map<string, Conn>
    var channels: map<string, map<string, Conn>>
    var presence: map<string, string>
    var daemons: map<string, Proxy<Conn>>
    var daemonAgents: map<string, Conn>

    ghost function Snapshot(): Tables<Conn>
      reads this
    {
      Tables(connections, agents, agentNames, channels, presence, daemons, daemonAgents)
    }

    constructor ()
      ensures Snapshot() == NoTables()
    {
      connections, agents, agentNames, channels := map[], map[], map[], map[];
      presence, daemons, daemonAgents := map[], map[], map[];
    }

    // A connection that was registered under the same id is closed.
    method Add(c: Conn)
      requires c.Valid() && (c.id in connections ==> connections[c.id].Valid())
      modifies this, (if c.id in connections then {connections[c.id]} else {})`closed,
               (if c.id in connections then {connections[c.id]} else {})`sendClosed
      ensures Snapshot() == Added(old(Snapshot()), c.id, c.name, c.isAgent, c)
      ensures connections == old(connections)[c.id := c] && presence == old(presence)[c.id := "online"]
      ensures c.isAgent ==> agents == old(agents)[c.id := c] && agentNames == old(agentNames)[c.name := c]
      ensures !c.isAgent ==> agents == old(agents) && agentNames == old(agentNames)
      ensures channels == old(channels) && daemons == old(daemons) && daemonAgents == old(daemonAgents)
      ensures c.id in old(connections) ==>
                var prev := old(connections)[c.id];
                prev.Valid() && prev.Snapshot() == AfterClose(old(prev.Snapshot()))
    {
      var id, prev: Conn? := c.id, null;
      if id in connections { prev := connections[id]; }
      connections := connections[id := c];
      if c.isAgent {
        agents := agents[id := c];
        agentNames := agentNames[c.name := c];
      }
      presence := presence[id := "online"];
      if prev != null { prev.Close(); }
    }

    method Remove(c: Conn)
      modifies this
      ensures Snapshot() == Removed(old(Snapshot()), c.id, c.name, c.isAgent)
      ensures connections == old(connections) - {c.id} && presence == old(presence)[c.id := "offline"]
      ensures c.isAgent ==> agents == old(agents) - {c.id} && agentNames == old(agentNames) - {c.name}
      ensures !c.isAgent ==> agents == old(agents) && agentNames == old(agentNames)
      ensures daemons == old(daemons) && daemonAgents == old(daemonAgents)
    {
      var id := c.id;
      connections := connections - {id};
      if c.isAgent {
        agents := agents - {id};
        agentNames := agentNames - {c.name};
      }
      RemoveFromChannels(id);
      presence := presence[id := "offline"];
    }

    // The deletion loop of Remove.
    method RemoveFromChannels(id: string)
      modifies `channels
      ensures channels == Dropped(old(channels), id)
    {
      var todo := channels.Keys;
      ghost var before := channels;
      while todo != {}
        invariant todo <= channels.Keys <= before.Keys
        invariant forall ch :: ch in todo ==> channels[ch] == before[ch]
        invariant forall ch :: ch in before && ch !in todo ==>
                    (ch in channels <==> before[ch] - {id} != map[])
        invariant forall ch :: ch in channels && ch !in todo ==> channels[ch] == before[ch] - {id}
        decreases |todo|
      {
        var ch :| ch in todo;
        todo := todo - {ch};
        var table: map<string, Conn> := channels[ch] - {id};
        channels := if table == map[] then channels - {ch} else channels[ch := table];
      }
      assert channels == Dropped(before, id);
    }

    method SubscribeChannel(channel: string, c: Conn)
      modifies `channels
      ensures Snapshot() == Joined(old(Snapshot()), channel, c.id, c)
    {
      var table: map<string, Conn> := if channel in channels then channels[channel] else map[];
      channels := channels[channel := table[c.id := c]];
    }

    method UnsubscribeChannel(channel: string, member: string)
      modifies `channels
      ensures Snapshot() == Left(old(Snapshot()), channel, member)
    {
      if channel in channels {
        var table := channels[channel] - {member};
        channels := if table == map[] then channels - {channel} else channels[channel := table];
      }
    }

    // Every connection in the channel's table is sent the message, as often as it is listed.
    method BroadcastToChannel(channel: string, m: string)
      requires forall c :: c in Listing(Snapshot(), channel).Values ==> c.Valid()
      modifies Listing(Snapshot(), channel).Values`buffer, Listing(Snapshot(), channel).Values`attempts
      ensures var table := Listing(Snapshot(), channel);
              forall c :: c in table.Values ==>
                c.Valid() && c.Snapshot() == SentTimes(old(c.Snapshot()), m, Listings(table, c))
    {
      var conns := ConnsOf(if channel in channels then channels[channel] else map[]);
      assert forall c :: c in conns <==> c in Listing(Snapshot(), channel).Values;
      SendAll(conns, m);
    }

    static method SendAll(conns: seq<Conn>, m: string)
      requires forall c :: c in conns ==> c.Valid()
      modifies (set c | c in conns)`buffer, (set c | c in conns)`attempts
      ensures forall c :: c in conns ==>
                c.Valid() && c.Snapshot() == SentTimes(old(c.Snapshot()), m, Times(conns, c))
    {
      var i := 0;
      while i < |conns|
        invariant 0 <= i <= |conns|
        invariant forall c :: c in conns ==>
                    c.Valid() && c.Snapshot() == SentTimes(old(c.Snapshot()), m, Times(conns[..i], c))
      {
        var next := conns[i];
        assert next in conns;
        ghost var was := next.Snapshot();
        label Before:
        next.Send(Some(m));
        forall c | c in conns
          ensures c.Valid() && c.Snapshot() == SentTimes(old(c.Snapshot()), m, Times(conns[..i + 1], c))
        {
          OneMore(conns, i, c);
          assert c != next ==> c.Snapshot() == old@Before(c.Snapshot());
        }
        i := i + 1;
      }
      assert conns[..i] == conns;
    }

    static method CloseAll(conns: seq<Conn>)
      requires forall c :: c in conns ==> c.Valid()
      modifies (set c | c in conns)`closed, (set c | c in conns)`sendClosed
      ensures forall c :: c in conns ==> c.Valid() && c.Snapshot() == AfterClose(old(c.Snapshot()))
    {
      var i := 0;
      while i < |conns|
        invariant 0 <= i <= |conns|
        invariant forall c :: c in conns ==>
                    c.Valid() && (c.Snapshot() == AfterClose(old(c.Snapshot())) || c.Snapshot() == old(c.Snapshot()))
        invariant forall k :: 0 <= k < i ==> conns[k].Snapshot() == AfterClose(old(conns[k].Snapshot()))
      {
        var next := conns[i];
        assert next in conns;
        next.Close();
        i := i + 1;
      }
    }

    static method ConnsOf(table: map<string, Conn>) returns (conns: seq<Conn>)
      ensures forall c :: c in conns <==> c in table.Values
      ensures forall c :: c in table.Values ==> Times(conns, c) == Listings(table, c)
    {
      hide *;
      conns := [];
      var todo := table.Keys;
      ghost var done: map<string, Conn> := map[];
      NothingCollected(table);
      while todo != {}
        invariant done.Keys + todo == table.Keys && done.Keys !! todo
        invariant Collected(table, done, conns)
        decreases |todo|
      {
        var id :| id in todo;
        CollectedMore(table, done, conns, id);
        todo, done, conns := todo - {id}, done[id := table[id]], conns + [table[id]];
      }
      AllCollected(table, done, conns);
    }

    method RegisterDaemon(daemon: string, c: Conn, hosted: map<string, string>)
      modifies `daemons, `daemonAgents, `agentNames
      ensures Snapshot() == DaemonAdded(old(Snapshot()), daemon, c, hosted)
      ensures daemons == old(daemons)[daemon := Proxy(c, hosted)]
      ensures forall name :: name in hosted ==> name in daemonAgents && daemonAgents[name] == c
                                                && name in agentNames && agentNames[name] == c
      ensures daemonAgents - hosted.Keys == old(daemonAgents) - hosted.Keys
      ensures agentNames - hosted.Keys == old(agentNames) - hosted.Keys
    {
      daemons := daemons[daemon := Proxy(c, hosted)];
      RouteNames(hosted.Keys, c);
    }

    // The registration loop of RegisterDaemon.
    method RouteNames(names: set<string>, c: Conn)
      modifies `daemonAgents, `agentNames
      ensures daemonAgents == Routed(old(daemonAgents), names, c) && agentNames == Routed(old(agentNames), names, c)
    {
      hide Routed;
      var todo := names;
      ghost var done: set<string> := {};
      RouteNone(daemonAgents, c);
      RouteNone(agentNames, c);
      while todo != {}
        invariant done + todo == names
        invariant daemonAgents == Routed(old(daemonAgents), done, c)
        invariant agentNames == Routed(old(agentNames), done, c)
        decreases |todo|
      {
        var name :| name in todo;
        RouteOneMore(old(daemonAgents), done, name, c);
        RouteOneMore(old(agentNames), done, name, c);
        todo, done := todo - {name}, done + {name};
        daemonAgents := daemonAgents[name := c];
        agentNames := agentNames[name := c];
      }
    }

    method UnregisterDaemon(daemon: string)
      modifies `daemons, `daemonAgents, `agentNames
      ensures Snapshot() == DaemonRemoved(old(Snapshot()), daemon)
      ensures daemons == old(daemons) - {daemon}
      ensures var names := if daemon in old(daemons) then old(daemons)[daemon].agents.Keys else {};
              daemonAgents == old(daemonAgents) - names && agentNames == old(agentNames) - names
    {
      if daemon !in daemons { return; }
      var names := daemons[daemon].agents.Keys;
      DeleteNames(names);
      daemons := daemons - {daemon};
    }

    // The deletion loop of UnregisterDaemon.
    method DeleteNames(names: set<string>)
      modifies `daemonAgents, `agentNames
      ensures daemonAgents == old(daemonAgents) - names && agentNames == old(agentNames) - names
    {
      var todo := names;
      while todo != {}
        invariant todo <= names
        invariant daemonAgents == old(daemonAgents) - (names - todo)
        invariant agentNames == old(agentNames) - (names - todo)
        decreases |todo|
      {
        var name :| name in todo;
        assert names - (todo - {name}) == names - todo + {name};
        todo := todo - {name};
        daemonAgents := daemonAgents - {name};
        agentNames := agentNames - {name};
      }
      assert names - todo == names;
    }

    // The wake goes to the connection the name resolves to, if any.
    method WakeAgentByName(name: string, wake: string) returns (target: Option<Conn>)
      requires forall c :: Resolve(Snapshot(), name) == Some(c) ==> c.Valid()
      modifies match Resolve(Snapshot(), name) case Some(c) => {c} case None => {}
      ensures target == Resolve(Snapshot(), name)
      ensures name in daemonAgents ==> target == Some(daemonAgents[name])
      ensures name !in daemonAgents && name in agentNames ==> target == Some(agentNames[name])
      ensures name !in daemonAgents && name !in agentNames ==> target == None
      ensures match target
              case Some(c) => c.Valid() && c.Snapshot() == AfterSend(old(c.Snapshot()), wake)
              case None => true
    {
      var c: Conn? := null;
      if name in daemonAgents { c := daemonAgents[name]; }
      if c == null && name in agentNames { c := agentNames[name]; }
      if c == null { return None; }
      c.Send(Some(wake));
      target := Some(c);
    }

    method Close()
      requires forall c :: c in connections.Values ==> c.Valid()
      modifies this, connections.Values`closed, connections.Values`sendClosed
      ensures Snapshot() == Emptied(old(Snapshot()))
      ensures connections == map[] && agents == map[] && agentNames == map[] && channels == map[] && presence == map[]
      ensures daemons == old(daemons) && daemonAgents == old(daemonAgents)
      ensures forall c :: c in old(connections).Values ==>
                c.Valid() && c.Snapshot() == AfterClose(old(c.Snapshot()))
    {
      var conns := ConnsOf(connections);
      assert forall c :: c in conns <==> c in connections.Values;
      connections, agents, agentNames, channels, presence := map[], map[], map[], map[], map[];
      CloseAll(conns);
    }
  }
}
