// Agents, agent names and daemon routing over all runs of the hub
// (internal/server/websocket/hub.go:93-137, 260-315, 391-402).
module HubNames {
  import opened Collections
  import opened Hubs
  import opened HubRuns

  // ---- agents is connections restricted to agent ids ----

  // Whether a member is an agent depends on the id only, and no member has an empty id.
  predicate TypedLogin(isAgent: string -> bool, e: Event) {
    e.Login? ==> e.m.id != "" && e.m.agent == isAgent(e.m.id)
  }

  predicate TypedLogins(isAgent: string -> bool, es: seq<Event>) {
    forall i :: 0 <= i < |es| ==> TypedLogin(isAgent, es[i])
  }

  predicate TypedPeer(isAgent: string -> bool, p: Peer) {
    p.member.Some? ==> p.member.value.id != "" && p.member.value.agent == isAgent(p.member.value.id)
  }

  ghost predicate AgentsInv(isAgent: string -> bool, s: Sys) {
    && "" !in s.tables.connections
    && (forall c :: c in s.peers ==> TypedPeer(isAgent, s.peers[c]))
    && (forall id :: id in s.tables.agents <==> id in s.tables.connections && isAgent(id))
    && (forall id :: id in s.tables.agents ==> s.tables.agents[id] == s.tables.connections[id])
  }

  lemma {:induction false} AgentsStep(isAgent: string -> bool, s: Sys, e: Event)
    requires AgentsInv(isAgent, s) && TypedLogin(isAgent, e)
    ensures AgentsInv(isAgent, Fire(s, e))
  {
    if e.Login? {
      AgentsGain(isAgent, s, e);
    } else if e.ReadEnds? {
      AgentsLose(isAgent, s, e);
    } else {
      AgentsKept(isAgent, s, e);
    }
  }

  lemma {:induction false} AgentsGain(isAgent: string -> bool, s: Sys, e: Event)
    requires AgentsInv(isAgent, s) && TypedLogin(isAgent, e) && e.Login?
    ensures AgentsInv(isAgent, Fire(s, e))
  {
  }

  lemma {:induction false} AgentsLose(isAgent: string -> bool, s: Sys, e: Event)
    requires AgentsInv(isAgent, s) && e.ReadEnds?
    ensures AgentsInv(isAgent, Fire(s, e))
  {
    hide Dropped;
    if e.c in s.peers {
      assert TypedPeer(isAgent, s.peers[e.c]);
    }
  }

  // Only logins give a connection an identity, and the rest leave the registrations alone.
  lemma {:induction false} IdentitiesKept(s: Sys, e: Event)
    requires !e.Login?
    ensures var s' := Fire(s, e);
            forall c :: c in s'.peers ==> s'.peers[c].member == if c in s.peers then s.peers[c].member else None
    ensures !e.ReadEnds? && !e.Shutdown? ==>
              && Fire(s, e).tables.agents == s.tables.agents
              && Fire(s, e).tables.connections == s.tables.connections
  {
    hide Dropped, Listing;
  }

  lemma {:induction false} AgentsKept(isAgent: string -> bool, s: Sys, e: Event)
    requires AgentsInv(isAgent, s) && !e.Login? && !e.ReadEnds?
    ensures AgentsInv(isAgent, Fire(s, e))
  {
    IdentitiesKept(s, e);
  }

  lemma {:induction false} AgentsRun(isAgent: string -> bool, s: Sys, es: seq<Event>)
    requires AgentsInv(isAgent, s) && TypedLogins(isAgent, es)
    ensures AgentsInv(isAgent, Run(s, es))
    decreases |es|
  {
    hide Fire, AgentsInv, TypedLogin;
    if es != [] {
      AgentsStep(isAgent, s, es[0]);
      AgentsRun(isAgent, Fire(s, es[0]), es[1..]);
    }
  }

  // Over every run, daemons and second logins included.
  lemma {:induction false} AgentsAreAgentConnections(isAgent: string -> bool, es: seq<Event>)
    requires TypedLogins(isAgent, es)
    ensures var t := Run(Start(), es).tables;
            t.agents == map id | id in t.connections && isAgent(id) :: t.connections[id]
  {
    AgentsRun(isAgent, Start(), es);
  }

  // ---- agentNames inverts the naming, without daemons ----

  predicate NamedLogin(nameOf: string -> string, e: Event) {
    && !e.DaemonRegister?
    && (e.Login? && e.m.agent ==> e.m.name == nameOf(e.m.id))
  }

  predicate NamedLogins(nameOf: string -> string, es: seq<Event>) {
    forall i :: 0 <= i < |es| ==> NamedLogin(nameOf, es[i])
  }

  // No two agents share a name.
  ghost predicate DistinctNames(isAgent: string -> bool, nameOf: string -> string) {
    forall a, b :: isAgent(a) && isAgent(b) && nameOf(a) == nameOf(b) ==> a == b
  }

  predicate NamedPeer(nameOf: string -> string, p: Peer) {
    p.member.Some? && p.member.value.agent ==> p.member.value.name == nameOf(p.member.value.id)
  }

  ghost predicate NamesInv(nameOf: string -> string, s: Sys) {
    && s.tables.daemons == map[] && s.tables.daemonAgents == map[]
    && (forall c :: c in s.peers ==> NamedPeer(nameOf, s.peers[c]))
    && Inverse(nameOf, s.tables.agents, s.tables.agentNames)
  }

  // The names table is the agents table read by name.
  ghost predicate Inverse(nameOf: string -> string, agents: map<string, nat>, names: map<string, nat>) {
    && (forall id :: id in agents ==> nameOf(id) in names && names[nameOf(id)] == agents[id])
    && (forall name :: name in names ==> exists id :: id in agents && nameOf(id) == name)
  }

  lemma {:induction false} InverseGains(nameOf: string -> string, agents: map<string, nat>, names: map<string, nat>, id: string, c: nat)
    requires Inverse(nameOf, agents, names)
    requires forall a :: a in agents && nameOf(a) == nameOf(id) ==> a == id
    ensures Inverse(nameOf, agents[id := c], names[nameOf(id) := c])
  {
    forall name | name in names && name != nameOf(id)
      ensures exists a :: a in agents[id := c] && nameOf(a) == name
    {
      var a :| a in agents && nameOf(a) == name;
      assert a in agents[id := c];
    }
    assert id in agents[id := c];
  }

  lemma {:induction false} InverseLoses(nameOf: string -> string, agents: map<string, nat>, names: map<string, nat>, id: string)
    requires Inverse(nameOf, agents, names)
    requires forall a :: a in agents && nameOf(a) == nameOf(id) ==> a == id
    ensures Inverse(nameOf, agents - {id}, names - {nameOf(id)})
  {
    forall name | name in names && name != nameOf(id)
      ensures exists a :: a in agents - {id} && nameOf(a) == name
    {
      var a :| a in agents && nameOf(a) == name;
      assert a in agents - {id};
    }
  }

  lemma {:induction false} NamesStep(isAgent: string -> bool, nameOf: string -> string, s: Sys, e: Event)
    requires DistinctNames(isAgent, nameOf) && AgentsInv(isAgent, s) && NamesInv(nameOf, s)
    requires TypedLogin(isAgent, e) && NamedLogin(nameOf, e)
    ensures NamesInv(nameOf, Fire(s, e))
  {
    if Fire(s, e) != s {
      if e.Login? && e.m.agent {
        NamesGain(isAgent, nameOf, s, e);
      } else if e.ReadEnds? {
        NamesLose(isAgent, nameOf, s, e);
      } else {
        NamesKept(nameOf, s, e);
      }
    }
  }

  lemma {:induction false} NamesKept(nameOf: string -> string, s: Sys, e: Event)
    requires NamesInv(nameOf, s) && NamedLogin(nameOf, e) && !e.ReadEnds? && !(e.Login? && e.m.agent)
    ensures NamesInv(nameOf, Fire(s, e))
  {
    TablesKept(s, e);
    if !e.Login? {
      IdentitiesKept(s, e);
      hide Fire, Inverse;
    }
  }

  lemma {:induction false} TablesKept(s: Sys, e: Event)
    requires s.tables.daemons == map[] && s.tables.daemonAgents == map[]
    requires !e.DaemonRegister? && !e.ReadEnds? && !(e.Login? && e.m.agent)
    ensures var t := Fire(s, e).tables;
            && t.daemons == map[] && t.daemonAgents == map[]
            && if e.Shutdown? then t.agents == map[] && t.agentNames == map[]
               else t.agents == s.tables.agents && t.agentNames == s.tables.agentNames
  {
    hide Dropped, Listing;
  }

  lemma {:induction false} NamesGain(isAgent: string -> bool, nameOf: string -> string, s: Sys, e: Event)
    requires DistinctNames(isAgent, nameOf) && AgentsInv(isAgent, s) && NamesInv(nameOf, s)
    requires TypedLogin(isAgent, e) && NamedLogin(nameOf, e) && e.Login? && e.m.agent && Fire(s, e) != s
    ensures NamesInv(nameOf, Fire(s, e))
  {
    InverseGains(nameOf, s.tables.agents, s.tables.agentNames, e.m.id, e.c);
    hide Inverse;
  }

  lemma {:induction false} NamesLose(isAgent: string -> bool, nameOf: string -> string, s: Sys, e: Event)
    requires DistinctNames(isAgent, nameOf) && AgentsInv(isAgent, s) && NamesInv(nameOf, s)
    requires e.ReadEnds? && Fire(s, e) != s
    ensures NamesInv(nameOf, Fire(s, e))
  {
    var s' := Fire(s, e);
    var m := Identity(s.peers[e.c]);
    assert TypedPeer(isAgent, s.peers[e.c]) && NamedPeer(nameOf, s.peers[e.c]);
    IdentitiesKept(s, e);
    RegistrationsLost(s, e.c);
    if m.agent {
      InverseLoses(nameOf, s.tables.agents, s.tables.agentNames, m.id);
    }
    hide Fire, Inverse, DistinctNames;
  }

  lemma {:induction false} RegistrationsLost(s: Sys, c: nat)
    requires c in s.peers && !s.peers[c].gone
    ensures var t := Fire(s, ReadEnds(c)).tables;
            var m := Identity(s.peers[c]);
            && t.agents == (if m.agent then s.tables.agents - {m.id} else s.tables.agents)
            && t.agentNames == (if m.agent then s.tables.agentNames - {m.name} else s.tables.agentNames)
            && t.daemons == s.tables.daemons && t.daemonAgents == s.tables.daemonAgents
  {
  }

  lemma {:induction false} NamesRun(isAgent: string -> bool, nameOf: string -> string, s: Sys, es: seq<Event>)
    requires DistinctNames(isAgent, nameOf) && AgentsInv(isAgent, s) && NamesInv(nameOf, s)
    requires TypedLogins(isAgent, es) && NamedLogins(nameOf, es)
    ensures AgentsInv(isAgent, Run(s, es)) && NamesInv(nameOf, Run(s, es))
    decreases |es|
  {
    hide Fire, AgentsInv, NamesInv, TypedLogin, NamedLogin, DistinctNames;
    if es != [] {
      AgentsStep(isAgent, s, es[0]);
      NamesStep(isAgent, nameOf, s, es[0]);
      NamesRun(isAgent, nameOf, Fire(s, es[0]), es[1..]);
    }
  }

  // With stable distinct names and no daemons, a name resolves to a connection if and only if the agent of
  // that name is registered, and then to its connection.
  lemma {:induction false} NamesResolveExactly(isAgent: string -> bool, nameOf: string -> string, es: seq<Event>, id: string)
    requires DistinctNames(isAgent, nameOf) && TypedLogins(isAgent, es) && NamedLogins(nameOf, es) && isAgent(id)
    ensures var t := Run(Start(), es).tables;
            && Resolve(t, nameOf(id)) == (if id in t.connections then Some(t.connections[id]) else None)
            && t.agentNames.Keys == set a | a in t.agents :: nameOf(a)
  {
    NamesRun(isAgent, nameOf, Start(), es);
  }

  // ---- Daemon routing ----

  // What happened to routes, in order.
  datatype Change =
    | Claim(daemon: string, conn: nat, names: set<string>)
    | Drop(daemon: string, names: set<string>)

  function Changes(s: Sys, e: Event): seq<Change> {
    match e
    case DaemonRegister(c, d, hosted) => if LoggedIn(s, c) && hosted != map[] then [Claim(d, c, hosted.Keys)] else []
    case DaemonUnregister(d) => if d in s.tables.daemons then [Drop(d, s.tables.daemons[d].agents.Keys)] else []
    case _ => []
  }

  function History(s: Sys, es: seq<Event>): seq<Change>
    decreases |es|
  {
    if es == [] then [] else Changes(s, es[0]) + History(Fire(s, es[0]), es[1..])
  }

  // Where the last change that mentions the name leaves it.
  function RouteOf(log: seq<Change>, name: string): Option<nat> {
    if log == [] then None
    else
      var last := log[|log| - 1];
      if name !in last.names then RouteOf(log[..|log| - 1], name)
      else if last.Claim? then Some(last.conn)
      else None
  }

  // The registration of the daemon that still stands.
  function Standing(log: seq<Change>, daemon: string): Option<Change> {
    if log == [] then None
    else
      var last := log[|log| - 1];
      if last.daemon != daemon then Standing(log[..|log| - 1], daemon)
      else if last.Claim? then Some(last)
      else None
  }

  lemma {:induction false} OneMoreChange(log: seq<Change>, r: Change)
    ensures forall name :: RouteOf(log + [r], name) ==
              if name !in r.names then RouteOf(log, name)
              else if r.Claim? then Some(r.conn) else None
    ensures forall d :: Standing(log + [r], d) ==
              if r.daemon != d then Standing(log, d) else if r.Claim? then Some(r) else None
  {
    assert (log + [r])[..|log|] == log;
  }

  // The tables say what the history says, and a daemon is only ever dropped with the names it stood for.
  ghost predicate RoutesInv(t: Tables<nat>, log: seq<Change>) {
    && (forall name :: (if name in t.daemonAgents then Some(t.daemonAgents[name]) else None)
                       == RouteOf(log, name))
    && (forall d :: d in t.daemons <==> Standing(log, d).Some?)
    && (forall d :: d in t.daemons ==>
          var r := Standing(log, d).value;
          r.Claim? && r.daemon == d && t.daemons[d].conn == r.conn && t.daemons[d].agents.Keys == r.names)
  }

  ghost predicate DropsMatch(log: seq<Change>) {
    forall k :: 0 <= k < |log| && log[k].Drop? ==>
      var r := Standing(log[..k], log[k].daemon); r.Some? && r.value.names == log[k].names
  }

  lemma {:induction false} RoutesStep(s: Sys, e: Event, log: seq<Change>)
    requires RoutesInv(s.tables, log) && DropsMatch(log)
    ensures RoutesInv(Fire(s, e).tables, log + Changes(s, e)) && DropsMatch(log + Changes(s, e))
  {
    if Changes(s, e) == [] {
      assert log + Changes(s, e) == log;
      NoChange(s, e);
    } else {
      var r := Changes(s, e)[0];
      RoutesMove(s, e, log, r);
      DropsStillMatch(s, log, r);
    }
  }

  lemma {:induction false} NoChange(s: Sys, e: Event)
    requires Changes(s, e) == []
    ensures Fire(s, e).tables.daemons == s.tables.daemons && Fire(s, e).tables.daemonAgents == s.tables.daemonAgents
  {
    hide Dropped, Listing;
  }

  lemma {:induction false} RoutesMove(s: Sys, e: Event, log: seq<Change>, r: Change)
    requires RoutesInv(s.tables, log) && Changes(s, e) == [r]
    ensures RoutesInv(Fire(s, e).tables, log + [r])
  {
    OneMoreChange(log, r);
    hide RouteOf, Standing;
  }

  lemma {:induction false} DropsStillMatch(s: Sys, log: seq<Change>, r: Change)
    requires RoutesInv(s.tables, log) && DropsMatch(log)
    requires r.Drop? ==> r.daemon in s.tables.daemons && r.names == s.tables.daemons[r.daemon].agents.Keys
    ensures DropsMatch(log + [r])
  {
    hide RouteOf, Standing;
    assert forall k :: 0 <= k <= |log| ==> (log + [r])[..k] == log[..k];
    assert log[..|log|] == log;
  }

  lemma {:induction false} RoutesRun(s: Sys, es: seq<Event>, log: seq<Change>)
    requires RoutesInv(s.tables, log) && DropsMatch(log)
    ensures RoutesInv(Run(s, es).tables, log + History(s, es)) && DropsMatch(log + History(s, es))
    decreases |es|
  {
    hide RoutesInv, DropsMatch, Fire, Changes;
    if es == [] {
      assert log + History(s, es) == log;
    } else {
      RoutesStep(s, es[0], log);
      RoutesRun(Fire(s, es[0]), es[1..], log + Changes(s, es[0]));
      assert log + Changes(s, es[0]) + History(Fire(s, es[0]), es[1..]) == log + History(s, es);
    }
  }

  // The last change that mentions the name.
  ghost predicate LastMention(log: seq<Change>, name: string, i: nat) {
    i < |log| && name in log[i].names && forall j :: i < j < |log| ==> name !in log[j].names
  }

  lemma {:induction false} RouteIsLastClaim(log: seq<Change>, name: string)
    ensures RouteOf(log, name).Some? <==> exists i: nat :: LastMention(log, name, i) && log[i].Claim?
    ensures forall i: nat :: LastMention(log, name, i) && log[i].Claim? ==> RouteOf(log, name) == Some(log[i].conn)
  {
    if log != [] {
      var n := |log| - 1;
      if name in log[n].names {
        assert LastMention(log, name, n);
      } else {
        RouteIsLastClaim(log[..n], name);
        forall i: nat
          ensures LastMention(log, name, i) <==> LastMention(log[..n], name, i)
        {
        }
      }
    }
  }

  // Daemon ids are never used twice.
  ghost predicate FreshDaemons(log: seq<Change>) {
    forall i, j :: 0 <= i < j < |log| && log[i].Claim? && log[j].Claim? ==> log[i].daemon != log[j].daemon
  }

  // A daemon none of whose names was dropped since it registered still stands.
  lemma {:induction false} StillStanding(log: seq<Change>, name: string, i: nat)
    requires FreshDaemons(log) && DropsMatch(log) && LastMention(log, name, i) && log[i].Claim?
    ensures Standing(log, log[i].daemon) == Some(log[i])
    decreases |log|
  {
    var n := |log| - 1;
    if i < n {
      assert forall k :: 0 <= k < n ==> log[..n][..k] == log[..k];
      StillStanding(log[..n], name, i);
    }
  }

  // With fresh daemon ids, a name is routed if and only if no claimant of the name was unregistered since
  // the last daemon claimed it; it is routed to that last daemon's connection, and that daemon is still
  // registered with the name.
  lemma {:induction false} RoutedToLastClaimant(es: seq<Event>, name: string)
    requires FreshDaemons(History(Start(), es))
    ensures var t := Run(Start(), es).tables;
            var log := History(Start(), es);
            && (name in t.daemonAgents <==> exists i: nat :: LastMention(log, name, i) && log[i].Claim?)
            && (forall i: nat :: LastMention(log, name, i) && log[i].Claim? ==>
                  var d := log[i].daemon;
                  && t.daemonAgents[name] == log[i].conn
                  && d in t.daemons && t.daemons[d].conn == log[i].conn && name in t.daemons[d].agents
                  && Resolve(t, name) == Some(log[i].conn))
  {
    hide FreshDaemons, History, Run;
    var log := History(Start(), es);
    RoutesRun(Start(), es, []);
    assert [] + log == log;
    RouteIsLastClaim(log, name);
    forall i: nat | LastMention(log, name, i) && log[i].Claim?
      ensures Standing(log, log[i].daemon) == Some(log[i])
    {
      StillStanding(log, name, i);
    }
  }

  // ---- Disconnects do not reach the daemon tables ----

  // Only daemon registration and unregistration move a route: a disconnect or a shutdown leaves every name
  // routed where it was, even to a connection that has gone.
  lemma {:induction false} RoutesSurviveDisconnects(s: Sys, e: Event, name: string)
    requires e.ReadEnds? || e.Shutdown?
    requires name in s.tables.daemonAgents
    ensures Resolve(Fire(s, e).tables, name) == Some(s.tables.daemonAgents[name])
  {
  }

  // After any daemon that claimed the name unregisters, the name resolves to nobody, whatever was
  // registered under it.
  lemma {:induction false} UnregisterSilencesNames(s: Sys, daemon: string, name: string)
    requires daemon in s.tables.daemons && name in s.tables.daemons[daemon].agents
    ensures Resolve(Fire(s, DaemonUnregister(daemon)).tables, name).None?
  {
  }
}
