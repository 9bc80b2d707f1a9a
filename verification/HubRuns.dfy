// Runs of the hub: logins, joins, leaves, removals over REST, disconnects and shutdowns, interleaved
// between the single operations on a connection and on the hub (internal/server/api/handlers_ws.go,
// handlers_channel.go, internal/server/websocket/hub.go, conn.go). Connections are numbered.
module HubRuns {
  import opened Collections
  import opened Hubs
  import Connection

  // What a connection's read loop is in the middle of: the connection's own set has been changed, the hub not yet.
  datatype Job = Idle | Joining(channel: string) | Leaving(channel: string)

  datatype Peer = Peer(member: Option<Member>, subs: set<string>, job: Job, gone: bool)

  // A member removal over REST under way: the connection it looked up, and whether it has already taken the
  // channel out of that connection's own set.
  datatype Removal = Removal(channel: string, member: string, target: Option<nat>, unsubscribed: bool)

  datatype Sys = Sys(tables: Tables<nat>, peers: map<nat, Peer>, removals: map<nat, Removal>)

  datatype Event =
    | Accept(c: nat)
    | Login(c: nat, m: Member)
    | Subscribe(c: nat, channel: string)
    | ListInHub(c: nat)
    | Unsubscribe(c: nat, channel: string)
    | UnlistInHub(c: nat)
    | RestLookup(r: nat, channel: string, member: string)
    | RestUnsubscribe(r: nat)
    | RestUnlist(r: nat)
    | ReadEnds(c: nat)
    | Shutdown
    | DaemonRegister(c: nat, daemon: string, hosted: map<string, string>)
    | DaemonUnregister(daemon: string)

  function Start(): Sys { Sys(NoTables(), map[], map[]) }

  // ---- The steps ----

  function Identity(p: Peer): Member { if p.member.Some? then p.member.value else Member("", "", false) }

  // The read loop handles one event at a time.
  predicate Ready(s: Sys, c: nat) { c in s.peers && !s.peers[c].gone && s.peers[c].job == Idle }

  predicate LoggedIn(s: Sys, c: nat) { Ready(s, c) && s.peers[c].member.Some? }

  function WithPeer(s: Sys, c: nat, p: Peer): Sys { s.(peers := s.peers[c := p]) }

  function Fire(s: Sys, e: Event): Sys {
    match e
    case Accept(c) => if c in s.peers then s else WithPeer(s, c, Peer(None, {}, Idle, false))
    case Login(c, m) =>
      if !Ready(s, c) then s
      else WithPeer(s, c, s.peers[c].(member := Some(m))).(tables := Added(s.tables, m.id, m.name, m.agent, c))
    case Subscribe(c, ch) =>
      if !LoggedIn(s, c) || |s.peers[c].subs| >= Connection.MAX_SUBSCRIPTIONS then s
      else WithPeer(s, c, s.peers[c].(subs := s.peers[c].subs + {ch}, job := Joining(ch)))
    case ListInHub(c) =>
      if c !in s.peers || !s.peers[c].job.Joining? then s
      else WithPeer(s, c, s.peers[c].(job := Idle)).(
           tables := Joined(s.tables, s.peers[c].job.channel, Identity(s.peers[c]).id, c))
    case Unsubscribe(c, ch) =>
      if !LoggedIn(s, c) then s
      else WithPeer(s, c, s.peers[c].(subs := s.peers[c].subs - {ch}, job := Leaving(ch)))
    case UnlistInHub(c) =>
      if c !in s.peers || !s.peers[c].job.Leaving? then s
      else WithPeer(s, c, s.peers[c].(job := Idle)).(
           tables := Left(s.tables, s.peers[c].job.channel, Identity(s.peers[c]).id))
    case RestLookup(r, ch, id) =>
      if r in s.removals then s
      else
        var target := if id in s.tables.connections then Some(s.tables.connections[id]) else None;
        s.(removals := s.removals[r := Removal(ch, id, target, false)])
    case RestUnsubscribe(r) =>
      if r !in s.removals || s.removals[r].unsubscribed then s
      else
        var p := s.removals[r];
        var s1 := s.(removals := s.removals[r := p.(unsubscribed := true)]);
        if p.target.Some? && p.target.value in s.peers then
          var c := p.target.value;
          WithPeer(s1, c, s.peers[c].(subs := s.peers[c].subs - {p.channel}))
        else s1
    case RestUnlist(r) =>
      if r !in s.removals || !s.removals[r].unsubscribed then s
      else s.(tables := Left(s.tables, s.removals[r].channel, s.removals[r].member), removals := s.removals - {r})
    case ReadEnds(c) =>
      if c !in s.peers || s.peers[c].gone then s
      else
        var m := Identity(s.peers[c]);
        WithPeer(s, c, s.peers[c].(gone := true, job := Idle)).(tables := Removed(s.tables, m.id, m.name, m.agent))
    case Shutdown => s.(tables := Emptied(s.tables))
    case DaemonRegister(c, d, hosted) =>
      if !LoggedIn(s, c) || hosted == map[] then s else s.(tables := DaemonAdded(s.tables, d, c, hosted))
    case DaemonUnregister(d) => s.(tables := DaemonRemoved(s.tables, d))
  }

  function Run(s: Sys, es: seq<Event>): Sys
    decreases |es|
  {
    if es == [] then s else Run(Fire(s, es[0]), es[1..])
  }

  // ---- The hypotheses ----

  predicate OneLogin(s: Sys, e: Event) {
    e.Login? ==> e.c in s.peers ==> s.peers[e.c].member.None?
  }

  // Every event of the run meets the condition in the state it finds.
  ghost predicate Along(s: Sys, es: seq<Event>, condition: (Sys, Event) -> bool)
    decreases |es|
  {
    es == [] || (condition(s, es[0]) && Along(Fire(s, es[0]), es[1..], condition))
  }

  // Every state of the run has the property.
  ghost predicate Throughout(s: Sys, es: seq<Event>, property: Sys -> bool)
    decreases |es|
  {
    property(s) && (es == [] || Throughout(Fire(s, es[0]), es[1..], property))
  }

  predicate About(p: Removal, ch: string, id: string) { p.channel == ch && p.member == id }

  // The hub's half of a removal is still to come.
  predicate Pending(s: Sys, ch: string, id: string) {
    exists r :: r in s.removals && About(s.removals[r], ch, id) && s.removals[r].unsubscribed
  }

  // ---- Listed connections are subscribed ----

  predicate PeerOk(p: Peer) {
    && |p.subs| <= Connection.MAX_SUBSCRIPTIONS
    && (p.member.None? ==> p.subs == {} && p.job == Idle)
    && (p.job.Leaving? ==> p.job.channel !in p.subs)
    && (p.gone ==> p.job == Idle)
  }

  predicate Is(s: Sys, c: nat, id: string) {
    c in s.peers && s.peers[c].member.Some? && s.peers[c].member.value.id == id
  }

  // Listed with cause: the channel is in the connection's own set, or its unlisting is under way.
  predicate Justified(s: Sys, ch: string, id: string, c: nat) {
    && Is(s, c, id)
    && (ch in s.peers[c].subs || s.peers[c].job == Leaving(ch) || Pending(s, ch, id))
  }

  ghost predicate PeersInv(s: Sys) {
    && (forall c :: c in s.peers ==> PeerOk(s.peers[c]))
    && (forall id :: id in s.tables.connections ==> Is(s, s.tables.connections[id], id))
    && (forall r :: r in s.removals ==> TargetOk(s, s.removals[r]))
  }

  // A removal works on a connection of the member it removes.
  predicate TargetOk(s: Sys, p: Removal) { p.target.Some? ==> Is(s, p.target.value, p.member) }

  // Every entry of every channel table is under the member id of its connection; no table is empty.
  ghost predicate Keyed(s: Sys) {
    && NoEmptyTable(s.tables.channels)
    && (forall ch, id, c :: Listed(s.tables.channels, ch, id, c) ==> Is(s, c, id))
  }

  ghost predicate Backed(s: Sys) {
    forall ch, id, c :: Listed(s.tables.channels, ch, id, c) ==> Justified(s, ch, id, c)
  }

  lemma {:induction false} PeersStep(s: Sys, e: Event)
    requires PeersInv(s) && OneLogin(s, e)
    ensures PeersInv(Fire(s, e))
  {
    hide PeerOk, TargetOk, Fire;
    var s' := Fire(s, e);
    forall c | c in s'.peers
      ensures PeerOk(s'.peers[c])
    {
      PeerStep(s, e, c);
    }
    forall id | id in s'.tables.connections
      ensures Is(s', s'.tables.connections[id], id)
    {
      ConnectionKeyed(s, e, id);
    }
    forall r | r in s'.removals
      ensures TargetOk(s', s'.removals[r])
    {
      TargetKept(s, e, r);
    }
  }

  predicate Present(s: Sys, c: nat) { c in s.peers && !s.peers[c].gone }

  // Only logins register a connection, and a disconnect takes its member out.
  lemma {:induction false} RegisteredBefore(s: Sys, e: Event, id: string)
    requires id in Fire(s, e).tables.connections
    ensures var c := Fire(s, e).tables.connections[id];
            || (&& id in s.tables.connections && s.tables.connections[id] == c
                && !(e.ReadEnds? && Present(s, e.c) && id == Identity(s.peers[e.c]).id))
            || (e.Login? && e.c == c && Present(s, c) && Is(Fire(s, e), c, id))
  {
    hide Dropped, Listing;
  }

  lemma {:induction false} ConnectionKeyed(s: Sys, e: Event, id: string)
    requires PeersInv(s) && OneLogin(s, e) && id in Fire(s, e).tables.connections
    ensures Is(Fire(s, e), Fire(s, e).tables.connections[id], id)
  {
    hide PeerOk, TargetOk, Fire;
    RegisteredBefore(s, e, id);
    IdentitiesStay(s, e);
    assert id in s.tables.connections ==> Is(s, s.tables.connections[id], id);
  }

  // A removal comes from its lookup, and changes only by taking the channel out.
  lemma {:induction false} RemovalBefore(s: Sys, e: Event, r: nat)
    requires r in Fire(s, e).removals
    ensures var p := Fire(s, e).removals[r];
            || (r in s.removals && p == s.removals[r])
            || (&& e.RestUnsubscribe? && e.r == r && r in s.removals && !s.removals[r].unsubscribed
                && p == s.removals[r].(unsubscribed := true))
            || (&& e.RestLookup? && p.channel == e.channel && p.member == e.member && !p.unsubscribed
                && p.target == if p.member in s.tables.connections then Some(s.tables.connections[p.member]) else None)
  {
  }

  lemma {:induction false} TargetKept(s: Sys, e: Event, r: nat)
    requires PeersInv(s) && OneLogin(s, e) && r in Fire(s, e).removals
    ensures TargetOk(Fire(s, e), Fire(s, e).removals[r])
  {
    hide PeerOk, Fire;
    RemovalBefore(s, e, r);
    IdentitiesStay(s, e);
    var p := Fire(s, e).removals[r];
    assert r in s.removals ==> TargetOk(s, s.removals[r]);
    assert p.member in s.tables.connections ==> Is(s, s.tables.connections[p.member], p.member);
  }

  lemma {:induction false} PeerStep(s: Sys, e: Event, c: nat)
    requires PeersInv(s) && OneLogin(s, e) && c in Fire(s, e).peers
    ensures PeerOk(Fire(s, e).peers[c])
  {
  }

  lemma {:induction false} KeyedStep(s: Sys, e: Event)
    requires PeersInv(s) && Keyed(s) && OneLogin(s, e)
    ensures Keyed(Fire(s, e))
  {
    var s' := Fire(s, e);
    if s' != s {
      match e
      case ListInHub(c) => JoinedLists(s.tables, s.peers[c].job.channel, Identity(s.peers[c]).id, c);
      case UnlistInHub(c) => LeftLists(s.tables, s.peers[c].job.channel, Identity(s.peers[c]).id);
      case RestUnlist(r) => LeftLists(s.tables, s.removals[r].channel, s.removals[r].member);
      case ReadEnds(c) => DroppedLists(s.tables.channels, Identity(s.peers[c]).id);
      case _ => assert s'.tables.channels == s.tables.channels || s'.tables.channels == map[];
    }
    IdentitiesStay(s, e);
    hide Fire, Listed, NoEmptyTable, Joined, Left, Dropped;
  }

  lemma {:induction false} IdentitiesStay(s: Sys, e: Event)
    requires OneLogin(s, e)
    ensures forall c, id :: Is(s, c, id) ==> Is(Fire(s, e), c, id)
  {
  }

  // A join goes on to the hub only while the channel is still in the connection's own set, or a removal that
  // will take the entry out again is under way.
  predicate SoundListing(s: Sys, e: Event) {
    e.ListInHub? && e.c in s.peers && s.peers[e.c].job.Joining? ==>
      var p := s.peers[e.c];
      p.job.channel in p.subs || Pending(s, p.job.channel, Identity(p).id)
  }

  lemma {:induction false} ListStep(s: Sys, e: Event)
    requires PeersInv(s) && Backed(s) && OneLogin(s, e) && SoundListing(s, e)
    ensures Backed(Fire(s, e))
  {
    hide PeersInv, Backed, Fire, OneLogin, SoundListing;
    match e
    case ListInHub(_) => ListAdds(s, e);
    case UnlistInHub(_) => ListRemoves(s, e);
    case ReadEnds(_) => ListDrops(s, e);
    case RestLookup(_, _, _) => ListUnderRest(s, e);
    case RestUnsubscribe(_) => ListUnderRest(s, e);
    case RestUnlist(_) => ListUnderRest(s, e);
    case Shutdown => ListQuiet(s, e);
    case DaemonRegister(_, _, _) => ListQuiet(s, e);
    case DaemonUnregister(_) => ListQuiet(s, e);
    case _ => ListPeerMoves(s, e);
  }

  // The channel tables stay as they are; one connection changes.
  lemma {:induction false} ListPeerMoves(s: Sys, e: Event)
    requires PeersInv(s) && Backed(s) && OneLogin(s, e)
    requires e.Accept? || e.Login? || e.Subscribe? || e.Unsubscribe?
    ensures Backed(Fire(s, e))
  {
    hide Listed, NoEmptyTable;
    var s' := Fire(s, e);
    assert s'.tables.channels == s.tables.channels && s'.removals == s.removals;
    forall ch, id, c | Listed(s.tables.channels, ch, id, c)
      ensures Justified(s', ch, id, c)
    {
      assert Justified(s, ch, id, c);
      assert Pending(s, ch, id) <==> Pending(s', ch, id);
    }
  }

  lemma {:induction false} ListQuiet(s: Sys, e: Event)
    requires Backed(s) && (e.Shutdown? || e.DaemonRegister? || e.DaemonUnregister?)
    ensures Backed(Fire(s, e))
  {
    var s' := Fire(s, e);
    assert s'.tables.channels == s.tables.channels || s'.tables.channels == map[];
    assert s'.peers == s.peers && s'.removals == s.removals;
    forall ch, id, c | Justified(s, ch, id, c)
      ensures Justified(s', ch, id, c)
    {
      assert Pending(s, ch, id) <==> Pending(s', ch, id);
    }
  }

  // The channel being joined is in the connection's set.
  lemma {:induction false} ListAdds(s: Sys, e: Event)
    requires PeersInv(s) && Backed(s) && e.ListInHub? && SoundListing(s, e)
    ensures Backed(Fire(s, e))
  {
    var s' := Fire(s, e);
    if s' != s {
      var joined, member := s.peers[e.c].job.channel, Identity(s.peers[e.c]).id;
      JoinedLists(s.tables, joined, member, e.c);
      hide Listed, NoEmptyTable, Joined;
      forall ch, id, c | Listed(s'.tables.channels, ch, id, c)
        ensures Justified(s', ch, id, c)
      {
        assert Pending(s, ch, id) <==> Pending(s', ch, id);
        if ch != joined || id != member {
          assert Justified(s, ch, id, c);
        }
      }
    }
  }

  // The connection that leaves has nothing listed for the channel any more.
  lemma {:induction false} ListRemoves(s: Sys, e: Event)
    requires Backed(s) && e.UnlistInHub?
    ensures Backed(Fire(s, e))
  {
    var s' := Fire(s, e);
    if s' != s {
      LeftLists(s.tables, s.peers[e.c].job.channel, Identity(s.peers[e.c]).id);
      hide Listed, NoEmptyTable, Left;
      forall ch, id, c | Listed(s'.tables.channels, ch, id, c)
        ensures Justified(s', ch, id, c)
      {
        assert Justified(s, ch, id, c);
        assert Pending(s, ch, id) <==> Pending(s', ch, id);
      }
    }
  }

  lemma {:induction false} ListDrops(s: Sys, e: Event)
    requires PeersInv(s) && Backed(s) && e.ReadEnds?
    ensures Backed(Fire(s, e))
  {
    var s' := Fire(s, e);
    if s' != s {
      DroppedLists(s.tables.channels, Identity(s.peers[e.c]).id);
      hide Listed, NoEmptyTable, Dropped;
      forall ch, id, c | Listed(s'.tables.channels, ch, id, c)
        ensures Justified(s', ch, id, c)
      {
        assert Justified(s, ch, id, c);
        assert Pending(s, ch, id) <==> Pending(s', ch, id);
      }
    }
  }

  lemma {:induction false} ListUnderRest(s: Sys, e: Event)
    requires PeersInv(s) && Backed(s) && (e.RestLookup? || e.RestUnsubscribe? || e.RestUnlist?)
    ensures Backed(Fire(s, e))
  {
    var s' := Fire(s, e);
    if s' != s {
      if e.RestUnlist? {
        LeftLists(s.tables, s.removals[e.r].channel, s.removals[e.r].member);
      }
      hide Listed, NoEmptyTable, Left;
      forall ch, id, c | Listed(s'.tables.channels, ch, id, c)
        ensures Justified(s', ch, id, c)
      {
        JustifiedUnderRest(s, e, ch, id, c);
      }
    }
  }

  lemma {:induction false} JustifiedUnderRest(s: Sys, e: Event, ch: string, id: string, c: nat)
    requires PeersInv(s) && (e.RestLookup? || e.RestUnsubscribe? || e.RestUnlist?) && Fire(s, e) != s
    requires Justified(s, ch, id, c)
    requires e.RestUnlist? ==> !About(s.removals[e.r], ch, id)
    ensures Justified(Fire(s, e), ch, id, c)
  {
    hide Left, PeerOk;
    var s' := Fire(s, e);
    if Pending(s, ch, id) {
      var r :| r in s.removals && About(s.removals[r], ch, id) && s.removals[r].unsubscribed;
      assert r in s'.removals && About(s'.removals[r], ch, id) && s'.removals[r].unsubscribed;
    } else if e.RestUnsubscribe? {
      assert TargetOk(s, s.removals[e.r]);
      if About(s.removals[e.r], ch, id) {
        assert e.r in s'.removals && About(s'.removals[e.r], ch, id) && s'.removals[e.r].unsubscribed;
      }
    }
  }

  // A join that goes on regardless leaves an entry with no cause.
  lemma {:induction false} UnsoundListing(s: Sys, e: Event)
    requires PeersInv(s) && !SoundListing(s, e)
    ensures !Backed(Fire(s, e))
  {
    var p := s.peers[e.c];
    var ch, id := p.job.channel, Identity(p).id;
    var s' := Fire(s, e);
    JoinedLists(s.tables, ch, id, e.c);
    assert Listed(s'.tables.channels, ch, id, e.c);
    assert Pending(s', ch, id) <==> Pending(s, ch, id);
    assert !Justified(s', ch, id, e.c);
  }

  // At every point of a run with one login per connection, every listed connection has the channel in its
  // own set or its unlisting under way, if and only if no join goes on to the hub after losing the channel.
  lemma {:induction false} BackedExactly(s: Sys, es: seq<Event>)
    requires PeersInv(s) && Backed(s) && Along(s, es, OneLogin)
    ensures Throughout(s, es, Backed) <==> Along(s, es, SoundListing)
    decreases |es|
  {
    hide PeersInv, Backed, Fire, OneLogin, SoundListing;
    if es != [] {
      PeersStep(s, es[0]);
      if SoundListing(s, es[0]) {
        ListStep(s, es[0]);
        BackedExactly(Fire(s, es[0]), es[1..]);
      } else {
        UnsoundListing(s, es[0]);
        ThroughoutNow(Fire(s, es[0]), es[1..], Backed);
      }
    }
  }

  lemma {:induction false} ThroughoutNow(s: Sys, es: seq<Event>, property: Sys -> bool)
    ensures Throughout(s, es, property) ==> property(s)
  {
  }

  lemma {:induction false} ThroughoutEnd(s: Sys, es: seq<Event>, property: Sys -> bool)
    requires Throughout(s, es, property)
    ensures property(Run(s, es))
    decreases |es|
  {
    hide Fire;
    if es != [] {
      ThroughoutEnd(Fire(s, es[0]), es[1..], property);
    }
  }

  lemma {:induction false} KeyedRun(s: Sys, es: seq<Event>)
    requires PeersInv(s) && Keyed(s) && Along(s, es, OneLogin)
    ensures PeersInv(Run(s, es)) && Keyed(Run(s, es))
    decreases |es|
  {
    hide PeersInv, Keyed, Fire, OneLogin;
    if es != [] {
      PeersStep(s, es[0]);
      KeyedStep(s, es[0]);
      KeyedRun(Fire(s, es[0]), es[1..]);
    }
  }

  // Nothing is half done for this channel and member.
  ghost predicate Settled(s: Sys, ch: string, id: string) {
    && !Pending(s, ch, id)
    && forall c :: Is(s, c, id) ==> s.peers[c].job != Joining(ch) && s.peers[c].job != Leaving(ch)
  }

  // Over every run with one login per connection: a connection listed under a channel is listed under its own
  // member id, its own set holds at most 200 channels, and no channel has an empty table; and if no join goes
  // on after losing the channel, its own set holds that channel once nothing is half done.
  lemma {:induction false} ListedIsSubscribed(es: seq<Event>, ch: string, id: string, c: nat)
    requires Along(Start(), es, OneLogin)
    ensures var s := Run(Start(), es);
            && NoEmptyTable(s.tables.channels)
            && (Listed(s.tables.channels, ch, id, c) ==>
                  && Is(s, c, id) && |s.peers[c].subs| <= 200
                  && (Along(Start(), es, SoundListing) ==>
                        && (ch in s.peers[c].subs || s.peers[c].job == Leaving(ch) || Pending(s, ch, id))
                        && (Settled(s, ch, id) ==> ch in s.peers[c].subs)))
  {
    StartOk();
    hide Run, Along, NoEmptyTable;
    KeyedRun(Start(), es);
    BackedExactly(Start(), es);
    if Along(Start(), es, SoundListing) {
      ThroughoutEnd(Start(), es, Backed);
    }
  }

  lemma {:induction false} StartOk()
    ensures PeersInv(Start()) && Keyed(Start()) && Backed(Start()) && SoleInv(Start()) && Live(Start())
  {
  }

  // No registered or listed connection has gone.
  ghost predicate Live(s: Sys) {
    && (forall id :: id in s.tables.connections ==> Present(s, s.tables.connections[id]))
    && (forall ch, id, c :: Listed(s.tables.channels, ch, id, c) ==> Present(s, c))
  }

  lemma {:induction false} PresenceStays(s: Sys, e: Event, c: nat)
    requires Present(s, c) && !(e.ReadEnds? && e.c == c)
    ensures Present(Fire(s, e), c)
  {
  }

  // Only the second half of a join lists a connection, and a disconnect takes its member out.
  lemma {:induction false} ListedBefore(s: Sys, e: Event, ch: string, id: string, c: nat)
    requires Listed(Fire(s, e).tables.channels, ch, id, c)
    ensures || (Listed(s.tables.channels, ch, id, c) && !(e.ReadEnds? && Present(s, e.c) && id == Identity(s.peers[e.c]).id))
            || (e.ListInHub? && e.c == c && c in s.peers && s.peers[c].job.Joining?)
  {
    var s' := Fire(s, e);
    if s' != s {
      match e
      case ListInHub(d) => JoinedLists(s.tables, s.peers[d].job.channel, Identity(s.peers[d]).id, d);
      case UnlistInHub(d) => LeftLists(s.tables, s.peers[d].job.channel, Identity(s.peers[d]).id);
      case RestUnlist(r) => LeftLists(s.tables, s.removals[r].channel, s.removals[r].member);
      case ReadEnds(d) => DroppedLists(s.tables.channels, Identity(s.peers[d]).id);
      case _ => assert s'.tables.channels == s.tables.channels || s'.tables.channels == map[];
    }
    hide Listed, NoEmptyTable, Joined, Left, Dropped;
  }

  lemma {:induction false} LiveStep(s: Sys, e: Event)
    requires PeersInv(s) && Keyed(s) && Live(s) && OneLogin(s, e)
    ensures Live(Fire(s, e))
  {
    hide Fire, Listed, NoEmptyTable, OneLogin;
    var s' := Fire(s, e);
    forall id | id in s'.tables.connections
      ensures Present(s', s'.tables.connections[id])
    {
      RegisteredBefore(s, e, id);
      assert id in s.tables.connections ==> Is(s, s.tables.connections[id], id);
      PresenceStays(s, e, s'.tables.connections[id]);
    }
    forall ch, id, c | Listed(s'.tables.channels, ch, id, c)
      ensures Present(s', c)
    {
      ListedBefore(s, e, ch, id, c);
      assert Listed(s.tables.channels, ch, id, c) ==> Is(s, c, id);
      assert c in s.peers ==> PeerOk(s.peers[c]);
      PresenceStays(s, e, c);
    }
  }

  lemma {:induction false} LiveRun(s: Sys, es: seq<Event>)
    requires PeersInv(s) && Keyed(s) && Live(s) && Along(s, es, OneLogin)
    ensures Live(Run(s, es))
    decreases |es|
  {
    hide PeersInv, Keyed, Live, Fire, OneLogin;
    if es != [] {
      PeersStep(s, es[0]);
      KeyedStep(s, es[0]);
      LiveStep(s, es[0]);
      LiveRun(Fire(s, es[0]), es[1..]);
    }
  }

  // A broadcast never reaches a connection whose read loop has ended, and no member is registered with one.
  lemma {:induction false} ReachedAreLive(es: seq<Event>, ch: string, id: string, c: nat)
    requires Along(Start(), es, OneLogin)
    ensures var s := Run(Start(), es);
            && (Listed(s.tables.channels, ch, id, c) ==> c in s.peers && !s.peers[c].gone)
            && (id in s.tables.connections && s.tables.connections[id] == c ==> c in s.peers && !s.peers[c].gone)
  {
    StartOk();
    hide Run, Along;
    LiveRun(Start(), es);
  }

  // So a broadcast reaches every listed connection exactly once.
  lemma {:induction false} ReachedOnce(es: seq<Event>, ch: string, id: string)
    requires Along(Start(), es, OneLogin)
    requires var channels := Run(Start(), es).tables.channels; ch in channels && id in channels[ch]
    ensures var table := Run(Start(), es).tables.channels[ch]; Listings(table, table[id]) == 1
  {
    var s := Run(Start(), es);
    var table := s.tables.channels[ch];
    forall k | k in table && table[k] == table[id]
      ensures k == id
    {
      ListedIsSubscribed(es, ch, k, table[id]);
      ListedIsSubscribed(es, ch, id, table[id]);
    }
    ListedOnce(table, id);
  }

  // ---- Members with one connection: both sides agree ----

  // The only connection ever to log in as this member, and still registered.
  ghost predicate Sole(s: Sys, c: nat, id: string) {
    && Is(s, c, id)
    && (forall d :: Is(s, d, id) ==> d == c)
    && id in s.tables.connections && s.tables.connections[id] == c
  }

  // What is in its own set is listed, or about to be.
  ghost predicate BothSides(s: Sys, c: nat, id: string)
    requires c in s.peers
  {
    forall ch :: ch in s.peers[c].subs ==> Listed(s.tables.channels, ch, id, c) || s.peers[c].job == Joining(ch)
  }

  ghost predicate SoleInv(s: Sys) {
    forall c, id :: Sole(s, c, id) ==> BothSides(s, c, id)
  }

  // A removal goes on to the hub only while the channel is still out of the connection's own set, or a join
  // that will list it again is under way.
  ghost predicate SoundUnlisting(s: Sys, e: Event) {
    e.RestUnlist? && e.r in s.removals && s.removals[e.r].unsubscribed ==>
      forall c :: Sole(s, c, s.removals[e.r].member) && s.removals[e.r].channel in s.peers[c].subs
                  ==> s.peers[c].job == Joining(s.removals[e.r].channel)
  }

  // A sole connection was sole before, unless it has just logged in.
  lemma {:induction false} WasSole(s: Sys, e: Event, c: nat, id: string)
    requires PeersInv(s) && OneLogin(s, e) && Sole(Fire(s, e), c, id)
    ensures Sole(s, c, id) || (e.Login? && e.c == c && Ready(s, c) && s.peers[c].member.None?)
  {
    var s' := Fire(s, e);
    forall d | Is(s, d, id)
      ensures d == c
    {
      assert Is(s', d, id);
    }
  }

  lemma {:induction false} SoleStep(s: Sys, e: Event)
    requires PeersInv(s) && SoleInv(s) && OneLogin(s, e) && SoundUnlisting(s, e)
    ensures SoleInv(Fire(s, e))
  {
    forall c, id | Sole(Fire(s, e), c, id)
      ensures BothSides(Fire(s, e), c, id)
    {
      WasSole(s, e, c, id);
      if Sole(s, c, id) {
        SoleKeeps(s, e, c, id);
      }
    }
  }

  lemma {:induction false} SoleKeeps(s: Sys, e: Event, c: nat, id: string)
    requires PeersInv(s) && OneLogin(s, e) && SoundUnlisting(s, e)
    requires Sole(s, c, id) && BothSides(s, c, id) && Sole(Fire(s, e), c, id)
    ensures BothSides(Fire(s, e), c, id)
  {
    if Fire(s, e) != s {
      match e
      case ListInHub(d) => SoleList(s, d, c, id);
      case UnlistInHub(d) => SoleUnlist(s, d, c, id);
      case RestUnlist(_) => SoleUnderRest(s, e, c, id);
      case RestUnsubscribe(_) => SoleUnderRest(s, e, c, id);
      case ReadEnds(d) => SoleDrops(s, d, c, id);
      case _ => SoleOtherwise(s, e, c, id);
    }
  }

  // Only one connection changes, or nothing that matters.
  lemma {:induction false} SoleOtherwise(s: Sys, e: Event, c: nat, id: string)
    requires PeersInv(s) && OneLogin(s, e)
    requires !e.ListInHub? && !e.UnlistInHub? && !e.RestUnlist? && !e.RestUnsubscribe? && !e.ReadEnds?
    requires Sole(s, c, id) && BothSides(s, c, id) && Sole(Fire(s, e), c, id)
    ensures BothSides(Fire(s, e), c, id)
  {
    hide Listed, PeerOk;
    var s' := Fire(s, e);
    assert e.Shutdown? || s'.tables.channels == s.tables.channels;
  }

  lemma {:induction false} SoleUnderRest(s: Sys, e: Event, c: nat, id: string)
    requires Sole(s, c, id) && BothSides(s, c, id) && (e.RestUnlist? || e.RestUnsubscribe?) && SoundUnlisting(s, e)
    ensures BothSides(Fire(s, e), c, id)
  {
    if e.RestUnlist? && e.r in s.removals {
      LeftLists(s.tables, s.removals[e.r].channel, s.removals[e.r].member);
    }
    hide Listed, Left, PeersInv;
  }

  lemma {:induction false} SoleDrops(s: Sys, d: nat, c: nat, id: string)
    requires Sole(s, c, id) && BothSides(s, c, id) && Sole(Fire(s, ReadEnds(d)), c, id)
    ensures BothSides(Fire(s, ReadEnds(d)), c, id)
  {
    if d in s.peers && !s.peers[d].gone {
      DroppedLists(s.tables.channels, Identity(s.peers[d]).id);
    }
    hide Listed, Dropped;
  }

  lemma {:induction false} SoleList(s: Sys, d: nat, c: nat, id: string)
    requires PeersInv(s) && Sole(s, c, id) && BothSides(s, c, id)
    requires d in s.peers && s.peers[d].job.Joining?
    ensures BothSides(Fire(s, ListInHub(d)), c, id)
  {
    var s' := Fire(s, ListInHub(d));
    var joined, member := s.peers[d].job.channel, Identity(s.peers[d]).id;
    JoinedLists(s.tables, joined, member, d);
    hide Listed, Joined;
    assert PeerOk(s.peers[d]);
    assert Is(s, d, member);
    forall ch | ch in s'.peers[c].subs
      ensures Listed(s'.tables.channels, ch, id, c) || s'.peers[c].job == Joining(ch)
    {
      assert ch == joined && id == member ==> d == c;
    }
  }

  // Either the connection itself left the channel, or someone else did.
  lemma {:induction false} SoleUnlist(s: Sys, d: nat, c: nat, id: string)
    requires PeersInv(s) && Sole(s, c, id) && BothSides(s, c, id)
    requires d in s.peers && s.peers[d].job.Leaving?
    ensures BothSides(Fire(s, UnlistInHub(d)), c, id)
  {
    var s' := Fire(s, UnlistInHub(d));
    var left, member := s.peers[d].job.channel, Identity(s.peers[d]).id;
    LeftLists(s.tables, left, member);
    hide Listed, Left;
    assert PeerOk(s.peers[d]);
    assert Is(s, d, member);
    forall ch | ch in s'.peers[c].subs
      ensures Listed(s'.tables.channels, ch, id, c) || s'.peers[c].job == Joining(ch)
    {
      assert !(ch == left && id == member);
    }
  }

  lemma {:induction false} UnsoundUnlisting(s: Sys, e: Event)
    requires !SoundUnlisting(s, e)
    ensures !SoleInv(Fire(s, e))
  {
    var ch, id := s.removals[e.r].channel, s.removals[e.r].member;
    var c :| Sole(s, c, id) && ch in s.peers[c].subs && s.peers[c].job != Joining(ch);
    var s' := Fire(s, e);
    LeftLists(s.tables, ch, id);
    hide Left;
    assert s'.peers == s.peers && s'.tables.connections == s.tables.connections;
    assert forall d :: Is(s', d, id) ==> Is(s, d, id);
    assert Sole(s', c, id);
    assert !Listed(s'.tables.channels, ch, id, c);
    assert !BothSides(s', c, id);
  }

  // At every point of a run with one login per connection, every registered sole connection is listed under
  // every channel of its own set, or about to be, if and only if no removal goes on to the hub after the
  // channel came back.
  lemma {:induction false} BothSidesExactly(s: Sys, es: seq<Event>)
    requires PeersInv(s) && SoleInv(s) && Along(s, es, OneLogin)
    ensures Throughout(s, es, SoleInv) <==> Along(s, es, SoundUnlisting)
    decreases |es|
  {
    hide PeersInv, SoleInv, Fire, OneLogin, SoundUnlisting;
    if es != [] {
      PeersStep(s, es[0]);
      if SoundUnlisting(s, es[0]) {
        SoleStep(s, es[0]);
        BothSidesExactly(Fire(s, es[0]), es[1..]);
      } else {
        UnsoundUnlisting(s, es[0]);
        ThroughoutNow(Fire(s, es[0]), es[1..], SoleInv);
      }
    }
  }

  // For a registered member that only ever had one connection, a channel with nothing half done is in the
  // connection's own set if and only if the hub lists the member under it.
  lemma {:induction false} BothSidesAgree(es: seq<Event>, c: nat, id: string, ch: string)
    requires Along(Start(), es, OneLogin) && Along(Start(), es, SoundListing) && Along(Start(), es, SoundUnlisting)
    requires Sole(Run(Start(), es), c, id) && Settled(Run(Start(), es), ch, id)
    ensures var s := Run(Start(), es);
            ch in s.peers[c].subs <==> ch in s.tables.channels && id in s.tables.channels[ch]
  {
    StartOk();
    BothSidesExactly(Start(), es);
    ThroughoutEnd(Start(), es, SoleInv);
    var s := Run(Start(), es);
    assert BothSides(s, c, id);
    forall d | Listed(s.tables.channels, ch, id, d)
      ensures d == c && ch in s.peers[c].subs
    {
      ListedIsSubscribed(es, ch, id, d);
    }
    if ch in s.tables.channels && id in s.tables.channels[ch] {
      assert Listed(s.tables.channels, ch, id, s.tables.channels[ch][id]);
    }
  }

  // ---- Removals that do not overlap joins ----

  // A removal does not strike between the two halves of a join of that channel by that member, and a join
  // does not start while such a removal is under way.
  predicate Apart(s: Sys, e: Event) {
    && (e.RestUnsubscribe? && e.r in s.removals ==>
          forall c :: c in s.peers ==> !(s.peers[c].job == Joining(s.removals[e.r].channel)
                                         && Identity(s.peers[c]).id == s.removals[e.r].member))
    && (e.Subscribe? && e.c in s.peers ==>
          forall r :: r in s.removals ==> !About(s.removals[r], e.channel, Identity(s.peers[e.c]).id))
  }

  predicate JoinIntact(p: Peer) { p.job.Joining? ==> p.job.channel in p.subs }

  // A removal of a member with one connection works on that connection, or there is nothing to take out;
  // and once it has done so the channel is out.
  predicate TookEffect(s: Sys, p: Removal, c: nat)
    requires c in s.peers
  {
    && (p.target == Some(c) || p.channel !in s.peers[c].subs)
    && (p.unsubscribed ==> p.channel !in s.peers[c].subs)
  }

  ghost predicate ApartInv(s: Sys) {
    && (forall c :: c in s.peers ==> JoinIntact(s.peers[c]))
    && (forall c, r :: r in s.removals && Sole(s, c, s.removals[r].member) ==> TookEffect(s, s.removals[r], c))
  }

  lemma {:induction false} ApartStep(s: Sys, e: Event)
    requires PeersInv(s) && ApartInv(s) && OneLogin(s, e) && Apart(s, e)
    ensures ApartInv(Fire(s, e))
  {
    var s' := Fire(s, e);
    JoinsStayIntact(s, e);
    forall c, r | r in s'.removals && Sole(s', c, s'.removals[r].member)
      ensures TookEffect(s', s'.removals[r], c)
    {
      WasSole(s, e, c, s'.removals[r].member);
      RemovalTookEffect(s, e, c, r);
    }
  }

  lemma {:induction false} JoinsStayIntact(s: Sys, e: Event)
    requires PeersInv(s) && ApartInv(s) && Apart(s, e)
    ensures forall c :: c in Fire(s, e).peers ==> JoinIntact(Fire(s, e).peers[c])
  {
  }

  // The own set grows only by a join.
  lemma {:induction false} SubsChange(s: Sys, e: Event, c: nat)
    requires PeersInv(s) && c in s.peers
    ensures var subs := Fire(s, e).peers[c].subs;
            || subs <= s.peers[c].subs
            || (e.Subscribe? && e.c == c && subs == s.peers[c].subs + {e.channel})
    ensures s.peers[c].member.None? ==> Fire(s, e).peers[c].subs == {}
  {
    assert PeerOk(s.peers[c]);
    hide PeerOk, Dropped, Left, Joined;
  }

  lemma {:induction false} TakenOut(s: Sys, e: Event, c: nat)
    ensures e.RestUnsubscribe? && e.r in s.removals && !s.removals[e.r].unsubscribed
            && s.removals[e.r].target == Some(c) && c in s.peers
            ==> s.removals[e.r].channel !in Fire(s, e).peers[c].subs
  {
  }

  lemma {:induction false} RemovalTookEffect(s: Sys, e: Event, c: nat, r: nat)
    requires PeersInv(s) && ApartInv(s) && OneLogin(s, e) && Apart(s, e)
    requires r in Fire(s, e).removals && Sole(Fire(s, e), c, Fire(s, e).removals[r].member)
    requires var id := Fire(s, e).removals[r].member;
             Sole(s, c, id) || (e.Login? && e.c == c && Ready(s, c) && s.peers[c].member.None?)
    ensures TookEffect(Fire(s, e), Fire(s, e).removals[r], c)
  {
    RemovalBefore(s, e, r);
    SubsChange(s, e, c);
    TakenOut(s, e, c);
    hide Fire;
    if r in s.removals && Sole(s, c, s.removals[r].member) {
      assert TookEffect(s, s.removals[r], c);
    }
  }

  // Then both sides are sound.
  lemma {:induction false} ApartIsSound(s: Sys, es: seq<Event>)
    requires PeersInv(s) && ApartInv(s) && Along(s, es, OneLogin) && Along(s, es, Apart)
    ensures Along(s, es, SoundListing) && Along(s, es, SoundUnlisting)
    decreases |es|
  {
    if es != [] {
      assert SoundListing(s, es[0]) && SoundUnlisting(s, es[0]);
      PeersStep(s, es[0]);
      ApartStep(s, es[0]);
      ApartIsSound(Fire(s, es[0]), es[1..]);
    }
    hide PeersInv, ApartInv, Fire, OneLogin, Apart, SoundListing, SoundUnlisting;
  }

  // ---- Where the hypotheses are needed ----

  const ANN := Member("ann", "Ann", false)
  const BOB := Member("bob", "Bob", false)

  lemma {:induction false} Run3(s: Sys, es: seq<Event>)
    requires |es| >= 3
    ensures Run(s, es) == Run(Fire(Fire(Fire(s, es[0]), es[1]), es[2]), es[3..])
  {
    hide Fire;
    var s1 := Fire(s, es[0]);
    var s2 := Fire(s1, es[1]);
    assert es[1..][1..] == es[2..] && es[2..][1..] == es[3..];
    assert Run(s1, es[1..]) == Run(s2, es[2..]);
    assert Run(s2, es[2..]) == Run(Fire(s2, es[2]), es[3..]);
  }

  lemma {:induction false} Run6(s: Sys, es: seq<Event>)
    requires |es| == 6
    ensures Run(s, es) == Fire(Fire(Fire(Fire(Fire(Fire(s, es[0]), es[1]), es[2]), es[3]), es[4]), es[5])
  {
    hide Fire;
    Run3(s, es);
    var s3 := Fire(Fire(Fire(s, es[0]), es[1]), es[2]);
    Run3(s3, es[3..]);
    assert es[3..][3..] == [];
  }

  // Connection 0 after ann logged in on it.
  function AnnOn(subs: set<string>, job: Job): Sys {
    Sys(NoTables<nat>().(connections := map["ann" := 0], presence := map["ann" := "online"]),
        map[0 := Peer(Some(ANN), subs, job, false)], map[])
  }

  lemma {:induction false} AnnLogsIn()
    ensures Fire(Fire(Start(), Accept(0)), Login(0, ANN)) == AnnOn({}, Idle)
  {
    var s1 := Fire(Start(), Accept(0));
    assert s1.peers == map[0 := Peer(None, {}, Idle, false)];
  }

  lemma {:induction false} AnnJoins()
    ensures Fire(AnnOn({}, Idle), Subscribe(0, "c")) == AnnOn({"c"}, Joining("c"))
  {
  }

  lemma {:induction false} Run7(s: Sys, es: seq<Event>)
    requires |es| == 7
    ensures Run(s, es) == Fire(Fire(Fire(Fire(Fire(Fire(Fire(s, es[0]), es[1]), es[2]), es[3]), es[4]), es[5]), es[6])
  {
    hide Fire;
    Run6(Fire(s, es[0]), es[1..]);
  }

  const JOIN_HIT_BY_REMOVAL: seq<Event> := [
    Accept(0), Login(0, ANN), Subscribe(0, "c"), RestLookup(0, "c", "ann"), RestUnsubscribe(0), RestUnlist(0), ListInHub(0)]

  // A removal that strikes a half-done join leaves the member listed for good, though everything is done
  // and the channel is not in the connection's own set.
  lemma {:induction false} RemovalDuringJoin()
    ensures var s := Run(Start(), JOIN_HIT_BY_REMOVAL);
            && Listed(s.tables.channels, "c", "ann", 0) && 0 in s.peers && "c" !in s.peers[0].subs
            && s.removals == map[] && s.peers[0].job == Idle
  {
    hide Run;
    Run7(Start(), JOIN_HIT_BY_REMOVAL);
    AnnLogsIn();
    AnnJoins();
    AnnLosesChannel();
  }

  lemma {:induction false} AnnLosesChannel()
    ensures Fire(Fire(Fire(AnnOn({"c"}, Joining("c")), RestLookup(0, "c", "ann")), RestUnsubscribe(0)), RestUnlist(0))
            == AnnOn({}, Joining("c"))
  {
    var s1 := Fire(AnnOn({"c"}, Joining("c")), RestLookup(0, "c", "ann"));
    assert s1.removals == map[0 := Removal("c", "ann", Some(0), false)];
    var s2 := Fire(s1, RestUnsubscribe(0));
    assert {"c"} - {"c"} == {};
    assert s2.peers == AnnOn({}, Joining("c")).peers;
  }

  const JOIN_INSIDE_REMOVAL: seq<Event> := [
    Accept(0), Login(0, ANN), RestLookup(0, "c", "ann"), RestUnsubscribe(0), Subscribe(0, "c"), ListInHub(0), RestUnlist(0)]

  // A join inside a removal leaves the channel in the connection's own set and the member not listed.
  lemma {:induction false} JoinDuringRemoval()
    ensures var s := Run(Start(), JOIN_INSIDE_REMOVAL);
            && Sole(s, 0, "ann") && "c" in s.peers[0].subs && "c" !in s.tables.channels
            && s.removals == map[] && s.peers[0].job == Idle
  {
    hide Run;
    Run7(Start(), JOIN_INSIDE_REMOVAL);
    AnnLogsIn();
    AnnBeingRemoved();
    AnnJoinsMeanwhile();
    AnnListedAndUnlisted();
  }

  lemma {:induction false} AnnListedAndUnlisted()
    ensures Fire(Fire(AnnOn({"c"}, Joining("c")).(removals := REMOVING), ListInHub(0)), RestUnlist(0)) == AnnOn({"c"}, Idle)
  {
    var s6 := Fire(AnnOn({"c"}, Joining("c")).(removals := REMOVING), ListInHub(0));
    assert s6.tables.channels == map["c" := map["ann" := 0]];
    assert map["ann" := 0] - {"ann"} == map[];
    assert s6.tables.channels - {"c"} == map[];
  }

  const REMOVING: map<nat, Removal> := map[0 := Removal("c", "ann", Some(0), true)]

  lemma {:induction false} AnnBeingRemoved()
    ensures Fire(Fire(AnnOn({}, Idle), RestLookup(0, "c", "ann")), RestUnsubscribe(0)) == AnnOn({}, Idle).(removals := REMOVING)
  {
    var s1 := Fire(AnnOn({}, Idle), RestLookup(0, "c", "ann"));
    assert s1.removals == map[0 := Removal("c", "ann", Some(0), false)];
    assert {} - {"c"} == {};
  }

  lemma {:induction false} AnnJoinsMeanwhile()
    ensures Fire(AnnOn({}, Idle).(removals := REMOVING), Subscribe(0, "c")) == AnnOn({"c"}, Joining("c")).(removals := REMOVING)
  {
  }

  const LOGIN_TWICE: seq<Event> := [
    Accept(0), Login(0, ANN), Subscribe(0, "c"), ListInHub(0), Login(0, BOB), ReadEnds(0)]

  // A second login under another id leaves the first id listed after the connection has gone.
  lemma {:induction false} SecondLogin()
    ensures var s := Run(Start(), LOGIN_TWICE);
            && Listed(s.tables.channels, "c", "ann", 0)
            && "ann" in s.tables.connections && 0 in s.peers && s.peers[0].gone && !Is(s, 0, "ann")
  {
    hide Run;
    Run6(Start(), LOGIN_TWICE);
    AnnLogsIn();
    AnnJoins();
    AnnIsListed();
    BobLeaves();
  }

  function AnnListed(): Sys {
    var s := AnnOn({"c"}, Idle);
    s.(tables := s.tables.(channels := map["c" := map["ann" := 0]]))
  }

  lemma {:induction false} AnnIsListed()
    ensures Fire(AnnOn({"c"}, Joining("c")), ListInHub(0)) == AnnListed()
  {
  }

  lemma {:induction false} BobLeaves()
    ensures var s := Fire(Fire(AnnListed(), Login(0, BOB)), ReadEnds(0));
            && Listed(s.tables.channels, "c", "ann", 0)
            && "ann" in s.tables.connections && 0 in s.peers && s.peers[0].gone && !Is(s, 0, "ann")
  {
    var s1 := Fire(AnnListed(), Login(0, BOB));
    assert Listed(s1.tables.channels, "c", "ann", 0);
    DroppedLists(s1.tables.channels, "bob");
    hide Dropped;
  }

  // ---- What each operation does ----

  // A login registers the new connection under the member's id, in place of whatever was there, and an agent
  // under its name too; nothing else changes.
  lemma {:induction false} LoginRegisters(s: Sys, c: nat, m: Member)
    requires Ready(s, c)
    ensures var s' := Fire(s, Login(c, m));
            var t, t' := s.tables, s'.tables;
            && Is(s', c, m.id) && s'.peers[c].subs == s.peers[c].subs
            && (forall d :: d in s.peers && d != c ==> d in s'.peers && s'.peers[d] == s.peers[d])
            && m.id in t'.connections && t'.connections[m.id] == c
            && m.id in t'.presence && t'.presence[m.id] == "online"
            && (m.agent ==> m.id in t'.agents && t'.agents[m.id] == c && m.name in t'.agentNames && t'.agentNames[m.name] == c)
            && t'.connections - {m.id} == t.connections - {m.id}
            && t'.agents - (if m.agent then {m.id} else {}) == t.agents - (if m.agent then {m.id} else {})
            && t'.agentNames - (if m.agent then {m.name} else {}) == t.agentNames - (if m.agent then {m.name} else {})
            && t'.channels == t.channels && t'.daemons == t.daemons && t'.daemonAgents == t.daemonAgents
  {
  }

  // A join that runs to its end: below 200 subscriptions the channel is in the own set and the connection is
  // listed; at 200 nothing changes.
  lemma {:induction false} JoinCompletes(s: Sys, c: nat, ch: string)
    requires LoggedIn(s, c)
    ensures var s1 := Fire(s, Subscribe(c, ch));
            var s2 := Fire(s1, ListInHub(c));
            var id := s.peers[c].member.value.id;
            if |s.peers[c].subs| < 200 then
              && s2.peers == s.peers[c := s.peers[c].(subs := s.peers[c].subs + {ch})]
              && Listed(s2.tables.channels, ch, id, c)
            else s2 == s
  {
  }

  // A leave that runs to its end: the channel is out of the own set and the member is not listed under it.
  lemma {:induction false} LeaveCompletes(s: Sys, c: nat, ch: string)
    requires LoggedIn(s, c)
    ensures var s2 := Fire(Fire(s, Unsubscribe(c, ch)), UnlistInHub(c));
            var id := s.peers[c].member.value.id;
            && s2.peers == s.peers[c := s.peers[c].(subs := s.peers[c].subs - {ch})]
            && forall d :: !Listed(s2.tables.channels, ch, id, d)
  {
    LeftLists(s.tables, ch, s.peers[c].member.value.id);
    hide Left, Listed;
  }

  // A removal over REST that runs to its end: the registered connection, if there is one, loses the channel
  // from its own set, and the member is not listed under it.
  lemma {:induction false} RemovalCompletes(s: Sys, r: nat, ch: string, id: string)
    requires r !in s.removals && (id in s.tables.connections ==> s.tables.connections[id] in s.peers)
    ensures var s3 := Fire(Fire(Fire(s, RestLookup(r, ch, id)), RestUnsubscribe(r)), RestUnlist(r));
            && s3.removals == s.removals && s3.tables.connections == s.tables.connections
            && (forall d :: !Listed(s3.tables.channels, ch, id, d))
            && s3.peers == if id in s.tables.connections then
                             var c := s.tables.connections[id]; s.peers[c := s.peers[c].(subs := s.peers[c].subs - {ch})]
                           else s.peers
  {
    LeftLists(s.tables, ch, id);
    hide Listed;
    var target := if id in s.tables.connections then Some(s.tables.connections[id]) else None;
    var s1 := Fire(s, RestLookup(r, ch, id));
    assert s1 == s.(removals := s.removals[r := Removal(ch, id, target, false)]);
    var s2 := Fire(s1, RestUnsubscribe(r));
    assert s2.removals == s.removals[r := Removal(ch, id, target, true)] && s2.tables == s.tables;
    assert s2.removals - {r} == s.removals;
  }

  // A connection starts out ready, without identity or subscriptions; a shutdown leaves nobody registered or
  // listed.
  lemma {:induction false} AcceptAndShutdown(s: Sys, c: nat)
    ensures c !in s.peers ==> Fire(s, Accept(c)) == s.(peers := s.peers[c := Peer(None, {}, Idle, false)])
    ensures var t := Fire(s, Shutdown).tables;
            t.connections == map[] && t.agents == map[] && t.agentNames == map[] && t.channels == map[]
  {
  }

  // ---- Who is registered under an id ----

  // What happened to registrations, in order.
  datatype Arrival = In(member: string, conn: nat) | Out(member: string) | AllOut

  function Arrivals(s: Sys, e: Event): seq<Arrival> {
    match e
    case Login(c, m) => if Ready(s, c) then [In(m.id, c)] else []
    case ReadEnds(c) => if Present(s, c) then [Out(Identity(s.peers[c]).id)] else []
    case Shutdown => [AllOut]
    case _ => []
  }

  function ArrivalLog(s: Sys, es: seq<Event>): seq<Arrival>
    decreases |es|
  {
    if es == [] then [] else Arrivals(s, es[0]) + ArrivalLog(Fire(s, es[0]), es[1..])
  }

  predicate Concerns(a: Arrival, id: string) { a.AllOut? || a.member == id }

  function RegisteredBy(log: seq<Arrival>, id: string): Option<nat> {
    if log == [] then None
    else
      var last := log[|log| - 1];
      if !Concerns(last, id) then RegisteredBy(log[..|log| - 1], id)
      else if last.In? then Some(last.conn)
      else None
  }

  ghost predicate RegistrationsFollow(t: Tables<nat>, log: seq<Arrival>) {
    forall id :: RegisteredBy(log, id) == if id in t.connections then Some(t.connections[id]) else None
  }

  lemma {:induction false} OneMoreArrival(log: seq<Arrival>, a: Arrival, id: string)
    ensures RegisteredBy(log + [a], id) ==
              if !Concerns(a, id) then RegisteredBy(log, id) else if a.In? then Some(a.conn) else None
  {
    assert (log + [a])[..|log|] == log;
  }

  lemma {:induction false} RegistrationStep(s: Sys, e: Event, log: seq<Arrival>)
    requires RegistrationsFollow(s.tables, log)
    ensures RegistrationsFollow(Fire(s, e).tables, log + Arrivals(s, e))
  {
    var t := Fire(s, e).tables;
    if Arrivals(s, e) == [] {
      assert log + Arrivals(s, e) == log;
      SameConnections(s, e);
    } else {
      var a := Arrivals(s, e)[0];
      assert Arrivals(s, e) == [a];
      forall id
        ensures RegisteredBy(log + [a], id) == if id in t.connections then Some(t.connections[id]) else None
      {
        OneMoreArrival(log, a, id);
      }
    }
  }

  lemma {:induction false} SameConnections(s: Sys, e: Event)
    requires Arrivals(s, e) == []
    ensures Fire(s, e).tables.connections == s.tables.connections
  {
    hide Dropped, Listing;
  }

  lemma {:induction false} RegistrationRun(s: Sys, es: seq<Event>, log: seq<Arrival>)
    requires RegistrationsFollow(s.tables, log)
    ensures RegistrationsFollow(Run(s, es).tables, log + ArrivalLog(s, es))
    decreases |es|
  {
    hide RegistrationsFollow, Fire, Arrivals;
    if es == [] {
      assert log + ArrivalLog(s, es) == log;
    } else {
      RegistrationStep(s, es[0], log);
      RegistrationRun(Fire(s, es[0]), es[1..], log + Arrivals(s, es[0]));
      assert log + Arrivals(s, es[0]) + ArrivalLog(Fire(s, es[0]), es[1..]) == log + ArrivalLog(s, es);
    }
  }

  // The last thing that happened to the registration under an id.
  ghost predicate LastConcern(log: seq<Arrival>, id: string, i: nat) {
    i < |log| && Concerns(log[i], id) && forall j :: i < j < |log| ==> !Concerns(log[j], id)
  }

  lemma {:induction false} RegisteredIsLast(log: seq<Arrival>, id: string)
    ensures RegisteredBy(log, id).Some? <==> exists i: nat :: LastConcern(log, id, i) && log[i].In?
    ensures forall i: nat :: LastConcern(log, id, i) && log[i].In? ==> RegisteredBy(log, id) == Some(log[i].conn)
  {
    if log != [] {
      var n := |log| - 1;
      if Concerns(log[n], id) {
        assert LastConcern(log, id, n);
      } else {
        RegisteredIsLast(log[..n], id);
        forall i: nat
          ensures LastConcern(log, id, i) <==> LastConcern(log[..n], id, i)
        {
        }
      }
    }
  }

  // Over every run: somebody is registered under an id if and only if, since the last login under it, no
  // connection with that id has ended and no shutdown came; and then it is the connection of that login.
  lemma {:induction false} LastLoginIsRegistered(es: seq<Event>, id: string)
    ensures var t := Run(Start(), es).tables;
            var log := ArrivalLog(Start(), es);
            && (id in t.connections <==> exists i: nat :: LastConcern(log, id, i) && log[i].In?)
            && (forall i: nat :: LastConcern(log, id, i) && log[i].In? ==> t.connections[id] == log[i].conn)
  {
    var log := ArrivalLog(Start(), es);
    RegistrationRun(Start(), es, []);
    assert [] + log == log;
    RegisteredIsLast(log, id);
    hide RegisteredBy, LastConcern, Run, ArrivalLog;
  }

  // ---- A disconnect removes the member, whichever connection is registered ----

  // When a connection's read loop ends, nothing is registered or listed under its member id any more, and
  // nothing else is lost: in particular a newer connection of the same member loses its entries too.
  lemma {:induction false} DisconnectIsById(s: Sys, c: nat)
    requires c in s.peers && !s.peers[c].gone
    ensures var s' := Fire(s, ReadEnds(c));
            var gone := Identity(s.peers[c]).id;
            && (forall id :: id in s'.tables.connections <==> id in s.tables.connections && id != gone)
            && (forall id :: id in s'.tables.connections ==> s'.tables.connections[id] == s.tables.connections[id])
            && (forall ch, id, d :: Listed(s'.tables.channels, ch, id, d)
                                    <==> Listed(s.tables.channels, ch, id, d) && id != gone)
  {
    DroppedLists(s.tables.channels, Identity(s.peers[c]).id);
    hide Dropped, Listed;
  }
}
