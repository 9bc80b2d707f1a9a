// The handlers that keep a connection's own set and the hub's channel tables in step
// (internal/server/api/handlers_ws.go:138-258, handlers_channel.go:165-181). Store lookups are parameters.
module HubHandlers {
  import opened Collections
  import opened Connection
  import opened Hubs

  // ---- Subscribing to a member's channels at login ----

  // The connection's own set after going through the list.
  function FilledSubs(subs: set<string>, ids: seq<string>): set<string> {
    if ids == [] then subs
    else
      var before := FilledSubs(subs, ids[..|ids| - 1]);
      if |before| >= MAX_SUBSCRIPTIONS then before else before + {ids[|ids| - 1]}
  }

  function FilledTables<C>(t: Tables<C>, id: string, c: C, subs: set<string>, ids: seq<string>): Tables<C> {
    if ids == [] then t
    else
      var before := FilledTables(t, id, c, subs, ids[..|ids| - 1]);
      if |FilledSubs(subs, ids[..|ids| - 1])| >= MAX_SUBSCRIPTIONS then before
      else Joined(before, ids[|ids| - 1], id, c)
  }

  // A failed lookup subscribes to nothing.
  function ListedIDs(channelIDs: Option<seq<string>>): seq<string> {
    if channelIDs.Some? then channelIDs.value else []
  }

  method SubscribeMemberChannels(hub: Hub, c: Conn, channelIDs: Option<seq<string>>)
    requires c.Valid()
    modifies hub`channels, c`channels
    ensures c.Valid()
    ensures c.channels == FilledSubs(old(c.channels), ListedIDs(channelIDs))
    ensures hub.Snapshot() == FilledTables(old(hub.Snapshot()), c.id, c, old(c.channels), ListedIDs(channelIDs))
  {
    if channelIDs.None? { return; }
    var ids, i := channelIDs.value, 0;
    while i < |ids|
      invariant 0 <= i <= |ids| && c.Valid()
      invariant c.channels == FilledSubs(old(c.channels), ids[..i])
      invariant hub.Snapshot() == FilledTables(old(hub.Snapshot()), c.id, c, old(c.channels), ids[..i])
    {
      assert ids[..i + 1][..i] == ids[..i];
      var ok := c.Subscribe(ids[i]);
      if ok {
        hub.SubscribeChannel(ids[i], c);
      }
      i := i + 1;
    }
    assert ids[..i] == ids;
  }

  // Whatever the set was, it grows by channels of the list only, and by all of them unless it is full.
  lemma {:induction false} FillBounds(subs: set<string>, ids: seq<string>)
    ensures var filled := FilledSubs(subs, ids);
            && subs <= filled
            && (forall ch :: ch in filled ==> ch in subs || ch in ids)
            && (|filled| >= 200 || forall ch :: ch in ids ==> ch in filled)
            && (|subs| <= 200 ==> |filled| <= 200)
  {
    if ids != [] {
      var n := |ids| - 1;
      FillBounds(subs, ids[..n]);
      assert ids == ids[..n] + [ids[n]];
    }
  }

  function FirstOf(ids: seq<string>): seq<string> {
    if |ids| <= MAX_SUBSCRIPTIONS then ids else ids[..MAX_SUBSCRIPTIONS]
  }

  function Taken(ids: seq<string>): set<string> { set id | id in FirstOf(ids) }

  lemma {:induction false} TakenGrows(ids: seq<string>)
    requires Distinct(ids) && 0 < |ids| <= MAX_SUBSCRIPTIONS
    ensures Taken(ids) == Taken(ids[..|ids| - 1]) + {ids[|ids| - 1]} && ids[|ids| - 1] !in Taken(ids[..|ids| - 1])
  {
    assert ids == ids[..|ids| - 1] + [ids[|ids| - 1]];
  }

  lemma {:induction false} LoginTakes(ids: seq<string>)
    requires Distinct(ids)
    ensures FilledSubs({}, ids) == Taken(ids)
    ensures |Taken(ids)| == |FirstOf(ids)|
  {
    if ids != [] {
      var n := |ids| - 1;
      LoginTakes(ids[..n]);
      if n < MAX_SUBSCRIPTIONS {
        TakenGrows(ids);
      } else {
        assert FirstOf(ids) == FirstOf(ids[..n]);
      }
      hide Distinct, Taken;
    }
  }

  // The entries that go into the hub are those of the channels that went into the connection's own set.
  lemma {:induction false} FilledLists<C>(t: Tables<C>, id: string, joiner: C, ids: seq<string>)
    ensures forall ch, k, c :: Listed(FilledTables(t, id, joiner, {}, ids).channels, ch, k, c) <==>
                               if k == id && ch in FilledSubs({}, ids) then c == joiner else Listed(t.channels, ch, k, c)
  {
    hide Listed, Joined;
    if ids != [] {
      var n := |ids| - 1;
      FilledLists(t, id, joiner, ids[..n]);
      JoinedLists(FilledTables(t, id, joiner, {}, ids[..n]), ids[n], id, joiner);
    }
  }

  // A new connection ends up in the first two hundred channels of the list, and the hub lists it under
  // exactly those.
  lemma {:induction false} LoginFills<C>(t: Tables<C>, id: string, joiner: C, ids: seq<string>)
    requires Distinct(ids)
    ensures FilledSubs({}, ids) == Taken(ids)
    ensures |Taken(ids)| == if |ids| <= 200 then |ids| else 200
    ensures forall ch, k, c :: Listed(FilledTables(t, id, joiner, {}, ids).channels, ch, k, c) <==>
                               if k == id && ch in Taken(ids) then c == joiner else Listed(t.channels, ch, k, c)
  {
    hide Listed;
    LoginTakes(ids);
    FilledLists(t, id, joiner, ids);
  }

  // ---- The handlers ----

  predicate Is(c: Conn, m: Member)
    reads c
  {
    c.id == m.id && c.name == m.name && c.isAgent == m.agent
  }

  function Registered<C>(t: Tables<C>, m: Member, c: C): Tables<C> { Added(t, m.id, m.name, m.agent, c) }

  // What was registered under the member's id.
  ghost function Previous(hub: Hub, member: Option<Member>): set<Conn>
    reads hub
  {
    if member.Some? && member.value.id in hub.connections then {hub.connections[member.value.id]} else {}
  }

  method Register(hub: Hub, c: Conn, m: Member)
    requires c.Valid() && forall p :: p in Previous(hub, Some(m)) ==> p.Valid()
    modifies hub, c, Previous(hub, Some(m))`closed, Previous(hub, Some(m))`sendClosed
    ensures c.Valid() && Is(c, m) && c.authenticated && c.channels == old(c.channels)
    ensures hub.Snapshot() == Registered(old(hub.Snapshot()), m, c)
    ensures forall p :: p in old(Previous(hub, Some(m))) ==> p.Valid() && p.closed
    ensures c.Snapshot() == if c in old(Previous(hub, Some(m))) then AfterClose(old(c.Snapshot())) else old(c.Snapshot())
  {
    hide Added;
    c.SetIdentity(m.id, m.name, m.agent);
    c.SetAuthenticated(true);
    hub.Add(c);
  }

  // The successful half of handleWSAuthLogin.
  method Welcome(hub: Hub, c: Conn, m: Member, channelIDs: Option<seq<string>>)
    requires c.Valid() && forall p :: p in Previous(hub, Some(m)) ==> p.Valid()
    modifies hub, c, Previous(hub, Some(m))`closed, Previous(hub, Some(m))`sendClosed
    ensures c.Valid() && Is(c, m) && c.authenticated && c.channels == FilledSubs(old(c.channels), ListedIDs(channelIDs))
    ensures hub.Snapshot() == FilledTables(Registered(old(hub.Snapshot()), m, c), m.id, c, old(c.channels), ListedIDs(channelIDs))
    ensures c.Snapshot() == AfterSend(if c in old(Previous(hub, Some(m))) then AfterClose(old(c.Snapshot()))
                                      else old(c.Snapshot()), "auth.success")
    ensures forall p :: p in old(Previous(hub, Some(m))) ==> p.Valid() && p.closed
  {
    hide Registered, FilledSubs, FilledTables, AfterSend, AfterClose, ListedIDs;
    Register(hub, c, m);
    assert c.id == m.id;
    SubscribeMemberChannels(hub, c, channelIDs);
    c.Send(Some("auth.success"));
  }

  // handleWSAuthLogin: `member` is None when neither token nor API key leads to a member. The connection
  // that was registered under the member's id is closed; on a second login that can be this very one.
  method Login(hub: Hub, c: Conn, member: Option<Member>, channelIDs: Option<seq<string>>) returns (ok: bool)
    requires c.Valid() && forall p :: p in Previous(hub, member) ==> p.Valid()
    modifies hub, c, Previous(hub, member)`closed, Previous(hub, member)`sendClosed
    ensures c.Valid() && ok == member.Some?
    ensures !ok ==> hub.Snapshot() == old(hub.Snapshot()) && c.channels == old(c.channels)
                    && c.Snapshot() == AfterSend(old(c.Snapshot()), "auth.fail")
    ensures ok ==> Is(c, member.value) && c.authenticated
                   && c.channels == FilledSubs(old(c.channels), ListedIDs(channelIDs))
                   && hub.Snapshot() == FilledTables(Registered(old(hub.Snapshot()), member.value, c), member.value.id, c,
                                                     old(c.channels), ListedIDs(channelIDs))
    ensures ok ==> c.Snapshot() == AfterSend(if c in old(Previous(hub, member)) then AfterClose(old(c.Snapshot()))
                                             else old(c.Snapshot()), "auth.success")
    ensures ok ==> forall p :: p in old(Previous(hub, member)) ==> p.Valid() && p.closed
  {
    if member.None? {
      c.Send(Some("auth.fail"));
      return false;
    }
    hide Registered, FilledSubs, FilledTables, AfterSend, AfterClose, Is;
    Welcome(hub, c, member.value, channelIDs);
    return true;
  }

  // handleWSChannelJoin: `request` is None when the request does not decode.
  method JoinChannel(hub: Hub, c: Conn, request: Option<string>, isMember: bool) returns (joined: bool)
    requires c.Valid()
    modifies hub`channels, c`channels, c`buffer, c`attempts
    ensures c.Valid()
    ensures joined <==> c.authenticated && request.Some? && isMember && |old(c.channels)| < 200
    ensures c.channels == if joined then old(c.channels) + {request.value} else old(c.channels)
    ensures hub.Snapshot() == if joined then Joined(old(hub.Snapshot()), request.value, c.id, c) else old(hub.Snapshot())
    ensures c.Snapshot() == AfterSend(old(c.Snapshot()),
                                      if !c.authenticated then "not authenticated"
                                      else if request.None? then "invalid data"
                                      else if !isMember then "not a channel member"
                                      else if !joined then "subscription limit reached"
                                      else "channel.join")
  {
    hide AfterSend, Joined;
    if !c.authenticated {
      c.Send(Some("not authenticated"));
      return false;
    }
    if request.None? {
      c.Send(Some("invalid data"));
      return false;
    }
    var channel := request.value;
    if !isMember {
      c.Send(Some("not a channel member"));
      return false;
    }
    joined := c.Subscribe(channel);
    if !joined {
      c.Send(Some("subscription limit reached"));
      return;
    }
    hub.SubscribeChannel(channel, c);
    c.Send(Some("channel.join"));
  }

  // handleWSChannelLeave: the hub's entry goes by member id, whichever connection it holds.
  method LeaveChannel(hub: Hub, c: Conn, request: Option<string>)
    requires c.Valid()
    modifies hub`channels, c`channels, c`buffer, c`attempts
    ensures c.Valid()
    ensures var left := c.authenticated && request.Some?;
            && c.channels == (if left then old(c.channels) - {request.value} else old(c.channels))
            && hub.Snapshot() == if left then Left(old(hub.Snapshot()), request.value, c.id) else old(hub.Snapshot())
    ensures c.Snapshot() == AfterSend(old(c.Snapshot()),
                                      if !c.authenticated then "not authenticated"
                                      else if request.None? then "invalid data"
                                      else "channel.leave")
  {
    hide AfterSend, Left;
    if !c.authenticated {
      c.Send(Some("not authenticated"));
      return;
    }
    if request.None? {
      c.Send(Some("invalid data"));
      return;
    }
    var channel := request.value;
    c.Unsubscribe(channel);
    hub.UnsubscribeChannel(channel, c.id);
    c.Send(Some("channel.leave"));
  }

  // A join followed by a leave of the same channel puts the hub's tables back, when the member was not
  // listed there and no table was empty.
  lemma {:induction false} LeaveUndoesJoin<C>(t: Tables<C>, channel: string, id: string, c: C)
    requires NoEmptyTable(t.channels) && id !in Listing(t, channel)
    ensures Left(Joined(t, channel, id, c), channel, id) == t
  {
    var table := Listing(t, channel)[id := c];
    assert table - {id} == Listing(t, channel);
  }

  // handleRemoveChannelMember: `removed` is false when the store refuses.
  method RemoveChannelMember(hub: Hub, channel: string, member: string, removed: bool)
    requires member in hub.connections ==> hub.connections[member].Valid()
    modifies hub`channels, (if member in hub.connections then {hub.connections[member]} else {})`channels
    ensures !removed ==> hub.Snapshot() == old(hub.Snapshot())
    ensures removed ==> hub.Snapshot() == Left(old(hub.Snapshot()), channel, member)
    ensures member in hub.connections ==>
              var c := hub.connections[member];
              c.Valid() && c.channels == if removed then old(c.channels) - {channel} else old(c.channels)
  {
    if !removed { return; }
    if member in hub.connections {
      hub.connections[member].Unsubscribe(channel);
    }
    hub.UnsubscribeChannel(channel, member);
  }
}
