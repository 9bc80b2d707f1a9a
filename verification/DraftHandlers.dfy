// The draft handlers as code (internal/server/api/handlers_draft.go, the draft handlers of handlers_ws.go,
// internal/server/store/sqlite.go:2696-2783): each takes exactly the steps whose interleavings Drafts and
// DraftSends study. Clock readings, fresh ids and store failures are parameters.
module DraftHandlers {
  import opened Collections
  import opened Drafts

  // A WebSocket caller has to be an authenticated agent; a REST caller is always authorised here.
  datatype CreateReply = Unauthorised | BadRequest | Error | Created(draft: Draft)
  datatype ValidateReply = Denied | NoDraft | NotOwner | Unreadable | Answer(valid: bool, current: int, delta: int)
  datatype SendReply = NotAuthorised | NotFound | NotYours | NotHeld | Stale | Failed | Posted

  // ---- What each handler should answer ----

  // A WebSocket caller must own the draft; a REST caller is not asked.
  predicate Owns(caller: Option<string>, d: Draft) { caller.None? || caller.value == d.agent }

  // The reply to a send, decided on the state the handler starts from.
  function SendOutcome(s: State, id: string, caller: Option<string>, force: bool, store: SendFaults): SendReply {
    if !store.getOk || id !in s.drafts then NotFound
    else
      var d := s.drafts[id];
      if !Owns(caller, d) then NotYours
      else if d.status != Held then NotHeld
      else if ReadVersion(s, d.channel, store.versionOk) - d.roomVersion > MAX_DELTA && !force then Stale
      else if d.channel !in s.versions || !store.insertOk then Failed
      else Posted
  }

  // Which store calls succeed.
  datatype SendFaults = SendFaults(getOk: bool, versionOk: bool, insertOk: bool, markOk: bool)

  // The store calls of a send, with their times.
  function SendTicks(h: nat, id: string, caller: Option<string>, force: bool, store: SendFaults, times: seq<int>,
                     reply: SendReply): seq<Tick>
    requires |times| == 4
  {
    match reply
    case NotAuthorised => []
    case NotFound => []
    case NotYours => []
    case NotHeld => []
    case Stale => [Tick(times[0], SendRead(h, id, caller, force)), Tick(times[1], SendVersion(h, store.versionOk))]
    case Failed => [Tick(times[0], SendRead(h, id, caller, force)), Tick(times[1], SendVersion(h, store.versionOk)),
                    Tick(times[2], SendInsert(h, store.insertOk))]
    case Posted => [Tick(times[0], SendRead(h, id, caller, force)), Tick(times[1], SendVersion(h, store.versionOk)),
                    Tick(times[2], SendInsert(h, store.insertOk)), Tick(times[3], SendMark(h, store.markOk))]
  }

  lemma {:induction false} Run2(s: State, a: Tick, b: Tick)
    ensures Run(s, [a, b]) == Step(Step(s, a), b)
  {
    hide Step;
    assert [a, b][1..] == [b] && [b][1..] == [];
    assert Run(Step(s, a), [b]) == Run(Step(Step(s, a), b), []);
  }

  lemma {:induction false} Run4(s: State, a: Tick, b: Tick, c: Tick, d: Tick)
    ensures Run(s, [a, b, c]) == Step(Step(Step(s, a), b), c)
    ensures Run(s, [a, b, c, d]) == Step(Step(Step(Step(s, a), b), c), d)
  {
    hide Step;
    assert [a, b, c][1..] == [b, c] && [a, b, c, d][1..] == [b, c, d] && [b, c, d][1..] == [c, d];
    Run2(Step(s, a), b, c);
    Run2(Step(Step(s, a), b), c, d);
  }

  // What the four steps of a send do, one after the other.
  predicate SameTables(s: State, s': State) {
    s'.versions == s.versions && s'.drafts == s.drafts && s'.log == s.log && s'.produced == s.produced
  }

  lemma {:induction false} ReadStep(s: State, at: int, h: nat, id: string, caller: Option<string>, force: bool)
    requires s.now <= at && h !in s.started && id in s.drafts && Owns(caller, s.drafts[id]) && s.drafts[id].status == Held
    ensures var s' := Step(s, Tick(at, SendRead(h, id, caller, force)));
            && SameTables(s, s') && s'.now == at
            && h in s'.handlers && s'.handlers[h] == SendGot(id, s.drafts[id], force, at)
  {
  }

  lemma {:induction false} CheckStep(s: State, at: int, h: nat, ok: bool)
    requires s.now <= at && h in s.handlers && s.handlers[h].SendGot?
    ensures var s' := Step(s, Tick(at, SendVersion(h, ok)));
            var g := s.handlers[h];
            && SameTables(s, s') && s'.now == at
            && (ReadVersion(s, g.draft.channel, ok) - g.draft.roomVersion <= MAX_DELTA || g.force ==>
                  h in s'.handlers && s'.handlers[h].SendChecked? && s'.handlers[h].id == g.id && s'.handlers[h].draft == g.draft)
  {
  }

  lemma {:induction false} PostStep(s: State, at: int, h: nat, ok: bool)
    requires s.now <= at && h in s.handlers && s.handlers[h].SendChecked?
    ensures var s' := Step(s, Tick(at, SendInsert(h, ok)));
            var c := s.handlers[h];
            && s'.now == at && s'.drafts == s.drafts
            && if !ok || c.draft.channel !in s.versions then SameTables(s, s')
               else
                 && s'.versions == s.versions[c.draft.channel := s.versions[c.draft.channel] + 1]
                 && |s'.log| == |s.log| + 1
                 && |s'.produced| == |s.produced| + 1 && s'.produced[|s.produced|].id == c.id
                 && h in s'.handlers && s'.handlers[h] == SendPosted(c.id)
  {
  }

  lemma {:induction false} MarkStep(s: State, at: int, h: nat, ok: bool)
    requires s.now <= at && h in s.handlers && s.handlers[h].SendPosted?
    ensures var s' := Step(s, Tick(at, SendMark(h, ok)));
            var id := s.handlers[h].id;
            && s'.now == at && s'.versions == s.versions && s'.log == s.log && s'.produced == s.produced
            && s'.drafts == if ok && id in s.drafts then s.drafts[id := s.drafts[id].(status := Sent)] else s.drafts
  {
  }

  // Running the store calls of a send, by reply.
  lemma {:induction false} SendRun(s: State, h: nat, id: string, caller: Option<string>, force: bool, store: SendFaults, times: seq<int>)
    requires |times| == 4
    ensures forall r :: r == NotAuthorised || r == NotFound || r == NotYours || r == NotHeld ==>
                          Run(s, SendTicks(h, id, caller, force, store, times, r)) == s
    ensures var s2 := Step(Step(s, Tick(times[0], SendRead(h, id, caller, force))), Tick(times[1], SendVersion(h, store.versionOk)));
            var s3 := Step(s2, Tick(times[2], SendInsert(h, store.insertOk)));
            && Run(s, SendTicks(h, id, caller, force, store, times, Stale)) == s2
            && Run(s, SendTicks(h, id, caller, force, store, times, Failed)) == s3
            && Run(s, SendTicks(h, id, caller, force, store, times, Posted)) == Step(s3, Tick(times[3], SendMark(h, store.markOk)))
  {
    hide Step;
    var read, check := Tick(times[0], SendRead(h, id, caller, force)), Tick(times[1], SendVersion(h, store.versionOk));
    var post, mark := Tick(times[2], SendInsert(h, store.insertOk)), Tick(times[3], SendMark(h, store.markOk));
    Run2(s, read, check);
    Run4(s, read, check, post, mark);
  }

  // After a send that posted the draft, a later send posts it again if and only if the status write of the
  // first one failed and nothing else stands in its way.
  lemma {:induction false} SecondSendExactly(s: State, h: nat, id: string, caller: Option<string>, force: bool,
                                             store: SendFaults, times: seq<int>, caller': Option<string>, force': bool,
                                             store': SendFaults)
    requires |times| == 4 && s.now <= times[0] <= times[1] <= times[2] <= times[3] && h !in s.started
    requires SendOutcome(s, id, caller, force, store) == Posted
    ensures var d := s.drafts[id];
            var version := if store'.versionOk then s.versions[d.channel] + 1 else 0;
            SendOutcome(Run(s, SendTicks(h, id, caller, force, store, times, Posted)), id, caller', force', store') == Posted
            <==> !store.markOk && store'.getOk && Owns(caller', d) && store'.insertOk
                 && (force' || version - d.roomVersion <= MAX_DELTA)
  {
    hide Step, Run, SendTicks;
    SendRun(s, h, id, caller, force, store, times);
    ReadStep(s, times[0], h, id, caller, force);
    var s1 := Step(s, Tick(times[0], SendRead(h, id, caller, force)));
    CheckStep(s1, times[1], h, store.versionOk);
    var s2 := Step(s1, Tick(times[1], SendVersion(h, store.versionOk)));
    PostStep(s2, times[2], h, store.insertOk);
    MarkStep(Step(s2, Tick(times[2], SendInsert(h, store.insertOk))), times[3], h, store.markOk);
  }

  // A send posts the message if and only if the draft is there, the caller's and held, the version read late is
  // at most 5 ahead (or unreadable, or the send is forced), and the channel takes the message.
  lemma {:induction false} PostedExactly(s: State, id: string, caller: Option<string>, force: bool, store: SendFaults)
    ensures SendOutcome(s, id, caller, force, store) == Posted <==>
              && store.getOk && id in s.drafts
              && var d := s.drafts[id];
                 && (caller == None || caller == Some(d.agent)) && d.status == Held
                 && (force || (if store.versionOk && d.channel in s.versions then s.versions[d.channel] else 0)
                              - d.roomVersion <= 5)
                 && d.channel in s.versions && store.insertOk
  {
  }

  class DraftServer {
    var versions: map<string, int>
    var drafts: map<string, Draft>
    var inserted: nat // messages ever inserted, for the drafts' history mark
    ghost var state: State

    ghost predicate Valid()
      reads this
    {
      state.versions == versions && state.drafts == drafts && |state.log| == inserted
    }

    constructor (now: int)
      ensures Valid() && state == Start(now)
    {
      versions, drafts, inserted, state := map[], map[], 0, Start(now);
    }

    // ---- Store calls ----

    method GetChannelRoomVersion(channel: string, ok: bool) returns (version: int, err: bool)
      ensures err <==> !ok || channel !in versions
      ensures version == if err then 0 else versions[channel]
    {
      if !ok || channel !in versions { return 0, true; }
      return versions[channel], false;
    }

    method GetDraft(id: string, ok: bool) returns (d: Option<Draft>)
      ensures d == if ok && id in drafts then Some(drafts[id]) else None
    {
      if !ok || id !in drafts { return None; }
      return Some(drafts[id]);
    }

    // INSERT INTO messages, refused without the channel, and the trigger on it.
    method CreateMessage(channel: string, ok: bool) returns (err: bool)
      modifies `versions, `inserted
      ensures inserted == if err then old(inserted) else old(inserted) + 1
      ensures err <==> !ok || channel !in old(versions)
      ensures versions == if err then old(versions) else old(versions)[channel := old(versions)[channel] + 1]
    {
      if !ok || channel !in versions { return true; }
      versions, inserted := versions[channel := versions[channel] + 1], inserted + 1;
      return false;
    }

    method UpdateDraftStatus(id: string, status: Status, ok: bool)
      modifies `drafts
      ensures drafts == if ok && id in old(drafts) then old(drafts)[id := old(drafts)[id].(status := status)]
                        else old(drafts)
    {
      if ok && id in drafts {
        drafts := drafts[id := drafts[id].(status := status)];
      }
    }

    // ---- Handlers ----

    method HandleCreateDraft(ghost h: nat, id: string, agent: string, channel: string, content: string,
                             readAt: int, insertAt: int, readOk: bool, insertOk: bool,
                             authorised: bool)
      returns (reply: CreateReply)
      requires Valid() && h !in state.started && id !in state.draftsEver && id !in drafts
      requires state.now <= readAt <= insertAt
      modifies this
      ensures Valid()
      ensures reply.Unauthorised? <==> !authorised
      ensures reply.BadRequest? <==> authorised && (channel == "" || content == "")
      ensures reply.Created? <==> authorised && channel != "" && content != "" && readOk && insertOk && channel in old(versions)
      ensures reply.Created? ==>
                && reply.draft == Draft(agent, channel, old(versions)[channel], Held, insertAt, readAt + DRAFT_LIFETIME, |old(state).log|)
                && drafts == old(drafts)[id := reply.draft]
      ensures reply.Created? ==> reply.draft.expiresAt == readAt + 600_000
      ensures !reply.Created? ==> drafts == old(drafts)
      ensures versions == old(versions)
      ensures state == if !authorised || channel == "" || content == "" || !readOk || channel !in old(versions) then old(state)
                       else Run(old(state), [Tick(readAt, CreateRead(h, agent, channel)),
                                             Tick(insertAt, CreateInsert(h, id, insertOk))])
    {
      if !authorised { return Unauthorised; }
      if channel == "" || content == "" { return BadRequest; }
      var roomVersion, err := GetChannelRoomVersion(channel, readOk);
      if err { return Error; }
      var d := Draft(agent, channel, roomVersion, Held, insertAt, readAt + DRAFT_LIFETIME, inserted);
      ghost var read, insert := Tick(readAt, CreateRead(h, agent, channel)), Tick(insertAt, CreateInsert(h, id, insertOk));
      Run2(state, read, insert);
      state := Step(Step(state, read), insert);
      if !insertOk { return Error; }
      drafts := drafts[id := d];
      return Created(d);
    }

    method HandleValidateDraft(id: string, caller: Option<string>, getOk: bool, versionOk: bool, authorised: bool)
      returns (reply: ValidateReply)
      requires Valid()
      ensures reply.Denied? <==> !authorised
      ensures reply.NoDraft? <==> authorised && (!getOk || id !in drafts)
      ensures reply.NotOwner? <==> authorised && getOk && id in drafts && !Owns(caller, drafts[id])
      ensures reply.Answer? <==> authorised && getOk && id in drafts && Owns(caller, drafts[id]) && versionOk && drafts[id].channel in versions
      ensures reply.Answer? ==> reply.delta == Delta(state, drafts[id]) && (reply.valid <==> ValidAnswer(state, drafts[id]))
                                && reply.current == versions[drafts[id].channel] && (reply.valid <==> reply.delta <= 5)
                                && reply.current == reply.delta + drafts[id].roomVersion
    {
      if !authorised { return Denied; }
      var found := GetDraft(id, getOk);
      if found.None? { return NoDraft; }
      var d := found.value;
      if caller.Some? && d.agent != caller.value { return NotOwner; }
      var current, err := GetChannelRoomVersion(d.channel, versionOk);
      if err { return Unreadable; }
      var delta := current - d.roomVersion;
      return Answer(delta <= 5, current, delta);
    }

    // The error of the version read is dropped, and so is that of the status write.
    method HandleSendDraft(ghost h: nat, id: string, caller: Option<string>, force: bool, store: SendFaults,
                           ghost times: seq<int>, authorised: bool)
      returns (reply: SendReply)
      requires Valid() && h !in state.started && h !in state.handlers
      requires |times| == 4 && state.now <= times[0] <= times[1] <= times[2] <= times[3]
      modifies this
      ensures Valid()
      ensures reply == if authorised then SendOutcome(old(state), id, caller, force, store) else NotAuthorised
      ensures state == Run(old(state), SendTicks(h, id, caller, force, store, times, reply))
      // The message is posted if and only if the draft is there, the caller's and held, the version read late is
      // at most 5 ahead (or unreadable, or the send is forced), and the channel takes the message.
      ensures reply.Posted? <==>
                && authorised && store.getOk && id in old(drafts)
                && var d := old(drafts)[id];
                   && (caller == None || caller == Some(d.agent)) && d.status == Held
                   && (force || (if store.versionOk && d.channel in old(versions) then old(versions)[d.channel] else 0)
                                - d.roomVersion <= 5)
                   && d.channel in old(versions) && store.insertOk
      ensures reply.Posted? ==>
                drafts == if store.markOk then old(drafts)[id := old(drafts)[id].(status := Sent)] else old(drafts)
      ensures reply.Posted? ==>
                var channel := old(drafts)[id].channel;
                && versions == old(versions)[channel := old(versions)[channel] + 1]
                && |state.produced| == |old(state).produced| + 1 && state.produced[|old(state).produced|].id == id
      ensures !reply.Posted? ==> versions == old(versions) && drafts == old(drafts) && state.produced == old(state).produced
    {
      hide Step, Run, SendTicks;
      SendRun(state, h, id, caller, force, store, times);
      PostedExactly(state, id, caller, force, store);
      if !authorised { return NotAuthorised; }
      var found := GetDraft(id, store.getOk);
      if found.None? { return NotFound; }
      var d := found.value;
      if caller.Some? && d.agent != caller.value { return NotYours; }
      if d.status != Held { return NotHeld; }
      ReadStep(state, times[0], h, id, caller, force);
      state := Step(state, Tick(times[0], SendRead(h, id, caller, force)));
      CheckStep(state, times[1], h, store.versionOk);
      state := Step(state, Tick(times[1], SendVersion(h, store.versionOk)));
      var current, _ := GetChannelRoomVersion(d.channel, store.versionOk);
      var delta := current - d.roomVersion;
      if delta > 5 && !force { return Stale; }
      reply := Post(h, id, d, store, times[2], times[3]);
    }

    // The second half of HandleSendDraft.
    method Post(ghost h: nat, id: string, d: Draft, store: SendFaults, ghost postAt: int, ghost markAt: int)
      returns (reply: SendReply)
      requires Valid() && state.now <= postAt <= markAt
      requires h in state.handlers && state.handlers[h].SendChecked? && state.handlers[h].id == id && state.handlers[h].draft == d
      modifies this
      ensures Valid()
      ensures reply == if d.channel !in old(versions) || !store.insertOk then Failed else Posted
      ensures reply.Failed? ==>
                && state == Step(old(state), Tick(postAt, SendInsert(h, store.insertOk)))
                && versions == old(versions) && drafts == old(drafts) && state.produced == old(state).produced
      ensures reply.Posted? ==>
                && state == Step(Step(old(state), Tick(postAt, SendInsert(h, store.insertOk))), Tick(markAt, SendMark(h, store.markOk)))
                && versions == old(versions)[d.channel := old(versions)[d.channel] + 1]
                && drafts == (if store.markOk && id in old(drafts) then old(drafts)[id := old(drafts)[id].(status := Sent)]
                              else old(drafts))
                && |state.produced| == |old(state).produced| + 1 && state.produced[|old(state).produced|].id == id
    {
      hide Step;
      var err := CreateMessage(d.channel, store.insertOk);
      PostStep(state, postAt, h, store.insertOk);
      state := Step(state, Tick(postAt, SendInsert(h, store.insertOk)));
      if err { return Failed; }
      UpdateDraftStatus(id, Sent, store.markOk);
      MarkStep(state, markAt, h, store.markOk);
      state := Step(state, Tick(markAt, SendMark(h, store.markOk)));
      return Posted;
    }

    method HandleCancelDraft(id: string, at: int, ok: bool) returns (cancelled: bool)
      requires Valid() && state.now <= at
      modifies this
      ensures Valid() && cancelled == ok
      ensures drafts == if ok && id in old(drafts) then old(drafts)[id := old(drafts)[id].(status := Cancelled)] else old(drafts)
      ensures versions == old(versions)
      ensures state == Step(old(state), Tick(at, Cancel(id, ok)))
    {
      UpdateDraftStatus(id, Cancelled, ok);
      state := Step(state, Tick(at, Cancel(id, ok)));
      return ok;
    }

    // One UPDATE statement.
    method ExpireDrafts(at: int)
      requires Valid() && state.now <= at
      modifies this
      ensures Valid() && state == Step(old(state), Tick(at, Expire))
      ensures drafts.Keys == old(drafts).Keys && versions == old(versions)
      ensures forall id :: id in drafts ==>
                var d := old(drafts)[id];
                drafts[id] == if d.status == Held && 0 < d.expiresAt < at then d.(status := Expired) else d
    {
      drafts := map id | id in drafts ::
        if drafts[id].status == Held && 0 < drafts[id].expiresAt < at then drafts[id].(status := Expired) else drafts[id];
      state := Step(state, Tick(at, Expire));
    }
  }
}
