// Held drafts and the room version: optimistic concurrency between the draft handlers
// (internal/server/api/handlers_draft.go, handlers_ws.go) and everything else that posts messages.
// One store call is one atomic step, so handlers interleave between their store calls.
module Drafts {
  import opened Collections

  datatype Status = Held | Sent | Expired | Cancelled

  const MAX_DELTA := 5
  const DRAFT_LIFETIME := 600_000 // ten minutes, in milliseconds
  const SWEEP_PERIOD := 120_000 // two minutes

  // `mark` remembers how long the log of insertions was when the room version was read.
  datatype Draft = Draft(agent: string, channel: string, roomVersion: int, status: Status, createdAt: int,
                         expiresAt: int, mark: nat)

  // Where a handler stands between two of its store calls.
  datatype Handler =
    | Creating(agent: string, channel: string, roomVersion: int, expiresAt: int, mark: nat)
    | SendGot(id: string, draft: Draft, force: bool, readTime: int)
    | SendChecked(id: string, draft: Draft, force: bool, readTime: int, versionRead: bool, sendMark: nat)
    | SendPosted(id: string)

  // A message made from a draft, with the circumstances of the send.
  datatype Message = Message(id: string, draft: Draft, force: bool, readTime: int, versionRead: bool, sendMark: nat)

  datatype State = State(
    versions: map<string, int>,       // channels.room_version
    drafts: map<string, Draft>,       // held_drafts
    handlers: map<nat, Handler>,      // handlers in flight
    now: int,
    lastSweep: int,
    // History.
    log: seq<string>,                 // channel of every message ever inserted
    channelsEver: set<string>,
    draftsEver: set<string>,
    started: set<nat>,
    readers: set<(string, nat)>,      // send handlers that read the draft as held
    produced: seq<Message>)           // messages made from drafts

  datatype Event =
    | CreateChannel(channel: string)
    | DeleteChannel(channel: string)
    | OtherInsert(channel: string)
    | CreateRead(h: nat, agent: string, channel: string)
    | CreateInsert(h: nat, id: string, ok: bool)
      // A WebSocket caller must own the draft; a REST caller is not asked.
    | SendRead(h: nat, id: string, caller: Option<string>, force: bool)
    | SendVersion(h: nat, ok: bool)
    | SendInsert(h: nat, ok: bool)
    | SendMark(h: nat, ok: bool)
    | HandlerDies(h: nat)
    | Cancel(id: string, ok: bool)
    | RemoveDraft(id: string)
    | Expire

  datatype Tick = Tick(now: int, event: Event)

  function Start(now: int): State { State(map[], map[], map[], now, now, [], {}, {}, {}, {}, []) }

  // ---- The steps ----

  // INSERT INTO messages with the room-version trigger.
  function Inserted(s: State, channel: string): State
    requires channel in s.versions
  {
    s.(versions := s.versions[channel := s.versions[channel] + 1], log := s.log + [channel])
  }

  // GetChannelRoomVersion: the send handlers drop the error and go on with version 0.
  function ReadVersion(s: State, channel: string, ok: bool): int {
    if ok && channel in s.versions then s.versions[channel] else 0
  }

  function WithStatus(s: State, id: string, status: Status): State {
    if id in s.drafts then s.(drafts := s.drafts[id := s.drafts[id].(status := status)]) else s
  }

  function Swept(drafts: map<string, Draft>, now: int): map<string, Draft> {
    map id | id in drafts ::
      if drafts[id].status == Held && 0 < drafts[id].expiresAt < now then drafts[id].(status := Expired) else drafts[id]
  }

  function Done(s: State, h: nat): State { s.(handlers := s.handlers - {h}) }

  // One store call and the handler code up to the next one. A call nobody can make leaves the state alone.
  function Fire(s: State, e: Event): State {
    match e
    case CreateChannel(c) =>
      if c in s.channelsEver then s
      else s.(versions := s.versions[c := 0], channelsEver := s.channelsEver + {c})
    case DeleteChannel(c) =>
      s.(versions := s.versions - {c}, drafts := map id | id in s.drafts && s.drafts[id].channel != c :: s.drafts[id])
    case OtherInsert(c) => if c in s.versions then Inserted(s, c) else s
    case CreateRead(h, agent, c) =>
      if h in s.started || c !in s.versions then s
      else s.(started := s.started + {h},
              handlers := s.handlers[h := Creating(agent, c, s.versions[c], s.now + DRAFT_LIFETIME, |s.log|)])
    case CreateInsert(h, id, ok) =>
      if h !in s.handlers || !s.handlers[h].Creating? || id in s.draftsEver then s
      else
        var c := s.handlers[h];
        if !ok || c.channel !in s.versions then Done(s, h)
        else Done(s, h).(drafts := s.drafts[id := Draft(c.agent, c.channel, c.roomVersion, Held, s.now, c.expiresAt, c.mark)],
                         draftsEver := s.draftsEver + {id})
    case SendRead(h, id, caller, force) =>
      if h in s.started || id !in s.drafts || (caller.Some? && caller.value != s.drafts[id].agent)
         || s.drafts[id].status != Held then s
      else s.(started := s.started + {h}, readers := s.readers + {(id, h)},
              handlers := s.handlers[h := SendGot(id, s.drafts[id], force, s.now)])
    case SendVersion(h, ok) =>
      if h !in s.handlers || !s.handlers[h].SendGot? then s
      else
        var g := s.handlers[h];
        var delta := ReadVersion(s, g.draft.channel, ok) - g.draft.roomVersion;
        if delta > MAX_DELTA && !g.force then Done(s, h)
        else s.(handlers := s.handlers[h := SendChecked(g.id, g.draft, g.force, g.readTime,
                                                        ok && g.draft.channel in s.versions, |s.log|)])
    case SendInsert(h, ok) =>
      if h !in s.handlers || !s.handlers[h].SendChecked? then s
      else
        var c := s.handlers[h];
        if !ok || c.draft.channel !in s.versions then Done(s, h)
        else Inserted(s, c.draft.channel).(
             handlers := s.handlers[h := SendPosted(c.id)],
             produced := s.produced + [Message(c.id, c.draft, c.force, c.readTime, c.versionRead, c.sendMark)])
    case SendMark(h, ok) =>
      if h !in s.handlers || !s.handlers[h].SendPosted? then s
      else if ok then Done(WithStatus(s, s.handlers[h].id, Sent), h) else Done(s, h)
    case HandlerDies(h) => Done(s, h)
    case Cancel(id, ok) => if ok then WithStatus(s, id, Cancelled) else s
    case RemoveDraft(id) => s.(drafts := s.drafts - {id})
    case Expire => s.(drafts := Swept(s.drafts, s.now), lastSweep := s.now)
  }

  // The clock never goes back.
  function Step(s: State, t: Tick): State {
    if t.now < s.now then s else Fire(s.(now := t.now), t.event)
  }

  function Run(s: State, ts: seq<Tick>): State
    decreases |ts|
  {
    if ts == [] then s else Run(Step(s, ts[0]), ts[1..])
  }

  // ---- What the store holds after each write ----

  // Writes to the channels: a new channel starts at version 0, a message raises its channel's version by one
  // and goes into the log, a deleted channel takes its drafts along.
  lemma {:induction false} ChannelWrites(s: State, c: string)
    ensures var t := Fire(s, CreateChannel(c));
            c !in s.channelsEver ==> t.versions == s.versions[c := 0] && t.drafts == s.drafts
    ensures var t := Fire(s, OtherInsert(c));
            && (c in s.versions ==> t.versions == s.versions[c := s.versions[c] + 1] && t.log == s.log + [c])
            && (c !in s.versions ==> t == s)
    ensures var t := Fire(s, DeleteChannel(c));
            && t.versions == s.versions - {c}
            && (forall id :: id in t.drafts <==> id in s.drafts && s.drafts[id].channel != c)
            && (forall id :: id in t.drafts ==> t.drafts[id] == s.drafts[id])
  {
  }

  // Writes to a draft: a cancel that succeeds makes it cancelled whatever it was, a removal takes it out, a
  // sweep makes exactly the overdue held ones expired; nothing else changes.
  lemma {:induction false} DraftWrites(s: State, id: string)
    ensures Fire(s, Cancel(id, false)) == s
    ensures var t := Fire(s, Cancel(id, true));
            && t.versions == s.versions && t.log == s.log && t.handlers == s.handlers
            && t.drafts.Keys == s.drafts.Keys
            && (id in s.drafts ==> t.drafts[id].status == Cancelled && t.drafts[id] == s.drafts[id].(status := Cancelled))
            && (forall k :: k in s.drafts && k != id ==> t.drafts[k] == s.drafts[k])
    ensures Fire(s, RemoveDraft(id)).drafts == s.drafts - {id}
    ensures var t := Fire(s, Expire);
            && t.drafts.Keys == s.drafts.Keys && t.versions == s.versions && t.lastSweep == s.now
            && (id in s.drafts ==>
                  if s.drafts[id].status == Held && 0 < s.drafts[id].expiresAt < s.now
                  then t.drafts[id] == s.drafts[id].(status := Expired)
                  else t.drafts[id] == s.drafts[id])
  {
  }

  // ---- Counting insertions ----

  function Count(log: seq<string>, channel: string): nat {
    if log == [] then 0
    else Count(log[..|log| - 1], channel) + (if log[|log| - 1] == channel then 1 else 0)
  }

  lemma {:induction false} CountConcat(a: seq<string>, b: seq<string>, channel: string)
    ensures Count(a + b, channel) == Count(a, channel) + Count(b, channel)
  {
    if b == [] {
      assert a + b == a;
    } else {
      assert (a + b)[..|a + b| - 1] == a + b[..|b| - 1];
      CountConcat(a, b[..|b| - 1], channel);
    }
  }

  lemma {:induction false} CountBetween(log: seq<string>, i: nat, j: nat, channel: string)
    requires i <= j <= |log|
    ensures Count(log[i..j], channel) == Count(log[..j], channel) - Count(log[..i], channel)
  {
    CountConcat(log[..i], log[i..j], channel);
    assert log[..i] + log[i..j] == log[..j];
  }

  // ---- Versions ----

  // The recorded version is what the counter was at the mark.
  predicate Marked(log: seq<string>, channel: string, roomVersion: int, mark: nat) {
    mark <= |log| && roomVersion == Count(log[..mark], channel)
  }

  predicate DraftOk(log: seq<string>, d: Draft) { Marked(log, d.channel, d.roomVersion, d.mark) }

  // What an unforced send that could read the version has established.
  predicate Fresh(log: seq<string>, d: Draft, force: bool, versionRead: bool, sendMark: nat) {
    && DraftOk(log, d) && d.mark <= sendMark <= |log|
    && (!force && versionRead ==> Count(log[d.mark..sendMark], d.channel) <= MAX_DELTA)
  }

  predicate HandlerOk(log: seq<string>, h: Handler) {
    match h
    case Creating(_, c, v, _, mark) => Marked(log, c, v, mark)
    case SendGot(_, d, _, _) => DraftOk(log, d)
    case SendChecked(_, d, force, _, versionRead, sendMark) => Fresh(log, d, force, versionRead, sendMark)
    case SendPosted(_) => true
  }

  ghost predicate VersionInv(s: State) {
    && (forall c :: c in s.versions ==> c in s.channelsEver && s.versions[c] == Count(s.log, c))
    && (forall c :: c !in s.channelsEver ==> Count(s.log, c) == 0)
    && (forall id :: id in s.drafts ==> DraftOk(s.log, s.drafts[id]))
    && (forall h :: h in s.handlers ==> HandlerOk(s.log, s.handlers[h]))
    && (forall i :: 0 <= i < |s.produced| ==>
          var m := s.produced[i]; Fresh(s.log, m.draft, m.force, m.versionRead, m.sendMark))
  }

  // Everything said about a prefix of the log stays true when the log grows.
  lemma {:induction false} LogGrows(log: seq<string>, log': seq<string>)
    requires log <= log'
    ensures forall d :: DraftOk(log, d) ==> DraftOk(log', d)
    ensures forall h :: HandlerOk(log, h) ==> HandlerOk(log', h)
    ensures forall m: Message :: Fresh(log, m.draft, m.force, m.versionRead, m.sendMark)
                                 ==> Fresh(log', m.draft, m.force, m.versionRead, m.sendMark)
  {
    assert forall k: nat :: k <= |log| ==> log'[..k] == log[..k];
    assert forall i: nat, j: nat :: i <= j <= |log| ==> log'[i..j] == log[i..j];
  }

  lemma {:induction false} InsertedVersions(s: State, c: string)
    requires VersionInv(s) && c in s.versions
    ensures VersionInv(Inserted(s, c))
    ensures s.log <= Inserted(s, c).log
  {
    hide HandlerOk, DraftOk, Fresh;
    var s' := Inserted(s, c);
    LogGrows(s.log, s'.log);
    forall k: string
      ensures Count(s'.log, k) == Count(s.log, k) + (if k == c then 1 else 0)
    {
      assert s'.log[..|s'.log| - 1] == s.log;
    }
  }

  lemma {:induction false} MarkedNow(s: State, c: string)
    requires VersionInv(s) && c in s.versions
    ensures Marked(s.log, c, s.versions[c], |s.log|)
  {
    assert s.log[..|s.log|] == s.log;
  }

  // The staleness check passes exactly when it is overridden, or the version cannot be read, or at most
  // five messages went into the channel between the two reads.
  lemma {:induction false} CheckExact(s: State, g: Handler, ok: bool)
    requires VersionInv(s) && g.SendGot? && DraftOk(s.log, g.draft)
    ensures var d := g.draft;
            (ReadVersion(s, d.channel, ok) - d.roomVersion <= MAX_DELTA || g.force)
            <==> (g.force || !ok || d.channel !in s.versions || Count(s.log[d.mark..], d.channel) <= 5)
  {
    var d := g.draft;
    CountBetween(s.log, d.mark, |s.log|, d.channel);
    assert s.log[..|s.log|] == s.log && s.log[d.mark..|s.log|] == s.log[d.mark..];
  }

  lemma {:induction false} SendVersionKeeps(s: State, h: nat, ok: bool)
    requires VersionInv(s)
    ensures VersionInv(Fire(s, SendVersion(h, ok)))
  {
    if h in s.handlers && s.handlers[h].SendGot? {
      CheckExact(s, s.handlers[h], ok);
      assert s.log[s.handlers[h].draft.mark..|s.log|] == s.log[s.handlers[h].draft.mark..];
    }
  }

  lemma {:induction false} FireKeepsVersions(s: State, e: Event)
    requires VersionInv(s)
    ensures VersionInv(Fire(s, e))
    ensures s.log <= Fire(s, e).log
  {
    hide HandlerOk, DraftOk, Fresh, Count;
    match e
    case OtherInsert(c) => if c in s.versions { InsertedVersions(s, c); }
    case CreateRead(h, _, c) => CreateReadKeeps(s, e);
    case CreateInsert(h, _, _) => CreateInsertKeeps(s, e);
    case SendRead(h, _, _, _) => SendReadKeeps(s, e);
    case SendVersion(h, ok) => SendVersionKeeps(s, h, ok);
    case SendInsert(h, ok) => SendInsertKeeps(s, e);
    case SendMark(_, _) => StatusKeeps(s, e);
    case Cancel(_, _) => StatusKeeps(s, e);
    case Expire => StatusKeeps(s, e);
    case _ =>
  }

  lemma {:induction false} CreateReadKeeps(s: State, e: Event)
    requires VersionInv(s) && e.CreateRead?
    ensures VersionInv(Fire(s, e))
  {
    hide Count, Fresh, Marked;
    if e.channel in s.versions {
      MarkedNow(s, e.channel);
    }
  }

  lemma {:induction false} CreateInsertKeeps(s: State, e: Event)
    requires VersionInv(s) && e.CreateInsert?
    ensures VersionInv(Fire(s, e))
  {
    hide Count, Fresh, Marked;
  }

  lemma {:induction false} SendReadKeeps(s: State, e: Event)
    requires VersionInv(s) && e.SendRead?
    ensures VersionInv(Fire(s, e))
  {
    hide Count, Fresh, Marked;
  }

  // Statuses play no part.
  lemma {:induction false} StatusKeeps(s: State, e: Event)
    requires VersionInv(s) && (e.SendMark? || e.Cancel? || e.Expire?)
    ensures VersionInv(Fire(s, e))
  {
    hide Count, Fresh, HandlerOk, Marked;
  }

  lemma {:induction false} SendInsertKeeps(s: State, e: Event)
    requires VersionInv(s) && e.SendInsert?
    ensures VersionInv(Fire(s, e))
  {
    hide Count, Marked;
    if e.h in s.handlers && s.handlers[e.h].SendChecked? && e.ok && s.handlers[e.h].draft.channel in s.versions {
      InsertedVersions(s, s.handlers[e.h].draft.channel);
      LogGrows(s.log, Inserted(s, s.handlers[e.h].draft.channel).log);
    }
  }

  lemma {:induction false} RunKeepsVersions(s: State, ts: seq<Tick>)
    requires VersionInv(s)
    ensures VersionInv(Run(s, ts)) && s.log <= Run(s, ts).log
    decreases |ts|
  {
    hide VersionInv, Fire;
    if ts != [] {
      TickKeepsVersions(s, ts[0]);
      RunKeepsVersions(Step(s, ts[0]), ts[1..]);
    }
  }

  lemma {:induction false} TickKeepsVersions(s: State, t: Tick)
    requires VersionInv(s)
    ensures VersionInv(Step(s, t)) && s.log <= Step(s, t).log
  {
    hide Fire, Count, HandlerOk, DraftOk, Fresh;
    if t.now >= s.now {
      ClockIrrelevant(s, t.now);
      FireKeepsVersions(s.(now := t.now), t.event);
    }
  }

  lemma {:induction false} ClockIrrelevant(s: State, now: int)
    requires VersionInv(s)
    ensures VersionInv(s.(now := now))
  {
    hide Count;
  }

  // room_version is the number of messages ever inserted into the channel, and never falls.
  lemma {:induction false} RoomVersionIsCount(now: int, ts: seq<Tick>, more: seq<Tick>, channel: string)
    ensures var s := Run(Start(now), ts);
            var s' := Run(s, more);
            && (channel in s.versions ==> s.versions[channel] == Count(s.log, channel))
            && (channel in s.versions && channel in s'.versions ==> s.versions[channel] <= s'.versions[channel])
  {
    RunKeepsVersions(Start(now), ts);
    var s := Run(Start(now), ts);
    RunKeepsVersions(s, more);
    var s' := Run(s, more);
    CountConcat(s.log, s'.log[|s.log|..], channel);
    assert s.log + s'.log[|s.log|..] == s'.log;
  }

  // Over every interleaving: an unforced send that could read the version goes through only if at most
  // five messages were inserted into its channel between the version read at creation and the one at send.
  lemma {:induction false} StalenessBound(now: int, ts: seq<Tick>, i: nat)
    requires i < |Run(Start(now), ts).produced|
    ensures var s := Run(Start(now), ts);
            var m := s.produced[i];
            && m.draft.mark <= m.sendMark <= |s.log|
            && (!m.force && m.versionRead ==> Count(s.log[m.draft.mark..m.sendMark], m.draft.channel) <= 5)
  {
    RunKeepsVersions(Start(now), ts);
  }

  // ---- Validation answers ----

  // handleValidateDraft: the answer as of the version read.
  function Delta(s: State, d: Draft): int
    requires d.channel in s.versions
  {
    s.versions[d.channel] - d.roomVersion
  }

  predicate ValidAnswer(s: State, d: Draft)
    requires d.channel in s.versions
  {
    Delta(s, d) <= MAX_DELTA
  }

  // A later answer for the same draft is valid if and only if the inserts in between fit in what the
  // earlier delta left of the allowance; in particular an invalid answer stays invalid.
  lemma {:induction false} ValidationLifetime(now: int, ts: seq<Tick>, more: seq<Tick>, d: Draft)
    requires var s := Run(Start(now), ts);
             d.channel in s.versions && d.channel in Run(s, more).versions
    ensures var s := Run(Start(now), ts);
            var s' := Run(s, more);
            && |s.log| <= |s'.log|
            && (ValidAnswer(s', d) <==> Count(s'.log[|s.log|..], d.channel) <= 5 - Delta(s, d))
            && (!ValidAnswer(s, d) ==> !ValidAnswer(s', d))
            && (ValidAnswer(s, d) <==> s.versions[d.channel] - d.roomVersion <= 5)
  {
    RunKeepsVersions(Start(now), ts);
    var s := Run(Start(now), ts);
    RunKeepsVersions(s, more);
    var s' := Run(s, more);
    CountConcat(s.log, s'.log[|s.log|..], d.channel);
    assert s.log + s'.log[|s.log|..] == s'.log;
  }
}
