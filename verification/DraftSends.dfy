// How often and how late a held draft can be sent, over every interleaving of the handlers.
module DraftSends {
  import opened Collections
  import opened Drafts

  // ---- Counting sends ----

  // A send handler that may still post the draft.
  predicate IsPending(h: Handler, id: string) { (h.SendGot? || h.SendChecked?) && h.id == id }

  // A send handler that has posted and not yet written the status.
  predicate IsPosted(h: Handler, id: string) { h.SendPosted? && h.id == id }

  predicate InFlight(h: Handler, id: string) { IsPending(h, id) || IsPosted(h, id) }

  function PendingOf(s: State, id: string): set<nat> {
    set h | h in s.handlers && IsPending(s.handlers[h], id)
  }

  function ReadersOf(s: State, id: string): set<nat> {
    set r | r in s.readers && r.0 == id :: r.1
  }

  // Messages made from the draft.
  function SentCount(produced: seq<Message>, id: string): nat {
    if produced == [] then 0
    else
      var last := |produced| - 1;
      SentCount(produced[..last], id) + (if produced[last].id == id then 1 else 0)
  }

  lemma {:induction false} SentOneMore(produced: seq<Message>, m: Message, id: string)
    ensures SentCount(produced + [m], id) == SentCount(produced, id) + (if m.id == id then 1 else 0)
  {
    assert (produced + [m])[..|produced|] == produced;
  }

  // ---- At most one message per handler that read the draft as held ----

  ghost predicate IdsInv(s: State) {
    && (forall h :: h in s.handlers ==> h in s.started)
    && (forall r :: r in s.readers ==> r.1 in s.started && r.0 in s.draftsEver)
    && (forall id :: id in s.drafts ==> id in s.draftsEver)
    && (forall h, id :: h in s.handlers && InFlight(s.handlers[h], id) ==> id in s.draftsEver)
  }

  lemma {:induction false} FireKeepsIds(s: State, e: Event)
    requires IdsInv(s)
    ensures IdsInv(Fire(s, e))
  {
  }

  // Messages made from the draft, or that a send handler in flight may still make.
  function Committed(s: State, id: string): nat { SentCount(s.produced, id) + |PendingOf(s, id)| }

  // A send handler reads the draft as held.
  predicate Reads(s: State, e: Event, id: string) {
    && e.SendRead? && e.id == id && e.h !in s.started && id in s.drafts
    && (e.caller.None? || e.caller.value == s.drafts[id].agent) && s.drafts[id].status == Held
  }

  lemma {:induction false} SendReadEffect(s: State, e: Event)
    requires e.SendRead?
    ensures var s' := Fire(s, e);
            s' == s || (&& e.h !in s.started && e.id in s.drafts
                        && s'.readers == s.readers + {(e.id, e.h)} && s'.produced == s.produced
                        && s'.handlers == s.handlers[e.h := SendGot(e.id, s.drafts[e.id], e.force, s.now)])
  {
  }

  lemma {:induction false} PendingGain(s: State, s': State, i: string, h: nat, id: string)
    requires h !in s.handlers
    requires exists d, force, t :: s'.handlers == s.handlers[h := SendGot(i, d, force, t)]
    ensures PendingOf(s', id) == PendingOf(s, id) + (if i == id then {h} else {})
    ensures h !in PendingOf(s, id)
  {
  }

  lemma {:induction false} PendingWasPending(s: State, e: Event, id: string, h: nat)
    requires !e.SendRead? && h in PendingOf(Fire(s, e), id)
    ensures h in PendingOf(s, id)
  {
  }

  lemma {:induction false} ReadCommits(s: State, e: Event, id: string)
    requires IdsInv(s) && e.SendRead?
    ensures Committed(Fire(s, e), id) == Committed(s, id) + (if Reads(s, e, id) then 1 else 0)
  {
    SendReadEffect(s, e);
    var s' := Fire(s, e);
    if s' != s {
      PendingGain(s, s', e.id, e.h, id);
    }
    ReadTakesEffect(s, e, id);
    hide SentCount, Fire;
  }

  lemma {:induction false} ReadTakesEffect(s: State, e: Event, id: string)
    requires e.SendRead?
    ensures Reads(s, e, id) <==> Fire(s, e) != s && e.id == id
  {
    if Reads(s, e, id) {
      assert e.h in Fire(s, e).started;
    }
  }

  lemma {:induction false} InsertCommits(s: State, e: Event, id: string)
    requires e.SendInsert?
    ensures Committed(Fire(s, e), id) <= Committed(s, id)
  {
    hide SentCount;
    var s' := Fire(s, e);
    if s' != s {
      assert PendingOf(s', id) == PendingOf(s, id) - {e.h};
      if s'.produced != s.produced {
        SentOneMore(s.produced, s'.produced[|s.produced|], id);
        assert IsPending(s.handlers[e.h], id) <==> s.handlers[e.h].id == id;
      }
    }
  }

  lemma {:induction false} OtherCommits(s: State, e: Event, id: string)
    requires !e.SendRead? && !e.SendInsert?
    ensures Committed(Fire(s, e), id) <= Committed(s, id)
  {
    hide SentCount;
    var s' := Fire(s, e);
    forall h | h in PendingOf(s', id)
      ensures h in PendingOf(s, id)
    {
      PendingWasPending(s, e, id, h);
    }
    SubsetNoLarger(PendingOf(s', id), PendingOf(s, id));
    assert s'.produced == s.produced;
  }

  ghost predicate SendInv(s: State, id: string) {
    IdsInv(s) && Committed(s, id) <= |ReadersOf(s, id)|
  }

  lemma {:induction false} SendReadCounts(s: State, e: Event, id: string)
    requires SendInv(s, id) && e.SendRead?
    ensures SendInv(Fire(s, e), id)
  {
    FireKeepsIds(s, e);
    SendReadEffect(s, e);
    hide SentCount, Fire;
    var s' := Fire(s, e);
    if s' != s {
      ReadersGain(s, s', e.id, e.h, id);
      PendingGain(s, s', e.id, e.h, id);
      assert e.h !in ReadersOf(s, id);
    }
  }

  lemma {:induction false} ReadersGain(s: State, s': State, i: string, h: nat, id: string)
    requires s'.readers == s.readers + {(i, h)}
    ensures ReadersOf(s', id) == ReadersOf(s, id) + (if i == id then {h} else {})
  {
    assert (i, h) in s'.readers;
  }

  lemma {:induction false} SendInsertCounts(s: State, e: Event, id: string)
    requires SendInv(s, id) && e.SendInsert?
    ensures SendInv(Fire(s, e), id)
  {
    FireKeepsIds(s, e);
    InsertCommits(s, e, id);
    assert Fire(s, e).readers == s.readers;
    hide SentCount, PendingOf, IdsInv, Fire;
  }

  lemma {:induction false} OtherCounts(s: State, e: Event, id: string)
    requires SendInv(s, id) && !e.SendRead? && !e.SendInsert?
    ensures SendInv(Fire(s, e), id)
  {
    FireKeepsIds(s, e);
    OtherCommits(s, e, id);
    assert Fire(s, e).readers == s.readers;
    hide SentCount, PendingOf, IdsInv, Fire;
  }

  lemma {:induction false} RunCounts(s: State, ts: seq<Tick>, id: string)
    requires SendInv(s, id)
    ensures SendInv(Run(s, ts), id)
    decreases |ts|
  {
    if ts != [] {
      hide SentCount, Fire;
      var t := ts[0];
      if t.now >= s.now {
        var s1 := s.(now := t.now);
        assert PendingOf(s1, id) == PendingOf(s, id) && ReadersOf(s1, id) == ReadersOf(s, id);
        if t.event.SendRead? {
          SendReadCounts(s1, t.event, id);
        } else if t.event.SendInsert? {
          SendInsertCounts(s1, t.event, id);
        } else {
          OtherCounts(s1, t.event, id);
        }
      }
      RunCounts(Step(s, t), ts[1..], id);
    }
  }

  // ---- Held is never re-entered ----

  // The draft exists or existed, and is not held.
  predicate Settled(s: State, id: string) {
    id in s.draftsEver && (id in s.drafts ==> s.drafts[id].status != Held)
  }

  lemma {:induction false} SettledStep(s: State, t: Tick, id: string)
    requires Settled(s, id)
    ensures Settled(Step(s, t), id)
    ensures forall h :: (id, h) in Step(s, t).readers ==> (id, h) in s.readers
  {
  }

  lemma {:induction false} SettledStays(s: State, ts: seq<Tick>, id: string)
    requires Settled(s, id)
    ensures Settled(Run(s, ts), id)
    ensures forall h :: (id, h) in Run(s, ts).readers ==> (id, h) in s.readers
    decreases |ts|
  {
    hide Settled, Step;
    if ts != [] {
      SettledStep(s, ts[0], id);
      SettledStays(Step(s, ts[0]), ts[1..], id);
    }
  }

  lemma {:induction false} RunConcat(s: State, a: seq<Tick>, b: seq<Tick>)
    ensures Run(s, a + b) == Run(Run(s, a), b)
    decreases |a|
  {
    hide Step;
    if a == [] {
      assert a + b == b;
    } else {
      assert (a + b)[1..] == a[1..] + b;
      RunConcat(Step(s, a[0]), a[1..], b);
    }
  }

  lemma {:induction false} StartCounts(now: int, id: string)
    ensures SendInv(Start(now), id)
  {
    assert PendingOf(Start(now), id) == {};
  }

  // Over every interleaving, the messages made from a draft number at most the send handlers that read
  // it as held.
  lemma {:induction false} SendsBounded(now: int, ts: seq<Tick>, id: string)
    ensures var s := Run(Start(now), ts); SentCount(s.produced, id) <= |ReadersOf(s, id)|
  {
    StartCounts(now, id);
    RunCounts(Start(now), ts, id);
  }

  // Once its status has changed for the first time, no later event adds to that number: the messages ever
  // made from the draft are bounded by the handlers that had read it by then.
  lemma {:induction false} SendsBoundedByEarlyReaders(now: int, ts: seq<Tick>, more: seq<Tick>, id: string)
    requires Settled(Run(Start(now), ts), id)
    ensures var s := Run(Start(now), ts);
            var s' := Run(s, more);
            && Settled(s', id)
            && SentCount(s'.produced, id) <= |ReadersOf(s, id)|
  {
    hide Settled, SentCount;
    var s := Run(Start(now), ts);
    var s' := Run(s, more);
    RunConcat(Start(now), ts, more);
    SendsBounded(now, ts + more, id);
    SettledStays(s, more, id);
    assert ReadersOf(s', id) <= ReadersOf(s, id) by {
      forall h | h in ReadersOf(s', id)
        ensures h in ReadersOf(s, id)
      {
        assert (id, h) in s'.readers;
        assert (id, h) in s.readers;
      }
    }
    SubsetNoLarger(ReadersOf(s', id), ReadersOf(s, id));
  }

  // A cancel that succeeds settles the draft for good: whatever happens afterwards, no handler reads it as
  // held any more, and the messages ever made from it number at most the handlers that had read it by then.
  lemma {:induction false} CancelSettles(now: int, ts: seq<Tick>, at: int, more: seq<Tick>, id: string)
    requires var s := Run(Start(now), ts); id in s.drafts && s.now <= at
    ensures var s := Run(Start(now), ts);
            var cancelled := Step(s, Tick(at, Cancel(id, true)));
            var s' := Run(cancelled, more);
            && id in cancelled.drafts && cancelled.drafts[id].status == Cancelled
            && (id in s'.drafts ==> s'.drafts[id].status != Held)
            && (forall h :: (id, h) in s'.readers ==> (id, h) in s.readers)
            && SentCount(s'.produced, id) <= |ReadersOf(s, id)|
  {
    var s := Run(Start(now), ts);
    var cancel := [Tick(at, Cancel(id, true))];
    var cancelled := Step(s, cancel[0]);
    StartCounts(now, id);
    RunCounts(Start(now), ts, id);
    RunConcat(Start(now), ts, cancel);
    assert cancel[1..] == [];
    assert Run(s, cancel) == cancelled;
    assert cancelled.readers == s.readers && Settled(cancelled, id);
    assert ReadersOf(cancelled, id) == ReadersOf(s, id);
    hide Run, SentCount, ReadersOf, Step;
    SendsBoundedByEarlyReaders(now, ts + cancel, more, id);
    SettledStays(cancelled, more, id);
  }

  // ---- Sends that do not overlap ----

  // Sends of this draft do not overlap, their status writes succeed and they run to the end.
  predicate Orderly(s: State, e: Event, id: string) {
    match e
    case SendRead(_, i, _, _) => i == id ==> forall h :: h in s.handlers ==> !InFlight(s.handlers[h], id)
    case SendMark(h, ok) => h in s.handlers && IsPosted(s.handlers[h], id) ==> ok
    case HandlerDies(h) => h in s.handlers ==> !IsPosted(s.handlers[h], id)
    case _ => true
  }

  predicate OrderlyRun(s: State, ts: seq<Tick>, id: string)
    decreases |ts|
  {
    ts == [] || (Orderly(s, ts[0].event, id) && OrderlyRun(Step(s, ts[0]), ts[1..], id))
  }

  ghost predicate OnceInv(s: State, id: string) {
    && IdsInv(s)
    && (forall h, k :: h in s.handlers && k in s.handlers && InFlight(s.handlers[h], id) && InFlight(s.handlers[k], id)
                       ==> h == k)
    && SentCount(s.produced, id) <= 1
    && (forall h :: h in s.handlers && IsPending(s.handlers[h], id) ==> SentCount(s.produced, id) == 0)
    && (SentCount(s.produced, id) == 1 && id in s.drafts && s.drafts[id].status == Held ==>
          exists h :: h in s.handlers && IsPosted(s.handlers[h], id))
    && (id !in s.draftsEver ==> SentCount(s.produced, id) == 0)
  }

  // A posted send stays in flight when another handler moves.
  lemma {:induction false} StillPosted(s: State, s': State, moved: nat, id: string)
    requires forall h :: h in s.handlers && h != moved ==> h in s'.handlers && s'.handlers[h] == s.handlers[h]
    requires moved in s.handlers ==> !IsPosted(s.handlers[moved], id)
    ensures (exists h :: h in s.handlers && IsPosted(s.handlers[h], id))
            ==> exists h :: h in s'.handlers && IsPosted(s'.handlers[h], id)
  {
    if exists h :: h in s.handlers && IsPosted(s.handlers[h], id) {
      var h :| h in s.handlers && IsPosted(s.handlers[h], id);
      assert s'.handlers[h] == s.handlers[h];
    }
  }

  // A send that posts: it was the only one in flight, and nothing had been posted before.
  lemma {:induction false} OnceInsert(s: State, e: Event, id: string)
    requires OnceInv(s, id) && e.SendInsert?
    ensures OnceInv(Fire(s, e), id)
  {
    FireKeepsIds(s, e);
    hide SentCount, IdsInv;
    var s' := Fire(s, e);
    if s' != s {
      if s'.produced == s.produced {
        HandlerMoved(s, s', e.h, id);
      } else {
        SentOneMore(s.produced, s'.produced[|s.produced|], id);
        OncePosted(s, s', e.h, id);
      }
    }
  }

  lemma {:induction false} OncePosted(s: State, s': State, h: nat, id: string)
    requires OnceInv(s, id) && IdsInv(s')
    requires h in s.handlers && s.handlers[h].SendChecked?
    requires s'.handlers == s.handlers[h := SendPosted(s.handlers[h].id)]
    requires s'.drafts == s.drafts && s'.draftsEver == s.draftsEver
    requires SentCount(s'.produced, id) == SentCount(s.produced, id) + (if s.handlers[h].id == id then 1 else 0)
    ensures OnceInv(s', id)
  {
    hide SentCount;
    StillPosted(s, s', h, id);
    if s.handlers[h].id == id {
      assert IsPending(s.handlers[h], id) && IsPosted(s'.handlers[h], id);
      assert InFlight(s.handlers[h], id);
    }
  }

  lemma {:induction false} OnceRead(s: State, e: Event, id: string)
    requires OnceInv(s, id) && e.SendRead? && Orderly(s, e, id)
    ensures OnceInv(Fire(s, e), id)
  {
    FireKeepsIds(s, e);
    hide SentCount, IdsInv;
    var s' := Fire(s, e);
    if s' != s {
      StillPosted(s, s', e.h, id);
    }
  }

  lemma {:induction false} OnceMark(s: State, e: Event, id: string)
    requires OnceInv(s, id) && e.SendMark? && Orderly(s, e, id)
    ensures OnceInv(Fire(s, e), id)
  {
    FireKeepsIds(s, e);
    hide SentCount, IdsInv;
    var s' := Fire(s, e);
    if s' != s && !IsPosted(s.handlers[e.h], id) {
      StillPosted(s, s', e.h, id);
    }
  }

  // A handler starts, moves on without posting, or ends.
  lemma {:induction false} HandlerMoved(s: State, s': State, moved: nat, id: string)
    requires OnceInv(s, id) && IdsInv(s')
    requires s'.produced == s.produced && s.draftsEver <= s'.draftsEver
    requires forall h :: h in s'.handlers && h != moved ==> h in s.handlers && s'.handlers[h] == s.handlers[h]
    requires forall h :: h in s.handlers && h != moved ==> h in s'.handlers
    requires moved in s.handlers ==> !IsPosted(s.handlers[moved], id)
    requires moved in s'.handlers && InFlight(s'.handlers[moved], id)
             ==> moved in s.handlers && IsPending(s.handlers[moved], id) && IsPending(s'.handlers[moved], id)
    requires SentCount(s.produced, id) == 1 && id in s'.drafts && s'.drafts[id].status == Held
             ==> id in s.drafts && s.drafts[id].status == Held
    ensures OnceInv(s', id)
  {
    hide SentCount, IdsInv;
    StillPosted(s, s', moved, id);
  }

  lemma {:induction false} OnceCreate(s: State, e: Event, id: string)
    requires OnceInv(s, id) && (e.CreateRead? || e.CreateInsert?)
    ensures OnceInv(Fire(s, e), id)
  {
    FireKeepsIds(s, e);
    hide SentCount;
    var s' := Fire(s, e);
    if s' != s {
      HandlerMoved(s, s', e.h, id);
    }
  }

  lemma {:induction false} OnceMove(s: State, e: Event, id: string)
    requires OnceInv(s, id) && Orderly(s, e, id)
    requires e.SendVersion? || e.HandlerDies?
    ensures OnceInv(Fire(s, e), id)
  {
    FireKeepsIds(s, e);
    hide SentCount, IdsInv;
    var s' := Fire(s, e);
    if s' != s {
      HandlerMoved(s, s', e.h, id);
    }
  }

  lemma {:induction false} OnceQuiet(s: State, e: Event, id: string)
    requires OnceInv(s, id)
    requires !e.CreateRead? && !e.CreateInsert? && !e.SendRead? && !e.SendVersion? && !e.SendInsert? && !e.SendMark?
             && !e.HandlerDies?
    ensures OnceInv(Fire(s, e), id)
  {
    FireKeepsIds(s, e);
    hide SentCount, IdsInv;
    var s' := Fire(s, e);
    assert s'.handlers == s.handlers && s'.produced == s.produced && s.draftsEver == s'.draftsEver;
  }

  lemma {:induction false} OnceStep(s: State, e: Event, id: string)
    requires OnceInv(s, id) && Orderly(s, e, id)
    ensures OnceInv(Fire(s, e), id)
  {
    hide OnceInv, Fire, Orderly;
    if e.SendInsert? {
      OnceInsert(s, e, id);
    } else if e.SendRead? {
      OnceRead(s, e, id);
    } else if e.SendMark? {
      OnceMark(s, e, id);
    } else if e.CreateRead? || e.CreateInsert? {
      OnceCreate(s, e, id);
    } else if e.SendVersion? || e.HandlerDies? {
      OnceMove(s, e, id);
    } else {
      OnceQuiet(s, e, id);
    }
  }

  lemma {:induction false} OnceRun(s: State, ts: seq<Tick>, id: string)
    requires OnceInv(s, id) && OrderlyRun(s, ts, id)
    ensures OnceInv(Run(s, ts), id)
    decreases |ts|
  {
    if ts != [] {
      hide SentCount, Fire;
      var t := ts[0];
      if t.now >= s.now {
        OnceStep(s.(now := t.now), t.event, id);
      }
      OnceRun(Step(s, t), ts[1..], id);
    }
  }

  // At most one message, when sends of the draft do not overlap and their status writes succeed.
  lemma {:induction false} AtMostOneMessage(now: int, ts: seq<Tick>, id: string)
    requires OrderlyRun(Start(now), ts, id)
    ensures SentCount(Run(Start(now), ts).produced, id) <= 1
  {
    OnceRun(Start(now), ts, id);
  }

  // ---- Exactly when a draft makes at most one message ----

  // A send handler reads the draft as held only when no earlier send of it has posted or can still post.
  predicate ReadsAlone(s: State, t: Tick, id: string) {
    t.now >= s.now && Reads(s, t.event, id) ==> Committed(s, id) == 0
  }

  predicate AllReadAlone(s: State, ts: seq<Tick>, id: string)
    decreases |ts|
  {
    ts == [] || (ReadsAlone(s, ts[0], id) && AllReadAlone(Step(s, ts[0]), ts[1..], id))
  }

  predicate OneThroughout(s: State, ts: seq<Tick>, id: string)
    decreases |ts|
  {
    Committed(s, id) <= 1 && (ts == [] || OneThroughout(Step(s, ts[0]), ts[1..], id))
  }

  lemma {:induction false} TickCommits(s: State, t: Tick, id: string)
    requires IdsInv(s) && Committed(s, id) <= 1
    ensures IdsInv(Step(s, t))
    ensures Committed(Step(s, t), id) <= 1 <==> ReadsAlone(s, t, id)
  {
    if t.now >= s.now {
      var s1, e := s.(now := t.now), t.event;
      assert IdsInv(s1);
      assert PendingOf(s1, id) == PendingOf(s, id);
      FireKeepsIds(s1, e);
      hide Fire, SentCount, PendingOf, IdsInv;
      if e.SendRead? {
        ReadCommits(s1, e, id);
      } else if e.SendInsert? {
        InsertCommits(s1, e, id);
      } else {
        OtherCommits(s1, e, id);
      }
    }
  }

  // At every point of a run the draft has made or can still make at most one message, if and only if every
  // send handler that reads it as held does so when no earlier send of it has posted or can still post.
  lemma {:induction false} AtMostOneExactly(s: State, ts: seq<Tick>, id: string)
    requires IdsInv(s) && Committed(s, id) <= 1
    ensures OneThroughout(s, ts, id) <==> AllReadAlone(s, ts, id)
    decreases |ts|
  {
    hide Committed, Step, ReadsAlone, IdsInv;
    if ts != [] {
      TickCommits(s, ts[0], id);
      if ReadsAlone(s, ts[0], id) {
        AtMostOneExactly(Step(s, ts[0]), ts[1..], id);
      }
    }
  }

  // Read from the start.
  lemma {:induction false} OneMessageExactly(now: int, ts: seq<Tick>, id: string)
    ensures OneThroughout(Start(now), ts, id) <==> AllReadAlone(Start(now), ts, id)
    ensures AllReadAlone(Start(now), ts, id) ==> SentCount(Run(Start(now), ts).produced, id) <= 1
  {
    StartCounts(now, id);
    AtMostOneExactly(Start(now), ts, id);
    if AllReadAlone(Start(now), ts, id) {
      OneAtTheEnd(Start(now), ts, id);
    }
  }

  lemma {:induction false} OneAtTheEnd(s: State, ts: seq<Tick>, id: string)
    requires OneThroughout(s, ts, id)
    ensures Committed(Run(s, ts), id) <= 1
    decreases |ts|
  {
    hide Committed, Step;
    if ts != [] {
      OneAtTheEnd(Step(s, ts[0]), ts[1..], id);
    }
  }

  // The handlers in flight go on one after the other; the version reads fail, so none of them is refused.
  function PostAll(s: State, hs: seq<nat>): seq<Tick> {
    if hs == [] then []
    else [Tick(s.now, SendVersion(hs[0], false)), Tick(s.now, SendInsert(hs[0], true))] + PostAll(s, hs[1..])
  }

  // Handlers in flight whose channel still exists.
  predicate CanPost(s: State, h: nat, id: string) {
    && h in s.handlers && IsPending(s.handlers[h], id)
    && s.handlers[h].draft.channel in s.versions && s.handlers[h].draft.roomVersion >= 0
  }

  lemma {:induction false} OnePosts(s: State, h: nat, id: string)
    requires CanPost(s, h, id)
    ensures var s' := Step(Step(s, Tick(s.now, SendVersion(h, false))), Tick(s.now, SendInsert(h, true)));
            && s'.now == s.now && SentCount(s'.produced, id) == SentCount(s.produced, id) + 1
            && (forall k :: k != h && CanPost(s, k, id) ==> CanPost(s', k, id))
  {
    hide SentCount;
    var s1 := Step(s, Tick(s.now, SendVersion(h, false)));
    assert s1.handlers[h].SendChecked? && s1.handlers[h].id == id && s1.versions == s.versions && s1.produced == s.produced;
    var s2 := Step(s1, Tick(s.now, SendInsert(h, true)));
    SentOneMore(s.produced, s2.produced[|s.produced|], id);
  }

  lemma {:induction false} AllCanPost(s: State, hs: seq<nat>, id: string)
    requires Distinct(hs) && forall h :: h in hs ==> CanPost(s, h, id)
    ensures SentCount(Run(s, PostAll(s, hs)).produced, id) == SentCount(s.produced, id) + |hs|
    decreases |hs|
  {
    hide SentCount, CanPost, Step;
    if hs != [] {
      var check, post := Tick(s.now, SendVersion(hs[0], false)), Tick(s.now, SendInsert(hs[0], true));
      var s' := Step(Step(s, check), post);
      OnePosts(s, hs[0], id);
      forall h | h in hs[1..]
        ensures CanPost(s', h, id)
      {
        assert h in hs && h != hs[0];
      }
      SameClock(s, s', hs[1..]);
      AllCanPost(s', hs[1..], id);
      Run2(s, check, post, PostAll(s, hs[1..]));
    }
  }

  // The count is not too cautious: while the channel exists, the handlers in flight can go on to make every
  // message committed, with no further read of the draft.
  lemma {:induction false} CommittedIsReached(now: int, ts: seq<Tick>, id: string) returns (more: seq<Tick>)
    requires var s := Run(Start(now), ts); forall h :: h in PendingOf(s, id) ==> s.handlers[h].draft.channel in s.versions
    ensures var s := Run(Start(now), ts);
            && SentCount(Run(s, more).produced, id) == Committed(s, id)
            && forall i :: 0 <= i < |more| ==> !more[i].event.SendRead?
  {
    var s := Run(Start(now), ts);
    RunKeepsVersions(Start(now), ts);
    var hs := InSomeOrder(PendingOf(s, id));
    forall h | h in hs
      ensures CanPost(s, h, id)
    {
      assert HandlerOk(s.log, s.handlers[h]);
    }
    hide Run, SentCount;
    AllCanPost(s, hs, id);
    NoReads(s, hs);
    more := PostAll(s, hs);
  }

  lemma {:induction false} NoReads(s: State, hs: seq<nat>)
    ensures forall i :: 0 <= i < |PostAll(s, hs)| ==> !PostAll(s, hs)[i].event.SendRead?
  {
    if hs != [] {
      NoReads(s, hs[1..]);
    }
  }

  lemma {:induction false} SameClock(s: State, s': State, hs: seq<nat>)
    requires s.now == s'.now
    ensures PostAll(s, hs) == PostAll(s', hs)
  {
    if hs != [] {
      SameClock(s, s', hs[1..]);
    }
  }

  lemma {:induction false} Run2(s: State, a: Tick, b: Tick, rest: seq<Tick>)
    ensures Run(s, [a, b] + rest) == Run(Step(Step(s, a), b), rest)
  {
    hide Step;
    assert ([a, b] + rest)[1..] == [b] + rest && ([b] + rest)[1..] == rest;
    assert Run(Step(s, a), [b] + rest) == Run(Step(Step(s, a), b), rest);
  }

  // ---- The bound is reached ----

  lemma {:induction false} Run3(s: State, a: Tick, b: Tick, c: Tick)
    ensures Run(s, [a, b, c]) == Step(Step(Step(s, a), b), c)
  {
    hide Step;
    var s1 := Step(s, a);
    var s2 := Step(s1, b);
    assert [a, b, c][1..] == [b, c] && [b, c][1..] == [c] && [c][1..] == [];
    assert Run(s2, [c]) == Run(Step(s2, c), []);
    assert Run(s1, [b, c]) == Run(s2, [c]);
  }

  // Handlers first, first + 1, ... each read, check and post the draft; none has written the status yet.
  function OverlappingSends(first: nat, n: nat, id: string): seq<Tick>
    decreases n
  {
    if n == 0 then []
    else [Tick(0, SendRead(first, id, None, true)), Tick(0, SendVersion(first, true)), Tick(0, SendInsert(first, true))]
         + OverlappingSends(first + 1, n - 1, id)
  }

  predicate Sendable(s: State, id: string, first: nat) {
    && s.now == 0 && id in s.drafts && s.drafts[id].status == Held && s.drafts[id].channel in s.versions
    && forall h :: h in s.started ==> h < first
  }

  lemma {:induction false} OneSend(s: State, first: nat, id: string)
    requires Sendable(s, id, first)
    ensures var s' := Run(s, OverlappingSends(first, 1, id));
            && Sendable(s', id, first + 1)
            && SentCount(s'.produced, id) == SentCount(s.produced, id) + 1
            && s'.readers == s.readers + {(id, first)}
  {
    hide SentCount, Run;
    var read, check, post := Tick(0, SendRead(first, id, None, true)), Tick(0, SendVersion(first, true)), Tick(0, SendInsert(first, true));
    assert OverlappingSends(first + 1, 0, id) == [];
    assert OverlappingSends(first, 1, id) == [read, check, post];
    Run3(s, read, check, post);
    var s3 := Step(Step(Step(s, read), check), post);
    SentOneMore(s.produced, s3.produced[|s.produced|], id);
  }

  lemma {:induction false} ManySends(s: State, first: nat, n: nat, id: string)
    requires Sendable(s, id, first)
    ensures SentCount(Run(s, OverlappingSends(first, n, id)).produced, id) == SentCount(s.produced, id) + n
    decreases n
  {
    hide SentCount, Sendable;
    if n > 0 {
      var one, rest := OverlappingSends(first, 1, id), OverlappingSends(first + 1, n - 1, id);
      assert OverlappingSends(first + 1, 0, id) == [];
      assert OverlappingSends(first, n, id) == one + rest;
      RunConcat(s, one, rest);
      OneSend(s, first, id);
      ManySends(Run(s, one), first + 1, n - 1, id);
    }
  }

  const SETUP: seq<Tick> := [
    Tick(0, CreateChannel("c")),
    Tick(0, CreateRead(0, "a", "c")),
    Tick(0, CreateInsert(0, "d", true))]

  // The state after a channel and a draft have been created.
  lemma {:induction false} AfterSetup(s: State)
    requires s == Run(Start(0), SETUP)
    ensures Sendable(s, "d", 1) && s.produced == []
    ensures s.drafts == map["d" := Draft("a", "c", 0, Held, 0, DRAFT_LIFETIME, 0)]
    ensures s.versions == map["c" := 0] && s.log == [] && s.handlers == map[] && s.lastSweep == 0
  {
    hide Run;
    Run3(Start(0), SETUP[0], SETUP[1], SETUP[2]);
  }

  // Overlapping sends really duplicate: n of them make n messages out of one draft.
  lemma {:induction false} OverlappingSendsDuplicate(n: nat)
    ensures SentCount(Run(Start(0), SETUP + OverlappingSends(1, n, "d")).produced, "d") == n
  {
    hide Sendable, Run;
    var s := Run(Start(0), SETUP);
    AfterSetup(s);
    RunConcat(Start(0), SETUP, OverlappingSends(1, n, "d"));
    ManySends(s, 1, n, "d");
  }

  // ---- An unreadable version lets a stale draft through ----

  function Chatter(n: nat): seq<Tick> {
    if n == 0 then [] else Chatter(n - 1) + [Tick(0, OtherInsert("c"))]
  }

  lemma {:induction false} AfterChatter(s: State, n: nat)
    requires s.now == 0 && s.versions == map["c" := 0] && s.log == []
    ensures var s' := Run(s, Chatter(n));
            && s' == s.(versions := s'.versions, log := s'.log)
            && s'.versions == map["c" := n] && |s'.log| == n && Count(s'.log, "c") == n
  {
    if n > 0 {
      AfterChatter(s, n - 1);
      RunConcat(s, Chatter(n - 1), [Tick(0, OtherInsert("c"))]);
      var s1 := Run(s, Chatter(n - 1));
      var s2 := Step(s1, Tick(0, OtherInsert("c")));
      assert [Tick(0, OtherInsert("c"))][1..] == [];
      assert Run(s1, [Tick(0, OtherInsert("c"))]) == s2;
      assert s2.log[..|s2.log| - 1] == s1.log;
    }
  }

  const BLIND_SEND: seq<Tick> := [
    Tick(0, SendRead(1, "d", None, false)),
    Tick(0, SendVersion(1, false)),
    Tick(0, SendInsert(1, true))]

  // However many messages went by, an unforced send succeeds when its version read fails: the handler
  // ignores the error and compares with version 0.
  lemma {:induction false} StaleSendOnReadError(n: nat)
    ensures var s := Run(Start(0), SETUP + Chatter(n) + BLIND_SEND);
            && |s.produced| == 1 && !s.produced[0].force && !s.produced[0].versionRead
            && s.produced[0].draft.mark == 0 && s.produced[0].sendMark == n <= |s.log|
            && Count(s.log[..n], "c") == n
  {
    hide Run, Count;
    var s := Run(Start(0), SETUP);
    AfterSetup(s);
    AfterChatter(s, n);
    var s0 := Run(s, Chatter(n));
    RunConcat(Start(0), SETUP, Chatter(n));
    RunConcat(Start(0), SETUP + Chatter(n), BLIND_SEND);
    Run3(s0, BLIND_SEND[0], BLIND_SEND[1], BLIND_SEND[2]);
    assert (s0.log + ["c"])[..n] == s0.log;
  }

  // ---- Lifetime ----

  // The last successful sweep is at most one period ago, whenever anything happens.
  predicate Timely(s: State, t: Tick) { t.now >= s.now ==> t.now - s.lastSweep <= SWEEP_PERIOD }

  predicate TimelyRun(s: State, ts: seq<Tick>)
    decreases |ts|
  {
    ts == [] || (Timely(s, ts[0]) && TimelyRun(Step(s, ts[0]), ts[1..]))
  }

  predicate InTime(d: Draft, readTime: int) { readTime <= d.createdAt + 720_000 }

  predicate DraftTimes(s: State, d: Draft) {
    && 0 < d.expiresAt <= d.createdAt + DRAFT_LIFETIME
    && d.createdAt <= s.now
    && (d.status == Held ==> s.lastSweep <= d.expiresAt || s.lastSweep <= d.createdAt)
  }

  predicate HandlerTimes(s: State, h: Handler) {
    match h
    case Creating(_, _, _, expiresAt, _) => 0 < expiresAt <= s.now + DRAFT_LIFETIME
    case SendGot(_, d, _, readTime) => InTime(d, readTime)
    case SendChecked(_, d, _, readTime, _, _) => InTime(d, readTime)
    case SendPosted(_) => true
  }

  ghost predicate LifeInv(s: State) {
    && 0 <= s.now && s.lastSweep <= s.now
    && (forall id :: id in s.drafts ==> DraftTimes(s, s.drafts[id]))
    && (forall h :: h in s.handlers ==> HandlerTimes(s, s.handlers[h]))
    && (forall i :: 0 <= i < |s.produced| ==> InTime(s.produced[i].draft, s.produced[i].readTime))
  }

  lemma {:induction false} LifeStep(s: State, e: Event)
    requires LifeInv(s) && s.now - s.lastSweep <= SWEEP_PERIOD
    ensures LifeInv(Fire(s, e))
  {
    if e.Expire? {
      SweepTimes(s);
    } else {
      var s' := Fire(s, e);
      assert s'.now == s.now && s'.lastSweep == s.lastSweep;
      HandlersInTime(s, e);
      ProducedInTime(s, e);
      hide Fire;
      forall id | id in s'.drafts
        ensures DraftTimes(s', s'.drafts[id])
      {
        DraftsKept(s, e, id);
        assert id in s.drafts ==> DraftTimes(s, s.drafts[id]);
        assert e.CreateInsert? && e.h in s.handlers ==> HandlerTimes(s, s.handlers[e.h]);
      }
    }
  }

  lemma {:induction false} HandlersInTime(s: State, e: Event)
    requires LifeInv(s) && !e.Expire? && s.now - s.lastSweep <= SWEEP_PERIOD
    ensures forall h :: h in Fire(s, e).handlers ==> HandlerTimes(Fire(s, e), Fire(s, e).handlers[h])
  {
  }

  lemma {:induction false} ProducedInTime(s: State, e: Event)
    requires LifeInv(s)
    ensures var produced := Fire(s, e).produced;
            forall i :: 0 <= i < |produced| ==> InTime(produced[i].draft, produced[i].readTime)
  {
  }

  // A sweep leaves held only what has not expired.
  lemma {:induction false} SweepTimes(s: State)
    requires LifeInv(s)
    ensures LifeInv(Fire(s, Expire))
  {
    var s' := Fire(s, Expire);
    forall id | id in s'.drafts
      ensures DraftTimes(s', s'.drafts[id])
    {
      assert DraftTimes(s, s.drafts[id]);
    }
  }

  lemma {:induction false} ClockLater(s: State, now: int)
    requires LifeInv(s) && s.now <= now
    ensures LifeInv(s.(now := now))
  {
    var s' := s.(now := now);
    forall id | id in s'.drafts
      ensures DraftTimes(s', s'.drafts[id])
    {
      assert DraftTimes(s, s.drafts[id]);
    }
    forall h | h in s'.handlers
      ensures HandlerTimes(s', s'.handlers[h])
    {
      assert HandlerTimes(s, s.handlers[h]);
    }
  }

  lemma {:induction false} LifeRun(s: State, ts: seq<Tick>)
    requires LifeInv(s) && TimelyRun(s, ts)
    ensures LifeInv(Run(s, ts))
    decreases |ts|
  {
    hide LifeInv, Fire;
    if ts != [] {
      var t := ts[0];
      if t.now >= s.now {
        ClockLater(s, t.now);
        LifeStep(s.(now := t.now), t.event);
      }
      LifeRun(Step(s, t), ts[1..]);
    }
  }

  // With sweeps on time, no send, forced or not, goes through when its status read comes later than
  // twelve minutes after the draft was created.
  lemma {:induction false} LifetimeBound(now: nat, ts: seq<Tick>, i: nat)
    requires TimelyRun(Start(now), ts)
    requires i < |Run(Start(now), ts).produced|
    ensures var m := Run(Start(now), ts).produced[i];
            m.readTime <= m.draft.createdAt + 720_000
  {
    LifeRun(Start(now), ts);
    var m := Run(Start(now), ts).produced[i];
    assert InTime(m.draft, m.readTime);
  }

  function LateSend(at: nat): seq<Tick> {
    [Tick(at, SendRead(1, "d", None, false)), Tick(at, SendVersion(1, true)), Tick(at, SendInsert(1, true))]
  }

  // The send path itself never looks at expires_at: without sweeps a draft can be sent at any later time.
  lemma {:induction false} LateSendWithoutSweep(at: nat)
    ensures var s := Run(Start(0), SETUP + LateSend(at));
            |s.produced| == 1 && s.produced[0].readTime == at && s.produced[0].draft.createdAt == 0
  {
    hide Run;
    var s := Run(Start(0), SETUP);
    AfterSetup(s);
    RunConcat(Start(0), SETUP, LateSend(at));
    var ts := LateSend(at);
    Run3(s, ts[0], ts[1], ts[2]);
  }

  // ---- Exactly when an overdue draft can still be sent ----

  // What the last sweep says about a draft's status.
  predicate SweptOk(s: State, d: Draft) {
    && d.createdAt <= s.now && 0 < d.expiresAt
    && (d.status == Held ==> s.lastSweep <= d.expiresAt || s.lastSweep <= d.createdAt)
    && (d.status == Expired ==> d.expiresAt < s.lastSweep && d.createdAt <= s.lastSweep)
  }

  ghost predicate SweepInv(s: State) {
    && 0 <= s.now && s.lastSweep <= s.now
    && (forall id :: id in s.drafts ==> SweptOk(s, s.drafts[id]))
    && (forall h :: h in s.handlers && s.handlers[h].Creating? ==> 0 < s.handlers[h].expiresAt)
  }

  lemma {:induction false} SweepStep(s: State, t: Tick)
    requires SweepInv(s)
    ensures SweepInv(Step(s, t))
  {
    if t.now >= s.now {
      var s1 := s.(now := t.now);
      assert SweepInv(s1) by {
        assert forall id :: id in s.drafts ==> SweptOk(s, s.drafts[id]);
      }
      if t.event.Expire? {
        SweepExpires(s1);
      } else {
        SweepKept(s1, t.event);
      }
    }
  }

  lemma {:induction false} SweepExpires(s: State)
    requires SweepInv(s)
    ensures SweepInv(Fire(s, Expire))
  {
    var s' := Fire(s, Expire);
    forall id | id in s'.drafts
      ensures SweptOk(s', s'.drafts[id])
    {
      assert SweptOk(s, s.drafts[id]);
    }
  }

  // Apart from sweeps, a draft appears from a create handler, changes its status to sent or cancelled, or stays.
  lemma {:induction false} DraftsKept(s: State, e: Event, id: string)
    requires !e.Expire? && id in Fire(s, e).drafts
    ensures var d := Fire(s, e).drafts[id];
            || (id in s.drafts && (d == s.drafts[id] || d == s.drafts[id].(status := Sent) || d == s.drafts[id].(status := Cancelled)))
            || (&& e.CreateInsert? && e.h in s.handlers && s.handlers[e.h].Creating?
                && d.status == Held && d.createdAt == s.now && d.expiresAt == s.handlers[e.h].expiresAt)
  {
  }

  lemma {:induction false} CreatingKept(s: State, e: Event, h: nat)
    requires h in Fire(s, e).handlers && Fire(s, e).handlers[h].Creating?
    ensures (h in s.handlers && s.handlers[h] == Fire(s, e).handlers[h]) || Fire(s, e).handlers[h].expiresAt == s.now + DRAFT_LIFETIME
  {
  }

  lemma {:induction false} SweepKept(s: State, e: Event)
    requires SweepInv(s) && !e.Expire?
    ensures SweepInv(Fire(s, e))
  {
    var s' := Fire(s, e);
    assert s'.now == s.now && s'.lastSweep == s.lastSweep;
    hide Fire;
    forall id | id in s'.drafts
      ensures SweptOk(s', s'.drafts[id])
    {
      DraftsKept(s, e, id);
      assert id in s.drafts ==> SweptOk(s, s.drafts[id]);
    }
    forall h | h in s'.handlers && s'.handlers[h].Creating?
      ensures 0 < s'.handlers[h].expiresAt
    {
      CreatingKept(s, e, h);
    }
  }

  lemma {:induction false} SweepRun(s: State, ts: seq<Tick>)
    requires SweepInv(s)
    ensures SweepInv(Run(s, ts))
    decreases |ts|
  {
    hide SweepInv, Step;
    if ts != [] {
      SweepStep(s, ts[0]);
      SweepRun(Step(s, ts[0]), ts[1..]);
    }
  }

  // In every reachable state, a draft that was neither sent nor cancelled can still be read as held, at any
  // later time however long after its expiry, if and only if no sweep has run since it expired. (A draft
  // inserted after its own expiry has until the first sweep after its insertion.)
  lemma {:induction false} OverdueExactly(start: nat, ts: seq<Tick>, id: string, at: int, e: Event)
    requires var s := Run(Start(start), ts);
             && id in s.drafts && (s.drafts[id].status == Held || s.drafts[id].status == Expired)
             && s.now <= at
             && e.SendRead? && e.id == id && e.h !in s.started
             && (e.caller.None? || e.caller.value == s.drafts[id].agent)
    ensures var s := Run(Start(start), ts);
            var d := s.drafts[id];
            var readable := (id, e.h) in Step(s, Tick(at, e)).readers;
            && (d.createdAt <= d.expiresAt ==> (readable <==> s.lastSweep <= d.expiresAt))
            && (d.expiresAt < d.createdAt ==> (s.lastSweep < d.createdAt ==> readable) && (d.createdAt < s.lastSweep ==> !readable))
  {
    var s := Run(Start(start), ts);
    SweepRun(Start(start), ts);
    ReadersStarted(start, ts);
    hide Run;
    assert SweptOk(s, s.drafts[id]);
  }

  lemma {:induction false} ReadersStarted(start: nat, ts: seq<Tick>)
    ensures IdsInv(Run(Start(start), ts))
  {
    StartCounts(start, "");
    RunCounts(Start(start), ts, "");
  }
}
