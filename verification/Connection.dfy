// One WebSocket connection (internal/server/websocket/conn.go): its identity, its own subscription set and
// the bounded queue between the handlers that send and the pump that writes.
module Connection {
  import opened Collections

  const CAPACITY := 256
  const MAX_SUBSCRIPTIONS := 200

  // ---- The queue as a value, with its history ----

  // A message handed to Send, and whether it entered the queue.
  datatype Attempt<M> = Attempt(msg: M, accepted: bool)

  datatype Pipe<M> = Pipe(queue: seq<M>, closed: bool, attempts: seq<Attempt<M>>, drained: seq<M>)

  datatype Event<M> = Send(msg: M) | Drain | Close

  function Open<M>(): Pipe<M> { Pipe([], false, [], []) }

  predicate Full<M>(p: Pipe<M>) { |p.queue| >= CAPACITY }

  function AfterSend<M>(p: Pipe<M>, m: M): Pipe<M> {
    if p.closed || Full(p) then p.(attempts := p.attempts + [Attempt(m, false)])
    else p.(queue := p.queue + [m], attempts := p.attempts + [Attempt(m, true)])
  }

  // A receive takes the oldest message; a closed channel still hands out what it holds.
  function AfterDrain<M>(p: Pipe<M>): Pipe<M> {
    if p.queue == [] then p else p.(queue := p.queue[1..], drained := p.drained + [p.queue[0]])
  }

  function AfterClose<M>(p: Pipe<M>): Pipe<M> { p.(closed := true) }

  function Step<M>(p: Pipe<M>, e: Event<M>): Pipe<M> {
    match e
    case Send(m) => AfterSend(p, m)
    case Drain => AfterDrain(p)
    case Close => AfterClose(p)
  }

  function Run<M>(p: Pipe<M>, es: seq<Event<M>>): Pipe<M> {
    if es == [] then p else Step(Run(p, es[..|es| - 1]), es[|es| - 1])
  }

  // ---- What the pump sees ----

  // The messages that entered the queue, in the order they were sent.
  function Kept<M>(attempts: seq<Attempt<M>>): seq<M> {
    if attempts == [] then []
    else
      var last := attempts[|attempts| - 1];
      Kept(attempts[..|attempts| - 1]) + (if last.accepted then [last.msg] else [])
  }

  lemma {:induction false} KeptOneMore<M>(attempts: seq<Attempt<M>>, a: Attempt<M>)
    ensures Kept(attempts + [a]) == Kept(attempts) + (if a.accepted then [a.msg] else [])
  {
    assert (attempts + [a])[..|attempts|] == attempts;
  }

  ghost predicate PipeInv<M>(p: Pipe<M>) {
    Kept(p.attempts) == p.drained + p.queue && |p.queue| <= CAPACITY
  }

  lemma {:induction false} StepKeepsInv<M>(p: Pipe<M>, e: Event<M>)
    requires PipeInv(p)
    ensures PipeInv(Step(p, e))
  {
    match e
    case Send(m) => KeptOneMore(p.attempts, Step(p, e).attempts[|p.attempts|]);
    case Drain => if p.queue != [] { assert p.queue == [p.queue[0]] + p.queue[1..]; }
    case Close =>
  }

  lemma {:induction false} RunKeepsInv<M>(p: Pipe<M>, es: seq<Event<M>>)
    requires PipeInv(p)
    ensures PipeInv(Run(p, es))
  {
    if es != [] {
      RunKeepsInv(p, es[..|es| - 1]);
      StepKeepsInv(Run(p, es[..|es| - 1]), es[|es| - 1]);
    }
  }

  // Over every interleaving of sends, receives and closes: what was drained is a prefix of what was
  // accepted, what is queued is the rest, and the queue never exceeds 256.
  lemma {:induction false} DrainedIsPrefix<M>(es: seq<Event<M>>)
    ensures var p := Run<M>(Open(), es);
            && Kept(p.attempts) == p.drained + p.queue
            && p.drained <= Kept(p.attempts)
            && |p.queue| <= 256
  {
    RunKeepsInv(Open(), es);
  }

  // ---- When a message is dropped ----

  function Sends<M>(es: seq<Event<M>>): seq<M> {
    if es == [] then []
    else
      var last := es[|es| - 1];
      Sends(es[..|es| - 1]) + (if last.Send? then [last.msg] else [])
  }

  lemma {:induction false} AttemptsAreSends<M>(p: Pipe<M>, es: seq<Event<M>>)
    ensures var q := Run(p, es);
            && |q.attempts| == |p.attempts| + |Sends(es)|
            && p.attempts <= q.attempts
            && forall k :: 0 <= k < |Sends(es)| ==> q.attempts[|p.attempts| + k].msg == Sends(es)[k]
    ensures Run(p, es).closed <==> p.closed || exists i :: 0 <= i < |es| && es[i].Close?
  {
    if es != [] {
      var before := es[..|es| - 1];
      AttemptsAreSends(p, before);
      if es[|es| - 1].Close? {
        assert Run(p, es).closed;
      } else {
        assert forall i :: 0 <= i < |before| ==> before[i] == es[i];
        assert forall i :: 0 <= i < |es| && es[i].Close? ==> i < |before| && before[i].Close?;
      }
    }
  }

  lemma {:induction false} RunSplits<M>(p: Pipe<M>, a: seq<Event<M>>, b: seq<Event<M>>)
    ensures Run(p, a + b) == Run(Run(p, a), b)
    decreases |b|
  {
    if b == [] {
      assert a + b == a;
    } else {
      assert (a + b)[..|a + b| - 1] == a + b[..|b| - 1];
      RunSplits(p, a, b[..|b| - 1]);
    }
  }

  // Every send is recorded in order, and it is dropped if and only if a close came before it or 256
  // messages were waiting.
  lemma {:induction false} DroppedExactly<M>(es: seq<Event<M>>, i: nat)
    requires i < |es| && es[i].Send?
    ensures var before := Run<M>(Open(), es[..i]);
            var p := Run<M>(Open(), es);
            var k := |Sends(es[..i])|;
            && k < |p.attempts| && p.attempts[k].msg == es[i].msg
            && (!p.attempts[k].accepted
                <==> (exists j :: 0 <= j < i && es[j].Close?) || |before.queue| == 256)
  {
    var head, tail := es[..i], es[i + 1..];
    assert es[..i + 1][..i] == head && es[..i + 1] + tail == es;
    AttemptsAreSends<M>(Open(), head);
    RunKeepsInv<M>(Open(), head);
    RunSplits<M>(Open(), es[..i + 1], tail);
    AttemptsAreSends(Run<M>(Open(), es[..i + 1]), tail);
    assert forall j :: 0 <= j < i ==> head[j] == es[j];
  }

  // ---- Order ----

  lemma {:induction false} KeptSplits<M>(a: seq<Attempt<M>>, b: seq<Attempt<M>>)
    ensures Kept(a + b) == Kept(a) + Kept(b)
    decreases |b|
  {
    if b == [] {
      assert a + b == a;
    } else {
      assert (a + b)[..|a + b| - 1] == a + b[..|b| - 1];
      KeptSplits(a, b[..|b| - 1]);
    }
  }

  // The place an accepted message takes among the accepted ones.
  lemma {:induction false} KeptPlace<M>(attempts: seq<Attempt<M>>, i: nat)
    requires i < |attempts| && attempts[i].accepted
    ensures |Kept(attempts[..i])| < |Kept(attempts)|
    ensures Kept(attempts)[|Kept(attempts[..i])|] == attempts[i].msg
  {
    KeptSplits(attempts[..i + 1], attempts[i + 1..]);
    assert attempts[..i + 1] + attempts[i + 1..] == attempts;
    KeptOneMore(attempts[..i], attempts[i]);
    assert attempts[..i] + [attempts[i]] == attempts[..i + 1];
  }

  // Of two messages sent one after the other, when the later one has been drained the earlier one has been
  // drained before it, unless it was dropped: broadcasts are never seen out of order.
  lemma {:induction false} NeverOutOfOrder<M>(es: seq<Event<M>>, i: nat, j: nat)
    requires var p := Run<M>(Open(), es);
             i < j < |p.attempts| && p.attempts[i].accepted && p.attempts[j].accepted
    ensures var p := Run<M>(Open(), es);
            var first, second := |Kept(p.attempts[..i])|, |Kept(p.attempts[..j])|;
            && first < second
            && (second < |p.drained| ==>
                  p.drained[first] == p.attempts[i].msg && p.drained[second] == p.attempts[j].msg)
  {
    var p := Run<M>(Open(), es);
    RunKeepsInv<M>(Open(), es);
    KeptPlace(p.attempts, i);
    KeptPlace(p.attempts, j);
    assert p.attempts[..j][..i] == p.attempts[..i];
    KeptPlace(p.attempts[..j], i);
  }

  // ---- After the close ----

  // Nothing enters a closed queue: what it will ever deliver was fixed when it closed.
  lemma {:induction false} ClosedIsFinal<M>(p: Pipe<M>, es: seq<Event<M>>)
    requires PipeInv(p) && p.closed
    ensures var q := Run(p, es);
            && q.closed && q.drained + q.queue == p.drained + p.queue
            && Kept(q.attempts) == Kept(p.attempts)
            && p.drained <= q.drained <= p.drained + p.queue
  {
    RunKeepsInv(p, es);
    if es != [] {
      var before := es[..|es| - 1];
      ClosedIsFinal(p, before);
      RunKeepsInv(p, before);
      var r := Run(p, before);
      if es[|es| - 1].Drain? && r.queue != [] {
        assert r.queue == [r.queue[0]] + r.queue[1..];
      }
    }
  }

  // ---- The pump empties the queue ----

  function Drains<M>(n: nat): seq<Event<M>> { seq(n, _ => Drain) }

  // n receives hand out the n oldest messages, or all of them; so enough receives deliver everything that
  // was accepted, closed or not.
  lemma {:induction false} DrainsDeliver<M>(p: Pipe<M>, n: nat)
    ensures var q := Run(p, Drains(n));
            var k := if n < |p.queue| then n else |p.queue|;
            && q.drained == p.drained + p.queue[..k] && q.queue == p.queue[k..]
            && q.closed == p.closed && q.attempts == p.attempts
    ensures PipeInv(p) && n >= |p.queue| ==> Run(p, Drains(n)).drained == Kept(p.attempts)
  {
    if n > 0 {
      assert Drains<M>(n)[..n - 1] == Drains<M>(n - 1);
      DrainsDeliver(p, n - 1);
    }
  }

  // ---- Room for a burst ----

  // As long as no more than 256 messages were sent and nothing closed the connection, none is lost.
  lemma {:induction false} BurstFits<M>(es: seq<Event<M>>)
    requires |Sends(es)| <= 256 && forall i :: 0 <= i < |es| ==> !es[i].Close?
    ensures var p := Run<M>(Open(), es);
            Kept(p.attempts) == Sends(es) && !p.closed && |p.queue| <= |Sends(es)|
  {
    if es != [] {
      var before := es[..|es| - 1];
      BurstFits(before);
      var r := Run<M>(Open(), before);
      if es[|es| - 1].Send? {
        KeptOneMore(r.attempts, Attempt(es[|es| - 1].msg, true));
      }
    }
  }

  // ---- The connection ----

  class Conn {
    var id: string
    var name: string
    var isAgent: bool
    var authenticated: bool
    var channels: set<string>
    var closed: bool
    // The Go channel `send`: its buffer, and whether close() has been called on it.
    var buffer: seq<string>
    var sendClosed: bool
    ghost var attempts: seq<Attempt<string>>
    ghost var drained: seq<string>

    ghost predicate Valid()
      reads this
    {
      closed == sendClosed && PipeInv(Snapshot()) && |channels| <= MAX_SUBSCRIPTIONS
    }

    ghost function Snapshot(): (p: Pipe<string>)
      reads this
    {
      Pipe(buffer, closed, attempts, drained)
    }

    constructor (id: string, name: string, isAgent: bool)
      ensures Valid() && Snapshot() == Open()
      ensures this.id == id && this.name == name && this.isAgent == isAgent && !authenticated && channels == {}
    {
      this.id, this.name, this.isAgent, authenticated := id, name, isAgent, false;
      channels, closed, buffer, sendClosed := {}, false, [], false;
      attempts, drained := [], [];
    }

    // Sending on a closed Go channel panics; so does closing one twice. Hence the preconditions.
    method ChannelSend(m: string) returns (sent: bool)
      requires !sendClosed
      modifies `buffer
      ensures sent <==> |old(buffer)| < 256
      ensures buffer == if sent then old(buffer) + [m] else old(buffer)
    {
      sent := |buffer| < CAPACITY;
      if sent { buffer := buffer + [m]; }
    }

    method ChannelClose()
      requires !sendClosed
      modifies `sendClosed
      ensures sendClosed
    {
      sendClosed := true;
    }

    // `marshalled` is None when the envelope cannot be encoded.
    method Send(marshalled: Option<string>)
      requires Valid()
      modifies `buffer, `attempts
      ensures Valid()
      ensures Snapshot() == match marshalled
                        case None => old(Snapshot())
                        case Some(m) => AfterSend(old(Snapshot()), m)
      ensures buffer == if marshalled.Some? && !closed && |old(buffer)| < 256 then old(buffer) + [marshalled.value]
                        else old(buffer)
    {
      if marshalled.None? { return; }
      var m := marshalled.value;
      StepKeepsInv(Snapshot(), Event.Send(m));
      if closed {
        attempts := attempts + [Attempt(m, false)];
        return;
      }
      var sent := ChannelSend(m);
      attempts := attempts + [Attempt(m, sent)];
    }

    // One receive by the write pump: nothing when the channel is closed and empty, or there is nothing yet.
    method Receive() returns (m: Option<string>)
      requires Valid()
      modifies `buffer, `drained
      ensures Valid() && Snapshot() == AfterDrain(old(Snapshot()))
      ensures old(buffer) == [] ==> m == None && buffer == [] && drained == old(drained)
      ensures old(buffer) != [] ==> && m == Some(old(buffer)[0]) && buffer == old(buffer)[1..]
                                    && drained == old(drained) + [old(buffer)[0]]
    {
      StepKeepsInv(Snapshot(), Event<string>.Drain);
      if buffer == [] { return None; }
      m := Some(buffer[0]);
      drained := drained + [buffer[0]];
      buffer := buffer[1..];
    }

    method Close()
      requires Valid()
      modifies `closed, `sendClosed
      ensures Valid() && Snapshot() == AfterClose(old(Snapshot()))
      ensures closed && sendClosed
    {
      if closed { return; }
      closed := true;
      ChannelClose();
    }

    method SetIdentity(id: string, name: string, isAgent: bool)
      modifies `id, `name, `isAgent
      ensures this.id == id && this.name == name && this.isAgent == isAgent
    {
      this.id, this.name, this.isAgent := id, name, isAgent;
    }

    method SetAuthenticated(auth: bool)
      modifies `authenticated
      ensures authenticated == auth
    {
      authenticated := auth;
    }

    // At the limit the answer is no, even for a channel that is already in the set.
    method Subscribe(channel: string) returns (ok: bool)
      requires Valid()
      modifies `channels
      ensures Valid()
      ensures ok <==> |old(channels)| < 200
      ensures channels == if ok then old(channels) + {channel} else old(channels)
    {
      if |channels| >= MAX_SUBSCRIPTIONS { return false; }
      channels := channels + {channel};
      return true;
    }

    method Unsubscribe(channel: string)
      requires Valid()
      modifies `channels
      ensures Valid() && channels == old(channels) - {channel}
    {
      channels := channels - {channel};
    }
  }
}
