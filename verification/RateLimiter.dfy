// The per-IP token bucket of internal/server/api/ratelimit.go and the middleware that spends its
// tokens. Time is the monotonic clock, counted in whole nanoseconds.
module RateLimiting {
  const SECOND := 1_000_000_000
  const STALE_THRESHOLD := 600 * SECOND

  datatype Bucket = Bucket(tokens: int, lastCheck: int)

  // The clock is read up to three times in one call of Allow: when a bucket is created, when the
  // elapsed time is measured, and when lastCheck is written back.
  datatype Clock = Clock(created: int, since: int, checked: int) {
    predicate Ordered() { created <= since <= checked }
  }

  // One atomic use of the limiter's mutex. The tag says which HTTP request makes the call.
  datatype Event =
    | Call(request: nat, ip: string, clock: Clock)
    | Sweep(now: int)
  {
    function Start(): int { if Call? then clock.created else now }
    function End(): int { if Call? then clock.checked else now }
    predicate Ordered() { Call? ==> clock.Ordered() }
  }

  // ---- Specification of the two critical sections ----

  function Min(a: int, b: int): int { if a <= b then a else b }

  function Max(a: int, b: int): int { if a >= b then a else b }

  function Lookup(clients: map<string, Bucket>, limit: int, ip: string, clock: Clock): Bucket {
    if ip in clients then clients[ip] else Bucket(limit, clock.created)
  }

  function Refilled(b: Bucket, limit: int, clock: Clock): int {
    Min(b.tokens + (clock.since - b.lastCheck) / SECOND, limit)
  }

  function Allows(b: Bucket, limit: int, clock: Clock): bool { Refilled(b, limit, clock) > 0 }

  function Charged(b: Bucket, limit: int, clock: Clock): Bucket {
    var refilled := Refilled(b, limit, clock);
    Bucket(if refilled > 0 then refilled - 1 else refilled, clock.checked)
  }

  function Evicted(clients: map<string, Bucket>, now: int): map<string, Bucket> {
    map ip | ip in clients && now - clients[ip].lastCheck <= STALE_THRESHOLD :: clients[ip]
  }

  function Next(limit: int, evicting: bool, clients: map<string, Bucket>, e: Event): map<string, Bucket> {
    match e
    case Call(_, ip, clock) => clients[ip := Charged(Lookup(clients, limit, ip, clock), limit, clock)]
    case Sweep(now) => if evicting then Evicted(clients, now) else clients
  }

  // Does event e let a call through?
  predicate Passes(limit: int, clients: map<string, Bucket>, e: Event) {
    e.Call? && Allows(Lookup(clients, limit, e.ip, e.clock), limit, e.clock)
  }

  // ---- Whole schedules ----

  function Run(limit: int, evicting: bool, clients: map<string, Bucket>, es: seq<Event>): map<string, Bucket>
    decreases |es|
  {
    if es == [] then clients else Run(limit, evicting, Next(limit, evicting, clients, es[0]), es[1..])
  }

  // The allow/deny answer of each event, in order; a sweep answers false.
  function Answers(limit: int, evicting: bool, clients: map<string, Bucket>, es: seq<Event>): (r: seq<bool>)
    ensures |r| == |es|
    decreases |es|
  {
    if es == [] then []
    else [Passes(limit, clients, es[0])] + Answers(limit, evicting, Next(limit, evicting, clients, es[0]), es[1..])
  }

  // How many calls from ip made by one of the given requests are let through.
  ghost function Allowed(limit: int, evicting: bool, clients: map<string, Bucket>, es: seq<Event>, ip: string,
                         requests: iset<nat>): nat
    decreases |es|
  {
    if es == [] then 0
    else
      (if Passes(limit, clients, es[0]) && es[0].ip == ip && es[0].request in requests then 1 else 0)
      + Allowed(limit, evicting, Next(limit, evicting, clients, es[0]), es[1..], ip, requests)
  }

  ghost const ANY_REQUEST: iset<nat> := iset r: nat | true

  // A schedule the mutex and a monotonic clock can produce, beginning no earlier than start.
  predicate Monotone(start: int, es: seq<Event>)
    decreases |es|
  {
    es == [] || (start <= es[0].Start() && es[0].Ordered() && Monotone(es[0].End(), es[1..]))
  }

  function Finish(start: int, es: seq<Event>): int
    decreases |es|
  {
    if es == [] then start else Finish(es[0].End(), es[1..])
  }

  predicate NoSweep(es: seq<Event>) {
    forall i :: 0 <= i < |es| ==> es[i].Call?
  }

  // What every bucket of a limiter with this limit satisfies.
  predicate BucketOk(limit: int, b: Bucket, now: int) {
    && b.lastCheck <= now
    && b.tokens <= limit
    && (limit >= 0 ==> b.tokens >= 0)
    && (limit < 0 ==> b.tokens == limit)
  }

  predicate AllOk(limit: int, clients: map<string, Bucket>, now: int) {
    forall ip :: ip in clients ==> BucketOk(limit, clients[ip], now)
  }

  // ---- The limiter itself ----

  class RateLimiter {
    var clients: map<string, Bucket>
    const limit: int

    constructor (limit: int)
      ensures this.limit == limit && clients == map[]
    {
      this.limit := limit;
      clients := map[];
    }

    // One critical section of Allow.
    method Allow(ip: string, clock: Clock) returns (allowed: bool)
      modifies this`clients
      ensures clients == Next(limit, true, old(clients), Call(0, ip, clock))
      ensures allowed == Passes(limit, old(clients), Call(0, ip, clock))
      // A whole token a second since the last call, up to the limit, and one spent if there is one.
      ensures var was := if ip in old(clients) then old(clients)[ip] else Bucket(limit, clock.created);
              var full := was.tokens + (clock.since - was.lastCheck) / 1_000_000_000;
              var tokens := if full < limit then full else limit;
              && allowed == (tokens > 0)
              && clients == old(clients)[ip := Bucket(if allowed then tokens - 1 else tokens, clock.checked)]
    {
      if ip !in clients {
        clients := clients[ip := Bucket(limit, clock.created)];
      }
      var b := clients[ip];
      var elapsed := clock.since - b.lastCheck;
      b := b.(lastCheck := clock.checked);
      b := b.(tokens := b.tokens + elapsed / SECOND);
      if b.tokens > limit {
        b := b.(tokens := limit);
      }
      if b.tokens <= 0 {
        clients := clients[ip := b];
        return false;
      }
      b := b.(tokens := b.tokens - 1);
      clients := clients[ip := b];
      return true;
    }

    // One tick of the background sweep: the map is walked in any order and stale entries are deleted.
    method Cleanup(now: int)
      modifies this`clients
      ensures clients == Evicted(old(clients), now)
      ensures forall ip :: ip in clients <==> ip in old(clients) && now - old(clients)[ip].lastCheck <= 600_000_000_000
      ensures forall ip :: ip in clients ==> clients[ip] == old(clients)[ip]
    {
      var pending := clients.Keys;
      while pending != {}
        invariant pending <= clients.Keys <= old(clients).Keys
        invariant forall ip :: ip in clients ==> clients[ip] == old(clients)[ip]
        invariant forall ip :: ip in old(clients) && ip !in pending ==>
          (ip in clients <==> now - old(clients)[ip].lastCheck <= STALE_THRESHOLD)
        decreases pending
      {
        var ip :| ip in pending;
        pending := pending - {ip};
        if now - clients[ip].lastCheck > STALE_THRESHOLD {
          clients := clients - {ip};
        }
      }
    }

    // rateLimitMiddleware: one token, and one more for a mutation, with an early return. `used`
    // counts the calls made.
    method Middleware(ip: string, mutation: bool, clocks: seq<Clock>) returns (passed: bool, used: nat)
      requires |clocks| == 2
      modifies this`clients
      ensures 1 <= used <= Cost(mutation)
      ensures clients == Run(limit, true, old(clients), Calls(0, ip, clocks[..used]))
      ensures var answers := Answers(limit, true, old(clients), Calls(0, ip, clocks[..used]));
              && (forall i :: 0 <= i < used - 1 ==> answers[i])
              && (passed <==> used == Cost(mutation) && answers[used - 1])
              && (!passed ==> !answers[used - 1])
    {
      var first := Call(0, ip, clocks[0]);
      assert Calls(0, ip, clocks[..1]) == [first];
      var second := Call(0, ip, clocks[1]);
      assert clocks[..2][1..] == [clocks[1]];
      assert Calls(0, ip, clocks[..2]) == [first, second];
      assert [first][1..] == [] && [first, second][1..] == [second] && [second][1..] == [];
      passed := Allow(ip, clocks[0]);
      used := 1;
      if !passed {
        return;
      }
      assert clients == Run(limit, true, old(clients), [first]);
      ghost var between := clients;
      if mutation {
        passed := Allow(ip, clocks[1]);
        used := 2;
        assert clients == Run(limit, true, between, [second]);
      }
    }
  }

  // Allow calls of one pass through the middleware.
  function Cost(mutation: bool): nat { if mutation then 2 else 1 }

  // Allow calls of a request on a grouped route, where the middleware is installed twice.
  function GroupedCost(mutation: bool): nat { 2 * Cost(mutation) }

  function Calls(request: nat, ip: string, clocks: seq<Clock>): (es: seq<Event>)
    ensures |es| == |clocks|
  {
    if clocks == [] then [] else [Call(request, ip, clocks[0])] + Calls(request, ip, clocks[1..])
  }

  // ---- Buckets stay in range ----

  lemma {:induction false} ChargedOk(limit: int, b: Bucket, clock: Clock)
    requires BucketOk(limit, b, clock.created) && clock.Ordered()
    ensures BucketOk(limit, Charged(b, limit, clock), clock.checked)
    ensures Allows(b, limit, clock) ==> limit > 0
  {
    assert (clock.since - b.lastCheck) / SECOND >= 0;
  }

  lemma {:induction false} NextOk(limit: int, evicting: bool, clients: map<string, Bucket>, e: Event, now: int)
    requires AllOk(limit, clients, now) && now <= e.Start() && e.Ordered()
    ensures AllOk(limit, Next(limit, evicting, clients, e), e.End())
  {
    if e.Call? {
      ChargedOk(limit, Lookup(clients, limit, e.ip, e.clock), e.clock);
    }
  }

  lemma {:induction false} RunOk(limit: int, evicting: bool, clients: map<string, Bucket>, es: seq<Event>, now: int)
    requires AllOk(limit, clients, now) && Monotone(now, es)
    ensures AllOk(limit, Run(limit, evicting, clients, es), Finish(now, es))
    decreases |es|
  {
    if es != [] {
      NextOk(limit, evicting, clients, es[0], now);
      RunOk(limit, evicting, Next(limit, evicting, clients, es[0]), es[1..], es[0].End());
    }
  }

  // ---- What a call finds, and when it is refused ----

  // A bucket gains exactly one token for every whole second, up to the limit.
  lemma {:induction false} RefillExactly(b: Bucket, limit: int, clock: Clock, k: nat)
    requires k * 1_000_000_000 <= clock.since - b.lastCheck < (k + 1) * 1_000_000_000
    ensures Refilled(b, limit, clock) == if b.tokens + k <= limit then b.tokens + k else limit
  {
    assert (clock.since - b.lastCheck) / SECOND == k;
  }

  // One call, in full: whether it passes and what it leaves, for an address with a bucket and for a new one.
  lemma {:induction false} CallExactly(limit: int, evicting: bool, clients: map<string, Bucket>, request: nat, ip: string,
                                       clock: Clock, k: nat)
    requires var since := if ip in clients then clients[ip].lastCheck else clock.created;
             k * 1_000_000_000 <= clock.since - since < (k + 1) * 1_000_000_000
    ensures var tokens := (if ip in clients then clients[ip].tokens else limit) + k;
            var found := if tokens <= limit then tokens else limit;
            var e := Call(request, ip, clock);
            var after := Next(limit, evicting, clients, e);
            && (Passes(limit, clients, e) <==> found >= 1)
            && after == clients[ip := Bucket(if found >= 1 then found - 1 else found, clock.checked)]
  {
    RefillExactly(Lookup(clients, limit, ip, clock), limit, clock, k);
  }

  // With a positive limit, a call is refused if and only if the address has no token left and called less
  // than a second ago.
  lemma {:induction false} RefusedExactly(limit: int, clients: map<string, Bucket>, e: Event, now: int)
    requires limit > 0 && AllOk(limit, clients, now) && e.Call? && now <= e.clock.created && e.clock.Ordered()
    ensures !Passes(limit, clients, e)
            <==> e.ip in clients && clients[e.ip].tokens == 0 && e.clock.since - clients[e.ip].lastCheck < 1_000_000_000
  {
    var b := Lookup(clients, limit, e.ip, e.clock);
    assert BucketOk(limit, b, e.clock.created);
  }

  // Every bucket remembers when its address last called.
  ghost predicate Remembers(clients: map<string, Bucket>, past: seq<Event>) {
    forall ip :: ip in clients ==> exists j :: 0 <= j < |past| && CalledAt(past[j], ip, clients[ip].lastCheck)
  }

  predicate CalledAt(e: Event, ip: string, at: int) { e.Call? && e.ip == ip && e.clock.checked == at }

  lemma {:induction false} NextRemembers(limit: int, evicting: bool, clients: map<string, Bucket>, past: seq<Event>, e: Event)
    requires Remembers(clients, past)
    ensures Remembers(Next(limit, evicting, clients, e), past + [e])
  {
    var after := Next(limit, evicting, clients, e);
    forall ip | ip in after
      ensures exists j :: 0 <= j < |past + [e]| && CalledAt((past + [e])[j], ip, after[ip].lastCheck)
    {
      if e.Call? && e.ip == ip {
        assert CalledAt((past + [e])[|past|], ip, after[ip].lastCheck);
      } else {
        var j :| 0 <= j < |past| && CalledAt(past[j], ip, clients[ip].lastCheck);
        assert CalledAt((past + [e])[j], ip, after[ip].lastCheck);
      }
    }
  }

  lemma {:induction false} RefusedAfter(limit: int, evicting: bool, clients: map<string, Bucket>, past: seq<Event>,
                                        es: seq<Event>, now: int, i: nat)
    requires limit > 0 && AllOk(limit, clients, now) && Monotone(now, es) && Remembers(clients, past)
    requires i < |es| && es[i].Call? && !Answers(limit, evicting, clients, es)[i]
    ensures exists j :: 0 <= j < |past| + i && RecentCall((past + es)[j], es[i])
    decreases |es|
  {
    var e := es[0];
    if i == 0 {
      RefusedExactly(limit, clients, e, now);
      var j :| 0 <= j < |past| && CalledAt(past[j], e.ip, clients[e.ip].lastCheck);
      assert (past + es)[j] == past[j];
    } else {
      NextOk(limit, evicting, clients, e, now);
      NextRemembers(limit, evicting, clients, past, e);
      RefusedAfter(limit, evicting, Next(limit, evicting, clients, e), past + [e], es[1..], e.End(), i - 1);
      assert past + [e] + es[1..] == past + es;
    }
  }

  // A call of the same address less than a second before.
  predicate RecentCall(earlier: Event, e: Event)
    requires e.Call?
  {
    earlier.Call? && earlier.ip == e.ip && e.clock.since - earlier.clock.checked < 1_000_000_000
  }

  // Over every schedule, with its sweeps: an address is refused only when it made another call less than a
  // second before. So an address that waits a second between calls is never refused.
  lemma {:induction false} RefusedOnlyInHaste(limit: int, evicting: bool, start: int, es: seq<Event>, i: nat)
    requires limit > 0 && Monotone(start, es)
    requires i < |es| && es[i].Call? && !Answers(limit, evicting, map[], es)[i]
    ensures exists j :: 0 <= j < i && RecentCall(es[j], es[i])
  {
    RefusedAfter(limit, evicting, map[], [], es, start, i);
    assert [] + es == es;
  }

  // ---- Eviction is unobservable exactly up to a limit of 600 ----

  // The evicting limiter `ev` simulates the limiter `full` that never evicts: whatever it forgot has
  // been idle for longer than the threshold.
  predicate Simulates(limit: int, ev: map<string, Bucket>, full: map<string, Bucket>, now: int) {
    && AllOk(limit, full, now)
    && (forall ip :: ip in ev ==> ip in full && ev[ip] == full[ip])
    && (forall ip :: ip in full && ip !in ev ==> now - full[ip].lastCheck > STALE_THRESHOLD)
  }

  // A bucket idle past the threshold charges exactly like a new one.
  lemma {:induction false} IdleBucketIsFull(limit: int, b: Bucket, clock: Clock)
    requires limit <= 600 && clock.Ordered() && BucketOk(limit, b, clock.created)
    requires clock.created - b.lastCheck > STALE_THRESHOLD
    ensures Refilled(b, limit, clock) == limit == Refilled(Bucket(limit, clock.created), limit, clock)
  {
    assert (clock.since - b.lastCheck) / SECOND >= 600;
    assert (clock.since - clock.created) / SECOND >= 0;
  }

  lemma {:induction false} SimulationStep(limit: int, ev: map<string, Bucket>, full: map<string, Bucket>, e: Event, now: int)
    requires limit <= 600 && Simulates(limit, ev, full, now) && now <= e.Start() && e.Ordered()
    ensures Simulates(limit, Next(limit, true, ev, e), Next(limit, false, full, e), e.End())
    ensures Passes(limit, ev, e) == Passes(limit, full, e)
  {
    NextOk(limit, false, full, e, now);
    if e.Call? && e.ip in full && e.ip !in ev {
      IdleBucketIsFull(limit, full[e.ip], e.clock);
    }
  }

  lemma {:induction false} SimulationRun(limit: int, ev: map<string, Bucket>, full: map<string, Bucket>,
                                         es: seq<Event>, now: int, ip: string, requests: iset<nat>)
    requires limit <= 600 && Simulates(limit, ev, full, now) && Monotone(now, es)
    ensures Answers(limit, true, ev, es) == Answers(limit, false, full, es)
    ensures Allowed(limit, true, ev, es, ip, requests) == Allowed(limit, false, full, es, ip, requests)
    decreases |es|
  {
    if es != [] {
      var e := es[0];
      SimulationStep(limit, ev, full, e, now);
      SimulationRun(limit, Next(limit, true, ev, e), Next(limit, false, full, e), es[1..], e.End(), ip, requests);
    }
  }

  // `n` calls from one address, all at one instant.
  function Burst(n: nat, ip: string, at: int): (es: seq<Event>)
    ensures |es| == n
    ensures NoSweep(es)
  {
    if n == 0 then [] else [Call(0, ip, Clock(at, at, at))] + Burst(n - 1, ip, at)
  }

  lemma {:induction false} BurstMonotone(n: nat, ip: string, at: int, rest: seq<Event>)
    requires Monotone(at, rest)
    ensures Monotone(at, Burst(n, ip, at) + rest)
  {
    var es := Burst(n, ip, at) + rest;
    if n == 0 {
      assert es == rest;
    } else {
      BurstMonotone(n - 1, ip, at, rest);
      assert es[1..] == Burst(n - 1, ip, at) + rest;
    }
  }

  lemma {:induction false} AnswersAfter(limit: int, evicting: bool, clients: map<string, Bucket>, a: seq<Event>, b: seq<Event>)
    ensures Answers(limit, evicting, clients, a + b)[|a|..] == Answers(limit, evicting, Run(limit, evicting, clients, a), b)
    decreases |a|
  {
    hide Next, Passes;
    if a == [] {
      assert a + b == b;
    } else {
      assert (a + b)[1..] == a[1..] + b;
      AnswersAfter(limit, evicting, Next(limit, evicting, clients, a[0]), a[1..], b);
    }
  }

  // What is in hand at one instant, after a refill.
  function InHand(limit: int, clients: map<string, Bucket>, ip: string, at: int): int {
    Refilled(Lookup(clients, limit, ip, Clock(at, at, at)), limit, Clock(at, at, at))
  }

  // A burst spends one token per call out of what its first call finds.
  lemma {:induction false} BurstSpends(limit: int, evicting: bool, clients: map<string, Bucket>, n: nat, ip: string, at: int)
    requires 1 <= n <= InHand(limit, clients, ip, at)
    ensures Run(limit, evicting, clients, Burst(n, ip, at)) == clients[ip := Bucket(InHand(limit, clients, ip, at) - n, at)]
    decreases n
  {
    var tokens := InHand(limit, clients, ip, at);
    var es := Burst(n, ip, at);
    var after := Next(limit, evicting, clients, es[0]);
    assert after == clients[ip := Bucket(tokens - 1, at)];
    assert es[1..] == Burst(n - 1, ip, at);
    if n > 1 {
      BurstSpends(limit, evicting, after, n - 1, ip, at);
      assert after[ip := Bucket(tokens - n, at)] == clients[ip := Bucket(tokens - n, at)];
    }
  }

  // Spend the whole limit, stay away for just over ten minutes while one sweep runs, then come back
  // with 601 calls.
  const LATER := STALE_THRESHOLD + 1

  function EvictionWitness(limit: nat, ip: string): seq<Event> {
    Burst(limit, ip, 0) + ([Sweep(LATER)] + (Burst(600, ip, LATER) + Burst(1, ip, LATER)))
  }

  lemma {:induction false} WitnessMonotone(limit: nat, ip: string)
    ensures Monotone(0, EvictionWitness(limit, ip))
  {
    var last := Burst(1, ip, LATER);
    var back := Burst(600, ip, LATER) + last;
    BurstMonotone(600, ip, LATER, last);
    assert ([Sweep(LATER)] + back)[1..] == back;
    BurstMonotone(limit, ip, 0, [Sweep(LATER)] + back);
  }

  // The 601st returning call is let through only by the limiter that forgot the address.
  lemma {:induction false} WitnessAnswer(limit: nat, ip: string, evicting: bool)
    requires limit > 600
    ensures Answers(limit, evicting, map[], EvictionWitness(limit, ip))[limit + 601] == evicting
  {
    hide Answers, Run;
    var last := Burst(1, ip, LATER);
    var back := Burst(600, ip, LATER);
    var tail := [Sweep(LATER)] + (back + last);
    var empty := map[ip := Bucket(0, 0)];
    BurstSpends(limit, evicting, map[], limit, ip, 0);
    assert map[][ip := Bucket(0, 0)] == empty;
    AnswersAfter(limit, evicting, map[], Burst(limit, ip, 0), tail);
    var swept := if evicting then map[] else empty;
    SweepAnswer(limit, evicting, empty, swept, back + last);
    BurstSpends(limit, evicting, swept, 600, ip, LATER);
    AnswersAfter(limit, evicting, swept, back, last);
    var end := swept[ip := Bucket(InHand(limit, swept, ip, LATER) - 600, LATER)];
    OneAnswer(limit, evicting, end, last[0]);
    assert last == [last[0]];
    var all := Answers(limit, evicting, map[], EvictionWitness(limit, ip));
    assert all[limit + 601] == all[limit..][601];
    var returned := Answers(limit, evicting, swept, back + last);
    assert all[limit..][601] == all[limit..][1..][600] == returned[600] == returned[600..][0];
  }

  lemma {:induction false} SweepAnswer(limit: int, evicting: bool, clients: map<string, Bucket>, swept: map<string, Bucket>, es: seq<Event>)
    requires swept == Next(limit, evicting, clients, Sweep(LATER))
    ensures Answers(limit, evicting, clients, [Sweep(LATER)] + es)[1..] == Answers(limit, evicting, swept, es)
  {
    assert ([Sweep(LATER)] + es)[1..] == es;
  }

  lemma {:induction false} OneAnswer(limit: int, evicting: bool, clients: map<string, Bucket>, e: Event)
    ensures Answers(limit, evicting, clients, [e]) == [Passes(limit, clients, e)]
  {
    assert [e][1..] == [];
  }

  // On this schedule nobody can tell whether the sweep runs.
  ghost predicate Unobservable(limit: int, start: int, es: seq<Event>) {
    Monotone(start, es) ==> Answers(limit, true, map[], es) == Answers(limit, false, map[], es)
  }

  // The sweep never changes an answer if and only if the limit is at most 600.
  lemma {:induction false} EvictionUnobservable(limit: int)
    ensures (forall start: int, es: seq<Event> :: Unobservable(limit, start, es)) <==> limit <= 600
  {
    if limit <= 600 {
      forall start: int, es: seq<Event>
        ensures Unobservable(limit, start, es)
      {
        if Monotone(start, es) {
          SimulationRun(limit, map[], map[], es, start, "", ANY_REQUEST);
        }
      }
    } else {
      WitnessMonotone(limit, "");
      WitnessAnswer(limit, "", true);
      WitnessAnswer(limit, "", false);
      assert !Unobservable(limit, 0, EvictionWitness(limit, ""));
    }
  }

  // ---- Window bound ----

  lemma {:induction false} FloorSum(a: int, b: int)
    requires a >= 0 && b >= 0
    ensures a / SECOND + b / SECOND <= (a + b) / SECOND
  {
  }

  lemma {:induction false} FloorMonotone(a: int, b: int)
    requires a <= b
    ensures a / SECOND <= b / SECOND
  {
  }

  // Tokens in hand plus whole seconds left bound what can still be let through.
  lemma {:induction false} Budget(limit: int, clients: map<string, Bucket>, es: seq<Event>, ip: string, now: int, t: int)
    requires limit > 0 && AllOk(limit, clients, now) && Monotone(now, es) && Finish(now, es) <= t
    requires ip in clients
    ensures Finish(now, es) >= now
    ensures Allowed(limit, false, clients, es, ip, ANY_REQUEST)
            <= clients[ip].tokens + (t - clients[ip].lastCheck) / SECOND
    decreases |es|
  {
    var b := clients[ip];
    if es == [] {
      assert (t - b.lastCheck) / SECOND >= 0;
    } else {
      var e := es[0];
      NextOk(limit, false, clients, e, now);
      Budget(limit, Next(limit, false, clients, e), es[1..], ip, e.End(), t);
      if e.Call? && e.ip == ip {
        FloorSum(e.clock.since - b.lastCheck, t - e.clock.checked);
        FloorMonotone(e.clock.since - b.lastCheck + (t - e.clock.checked), t - b.lastCheck);
      }
    }
  }

  // The cap: a window starts with at most `limit` tokens, however long the address was idle before.
  lemma {:induction false} CappedBudget(limit: int, clients: map<string, Bucket>, es: seq<Event>, ip: string, s: int, t: int)
    requires limit > 0 && AllOk(limit, clients, s) && Monotone(s, es) && Finish(s, es) <= t
    ensures Finish(s, es) >= s
    ensures Allowed(limit, false, clients, es, ip, ANY_REQUEST) <= limit + (t - s) / SECOND
    decreases |es|
  {
    if es == [] {
      assert (t - s) / SECOND >= 0;
    } else {
      var e := es[0];
      var after := Next(limit, false, clients, e);
      NextOk(limit, false, clients, e, s);
      if e.Call? && e.ip == ip {
        Budget(limit, after, es[1..], ip, e.End(), t);
        FloorMonotone(t - e.clock.checked, t - s);
      } else {
        CappedBudget(limit, after, es[1..], ip, e.End(), t);
        FloorMonotone(t - e.End(), t - s);
      }
    }
  }

  lemma {:induction false} NothingAllowed(limit: int, clients: map<string, Bucket>, es: seq<Event>, ip: string, now: int)
    requires limit <= 0 && AllOk(limit, clients, now) && Monotone(now, es)
    ensures Allowed(limit, true, clients, es, ip, ANY_REQUEST) == 0
    decreases |es|
  {
    if es != [] {
      var e := es[0];
      NextOk(limit, true, clients, e, now);
      if e.Call? {
        ChargedOk(limit, Lookup(clients, limit, e.ip, e.clock), e.clock);
      }
      NothingAllowed(limit, Next(limit, true, clients, e), es[1..], ip, e.End());
    }
  }

  lemma {:induction false} FinishLater(now: int, es: seq<Event>)
    requires Monotone(now, es)
    ensures now <= Finish(now, es)
    decreases |es|
  {
    if es != [] {
      FinishLater(es[0].End(), es[1..]);
    }
  }

  // Without sweeps the two limiters take the same steps.
  lemma {:induction false} NoSweepNoEviction(limit: int, clients: map<string, Bucket>, es: seq<Event>, ip: string,
                                             requests: iset<nat>)
    requires NoSweep(es)
    ensures Allowed(limit, true, clients, es, ip, requests) == Allowed(limit, false, clients, es, ip, requests)
    decreases |es|
  {
    if es != [] {
      assert NoSweep(es[1..]);
      NoSweepNoEviction(limit, Next(limit, true, clients, es[0]), es[1..], ip, requests);
    }
  }

  // Whatever came before, with its sweeps: in a window from s to t one address gets at most
  // limit + floor(t - s) calls through, provided the limit is at most 600 or no sweep falls in the window.
  lemma {:induction false} WindowBound(limit: int, start: int, before: seq<Event>, window: seq<Event>, ip: string, s: int, t: int)
    requires Monotone(start, before) && Finish(start, before) <= s
    requires Monotone(s, window) && Finish(s, window) <= t
    requires limit <= 600 || NoSweep(window)
    ensures s <= t
    ensures Allowed(limit, true, Run(limit, true, map[], before), window, ip, ANY_REQUEST)
            <= Max(limit, 0) + (t - s) / SECOND
  {
    var clients := Run(limit, true, map[], before);
    RunOk(limit, true, map[], before, start);
    assert AllOk(limit, clients, s);
    FinishLater(s, window);
    if limit <= 0 {
      NothingAllowed(limit, clients, window, ip, s);
      assert (t - s) / SECOND >= 0;
    } else {
      if limit <= 600 {
        SimulationRun(limit, clients, clients, window, s, ip, ANY_REQUEST);
      } else {
        NoSweepNoEviction(limit, clients, window, ip, ANY_REQUEST);
      }
      CappedBudget(limit, clients, window, ip, s, t);
    }
  }

  lemma {:induction false} AllowedAfter(limit: int, evicting: bool, clients: map<string, Bucket>, a: seq<Event>,
                                        b: seq<Event>, ip: string)
    ensures Allowed(limit, evicting, clients, a + b, ip, ANY_REQUEST)
            == Allowed(limit, evicting, clients, a, ip, ANY_REQUEST)
               + Allowed(limit, evicting, Run(limit, evicting, clients, a), b, ip, ANY_REQUEST)
    decreases |a|
  {
    hide Next, Passes;
    if a == [] {
      assert a + b == b;
    } else {
      assert (a + b)[1..] == a[1..] + b;
      AllowedAfter(limit, evicting, Next(limit, evicting, clients, a[0]), a[1..], b, ip);
    }
  }

  lemma {:induction false} BurstAllowed(limit: int, clients: map<string, Bucket>, n: nat, ip: string, at: int)
    requires n <= InHand(limit, clients, ip, at)
    ensures Allowed(limit, true, clients, Burst(n, ip, at), ip, ANY_REQUEST) == n
    decreases n
  {
    if n > 0 {
      var es := Burst(n, ip, at);
      var after := Next(limit, true, clients, es[0]);
      assert after == clients[ip := Bucket(InHand(limit, clients, ip, at) - 1, at)];
      assert es[1..] == Burst(n - 1, ip, at);
      BurstAllowed(limit, after, n - 1, ip, at);
    }
  }

  // Within 600 seconds and a nanosecond the witness gets limit + 601 calls through.
  lemma {:induction false} WitnessAllowed(limit: nat, ip: string)
    requires limit > 600
    ensures Allowed(limit, true, map[], EvictionWitness(limit, ip), ip, ANY_REQUEST) >= limit + 601
    ensures Finish(0, EvictionWitness(limit, ip)) <= LATER
  {
    var first, back := Burst(limit, ip, 0), Burst(600, ip, LATER) + Burst(1, ip, LATER);
    BurstAllowed(limit, map[], limit, ip, 0);
    BurstSpends(limit, true, map[], limit, ip, 0);
    var spent := Run(limit, true, map[], first);
    assert Next(limit, true, spent, Sweep(LATER)) == map[];
    AllowedAfter(limit, true, map[], Burst(600, ip, LATER), Burst(1, ip, LATER), ip);
    BurstAllowed(limit, map[], 600, ip, LATER);
    BurstSpends(limit, true, map[], 600, ip, LATER);
    BurstAllowed(limit, Run(limit, true, map[], Burst(600, ip, LATER)), 1, ip, LATER);
    hide Allowed, Run, Finish;
    SweepAllows(limit, spent, back, ip);
    AllowedAfter(limit, true, map[], first, [Sweep(LATER)] + back, ip);
    WitnessFinishes(limit, ip);
  }

  lemma {:induction false} SweepAllows(limit: int, clients: map<string, Bucket>, es: seq<Event>, ip: string)
    ensures Allowed(limit, true, clients, [Sweep(LATER)] + es, ip, ANY_REQUEST)
            == Allowed(limit, true, Next(limit, true, clients, Sweep(LATER)), es, ip, ANY_REQUEST)
  {
    assert ([Sweep(LATER)] + es)[1..] == es;
  }

  lemma {:induction false} FinishSplits(start: int, a: seq<Event>, b: seq<Event>)
    ensures Finish(start, a + b) == Finish(Finish(start, a), b)
    decreases |a|
  {
    if a == [] {
      assert a + b == b;
    } else {
      assert (a + b)[1..] == a[1..] + b;
      FinishSplits(a[0].End(), a[1..], b);
    }
  }

  lemma {:induction false} BurstFinishes(start: int, n: nat, ip: string, at: int)
    requires start <= at
    ensures Finish(start, Burst(n, ip, at)) <= at
    decreases n
  {
    if n > 0 {
      BurstFinishes(at, n - 1, ip, at);
      assert Burst(n, ip, at)[1..] == Burst(n - 1, ip, at);
    }
  }

  lemma {:induction false} WitnessFinishes(limit: nat, ip: string)
    ensures Finish(0, EvictionWitness(limit, ip)) <= LATER
  {
    var first, back, last := Burst(limit, ip, 0), Burst(600, ip, LATER), Burst(1, ip, LATER);
    FinishSplits(0, first, [Sweep(LATER)] + (back + last));
    FinishSplits(Finish(0, first), [Sweep(LATER)], back + last);
    assert [Sweep(LATER)][1..] == [];
    assert Finish(Finish(0, first), [Sweep(LATER)]) == LATER;
    FinishSplits(LATER, back, last);
    BurstFinishes(LATER, 600, ip, LATER);
    BurstFinishes(Finish(LATER, back), 1, ip, LATER);
  }

  // On this schedule and window the calls that pass are within the bound.
  ghost predicate WithinBound(limit: int, start: int, before: seq<Event>, window: seq<Event>, ip: string, s: int, t: int) {
    Monotone(start, before) && Finish(start, before) <= s && Monotone(s, window) && Finish(s, window) <= t ==>
      Allowed(limit, true, Run(limit, true, map[], before), window, ip, ANY_REQUEST) <= Max(limit, 0) + (t - s) / SECOND
  }

  // The window bound holds for every schedule, sweeps included, if and only if the limit is at most 600.
  lemma {:induction false} WindowBoundExactly(limit: int)
    ensures (forall start: int, before: seq<Event>, window: seq<Event>, ip: string, s: int, t: int ::
               WithinBound(limit, start, before, window, ip, s, t))
            <==> limit <= 600
  {
    if limit <= 600 {
      forall start: int, before: seq<Event>, window: seq<Event>, ip: string, s: int, t: int
        ensures WithinBound(limit, start, before, window, ip, s, t)
      {
        if Monotone(start, before) && Finish(start, before) <= s && Monotone(s, window) && Finish(s, window) <= t {
          WindowBound(limit, start, before, window, ip, s, t);
        }
      }
    } else {
      WitnessMonotone(limit, "");
      WitnessAllowed(limit, "");
      assert Run(limit, true, map[], []) == map[];
      assert Monotone(0, []) && Finish(0, []) <= 0;
      assert (LATER - 0) / SECOND == 600;
      assert !WithinBound(limit, 0, [], EvictionWitness(limit, ""), "", 0, LATER);
    }
  }

  // ---- Served requests ----

  lemma {:induction false} AllowedSplits(limit: int, clients: map<string, Bucket>, es: seq<Event>, ip: string,
                                         a: iset<nat>, b: iset<nat>)
    requires a !! b
    ensures Allowed(limit, true, clients, es, ip, a + b)
            == Allowed(limit, true, clients, es, ip, a) + Allowed(limit, true, clients, es, ip, b)
    decreases |es|
  {
    if es != [] {
      AllowedSplits(limit, Next(limit, true, clients, es[0]), es[1..], ip, a, b);
    }
  }

  ghost function ToISet(s: set<nat>): iset<nat> { iset r | r in s }

  // A request is served when every Allow call its two middleware passes make is let through.
  ghost predicate Served(limit: int, clients: map<string, Bucket>, es: seq<Event>, ip: string, request: nat, mutation: bool) {
    Allowed(limit, true, clients, es, ip, iset{request}) >= GroupedCost(mutation)
  }

  lemma {:induction false} ServedCost(limit: int, clients: map<string, Bucket>, es: seq<Event>, ip: string,
                                      served: set<nat>, mutation: bool)
    requires forall r :: r in served ==> Served(limit, clients, es, ip, r, mutation)
    ensures Allowed(limit, true, clients, es, ip, ToISet(served)) >= GroupedCost(mutation) * |served|
    decreases |served|
  {
    if served != {} {
      var r :| r in served;
      var rest := served - {r};
      ServedCost(limit, clients, es, ip, rest, mutation);
      assert ToISet(served) == ToISet(rest) + iset{r};
      AllowedSplits(limit, clients, es, ip, ToISet(rest), iset{r});
      assert |served| == |rest| + 1;
    }
  }

  // Grouped routes: however the calls of concurrent requests interleave inside the window, four times
  // the served mutations plus twice the other served requests obey the token bound.
  lemma {:induction false} ServedRequestBound(limit: int, start: int, before: seq<Event>, window: seq<Event>, ip: string, s: int, t: int,
                           mutations: set<nat>, others: set<nat>)
    requires Monotone(start, before) && Finish(start, before) <= s
    requires Monotone(s, window) && Finish(s, window) <= t
    requires limit <= 600 || NoSweep(window)
    requires mutations !! others
    requires var clients := Run(limit, true, map[], before);
             && (forall r :: r in mutations ==> Served(limit, clients, window, ip, r, true))
             && (forall r :: r in others ==> Served(limit, clients, window, ip, r, false))
    ensures 4 * |mutations| + 2 * |others| <= Max(limit, 0) + (t - s) / SECOND
  {
    var clients := Run(limit, true, map[], before);
    WindowBound(limit, start, before, window, ip, s, t);
    ServedCost(limit, clients, window, ip, mutations, true);
    ServedCost(limit, clients, window, ip, others, false);
    var served := ToISet(mutations) + ToISet(others);
    AllowedSplits(limit, clients, window, ip, ToISet(mutations), ToISet(others));
    AllowedSplits(limit, clients, window, ip, served, ANY_REQUEST - served);
    assert served + (ANY_REQUEST - served) == ANY_REQUEST;
  }
}
