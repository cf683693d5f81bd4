/** The limiter that several gateway replicas share through Redis.  A failing
    Redis call, before or after its effect, sends that request to the replica's
    own in-process limiter. */
module SharedRateLimit {
  import opened Options
  import opened RateLimit
  import opened Tables

  datatype Counter = Counter(count: nat, expiresAt: Option<real>)
  type Store = map<Bucket, Counter>

  const EXPIRY_SECONDS: real := 120.0

  // How one exchange with Redis goes: both commands answer; INCR fails before or
  // after its effect; EXPIRE fails before or after its effect.
  datatype Fault = NoFault | IncrFails | IncrReplyLost | ExpireFails | ExpireReplyLost

  // One replica: whether it holds a client, whether creating one failed for good,
  // and the calls its in-process limiter has seen.
  datatype Replica = Replica(connected: bool, initFailed: bool, log: seq<Call>)

  function DropExpired(store: Store, now: real): Store {
    map b | b in store && (store[b].expiresAt.None? || now < store[b].expiresAt.value) :: store[b]
  }

  function Incr(store: Store, b: Bucket): Store {
    store[b := if b in store then store[b].(count := store[b].count + 1) else Counter(1, None)]
  }

  // The store after one exchange, and the count if all of it was answered.
  function Exchange(store: Store, b: Bucket, now: real, fault: Fault): (Store, Option<nat>) {
    var live := DropExpired(store, now);
    if fault == IncrFails then (live, None) else
    var counted := Incr(live, b);
    var count := counted[b].count;
    if fault == IncrReplyLost then (counted, None)
    else if count != 1 then (counted, Some(count))
    else if fault == ExpireFails then (counted, None)
    else
      var expiring := counted[b := Counter(1, Some(now + EXPIRY_SECONDS))];
      (expiring, if fault == ExpireReplyLost then None else Some(count))
  }

  datatype Verdict = Verdict(over: bool, viaRedis: bool)

  function Fallback(r: Replica, c: Call): (Replica, Verdict) {
    (r.(log := r.log + [c]), Verdict(Over(r.log, c), false))
  }

  // One request at one replica; `clientOk` says whether creating the client works.
  function Serve(store: Store, r: Replica, c: Call, clientOk: bool, fault: Fault): (Store, Replica, Verdict) {
    if c.limit <= 0 then (store, r, Verdict(false, false)) else
    var r' := if !r.connected && !r.initFailed then (if clientOk then r.(connected := true) else r.(initFailed := true)) else r;
    if !r'.connected then
      var f := Fallback(r', c);
      (store, f.0, f.1)
    else
      var x := Exchange(store, (c.key, WindowOf(c.at)), c.at, fault);
      if x.1.Some? then (x.0, r', Verdict(c.limit < x.1.value, true))
      else
        var f := Fallback(r', c);
        (x.0, f.0, f.1)
  }

  // ---------------- R replicas and one Redis ----------------

  datatype Request = Request(replica: nat, call: Call, clientOk: bool, fault: Fault)
  datatype System = System(now: real, store: Store, replicas: seq<Replica>, served: seq<(Call, Verdict)>)

  ghost predicate Enabled(s: System, q: Request) { s.now <= q.call.at && q.replica < |s.replicas| }

  function Next(s: System, q: Request): System
    requires q.replica < |s.replicas|
  {
    var x := Serve(s.store, s.replicas[q.replica], q.call, q.clientOk, q.fault);
    System(q.call.at, x.0, s.replicas[q.replica := x.1], s.served + [(q.call, x.2)])
  }

  ghost predicate ValidRun(s: System, qs: seq<Request>)
    decreases |qs|
  {
    qs == [] || (Enabled(s, qs[0]) && ValidRun(Next(s, qs[0]), qs[1..]))
  }

  ghost function Run(s: System, qs: seq<Request>): System
    requires ValidRun(s, qs)
    decreases |qs|
  {
    if qs == [] then s else Run(Next(s, qs[0]), qs[1..])
  }

  ghost predicate Initial(s: System) {
    && s.store == map[] && s.served == []
    && forall i :: 0 <= i < |s.replicas| ==> s.replicas[i] == Replica(false, false, [])
  }

  // Admitted requests of a bucket: all of them, or only those Redis answered.
  function Admitted(served: seq<(Call, Verdict)>, b: Bucket): nat {
    if served == [] then 0
    else
      var (c, v) := served[|served|-1];
      Admitted(served[..|served|-1], b) + (if Counts(c, b) && !v.over then 1 else 0)
  }

  function AdmittedByRedis(served: seq<(Call, Verdict)>, b: Bucket): nat {
    if served == [] then 0
    else
      var (c, v) := served[|served|-1];
      AdmittedByRedis(served[..|served|-1], b) + (if Counts(c, b) && !v.over && v.viaRedis then 1 else 0)
  }

  function AdmittedLocally(replicas: seq<Replica>, b: Bucket): nat {
    if replicas == [] then 0
    else AdmittedLocally(replicas[..|replicas|-1], b) + Admits(replicas[|replicas|-1].log, b)
  }

  lemma {:induction false} ReplicaUpdate(replicas: seq<Replica>, i: nat, r: Replica, b: Bucket)
    requires i < |replicas|
    ensures AdmittedLocally(replicas[i := r], b)
         == AdmittedLocally(replicas, b) - Admits(replicas[i].log, b) + Admits(r.log, b)
  {
    var n := |replicas| - 1;
    if i < n {
      assert replicas[i := r][..n] == replicas[..n][i := r];
      ReplicaUpdate(replicas[..n], i, r, b);
    } else {
      assert replicas[i := r][..n] == replicas[..n];
    }
  }

  ghost predicate FixedLimitOf(qs: seq<Request>, key: Key, limit: nat) {
    0 < limit && forall i :: 0 <= i < |qs| && qs[i].call.key == key ==> qs[i].call.limit == limit
  }

  // No counter expires before its own window is over, and during that window it
  // is at least the number of requests it let in.
  ghost predicate StoreOk(s: System, b: Bucket) {
    && (b in s.store && s.store[b].expiresAt.Some? ==>
          WINDOW_SECONDS * (b.1 + 1) as real <= s.store[b].expiresAt.value)
    && (s.now < WINDOW_SECONDS * (b.1 + 1) as real && 0 < AdmittedByRedis(s.served, b) ==>
          b in s.store && AdmittedByRedis(s.served, b) <= s.store[b].count)
  }

  ghost predicate Inv(s: System, b: Bucket, limit: nat) {
    && StoreOk(s, b)
    && AdmittedByRedis(s.served, b) <= limit
    && Admitted(s.served, b) == AdmittedByRedis(s.served, b) + AdmittedLocally(s.replicas, b)
    && forall i :: 0 <= i < |s.replicas| ==> FixedLimit(s.replicas[i].log, b.0, limit)
  }

  lemma ServedAppend(served: seq<(Call, Verdict)>, x: (Call, Verdict), b: Bucket)
    ensures Admitted(served + [x], b) == Admitted(served, b) + (if Counts(x.0, b) && !x.1.over then 1 else 0)
    ensures AdmittedByRedis(served + [x], b)
         == AdmittedByRedis(served, b) + (if Counts(x.0, b) && !x.1.over && x.1.viaRedis then 1 else 0)
  {
    assert (served + [x])[..|served|] == served;
  }

  // The expiry set at the first count of a window lies past the window's end.
  lemma ExchangeKeepsCounter(store: Store, b: Bucket, hit: Bucket, now: real, fault: Fault)
    requires b in store && store[b].expiresAt.Some? ==> WINDOW_SECONDS * (b.1 + 1) as real <= store[b].expiresAt.value
    requires hit.1 == WindowOf(now)
    ensures var (after, count) := Exchange(store, hit, now, fault);
            && (b in after && after[b].expiresAt.Some? ==> WINDOW_SECONDS * (b.1 + 1) as real <= after[b].expiresAt.value)
            && (now < WINDOW_SECONDS * (b.1 + 1) as real && b in store ==>
                  b in after && store[b].count <= after[b].count
                  && (b == hit && count.Some? ==> count.value == store[b].count + 1))
            && (b == hit && count.Some? ==> b in after && after[b].count == count.value)
            && (count.Some? ==> 0 < count.value)
  {
    WindowBounds(now);
  }

  lemma AdmitsAppend(log: seq<Call>, c: Call, b: Bucket)
    ensures Admits(log + [c], b) == Admits(log, b) + (if Counts(c, b) && !Over(log, c) then 1 else 0)
  {
    assert (log + [c])[..|log|] == log;
  }

  lemma NextKeepsStore(s: System, q: Request, b: Bucket, limit: nat)
    requires Inv(s, b, limit) && Enabled(s, q) && FixedLimitOf([q], b.0, limit)
    ensures StoreOk(Next(s, q), b) && AdmittedByRedis(Next(s, q).served, b) <= limit
  {
    var c := q.call;
    assert [q][0] == q;
    var hit := (c.key, WindowOf(c.at));
    ExchangeKeepsCounter(s.store, b, hit, c.at, q.fault);
    WindowBounds(c.at);
    ServedAppend(s.served, Next(s, q).served[|s.served|], b);
  }

  // Without a limit a request is admitted at once and touches nothing.
  lemma NoLimitNeverOver(store: Store, r: Replica, c: Call, clientOk: bool, fault: Fault)
    requires c.limit <= 0
    ensures Serve(store, r, c, clientOk, fault) == (store, r, Verdict(false, false))
  {}

  // Either Redis answered (or nothing is limited), or the replica's own limiter did.
  lemma ServeLog(store: Store, r: Replica, c: Call, clientOk: bool, fault: Fault)
    ensures var (_, r', v) := Serve(store, r, c, clientOk, fault);
            if c.limit <= 0 || v.viaRedis then r'.log == r.log else r'.log == r.log + [c] && v.over == Over(r.log, c)
  {}

  lemma NextKeepsTotals(s: System, q: Request, b: Bucket, limit: nat)
    requires Inv(s, b, limit) && Enabled(s, q) && FixedLimitOf([q], b.0, limit)
    ensures var t := Next(s, q);
            Admitted(t.served, b) == AdmittedByRedis(t.served, b) + AdmittedLocally(t.replicas, b)
  {
    hide Serve, StoreOk;
    assert [q][0] == q;
    var x := Serve(s.store, s.replicas[q.replica], q.call, q.clientOk, q.fault);
    ServeLog(s.store, s.replicas[q.replica], q.call, q.clientOk, q.fault);
    ServedAppend(s.served, (q.call, x.2), b);
    ReplicaUpdate(s.replicas, q.replica, x.1, b);
    AdmitsAppend(s.replicas[q.replica].log, q.call, b);
  }

  lemma NextKeepsInv(s: System, q: Request, b: Bucket, limit: nat)
    requires Inv(s, b, limit) && Enabled(s, q) && FixedLimitOf([q], b.0, limit)
    ensures Inv(Next(s, q), b, limit)
  {
    NextKeepsStore(s, q, b, limit);
    NextKeepsTotals(s, q, b, limit);
    assert [q][0] == q;
  }

  lemma {:induction false} RunKeepsInv(s: System, qs: seq<Request>, b: Bucket, limit: nat)
    requires Inv(s, b, limit) && ValidRun(s, qs) && FixedLimitOf(qs, b.0, limit)
    ensures Inv(Run(s, qs), b, limit) && |Run(s, qs).replicas| == |s.replicas|
    decreases |qs|
  {
    if qs != [] {
      assert [qs[0]][0] == qs[0];
      NextKeepsInv(s, qs[0], b, limit);
      RunKeepsInv(Next(s, qs[0]), qs[1..], b, limit);
    }
  }

  lemma {:induction false} LocalBound(replicas: seq<Replica>, b: Bucket, limit: nat)
    requires forall i :: 0 <= i < |replicas| ==> FixedLimit(replicas[i].log, b.0, limit)
    ensures AdmittedLocally(replicas, b) <= |replicas| * limit
  {
    if replicas != [] {
      var n := |replicas| - 1;
      LocalBound(replicas[..n], b, limit);
      AdmitsPerWindow(replicas[n].log, b, limit);
      OneMore(n, limit);
    }
  }

  lemma {:induction false} InitialTotals(replicas: seq<Replica>, b: Bucket)
    requires forall i :: 0 <= i < |replicas| ==> replicas[i].log == []
    ensures AdmittedLocally(replicas, b) == 0
  {
    if replicas != [] { InitialTotals(replicas[..|replicas|-1], b); }
  }

  // With R replicas and any Redis failures a key is admitted at most (R + 1) * L
  // times in a window, of which at most L by Redis.
  lemma SharedBound(s0: System, qs: seq<Request>, b: Bucket, limit: nat)
    requires Initial(s0) && ValidRun(s0, qs) && FixedLimitOf(qs, b.0, limit)
    ensures AdmittedByRedis(Run(s0, qs).served, b) <= limit
    ensures Admitted(Run(s0, qs).served, b) <= (|s0.replicas| + 1) * limit
  {
    InitialTotals(s0.replicas, b);
    RunKeepsInv(s0, qs, b, limit);
    var t := Run(s0, qs);
    LocalBound(t.replicas, b, limit);
    OneMore(|s0.replicas|, limit);
  }

  function AdmittedDuring(served: seq<(Call, Verdict)>, key: Key, from: real, until: real): nat {
    if served == [] then 0
    else
      var (c, v) := served[|served|-1];
      AdmittedDuring(served[..|served|-1], key, from, until) + (if c.key == key && from <= c.at < until && !v.over then 1 else 0)
  }

  ghost predicate ServedUnder(served: seq<(Call, Verdict)>, key: Key) {
    forall i :: 0 <= i < |served| && served[i].0.key == key ==> 0 < served[i].0.limit
  }

  lemma {:induction false} DuringTwoWindows(served: seq<(Call, Verdict)>, key: Key, from: real)
    requires ServedUnder(served, key)
    ensures AdmittedDuring(served, key, from, from + WINDOW_SECONDS)
         <= Admitted(served, (key, WindowOf(from))) + Admitted(served, (key, WindowOf(from) + 1))
  {
    if served != [] {
      DuringTwoWindows(served[..|served|-1], key, from);
      var c := served[|served|-1].0;
      if from <= c.at < from + WINDOW_SECONDS { TwoWindows(c.at, from); }
    }
  }

  lemma {:induction false} RunServes(s: System, qs: seq<Request>, key: Key, limit: nat)
    requires ValidRun(s, qs) && FixedLimitOf(qs, key, limit) && ServedUnder(s.served, key)
    ensures ServedUnder(Run(s, qs).served, key)
    decreases |qs|
  {
    if qs != [] { RunServes(Next(s, qs[0]), qs[1..], key, limit); }
  }

  // In any 60 seconds, wherever they start, at most 2 (R + 1) L.
  lemma SharedPerMinute(s0: System, qs: seq<Request>, key: Key, limit: nat, from: real)
    requires Initial(s0) && ValidRun(s0, qs) && FixedLimitOf(qs, key, limit)
    ensures AdmittedDuring(Run(s0, qs).served, key, from, from + 60.0) <= 2 * ((|s0.replicas| + 1) * limit)
  {
    RunServes(s0, qs, key, limit);
    DuringTwoWindows(Run(s0, qs).served, key, from);
    SharedBound(s0, qs, (key, WindowOf(from)), limit);
    SharedBound(s0, qs, (key, WindowOf(from) + 1), limit);
  }

  // ---------------- a healthy Redis ----------------

  ghost predicate Healthy(qs: seq<Request>) {
    forall i :: 0 <= i < |qs| ==> qs[i].clientOk && qs[i].fault == NoFault
  }

  function CallsServed(served: seq<(Call, Verdict)>, b: Bucket): nat {
    if served == [] then 0
    else CallsServed(served[..|served|-1], b) + (if Counts(served[|served|-1].0, b) then 1 else 0)
  }

  // The shared counter is the number of calls of the window so far.
  ghost predicate Exact(s: System, b: Bucket, limit: nat) {
    && (forall i :: 0 <= i < |s.replicas| ==> !s.replicas[i].initFailed)
    && Admitted(s.served, b) == (if CallsServed(s.served, b) < limit then CallsServed(s.served, b) else limit)
    && (b in s.store && s.store[b].expiresAt.Some? ==> WINDOW_SECONDS * (b.1 + 1) as real <= s.store[b].expiresAt.value)
    && (s.now < WINDOW_SECONDS * (b.1 + 1) as real ==>
          CallsServed(s.served, b) == if b in s.store then s.store[b].count else 0)
  }

  lemma NextExact(s: System, q: Request, b: Bucket, limit: nat)
    requires Exact(s, b, limit) && Enabled(s, q) && q.clientOk && q.fault == NoFault
    requires 0 < limit && (q.call.key == b.0 ==> q.call.limit == limit)
    ensures Exact(Next(s, q), b, limit)
  {
    var c, t := q.call, Next(s, q);
    WindowBounds(c.at);
    ServedAppend(s.served, t.served[|s.served|], b);
    assert t.served[..|s.served|] == s.served;
    assert CallsServed(t.served, b) == CallsServed(s.served, b) + (if Counts(c, b) then 1 else 0);
  }

  // While Redis answers, the replicas together behave as one limiter: the n calls
  // of a key in a window are admitted exactly min(L, n) times.
  lemma {:induction false} HealthyIsExact(s: System, qs: seq<Request>, b: Bucket, limit: nat)
    requires Exact(s, b, limit) && ValidRun(s, qs) && FixedLimitOf(qs, b.0, limit) && Healthy(qs)
    ensures Exact(Run(s, qs), b, limit)
    decreases |qs|
  {
    if qs != [] {
      NextExact(s, qs[0], b, limit);
      HealthyIsExact(Next(s, qs[0]), qs[1..], b, limit);
    }
  }

  lemma SharedExact(s0: System, qs: seq<Request>, b: Bucket, limit: nat)
    requires Initial(s0) && ValidRun(s0, qs) && FixedLimitOf(qs, b.0, limit) && Healthy(qs)
    ensures var served := Run(s0, qs).served;
            Admitted(served, b) == if CallsServed(served, b) < limit then CallsServed(served, b) else limit
  {
    HealthyIsExact(s0, qs, b, limit);
  }

  // ---------------- the classes ----------------

  class RedisServer {
    var store: Store

    constructor ()
      ensures store == map[]
    {
      store := map[];
    }
  }

  class RedisRateLimiter {
    const server: RedisServer
    const fallback: MemoryRateLimiter
    var connected: bool
    var initFailed: bool
    var degradedLogged: bool

    ghost predicate Valid()
      reads this, fallback
    {
      fallback.Valid()
    }

    ghost function Abs(): Replica
      reads this, fallback
    {
      Replica(connected, initFailed, fallback.log)
    }

    constructor (server: RedisServer, ghost start: real)
      ensures Valid() && fresh(fallback) && this.server == server && fallback.latest == start
      ensures Abs() == Replica(false, false, [])
    {
      this.server := server;
      fallback := new MemoryRateLimiter(start);
      connected, initFailed, degradedLogged := false, false, false;
    }

    method GetClient(clientOk: bool) returns (ok: bool)
      modifies this`connected, this`initFailed
      ensures ok == connected
      ensures connected == (old(connected) || (!old(initFailed) && clientOk))
      ensures initFailed == (old(initFailed) || (!old(connected) && !clientOk))
    {
      if !connected && !initFailed {
        if clientOk {
          connected := true;
        } else {
          initFailed := true;
        }
      }
      ok := connected;
    }

    method OverLimit(key: Key, limit: int, now: real, clientOk: bool, fault: Fault) returns (over: bool)
      requires Valid() && fallback.latest <= now
      modifies this, server, fallback
      ensures Valid() && fallback.latest <= now
      ensures var x := Serve(old(server.store), old(Abs()), Call(key, now, limit), clientOk, fault);
              server.store == x.0 && Abs() == x.1 && over == x.2.over
    {
      hide Exchange, Over;
      if limit <= 0 {
        return false;
      }
      var client := GetClient(clientOk);
      if !client {
        over := fallback.OverLimit(key, limit, now);
        return;
      }
      var bucket := (key, WindowOf(now));
      var x := Exchange(server.store, bucket, now, fault);
      server.store := x.0;
      if x.1.Some? {
        return x.1.value > limit;
      }
      degradedLogged := true;
      over := fallback.OverLimit(key, limit, now);
    }
  }
}
