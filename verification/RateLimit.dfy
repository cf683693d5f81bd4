/** The gateway's fixed-window rate limiter: the in-process counter, the counter
    that replicas share in Redis, and the fallback from the second to the first.
    Times are exact reals in seconds. */
module RateLimit {

  type Key = string
  type Bucket = (Key, int)

  const WINDOW_SECONDS: real := 60.0
  const MAX_BUCKETS := 10000

  function WindowOf(at: real): int { (at / WINDOW_SECONDS).Floor }

  datatype Call = Call(key: Key, at: real, limit: int)

  // ---------------- the specification: counting the full call log ----------------

  predicate Counts(c: Call, b: Bucket) { 0 < c.limit && c.key == b.0 && WindowOf(c.at) == b.1 }

  function Count(log: seq<Call>, b: Bucket): nat {
    if log == [] then 0
    else Count(log[..|log|-1], b) + (if Counts(log[|log|-1], b) then 1 else 0)
  }

  // The verdict on a call that follows the calls of `log`.
  predicate Over(log: seq<Call>, c: Call) {
    0 < c.limit && c.limit <= Count(log, (c.key, WindowOf(c.at)))
  }

  function Admits(log: seq<Call>, b: Bucket): nat {
    if log == [] then 0
    else
      var front, c := log[..|log|-1], log[|log|-1];
      Admits(front, b) + (if Counts(c, b) && !Over(front, c) then 1 else 0)
  }

  // Every call of `key` is made under one positive limit.
  ghost predicate FixedLimit(log: seq<Call>, key: Key, limit: nat) {
    0 < limit && forall i :: 0 <= i < |log| && log[i].key == key ==> log[i].limit == limit
  }

  // Under a fixed limit L the n calls of a key in a window are admitted exactly
  // min(L, n) times.
  lemma {:induction false} AdmitsPerWindow(log: seq<Call>, b: Bucket, limit: nat)
    requires FixedLimit(log, b.0, limit)
    ensures Admits(log, b) == if Count(log, b) < limit then Count(log, b) else limit
  {
    if log != [] {
      AdmitsPerWindow(log[..|log|-1], b, limit);
    }
  }

  function AdmitsDuring(log: seq<Call>, key: Key, from: real, until: real): nat {
    if log == [] then 0
    else
      var front, c := log[..|log|-1], log[|log|-1];
      AdmitsDuring(front, key, from, until)
      + (if c.key == key && from <= c.at < until && !Over(front, c) then 1 else 0)
  }

  lemma WindowBounds(at: real)
    ensures WINDOW_SECONDS * WindowOf(at) as real <= at < WINDOW_SECONDS * (WindowOf(at) + 1) as real
  {}

  lemma TwoWindows(at: real, from: real)
    requires from <= at < from + WINDOW_SECONDS
    ensures WindowOf(at) == WindowOf(from) || WindowOf(at) == WindowOf(from) + 1
  {}

  lemma {:induction false} DuringWithinTwoWindows(log: seq<Call>, key: Key, limit: nat, from: real)
    requires FixedLimit(log, key, limit)
    ensures AdmitsDuring(log, key, from, from + WINDOW_SECONDS)
         <= Admits(log, (key, WindowOf(from))) + Admits(log, (key, WindowOf(from) + 1))
  {
    if log != [] {
      var front, c := log[..|log|-1], log[|log|-1];
      DuringWithinTwoWindows(front, key, limit, from);
      if from <= c.at < from + WINDOW_SECONDS { TwoWindows(c.at, from); }
    }
  }

  // At most 2L calls of a key in any 60 seconds, wherever they start.
  lemma AdmitsPerMinute(log: seq<Call>, key: Key, limit: nat, from: real)
    requires FixedLimit(log, key, limit)
    ensures AdmitsDuring(log, key, from, from + 60.0) <= 2 * limit
  {
    DuringWithinTwoWindows(log, key, limit, from);
    AdmitsPerWindow(log, (key, WindowOf(from)), limit);
    AdmitsPerWindow(log, (key, WindowOf(from) + 1), limit);
  }

  lemma {:induction false} NoneLater(log: seq<Call>, b: Bucket)
    requires forall i :: 0 <= i < |log| ==> WindowOf(log[i].at) < b.1
    ensures Count(log, b) == 0
  {
    if log != [] { NoneLater(log[..|log|-1], b); }
  }

  // The earlier calls that count for a call: those of its own key, with a limit, in
  // its own minute.
  function Earlier(log: seq<Call>, c: Call): set<nat> {
    set i: nat | i < |log| && log[i].key == c.key && 0 < log[i].limit && (log[i].at / 60.0).Floor == (c.at / 60.0).Floor
  }

  lemma {:induction false} CountIsEarlier(log: seq<Call>, c: Call)
    ensures Count(log, (c.key, WindowOf(c.at))) == |Earlier(log, c)|
  {
    if log != [] {
      var n: nat := |log| - 1;
      CountIsEarlier(log[..n], c);
      assert Earlier(log, c) == Earlier(log[..n], c) + (if Counts(log[n], (c.key, WindowOf(c.at))) then {n} else {});
    } else {
      assert Earlier(log, c) == {};
    }
  }

  // A call is over exactly if it has a limit and at least as many calls of its key were
  // made in its minute before; calls of other keys never matter, and no limit means
  // never over.
  lemma OverIff(log: seq<Call>, c: Call)
    ensures Over(log, c) <==> 0 < c.limit && c.limit <= |Earlier(log, c)|
  {
    CountIsEarlier(log, c);
  }

  // ---------------- the in-process limiter ----------------

  class MemoryRateLimiter {
    var windows: map<Bucket, nat>
    ghost var log: seq<Call>
    ghost var latest: real

    // The buckets of the latest window hold the exact counts; older ones may be gone.
    ghost predicate Valid()
      reads this
    {
      && (forall i :: 0 <= i < |log| ==> log[i].at <= latest)
      && (forall b <- windows :: b.1 <= WindowOf(latest))
      && (forall key: Key :: Lookup(windows, (key, WindowOf(latest))) == Count(log, (key, WindowOf(latest))))
    }

    constructor (ghost start: real)
      ensures Valid() && log == [] && latest == start
    {
      windows, log, latest := map[], [], start;
    }

    method OverLimit(key: Key, limit: int, now: real) returns (over: bool)
      requires Valid() && latest <= now
      modifies this
      ensures Valid() && latest == now
      ensures log == old(log) + [Call(key, now, limit)]
      ensures over == Over(old(log), Call(key, now, limit))
    {
      hide Count, WindowOf;
      var window := WindowOf(now);
      ghost var c := Call(key, now, limit);
      AdvanceTo(now);
      CountAppend(log, c);
      log := log + [c];
      if limit <= 0 {
        return false;
      }
      var bucket := (key, window);
      windows := windows[bucket := Lookup(windows, bucket) + 1];
      if |windows| > MAX_BUCKETS {
        Cleanup(window);
      }
      over := windows[bucket] > limit;
    }

    // No call is recorded: only the clock moves on.
    ghost method AdvanceTo(now: real)
      requires Valid() && latest <= now
      modifies this`latest
      ensures Valid() && latest == now
    {
      if WindowOf(latest) < WindowOf(now) {
        forall key: Key ensures Lookup(windows, (key, WindowOf(now))) == Count(log, (key, WindowOf(now))) {
          forall i | 0 <= i < |log| ensures WindowOf(log[i].at) < WindowOf(now) { WindowMonotone(log[i].at, latest); }
          NoneLater(log, (key, WindowOf(now)));
        }
      } else {
        WindowMonotone(latest, now);
      }
      latest := now;
    }

    // Drops the buckets of every other window, one at a time.
    method Cleanup(window: int)
      modifies this`windows
      ensures windows == map b | b in old(windows) && b.1 == window :: old(windows)[b]
    {
      var stale := set b | b in windows && b.1 != window;
      while stale != {}
        invariant stale <= windows.Keys
        invariant forall b <- stale :: b.1 != window
        invariant forall b <- windows :: b in old(windows) && windows[b] == old(windows)[b] && (b.1 == window || b in stale)
        invariant forall b <- old(windows) :: b.1 == window ==> b in windows
        decreases stale
      {
        var b :| b in stale;
        windows := windows - {b};
        stale := stale - {b};
      }
    }
  }

  function Lookup(windows: map<Bucket, nat>, b: Bucket): nat {
    if b in windows then windows[b] else 0
  }

  lemma WindowMonotone(a: real, b: real)
    requires a <= b
    ensures WindowOf(a) <= WindowOf(b)
  {}

  lemma CountAppend(log: seq<Call>, c: Call)
    ensures forall b: Bucket :: Count(log + [c], b) == Count(log, b) + (if Counts(c, b) then 1 else 0)
  {
    assert (log + [c])[..|log|] == log;
  }
}
