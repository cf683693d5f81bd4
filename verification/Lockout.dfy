/** Account lockout over the append-only audit log: a sliding window of recorded
    failures whose floor an administrator's unlock raises.  The customer and the
    admin service run the same decision.  Times are whole microseconds, the
    resolution of the stored timestamps. */
module Lockout {
  import opened Options
  import opened Tables

  type Id = nat
  type Time = int

  datatype Action = LoginFailure | LoginLocked | LoginSuccess | LoginUnlock
  datatype Entry = Entry(at: Time, actor: Option<Id>, action: Action)
  type Log = seq<Entry>

  // A threshold of zero switches the lockout off.
  datatype Policy = Policy(threshold: int, window: Time)
  datatype Reply = SignedIn | LockedOut | Unauthorized

  // ---------------- queries on the audit log ----------------

  predicate Is(e: Entry, c: Id, action: Action) { e.actor == Some(c) && e.action == action }

  function CountRecent(log: Log, c: Id, action: Action, since: Time): nat {
    if log == [] then 0
    else
      var e := log[|log|-1];
      CountRecent(log[..|log|-1], c, action, since) + (if Is(e, c, action) && since <= e.at then 1 else 0)
  }

  // The greatest timestamp of such an entry, if there is one.
  function LastEventAt(log: Log, c: Id, action: Action): Option<Time> {
    if log == [] then None
    else
      var e, rest := log[|log|-1], LastEventAt(log[..|log|-1], c, action);
      if Is(e, c, action) && (rest.None? || rest.value < e.at) then Some(e.at) else rest
  }

  function Since(p: Policy, log: Log, c: Id, now: Time): Time {
    var since := now - p.window;
    var unlock := LastEventAt(log, c, LoginUnlock);
    if unlock.Some? && since < unlock.value then unlock.value else since
  }

  predicate IsLocked(p: Policy, log: Log, c: Id, now: Time) {
    p.threshold != 0 && p.threshold <= CountRecent(log, c, LoginFailure, Since(p, log, c, now))
  }

  // ---------------- steps ----------------

  // `who` is the account behind the given email, `passwordOk` the bcrypt verdict.
  datatype Event =
    | Attempt(at: Time, who: Option<Id>, passwordOk: bool)
    | Unlock(at: Time, who: Option<Id>)

  function Step(p: Policy, log: Log, e: Event): (Log, Reply) {
    match e
    case Attempt(at, who, passwordOk) =>
      if who.Some? && IsLocked(p, log, who.value, at) then (log + [Entry(at, who, LoginLocked)], LockedOut)
      else if who.None? || !passwordOk then (log + [Entry(at, who, LoginFailure)], Unauthorized)
      else (log + [Entry(at, who, LoginSuccess)], SignedIn)
    case Unlock(at, who) =>
      if who.None? then (log, Unauthorized) else (log + [Entry(at, who, LoginUnlock)], SignedIn)
  }

  function Run(p: Policy, log: Log, es: seq<Event>): Log
    decreases |es|
  {
    if es == [] then log else Run(p, Step(p, log, es[0]).0, es[1..])
  }

  // Event times do not decrease, starting from `now`.
  ghost predicate Timely(now: Time, es: seq<Event>)
    decreases |es|
  {
    es == [] || (now <= es[0].at && Timely(es[0].at, es[1..]))
  }

  ghost predicate Sorted(log: Log) {
    forall i, j :: 0 <= i < j < |log| ==> log[i].at <= log[j].at
  }

  // ---------------- at most T failures a window ----------------

  // A log in which no failure was recorded while its account was locked.
  ghost predicate Admissible(p: Policy, log: Log) {
    && Sorted(log)
    && forall i :: 0 <= i < |log| && log[i].action == LoginFailure && log[i].actor.Some? ==>
         !IsLocked(p, log[..i], log[i].actor.value, log[i].at)
  }

  lemma AppendAdmissible(p: Policy, log: Log, x: Entry)
    requires Admissible(p, log) && (forall i :: 0 <= i < |log| ==> log[i].at <= x.at)
    requires x.action == LoginFailure && x.actor.Some? ==> !IsLocked(p, log, x.actor.value, x.at)
    ensures Admissible(p, log + [x])
  {
    var l := log + [x];
    assert l[..|log|] == log;
    forall i | 0 <= i < |l| && l[i].action == LoginFailure && l[i].actor.Some?
      ensures !IsLocked(p, l[..i], l[i].actor.value, l[i].at)
    {
      if i < |log| { assert l[..i] == log[..i]; }
    }
  }

  lemma {:induction false} RunAdmissible(p: Policy, log: Log, now: Time, es: seq<Event>)
    requires Admissible(p, log) && Timely(now, es) && forall i :: 0 <= i < |log| ==> log[i].at <= now
    ensures Admissible(p, Run(p, log, es))
    decreases |es|
  {
    if es != [] {
      var next := Step(p, log, es[0]).0;
      if next != log {
        assert next == log + [next[|log|]];
        AppendAdmissible(p, log, next[|log|]);
      }
      RunAdmissible(p, next, es[0].at, es[1..]);
    }
  }

  predicate Within(t: Time, lo: Time, hi: Time) { lo <= t <= hi }

  function CountWithin(log: Log, c: Id, action: Action, lo: Time, hi: Time): nat {
    if log == [] then 0
    else
      var e := log[|log|-1];
      CountWithin(log[..|log|-1], c, action, lo, hi) + (if Is(e, c, action) && Within(e.at, lo, hi) then 1 else 0)
  }

  // Failures inside the interval since the last unlock inside it.
  function SinceUnlock(log: Log, c: Id, lo: Time, hi: Time): nat {
    if log == [] then 0
    else
      var e, n := log[|log|-1], SinceUnlock(log[..|log|-1], c, lo, hi);
      if !Within(e.at, lo, hi) then n
      else if Is(e, c, LoginUnlock) then 0
      else if Is(e, c, LoginFailure) then n + 1
      else n
  }

  lemma {:induction false} LastEventBounds(log: Log, c: Id, action: Action)
    ensures var u := LastEventAt(log, c, action);
            && (forall i :: 0 <= i < |log| && Is(log[i], c, action) ==> u.Some? && log[i].at <= u.value)
            && (u.Some? ==> exists i :: 0 <= i < |log| && Is(log[i], c, action) && log[i].at == u.value)
  {
    if log != [] {
      var front := log[..|log|-1];
      LastEventBounds(front, c, action);
      var u := LastEventAt(front, c, action);
      if u.Some? {
        var i :| 0 <= i < |front| && Is(front[i], c, action) && front[i].at == u.value;
        assert log[i] == front[i];
      }
      assert Is(log[|log|-1], c, action) ==> LastEventAt(log, c, action).Some? && log[|log|-1].at <= LastEventAt(log, c, action).value;
      forall i | 0 <= i < |log| && Is(log[i], c, action)
        ensures LastEventAt(log, c, action).Some? && log[i].at <= LastEventAt(log, c, action).value
      {
        if i < |front| { assert front[i] == log[i]; }
      }
    }
  }

  // Every failure counted since the last unlock is one the lockout counts too.
  lemma {:induction false} SinceUnlockIsCounted(log: Log, c: Id, lo: Time, hi: Time, since: Time)
    requires Sorted(log)
    requires since <= lo || (lo <= since <= hi && LastEventAt(log, c, LoginUnlock) == Some(since))
    ensures SinceUnlock(log, c, lo, hi) <= CountRecent(log, c, LoginFailure, since)
  {
    if log != [] {
      var e, front := log[|log|-1], log[..|log|-1];
      LastEventBounds(log, c, LoginUnlock);
      if !(Within(e.at, lo, hi) && Is(e, c, LoginUnlock)) {
        SinceUnlockIsCounted(front, c, lo, hi, since);
        if since > lo {
          var i :| 0 <= i < |log| && Is(log[i], c, LoginUnlock) && log[i].at == since;
        }
      }
    }
  }

  // The failures that the unlocks inside the interval make room for.
  function Allowance(threshold: int, log: Log, c: Id, lo: Time, hi: Time): int {
    if log == [] then 0
    else
      var e := log[|log|-1];
      Allowance(threshold, log[..|log|-1], c, lo, hi) + (if Is(e, c, LoginUnlock) && Within(e.at, lo, hi) then threshold else 0)
  }

  lemma {:induction false} AllowanceIsProduct(threshold: int, log: Log, c: Id, lo: Time, hi: Time)
    ensures Allowance(threshold, log, c, lo, hi) == threshold * CountWithin(log, c, LoginUnlock, lo, hi)
  {
    if log != [] {
      var front := log[..|log|-1];
      AllowanceIsProduct(threshold, front, c, lo, hi);
      var n := CountWithin(front, c, LoginUnlock, lo, hi);
      assert threshold * (n + 1) == threshold * n + threshold;
    }
  }

  lemma FrontAdmissible(p: Policy, log: Log)
    requires Admissible(p, log) && log != []
    ensures Admissible(p, log[..|log|-1])
  {
    var front := log[..|log|-1];
    forall i | 0 <= i < |front| ensures front[..i] == log[..i] {}
  }

  lemma {:induction false} FailuresBounded(p: Policy, log: Log, c: Id, lo: Time)
    requires Admissible(p, log) && 0 < p.threshold
    ensures SinceUnlock(log, c, lo, lo + p.window) <= p.threshold
    ensures CountWithin(log, c, LoginFailure, lo, lo + p.window)
         <= Allowance(p.threshold, log, c, lo, lo + p.window) + SinceUnlock(log, c, lo, lo + p.window)
  {
    if log != [] {
      var e, front := log[|log|-1], log[..|log|-1];
      var hi := lo + p.window;
      FrontAdmissible(p, log);
      FailuresBounded(p, front, c, lo);
      if Is(e, c, LoginFailure) && Within(e.at, lo, hi) {
        LastEventBounds(front, c, LoginUnlock);
        SinceUnlockIsCounted(front, c, lo, hi, Since(p, front, c, e.at));
      }
    }
  }

  lemma FailuresPerLog(p: Policy, log: Log, c: Id, lo: Time)
    requires Admissible(p, log) && 0 < p.threshold
    ensures CountWithin(log, c, LoginFailure, lo, lo + p.window)
         <= p.threshold * (CountWithin(log, c, LoginUnlock, lo, lo + p.window) + 1)
    ensures CountWithin(log, c, LoginUnlock, lo, lo + p.window) == 0 ==>
              CountWithin(log, c, LoginFailure, lo, lo + p.window) <= p.threshold
  {
    hide Admissible, CountWithin, Allowance, SinceUnlock;
    FailuresBounded(p, log, c, lo);
    AllowanceIsProduct(p.threshold, log, c, lo, lo + p.window);
    OneMore(CountWithin(log, c, LoginUnlock, lo, lo + p.window), p.threshold);
  }

  // Over every run of sign-ins and unlocks: an interval of the window's length
  // with k unlock events of an account holds at most (k + 1) * threshold failures
  // of it; with none, at most the threshold.
  lemma FailuresPerWindow(p: Policy, start: Time, es: seq<Event>, c: Id, lo: Time)
    requires Timely(start, es) && 0 < p.threshold
    ensures CountWithin(Run(p, [], es), c, LoginFailure, lo, lo + p.window)
         <= p.threshold * (CountWithin(Run(p, [], es), c, LoginUnlock, lo, lo + p.window) + 1)
    ensures CountWithin(Run(p, [], es), c, LoginUnlock, lo, lo + p.window) == 0 ==>
              CountWithin(Run(p, [], es), c, LoginFailure, lo, lo + p.window) <= p.threshold
  {
    RunAdmissible(p, [], start, es);
    FailuresPerLog(p, Run(p, [], es), c, lo);
  }

  lemma {:induction false} WithinIsRecent(log: Log, c: Id, lo: Time, hi: Time, since: Time)
    requires since <= lo
    ensures CountWithin(log, c, LoginFailure, lo, hi) <= CountRecent(log, c, LoginFailure, since)
  {
    if log != [] { WithinIsRecent(log[..|log|-1], c, lo, hi, since); }
  }

  // The other half: once the threshold is reached inside a window's length, with
  // no unlock after its start, the account is locked for the rest of that window.
  lemma ThresholdLocks(p: Policy, log: Log, c: Id, lo: Time, now: Time)
    requires 0 < p.threshold <= CountWithin(log, c, LoginFailure, lo, now) && now <= lo + p.window
    requires LastEventAt(log, c, LoginUnlock).Some? ==> LastEventAt(log, c, LoginUnlock).value <= lo
    ensures IsLocked(p, log, c, now)
  {
    WithinIsRecent(log, c, lo, now, Since(p, log, c, now));
  }

  lemma LastEventAppend(log: Log, x: Entry, c: Id, action: Action)
    ensures var u := LastEventAt(log, c, action);
            LastEventAt(log + [x], c, action) == if Is(x, c, action) && (u.None? || u.value < x.at) then Some(x.at) else u
  {
    assert (log + [x])[..|log|] == log;
  }

  lemma CountAppend(log: Log, x: Entry, c: Id, action: Action, since: Time)
    ensures CountRecent(log + [x], c, action, since)
         == CountRecent(log, c, action, since) + (if Is(x, c, action) && since <= x.at then 1 else 0)
  {
    assert (log + [x])[..|log|] == log;
  }

  // An unlock frees the account at once, unless it shares its timestamp with as
  // many failures as the threshold.
  lemma UnlockFrees(p: Policy, log: Log, c: Id, at: Time)
    requires Sorted(log) && (forall i :: 0 <= i < |log| ==> log[i].at <= at) && 0 < p.threshold && 0 <= p.window
    ensures IsLocked(p, Step(p, log, Unlock(at, Some(c))).0, c, at)
       <==> p.threshold <= CountRecent(log, c, LoginFailure, at)
  {
    hide LastEventAt, CountRecent;
    var x := Entry(at, Some(c), LoginUnlock);
    LastEventAppend(log, x, c, LoginUnlock);
    CountAppend(log, x, c, LoginFailure, at);
    LastEventBounds(log, c, LoginUnlock);
  }

  // ---------------- how long a lock lasts ----------------

  // The time of the k-th most recent failure.
  function KthRecent(log: Log, c: Id, k: nat): Option<Time>
    requires 0 < k
  {
    if log == [] then None
    else
      var e, front := log[|log|-1], log[..|log|-1];
      if !Is(e, c, LoginFailure) then KthRecent(front, c, k)
      else if k == 1 then Some(e.at)
      else KthRecent(front, c, k - 1)
  }

  lemma {:induction false} CountByKth(log: Log, c: Id, k: nat, since: Time)
    requires Sorted(log) && 0 < k
    ensures k <= CountRecent(log, c, LoginFailure, since)
       <==> KthRecent(log, c, k).Some? && since <= KthRecent(log, c, k).value
    ensures KthRecent(log, c, k).Some? ==> exists i :: 0 <= i < |log| && log[i].at == KthRecent(log, c, k).value
  {
    if log != [] {
      var e, front := log[|log|-1], log[..|log|-1];
      var j := if Is(e, c, LoginFailure) && 1 < k then k - 1 else k;
      CountByKth(front, c, j, since);
      if KthRecent(front, c, j).Some? {
        var i :| 0 <= i < |front| && front[i].at == KthRecent(front, c, j).value;
        assert log[i] == front[i];
      }
      if Is(e, c, LoginFailure) && e.at < since {
        NoneRecent(front, c, since);
      }
    }
  }

  lemma {:induction false} NoneRecent(log: Log, c: Id, since: Time)
    requires forall i :: 0 <= i < |log| ==> log[i].at < since
    ensures CountRecent(log, c, LoginFailure, since) == 0
  {
    if log != [] { NoneRecent(log[..|log|-1], c, since); }
  }

  // A lock is decided by one failure alone, the threshold-th most recent: it must
  // be inside the window and not before the last unlock.
  lemma LockedIff(p: Policy, log: Log, c: Id, now: Time)
    requires Sorted(log) && 0 < p.threshold
    ensures var kth, unlock := KthRecent(log, c, p.threshold), LastEventAt(log, c, LoginUnlock);
            IsLocked(p, log, c, now) <==>
              kth.Some? && now <= kth.value + p.window && (unlock.Some? ==> unlock.value <= kth.value)
  {
    CountByKth(log, c, p.threshold, Since(p, log, c, now));
  }

  ghost predicate NoUnlockOf(es: seq<Event>, c: Id) {
    forall i :: 0 <= i < |es| ==> !(es[i].Unlock? && es[i].who == Some(c))
  }

  // No attempt on account c, right password or wrong, gets past the lock.
  ghost predicate AllLockedOut(p: Policy, log: Log, es: seq<Event>, c: Id)
    decreases |es|
  {
    es == [] ||
    ((es[0].Attempt? && es[0].who == Some(c) ==> Step(p, log, es[0]).1 == LockedOut)
     && AllLockedOut(p, Step(p, log, es[0]).0, es[1..], c))
  }

  lemma AppendIrrelevant(log: Log, x: Entry, c: Id, k: nat)
    requires 0 < k && !Is(x, c, LoginFailure) && !Is(x, c, LoginUnlock)
    ensures KthRecent(log + [x], c, k) == KthRecent(log, c, k)
    ensures LastEventAt(log + [x], c, LoginUnlock) == LastEventAt(log, c, LoginUnlock)
  {
    assert (log + [x])[..|log|] == log;
  }

  // From a locked state, without an unlock, the lock lasts exactly until the
  // threshold-th most recent failure leaves the window: until then every attempt
  // is refused, and no number of attempts moves the end.
  lemma {:induction false} LockLastsExactly(p: Policy, log: Log, now: Time, es: seq<Event>, c: Id, t: Time)
    requires 0 < p.threshold && Sorted(log) && (forall i :: 0 <= i < |log| ==> log[i].at <= now)
    requires IsLocked(p, log, c, now)
    requires Timely(now, es) && NoUnlockOf(es, c)
    requires KthRecent(log, c, p.threshold).Some? ==>
               forall i :: 0 <= i < |es| ==> es[i].at <= KthRecent(log, c, p.threshold).value + p.window
    ensures KthRecent(log, c, p.threshold).Some? && AllLockedOut(p, log, es, c)
    ensures IsLocked(p, Run(p, log, es), c, t) <==> t <= KthRecent(log, c, p.threshold).value + p.window
    decreases |es|
  {
    LockedIff(p, log, c, now);
    if es == [] {
      LockedIff(p, log, c, t);
    } else {
      var e := es[0];
      LockedIff(p, log, c, e.at);
      var next := Step(p, log, e).0;
      if next != log {
        var x := next[|log|];
        assert next == log + [x];
        AppendIrrelevant(log, x, c, p.threshold);
      }
      LockedIff(p, next, c, e.at);
      LockLastsExactly(p, next, e.at, es[1..], c, t);
    }
  }

  // ---------------- every attempt leaves its mark ----------------

  function CountAll(log: Log, c: Id, action: Action): nat {
    if log == [] then 0
    else CountAll(log[..|log|-1], c, action) + (if Is(log[|log|-1], c, action) then 1 else 0)
  }

  // Attempts on account c with the right, or with a wrong, password.
  function Attempts(es: seq<Event>, c: Id, right: bool): nat {
    if es == [] then 0
    else (if es[0].Attempt? && es[0].who == Some(c) && es[0].passwordOk == right then 1 else 0) + Attempts(es[1..], c, right)
  }

  // Those answered in a given way.
  function Answered(p: Policy, log: Log, es: seq<Event>, c: Id, right: bool, reply: Reply): nat
    decreases |es|
  {
    if es == [] then 0
    else
      var (next, r) := Step(p, log, es[0]);
      (if es[0].Attempt? && es[0].who == Some(c) && es[0].passwordOk == right && r == reply then 1 else 0)
      + Answered(p, next, es[1..], c, right, reply)
  }

  lemma CountAllAppend(log: Log, x: Entry, c: Id, action: Action)
    ensures CountAll(log + [x], c, action) == CountAll(log, c, action) + (if Is(x, c, action) then 1 else 0)
  {
    assert (log + [x])[..|log|] == log;
  }

  // Every attempt is answered and audited once: the right password signs in unless
  // the account is locked, a wrong one never does, and only a wrong one is a failure.
  lemma {:induction false} AttemptsAreAudited(p: Policy, log: Log, es: seq<Event>, c: Id)
    ensures Attempts(es, c, true) == Answered(p, log, es, c, true, SignedIn) + Answered(p, log, es, c, true, LockedOut)
    ensures Attempts(es, c, false) == Answered(p, log, es, c, false, Unauthorized) + Answered(p, log, es, c, false, LockedOut)
    ensures CountAll(Run(p, log, es), c, LoginSuccess) == CountAll(log, c, LoginSuccess) + Answered(p, log, es, c, true, SignedIn)
    ensures CountAll(Run(p, log, es), c, LoginFailure) == CountAll(log, c, LoginFailure) + Answered(p, log, es, c, false, Unauthorized)
    ensures CountAll(Run(p, log, es), c, LoginLocked)
         == CountAll(log, c, LoginLocked) + Answered(p, log, es, c, true, LockedOut) + Answered(p, log, es, c, false, LockedOut)
    decreases |es|
  {
    hide IsLocked, CountAll;
    if es != [] {
      var next := Step(p, log, es[0]).0;
      if next != log {
        var x := next[|log|];
        assert next == log + [x];
        CountAllAppend(log, x, c, LoginSuccess);
        CountAllAppend(log, x, c, LoginFailure);
        CountAllAppend(log, x, c, LoginLocked);
      }
      AttemptsAreAudited(p, next, es[1..], c);
    }
  }

  // An attempt signs in exactly if its account exists, the password is right and the
  // account is not locked; whatever the answer, it leaves one audit row of its time and
  // account, a success, a refusal for a lock, or a failure.
  lemma SignsInIff(p: Policy, log: Log, e: Event)
    requires e.Attempt?
    ensures var (next, reply) := Step(p, log, e);
            && (reply == SignedIn <==> e.who.Some? && e.passwordOk && !IsLocked(p, log, e.who.value, e.at))
            && (reply == LockedOut <==> e.who.Some? && IsLocked(p, log, e.who.value, e.at))
            && next == log + [Entry(e.at, e.who, match reply
                                                 case SignedIn => LoginSuccess
                                                 case LockedOut => LoginLocked
                                                 case Unauthorized => LoginFailure)]
  {}

  // Rows without an account.
  function Anonymous(log: Log, action: Action): nat {
    if log == [] then 0
    else Anonymous(log[..|log|-1], action) + (if log[|log|-1].actor.None? && log[|log|-1].action == action then 1 else 0)
  }

  function UnknownAttempts(es: seq<Event>): nat {
    if es == [] then 0 else (if es[0].Attempt? && es[0].who.None? then 1 else 0) + UnknownAttempts(es[1..])
  }

  // No attempt on an unknown account gets in, whatever its password.
  ghost predicate UnknownRefused(p: Policy, log: Log, es: seq<Event>)
    decreases |es|
  {
    es == [] ||
    ((es[0].Attempt? && es[0].who.None? ==> Step(p, log, es[0]).1 == Unauthorized)
     && UnknownRefused(p, Step(p, log, es[0]).0, es[1..]))
  }

  // Over every run attempts on unknown accounts are refused, and each leaves exactly
  // one failure without an account and nothing else of that kind.
  lemma {:induction false} UnknownAccounts(p: Policy, log: Log, es: seq<Event>)
    ensures UnknownRefused(p, log, es)
    ensures Anonymous(Run(p, log, es), LoginFailure) == Anonymous(log, LoginFailure) + UnknownAttempts(es)
    ensures forall action :: action != LoginFailure ==> Anonymous(Run(p, log, es), action) == Anonymous(log, action)
    decreases |es|
  {
    hide IsLocked;
    if es != [] {
      var next := Step(p, log, es[0]).0;
      if es[0].Attempt? { SignsInIff(p, log, es[0]); }
      if next != log {
        assert next == log + [next[|log|]] && next[..|log|] == log;
      }
      UnknownAccounts(p, next, es[1..]);
    }
  }

  // Failures answered inside an interval are counted inside it, and without an
  // unlock the floor of the count stays.
  lemma {:induction false} FailuresStayCounted(p: Policy, log: Log, es: seq<Event>, c: Id, lo: Time, hi: Time)
    requires NoUnlockOf(es, c) && forall i :: 0 <= i < |es| ==> Within(es[i].at, lo, hi)
    ensures CountWithin(log, c, LoginFailure, lo, hi) + Answered(p, log, es, c, false, Unauthorized)
         <= CountWithin(Run(p, log, es), c, LoginFailure, lo, hi)
    ensures LastEventAt(Run(p, log, es), c, LoginUnlock) == LastEventAt(log, c, LoginUnlock)
    decreases |es|
  {
    hide IsLocked;
    if es != [] {
      var next := Step(p, log, es[0]).0;
      if next != log {
        assert next == log + [next[|log|]] && next[..|log|] == log;
      }
      FailuresStayCounted(p, next, es[1..], c, lo, hi);
    }
  }

  // T wrong passwords inside a window's length, with no unlock after its start,
  // lock the account for the rest of that window, unless one of them already met
  // a lock.
  lemma WrongPasswordsLock(p: Policy, log: Log, es: seq<Event>, c: Id, lo: Time, now: Time)
    requires 0 < p.threshold <= Attempts(es, c, false) && Answered(p, log, es, c, false, LockedOut) == 0
    requires NoUnlockOf(es, c) && (forall i :: 0 <= i < |es| ==> lo <= es[i].at <= now) && now <= lo + p.window
    requires LastEventAt(log, c, LoginUnlock).Some? ==> LastEventAt(log, c, LoginUnlock).value <= lo
    ensures IsLocked(p, Run(p, log, es), c, now)
  {
    hide IsLocked, Run, CountWithin;
    AttemptsAreAudited(p, log, es, c);
    FailuresStayCounted(p, log, es, c, lo, now);
    ThresholdLocks(p, Run(p, log, es), c, lo, now);
  }

  // ---------------- the facade ----------------

  class LoginFacade {
    const policy: Policy
    var audit: Log

    constructor (policy: Policy)
      ensures this.policy == policy && audit == []
    {
      this.policy := policy;
      audit := [];
    }

    method Record(at: Time, actor: Option<Id>, action: Action)
      modifies this
      ensures audit == old(audit) + [Entry(at, actor, action)]
    {
      audit := audit + [Entry(at, actor, action)];
    }

    method Login(now: Time, customer: Option<Id>, passwordOk: bool) returns (reply: Reply)
      modifies this
      ensures (audit, reply) == Step(policy, old(audit), Attempt(now, customer, passwordOk))
    {
      if customer.Some? && policy.threshold != 0 {
        var since := now - policy.window;
        var lastUnlock := LastEventAt(audit, customer.value, LoginUnlock);
        if lastUnlock.Some? && lastUnlock.value > since {
          since := lastUnlock.value;
        }
        var fails := CountRecent(audit, customer.value, LoginFailure, since);
        if fails >= policy.threshold {
          Record(now, customer, LoginLocked);
          return LockedOut;
        }
      }
      if customer.None? || !passwordOk {
        Record(now, customer, LoginFailure);
        return Unauthorized;
      }
      Record(now, customer, LoginSuccess);
      return SignedIn;
    }

    method UnlockAccount(now: Time, customer: Option<Id>) returns (found: bool)
      modifies this
      ensures (audit, if found then SignedIn else Unauthorized) == Step(policy, old(audit), Unlock(now, customer))
      ensures found <==> customer.Some?
      ensures audit == if customer.Some? then old(audit) + [Entry(now, customer, LoginUnlock)] else old(audit)
    {
      found := customer.Some?;
      if found {
        Record(now, customer, LoginUnlock);
      }
    }
  }
}
