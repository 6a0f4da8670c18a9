/** src/spaces/auth.py: authentication attempts are limited by a sliding window for each user. */
module RateLimiter {
  import opened Text

  const RATE_LIMIT_WINDOW: real := 30.0
  const RATE_LIMIT_ATTEMPTS: nat := 5

  datatype Verdict = Accepted | NotConfigured | LimitExceeded

  /** One call, with the clock reading it made before it took the lock. */
  datatype Attempt = Attempt(uid: int, now: real)

  /** The accepted attempts that are remembered. */
  type Table = map<int, seq<real>>

  function Recent(times: seq<real>, now: real): seq<real> {
    if times == [] then []
    else
      var rest := Recent(times[..|times| - 1], now);
      if now - times[|times| - 1] < RATE_LIMIT_WINDOW then rest + [times[|times| - 1]] else rest
  }

  function Remembered(table: Table, uid: int): seq<real> {
    if uid in table then table[uid] else []
  }

  /** _consume_attempt */
  function Consume(users: set<int>, table: Table, attempt: Attempt): (Table, Verdict) {
    if attempt.uid !in users then (table, NotConfigured)
    else
      var recent := Recent(Remembered(table, attempt.uid), attempt.now);
      if |recent| >= RATE_LIMIT_ATTEMPTS then (table[attempt.uid := recent], LimitExceeded)
      else (table[attempt.uid := recent + [attempt.now]], Accepted)
  }

  function Run(users: set<int>, attempts: seq<Attempt>): Table {
    if attempts == [] then map[]
    else Consume(users, Run(users, attempts[..|attempts| - 1]), attempts[|attempts| - 1]).0
  }

  function VerdictOf(users: set<int>, attempts: seq<Attempt>, k: nat): Verdict
    requires k < |attempts|
  {
    Consume(users, Run(users, attempts[..k]), attempts[k]).1
  }

  /** The accepted attempts of a user among the first `n`, in order. */
  function AcceptedTimes(users: set<int>, attempts: seq<Attempt>, uid: int, n: nat): seq<real>
    requires n <= |attempts|
  {
    if n == 0 then []
    else
      var before := AcceptedTimes(users, attempts, uid, n - 1);
      if attempts[n - 1].uid == uid && VerdictOf(users, attempts, n - 1) == Accepted then before + [attempts[n - 1].now]
      else before
  }

  /** The clock does not go back between one lock and the next. */
  predicate InOrder(attempts: seq<Attempt>) {
    forall i, j :: 0 <= i < j < |attempts| ==> attempts[i].now <= attempts[j].now
  }

  /** The accepted attempts of a user among the first `n` that are less than 30 seconds old. */
  ghost function RecentOnes(users: set<int>, attempts: seq<Attempt>, uid: int, n: nat, now: real): set<int>
    requires n <= |attempts|
  {
    set k | 0 <= k < n && attempts[k].uid == uid && VerdictOf(users, attempts, k) == Accepted
            && now - attempts[k].now < 30.0
  }

  /** Those in the half-open window of 30 seconds from `start`. */
  ghost function WindowOnes(users: set<int>, attempts: seq<Attempt>, uid: int, n: nat, start: real): set<int>
    requires n <= |attempts|
  {
    set k | 0 <= k < n && attempts[k].uid == uid && VerdictOf(users, attempts, k) == Accepted
            && start <= attempts[k].now < start + 30.0
  }

  // ---- What is remembered ----

  lemma {:induction false} RecentTwice(times: seq<real>, now: real, later: real)
    requires now <= later
    ensures Recent(Recent(times, now), later) == Recent(times, later)
  {
    if times != [] {
      var before, last := times[..|times| - 1], times[|times| - 1];
      RecentTwice(before, now, later);
      if now - last < RATE_LIMIT_WINDOW {
        RecentSnoc(Recent(before, now), last, later);
      }
    }
  }

  lemma RecentSnoc(times: seq<real>, time: real, now: real)
    ensures Recent(times + [time], now) ==
            if now - time < RATE_LIMIT_WINDOW then Recent(times, now) + [time] else Recent(times, now)
  {
    assert (times + [time])[..|times|] == times;
  }

  /** Of the first attempts the verdicts stay when more follow. */
  lemma {:induction false} AcceptedBefore(users: set<int>, attempts: seq<Attempt>, uid: int, m: nat, n: nat)
    requires n <= m <= |attempts|
    ensures AcceptedTimes(users, attempts[..m], uid, n) == AcceptedTimes(users, attempts, uid, n)
    decreases n
  {
    if n > 0 {
      AcceptedBefore(users, attempts, uid, m, n - 1);
      assert attempts[..m][..n - 1] == attempts[..n - 1];
    }
  }

  /** The table after some attempts, and the times of a user's accepted ones. */
  function After(users: set<int>, attempts: seq<Attempt>): Table {
    Run(users, attempts)
  }

  function Times(users: set<int>, attempts: seq<Attempt>, uid: int): seq<real> {
    AcceptedTimes(users, attempts, uid, |attempts|)
  }

  function Joined(times: seq<real>, attempt: Attempt, verdict: Verdict, uid: int): seq<real> {
    if attempt.uid == uid && verdict == Accepted then times + [attempt.now] else times
  }

  lemma NextAttempt(users: set<int>, before: seq<Attempt>, attempt: Attempt, uid: int)
    ensures var all := before + [attempt];
      var (table, verdict) := Consume(users, After(users, before), attempt);
      After(users, all) == table && Times(users, all, uid) == Joined(Times(users, before, uid), attempt, verdict, uid)
  {
    var all, n := before + [attempt], |before|;
    assert all[..n] == before && all[n] == attempt;
    AcceptedBefore(users, all, uid, n, n);
    hide Consume;
  }

  /** One attempt keeps the recent times of every user, though it prunes. */
  lemma StillRecent(users: set<int>, table: Table, attempt: Attempt, uid: int, times: seq<real>, now: real)
    requires attempt.now <= now && Recent(Remembered(table, uid), now) == Recent(times, now)
    requires Recent(Remembered(table, uid), attempt.now) == Recent(times, attempt.now)
    ensures var (later, verdict) := Consume(users, table, attempt);
      Recent(Remembered(later, uid), now) == Recent(Joined(times, attempt, verdict, uid), now)
  {
    if attempt.uid == uid && uid in users {
      var recent := Recent(Remembered(table, uid), attempt.now);
      RecentTwice(times, attempt.now, now);
      RecentSnoc(recent, attempt.now, now);
      RecentSnoc(times, attempt.now, now);
    }
  }

  /** Whatever was pruned meanwhile, what is still recent is remembered: all of it and nothing else. */
  lemma {:induction false} RemembersRecent(users: set<int>, attempts: seq<Attempt>, uid: int, now: real)
    requires InOrder(attempts) && forall k :: 0 <= k < |attempts| ==> attempts[k].now <= now
    ensures Recent(Remembered(After(users, attempts), uid), now) == Recent(Times(users, attempts, uid), now)
  {
    if attempts != [] {
      var before, last := attempts[..|attempts| - 1], attempts[|attempts| - 1];
      assert attempts == before + [last];
      hide After, Times, Consume, Joined, Remembered;
      RemembersRecent(users, before, uid, now);
      RemembersRecent(users, before, uid, last.now);
      NextAttempt(users, before, last, uid);
      StillRecent(users, After(users, before), last, uid, Times(users, before, uid), now);
    }
  }

  // ---- The limit ----

  lemma {:induction false} RecentCount(users: set<int>, attempts: seq<Attempt>, uid: int, n: nat, now: real)
    requires n <= |attempts|
    ensures |Recent(AcceptedTimes(users, attempts, uid, n), now)| == |RecentOnes(users, attempts, uid, n, now)|
    decreases n
  {
    hide AcceptedTimes, Recent, VerdictOf;
    AcceptedNext(users, attempts, uid, n, now);
    if n > 0 {
      var last, times := attempts[n - 1], AcceptedTimes(users, attempts, uid, n - 1);
      RecentCount(users, attempts, uid, n - 1, now);
      RecentSnoc(times, last.now, now);
      var ones := RecentOnes(users, attempts, uid, n - 1, now);
      assert RecentOnes(users, attempts, uid, n, now)
             == if last.uid == uid && VerdictOf(users, attempts, n - 1) == Accepted && now - last.now < 30.0
                then ones + {n - 1} else ones;
    }
  }

  lemma AcceptedNext(users: set<int>, attempts: seq<Attempt>, uid: int, n: nat, now: real)
    requires n <= |attempts|
    ensures n == 0 ==> AcceptedTimes(users, attempts, uid, n) == [] && Recent([], now) == []
    ensures n > 0 ==>
      var last, times := attempts[n - 1], AcceptedTimes(users, attempts, uid, n - 1);
      AcceptedTimes(users, attempts, uid, n) ==
      if last.uid == uid && VerdictOf(users, attempts, n - 1) == Accepted then times + [last.now] else times
  {
    hide VerdictOf;
  }

  /** An attempt is accepted unless its user is not configured or has five accepted ones that are less than 30 seconds
      old. */
  lemma RefusedWhenFiveAreRecent(users: set<int>, attempts: seq<Attempt>, k: nat)
    requires InOrder(attempts) && k < |attempts|
    ensures var attempt := attempts[k];
      VerdictOf(users, attempts, k) ==
      if attempt.uid !in users then NotConfigured
      else if |RecentOnes(users, attempts, attempt.uid, k, attempt.now)| >= 5 then LimitExceeded
      else Accepted
  {
    hide Recent, Times, After, AcceptedTimes, VerdictOf, RecentOnes, Run;
    var before, attempt := attempts[..k], attempts[k];
    AcceptedBefore(users, attempts, attempt.uid, k, k);
    RemembersRecent(users, before, attempt.uid, attempt.now);
    TimesAre(users, before, attempt.uid);
    VerdictIs(users, attempts, k);
    RecentCount(users, attempts, attempt.uid, k, attempt.now);
  }

  lemma TimesAre(users: set<int>, attempts: seq<Attempt>, uid: int)
    ensures Times(users, attempts, uid) == AcceptedTimes(users, attempts, uid, |attempts|)
  {
  }

  lemma VerdictIs(users: set<int>, attempts: seq<Attempt>, k: nat)
    requires k < |attempts|
    ensures VerdictOf(users, attempts, k) == Consume(users, After(users, attempts[..k]), attempts[k]).1
  {
    hide Consume;
  }

  lemma Fewer(some: set<int>, all: set<int>)
    requires some <= all
    ensures |some| <= |all|
  {
    assert all == some + (all - some);
  }

  /** No half-open window of 30 seconds holds more than five accepted attempts of a user, wherever it starts. */
  lemma {:induction false} AtMostFiveInAnyWindow(users: set<int>, attempts: seq<Attempt>, uid: int, n: nat, start: real)
    requires InOrder(attempts) && n <= |attempts|
    ensures |WindowOnes(users, attempts, uid, n, start)| <= 5
    decreases n
  {
    hide VerdictOf;
    if n > 0 {
      var last, before := attempts[n - 1], WindowOnes(users, attempts, uid, n - 1, start);
      AtMostFiveInAnyWindow(users, attempts, uid, n - 1, start);
      RefusedWhenFiveAreRecent(users, attempts, n - 1);
      if last.uid == uid && VerdictOf(users, attempts, n - 1) == Accepted && start <= last.now < start + 30.0 {
        Fewer(before, RecentOnes(users, attempts, uid, n - 1, last.now));
        assert WindowOnes(users, attempts, uid, n, start) == before + {n - 1};
      } else {
        assert WindowOnes(users, attempts, uid, n, start) == before;
      }
    }
  }

  // ---- In place ----

  class AuthenticationService {
    const users: set<int>
    var attempts: Table

    constructor (users: set<int>)
      ensures this.users == users && attempts == map[]
    {
      this.users := users;
      attempts := map[];
    }

    /** _consume_attempt, under the lock. */
    method ConsumeAttempt(uid: int, now: real) returns (verdict: Verdict)
      modifies this
      ensures (attempts, verdict) == Consume(users, old(attempts), Attempt(uid, now))
    {
      if uid !in users {
        return NotConfigured;
      }
      var recent := Prune(if uid in attempts then attempts[uid] else [], now);
      attempts := attempts[uid := recent];
      if |recent| >= RATE_LIMIT_ATTEMPTS {
        return LimitExceeded;
      }
      attempts := attempts[uid := recent + [now]];
      assert attempts == old(attempts)[uid := recent + [now]];
      return Accepted;
    }

    method Prune(times: seq<real>, now: real) returns (recent: seq<real>)
      ensures recent == Recent(times, now)
    {
      recent := [];
      var k := 0;
      while k < |times|
        invariant 0 <= k <= |times| && recent == Recent(times[..k], now)
      {
        assert times[..k + 1] == times[..k] + [times[k]];
        RecentSnoc(times[..k], times[k], now);
        if now - times[k] < RATE_LIMIT_WINDOW {
          recent := recent + [times[k]];
        }
        k := k + 1;
      }
      assert times[..k] == times;
    }
  }
}
