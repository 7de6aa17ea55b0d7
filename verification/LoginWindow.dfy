/** The sliding window that limits login attempts. Times count nanoseconds of a monotonic clock. */
module LoginWindow {
  const MAX_ATTEMPTS: nat := 10
  const WINDOW_SECONDS: nat := 60
  const SECOND: nat := 1_000_000_000
  const WINDOW: nat := 60_000_000_000

  /** Elapsed time saturates at zero and is compared in whole seconds. */
  predicate Recent(t: nat, now: nat) {
    (if t <= now then (now - t) / SECOND else 0) < WINDOW_SECONDS
  }

  lemma RecentMeans(t: nat, now: nat)
    ensures Recent(t, now) <==> now < t + 60_000_000_000
  {}

  function Retain(attempts: seq<nat>, now: nat): seq<nat> {
    if attempts == [] then []
    else
      var kept, t := Retain(attempts[..|attempts| - 1], now), attempts[|attempts| - 1];
      if Recent(t, now) then kept + [t] else kept
  }

  lemma RetainNext(a: seq<nat>, t: nat, now: nat)
    ensures Retain(a + [t], now) == if Recent(t, now) then Retain(a, now) + [t] else Retain(a, now)
  {
    assert (a + [t])[..|a|] == a;
  }

  predicate Admits(attempts: seq<nat>, now: nat) {
    |Retain(attempts, now)| < MAX_ATTEMPTS
  }

  function Recorded(attempts: seq<nat>, now: nat): seq<nat> {
    if Admits(attempts, now) then Retain(attempts, now) + [now] else Retain(attempts, now)
  }

  class Limiter {
    var attempts: seq<nat>

    constructor ()
      ensures attempts == []
    {
      attempts := [];
    }

    method Attempt(now: nat) returns (admitted: bool)
      modifies this
      ensures admitted == Admits(old(attempts), now)
      ensures attempts == Recorded(old(attempts), now)
    {
      var i := 0;
      var kept := [];
      while i < |attempts|
        invariant i <= |attempts| && attempts == old(attempts)
        invariant kept == Retain(attempts[..i], now)
      {
        assert attempts[..i + 1][..i] == attempts[..i];
        if Recent(attempts[i], now) {
          kept := kept + [attempts[i]];
        }
        i := i + 1;
      }
      assert attempts[..i] == attempts;
      attempts := kept;
      if |attempts| >= MAX_ATTEMPTS {
        return false;
      }
      attempts := attempts + [now];
      admitted := true;
    }
  }

  // ---------------------------------------------------------------- whole runs

  /** What the limiter holds after a run of attempts. */
  function Held(times: seq<nat>): seq<nat> {
    if times == [] then [] else Recorded(Held(times[..|times| - 1]), times[|times| - 1])
  }

  /** The attempts of a run that were admitted. */
  function Admitted(times: seq<nat>): seq<nat> {
    if times == [] then []
    else
      var front, now := times[..|times| - 1], times[|times| - 1];
      if Admits(Held(front), now) then Admitted(front) + [now] else Admitted(front)
  }

  predicate Ordered(times: seq<nat>) {
    forall i, j | 0 <= i < j < |times| :: times[i] <= times[j]
  }

  lemma {:induction false} RetainTwice(a: seq<nat>, earlier: nat, now: nat)
    requires earlier <= now
    ensures Retain(Retain(a, earlier), now) == Retain(a, now)
  {
    if a != [] {
      var front, t := a[..|a| - 1], a[|a| - 1];
      RetainTwice(front, earlier, now);
      RecentMeans(t, earlier);
      RecentMeans(t, now);
      RetainNext(Retain(front, earlier), t, now);
    }
  }

  /**
   Pruning loses nothing that matters: seen from a moment after all readings, what is held is the recent part of
   everything ever admitted.
   */
  lemma {:induction false} HeldIsRecentAdmitted(times: seq<nat>, now: nat)
    requires forall i | 0 <= i < |times| :: times[i] <= now
    ensures Retain(Held(times), now) == Retain(Admitted(times), now)
  {
    if times != [] {
      var front, last := times[..|times| - 1], times[|times| - 1];
      HeldIsRecentAdmitted(front, now);
      RetainTwice(Held(front), last, now);
      RetainNext(Retain(Held(front), last), last, now);
      RetainNext(Admitted(front), last, now);
    }
  }

  /** An attempt is turned away exactly when ten were admitted in the sixty seconds before it. */
  lemma RejectedIffTenRecent(times: seq<nat>, now: nat)
    requires forall i | 0 <= i < |times| :: times[i] <= now
    ensures Admits(Held(times), now) <==> |Retain(Admitted(times), now)| < 10
  {
    HeldIsRecentAdmitted(times, now);
  }

  // ---------------------------------------------------------------- readings in any order

  predicate AdmittedAt(times: seq<nat>, i: nat)
    requires i < |times|
  {
    Admits(Held(times[..i]), times[i])
  }

  /** Admitted, and recent at every reading that took the lock later. */
  predicate Survives(times: seq<nat>, i: nat)
    requires i < |times|
  {
    AdmittedAt(times, i) && forall k | i < k < |times| :: Recent(times[i], times[k])
  }

  /** Those of the first `n` times that `picks` picks, in order. */
  function Pick(times: seq<nat>, picks: nat -> bool, n: nat): seq<nat>
    requires n <= |times|
  {
    if n == 0 then []
    else
      var front := Pick(times, picks, n - 1);
      if picks(n - 1) then front + [times[n - 1]] else front
  }

  function SurvivesIn(times: seq<nat>): nat -> bool {
    (i: nat) => i < |times| && Survives(times, i)
  }

  /** Those of the first `n` attempts that survive the whole run. */
  function Survivors(times: seq<nat>, n: nat): seq<nat>
    requires n <= |times|
  {
    Pick(times, SurvivesIn(times), n)
  }

  lemma {:induction false} PickRetains(times: seq<nat>, more: seq<nat>, p: nat -> bool, q: nat -> bool, now: nat,
                                       n: nat)
    requires n <= |times| && n <= |more|
    requires forall i | 0 <= i < n :: more[i] == times[i] && (q(i) <==> p(i) && Recent(times[i], now))
    ensures Pick(more, q, n) == Retain(Pick(times, p, n), now)
  {
    if n > 0 {
      PickRetains(times, more, p, q, now, n - 1);
      if p(n - 1) {
        RetainNext(Pick(times, p, n - 1), times[n - 1], now);
      }
    }
  }

  lemma SurvivesNext(times: seq<nat>, now: nat, i: nat)
    requires i < |times|
    ensures Survives(times + [now], i) <==> Survives(times, i) && Recent(times[i], now)
  {
    var more := times + [now];
    assert more[..i] == times[..i];
    assert more[|times|] == now && forall k | i < k < |times| :: more[k] == times[k];
  }

  lemma SurvivorsNext(times: seq<nat>, now: nat)
    ensures Survivors(times + [now], |times|) == Retain(Survivors(times, |times|), now)
  {
    var more := times + [now];
    forall i: nat | i < |times| ensures Survives(more, i) <==> Survives(times, i) && Recent(times[i], now) {
      SurvivesNext(times, now, i);
    }
    PickRetains(times, more, SurvivesIn(times), SurvivesIn(more), now, |times|);
  }

  lemma LatestSurvives(times: seq<nat>, now: nat)
    ensures Survives(times + [now], |times|) <==> Admits(Held(times), now)
  {
    assert (times + [now])[..|times|] == times;
  }

  lemma HeldNext(times: seq<nat>, now: nat)
    requires Held(times) == Survivors(times, |times|)
    ensures Held(times + [now]) == Survivors(times + [now], |times| + 1)
  {
    assert (times + [now])[..|times|] == times;
    SurvivorsNext(times, now);
    LatestSurvives(times, now);
  }

  /** In whatever order the readings come, what is held are the admitted attempts that were recent ever since. */
  lemma {:induction false} HeldAreTheSurvivors(times: seq<nat>)
    ensures Held(times) == Survivors(times, |times|)
  {
    if times != [] {
      var front, now := times[..|times| - 1], times[|times| - 1];
      HeldAreTheSurvivors(front);
      assert times == front + [now];
      HeldNext(front, now);
    }
  }

  /**
   So an attempt is admitted exactly when fewer than ten attempts are recent at its reading and were ever since they
   came.
   */
  lemma AdmittedIffFewSurvive(times: seq<nat>, now: nat)
    ensures Admits(Held(times), now) <==> |Survivors(times + [now], |times|)| < 10
  {
    HeldAreTheSurvivors(times);
    SurvivorsNext(times, now);
  }

  // ---------------------------------------------------------------- how close admitted attempts come

  lemma {:induction false} RetainCountsSuffix(a: seq<nat>, j: nat, now: nat)
    requires j < |a| && Ordered(a) && Recent(a[j], now)
    ensures |Retain(a, now)| >= |a| - j
  {
    var front, t := a[..|a| - 1], a[|a| - 1];
    RecentMeans(a[j], now);
    RecentMeans(t, now);
    if j < |front| {
      RetainCountsSuffix(front, j, now);
    }
  }

  lemma {:induction false} AdmittedIsBounded(times: seq<nat>, bound: nat)
    requires forall i | 0 <= i < |times| :: times[i] <= bound
    ensures forall i | 0 <= i < |Admitted(times)| :: Admitted(times)[i] <= bound
  {
    if times != [] {
      AdmittedIsBounded(times[..|times| - 1], bound);
    }
  }

  lemma {:induction false} AdmittedIsOrdered(times: seq<nat>)
    requires Ordered(times)
    ensures Ordered(Admitted(times))
    ensures forall i | 0 <= i < |Admitted(times)| :: Admitted(times)[i] <= times[|times| - 1]
  {
    if times != [] {
      var front, now := times[..|times| - 1], times[|times| - 1];
      AdmittedIsOrdered(front);
      AdmittedIsBounded(front, now);
      AdmittedIsBounded(times, now);
    }
  }

  /** Any eleven consecutive admitted attempts span at least sixty seconds. */
  lemma {:induction false} ElevenSpanAMinute(times: seq<nat>, i: nat)
    requires Ordered(times) && i + 10 < |Admitted(times)|
    ensures Admitted(times)[i + 10] >= Admitted(times)[i] + 60_000_000_000
  {
    var front, now := times[..|times| - 1], times[|times| - 1];
    var admitted := Admitted(front);
    if i + MAX_ATTEMPTS < |admitted| {
      ElevenSpanAMinute(front, i);
    } else {
      HeldIsRecentAdmitted(front, now);
      AdmittedIsOrdered(front);
      RecentMeans(admitted[i], now);
      if Recent(admitted[i], now) {
        RetainCountsSuffix(admitted, i, now);
      }
    }
  }

  /** No reading lags the latest one before it by more than `d`. */
  predicate LagsAtMost(times: seq<nat>, d: nat) {
    forall i, j | 0 <= i < j < |times| :: times[i] <= times[j] + d
  }

  lemma {:induction false} RetainShortens(a: seq<nat>, now: nat)
    ensures |Retain(a, now)| <= |a|
  {
    if a != [] {
      RetainShortens(a[..|a| - 1], now);
    }
  }

  lemma {:induction false} RetainKeepsFreshEnd(a: seq<nat>, j: nat, now: nat)
    requires j <= |a| && forall m | j <= m < |a| :: Recent(a[m], now)
    ensures |Retain(a, now)| >= |a| - j
  {
    if j < |a| {
      RetainKeepsFreshEnd(a[..|a| - 1], j, now);
    }
  }

  /**
   When readings of the clock may reach the lock out of order by at most `d`, any eleven consecutive admitted attempts
   still span at least sixty seconds less `d`: the last comes that much after one of the ten before it.
   */
  lemma {:induction false} ElevenSpanAMinuteLessLag(times: seq<nat>, d: nat, i: nat)
    requires LagsAtMost(times, d) && i + 10 < |Admitted(times)|
    ensures exists m: nat | i <= m < i + 10 :: Admitted(times)[i + 10] + d >= Admitted(times)[m] + 60_000_000_000
  {
    var front, now := times[..|times| - 1], times[|times| - 1];
    var admitted := Admitted(front);
    if i + MAX_ATTEMPTS < |admitted| {
      ElevenSpanAMinuteLessLag(front, d, i);
      var m: nat :| i <= m < i + MAX_ATTEMPTS && admitted[i + MAX_ATTEMPTS] + d >= admitted[m] + WINDOW;
      assert Admitted(times)[m] == admitted[m];
    } else {
      var m := OneOfTenIsOld(front, now, d, i);
      assert Admitted(times)[m] == admitted[m];
    }
  }

  lemma FreshAreRecent(a: seq<nat>, j: nat, now: nat)
    requires forall m | j <= m < |a| :: now < a[m] + WINDOW
    ensures forall m | j <= m < |a| :: Recent(a[m], now)
  {
    forall m | j <= m < |a| ensures Recent(a[m], now) {
      RecentMeans(a[m], now);
    }
  }

  lemma LaterRetainsFewer(a: seq<nat>, earlier: nat, now: nat)
    requires earlier <= now
    ensures |Retain(a, now)| <= |Retain(a, earlier)|
  {
    RetainTwice(a, earlier, now);
    RetainShortens(Retain(a, earlier), now);
  }

  lemma TenFreshTurnAway(front: seq<nat>, now: nat, limit: nat, i: nat)
    requires now <= limit && forall k | 0 <= k < |front| :: front[k] <= limit
    requires i + MAX_ATTEMPTS == |Admitted(front)| && forall m | i <= m < |Admitted(front)| ::
      limit < Admitted(front)[m] + WINDOW
    ensures !Admits(Held(front), now)
  {
    FreshAreRecent(Admitted(front), i, limit);
    RetainKeepsFreshEnd(Admitted(front), i, limit);
    HeldIsRecentAdmitted(front, limit);
    LaterRetainsFewer(Held(front), now, limit);
  }

  /** An attempt that is admitted comes, but for the lag, a window after one of the last ten before it. */
  lemma OneOfTenIsOld(front: seq<nat>, now: nat, d: nat, i: nat) returns (m: nat)
    requires forall k | 0 <= k < |front| :: front[k] <= now + d
    requires Admits(Held(front), now) && i + MAX_ATTEMPTS == |Admitted(front)|
    ensures i <= m < i + MAX_ATTEMPTS && now + d >= Admitted(front)[m] + WINDOW
  {
    if forall m | i <= m < |Admitted(front)| :: now + d < Admitted(front)[m] + WINDOW {
      TenFreshTurnAway(front, now, now + d, i);
    }
    m :| i <= m < |Admitted(front)| && now + d >= Admitted(front)[m] + WINDOW;
  }

  /** Turned-away attempts leave no trace: without them, the run admits the same. */
  lemma {:induction false} RejectedLeaveNoTrace(times: seq<nat>)
    requires Ordered(times)
    ensures Admitted(Admitted(times)) == Admitted(times)
  {
    if times != [] {
      var front, now := times[..|times| - 1], times[|times| - 1];
      RejectedLeaveNoTrace(front);
      if Admits(Held(front), now) {
        var admitted := Admitted(front);
        AdmittedIsOrdered(front);
        HeldIsRecentAdmitted(front, now);
        HeldIsRecentAdmitted(admitted, now);
        assert (admitted + [now])[..|admitted|] == admitted;
      }
    }
  }

  /** The order of the clock is needed: an attempt that reads the clock early but takes the lock late is an eleventh. */
  lemma UnorderedAttemptsSlipThrough(times: seq<nat>)
    requires |times| == 11 && forall i | 0 <= i < 10 :: times[i] == 0
    requires times[10] == WINDOW
    ensures Admitted(times) == times && Admits(Held(times), 0)
  {
    TenAtOnce(times[..10]);
    assert times == times[..10] + [WINDOW];
    AllExpired(Held(times[..10]), WINDOW);
    assert Held(times) == [WINDOW];
    assert Retain([WINDOW], 0) == [WINDOW];
  }

  lemma {:induction false} TenAtOnce(times: seq<nat>)
    requires |times| <= 10 && forall i | 0 <= i < |times| :: times[i] == 0
    ensures Admitted(times) == times && Held(times) == times && Retain(times, 0) == times
  {
    if times != [] {
      TenAtOnce(times[..|times| - 1]);
      assert times == times[..|times| - 1] + [0];
    }
  }

  lemma {:induction false} AllExpired(a: seq<nat>, now: nat)
    requires forall i | 0 <= i < |a| :: !Recent(a[i], now)
    ensures Retain(a, now) == []
  {
    if a != [] {
      AllExpired(a[..|a| - 1], now);
    }
  }
}
