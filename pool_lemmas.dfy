/**
 * What the pool manager of db/db.go promises, proved about the state machine in PoolSpec:
 * close-before-replace, bounded retries, the backoff schedule, no pool left open or
 * closed twice, and the behaviour of a health-check tick and of Close.
 */
module PoolLemmas {
  import opened Wrappers
  import opened PoolSpec

  // ------------------------------------------------------------ backoff

  /** The sleeps after attempts lo .. hi-1 are 2(lo+1), 2(lo+2), ..., strictly increasing. */
  lemma {:induction false} WaitsSchedule(lo: nat, hi: nat)
    requires lo <= hi
    ensures |Waits(lo, hi)| == hi - lo
    ensures forall j :: 0 <= j < hi - lo ==> Waits(lo, hi)[j] == 2 * (lo + j + 1)
    ensures forall j, j' :: 0 <= j < j' < hi - lo ==> Waits(lo, hi)[j] < Waits(lo, hi)[j']
    decreases hi - lo
  {
    if lo < hi {
      WaitsSchedule(lo + 1, hi);
    }
  }

  /** The sleep index that ends the loop from attempt i: the success, or the last attempt. */
  function LastWait(outcomes: Cycle, i: nat): (w: nat)
    requires i < MaxAttempts
    ensures i <= w < MaxAttempts
    ensures Dials(outcomes, i) == w + 1 - i
  {
    var k := FirstSuccess(outcomes, i);
    if k < MaxAttempts then k else MaxAttempts - 1
  }

  /** The loop sleeps 2(j+1) s after every failed attempt j except the last one it makes. */
  lemma {:induction false} SleepsSchedule(outcomes: Cycle, i: nat)
    requires i < MaxAttempts
    ensures SleepsFrom(outcomes, i) == Waits(i, LastWait(outcomes, i))
    decreases MaxAttempts - i
  {
    if !Succeeds(outcomes[i]) && i + 1 < MaxAttempts {
      assert LastWait(outcomes, i + 1) == LastWait(outcomes, i);
      SleepsSchedule(outcomes, i + 1);
    }
  }

  // ------------------------------------------------------- one attempt

  /** Attempts at the end of the loop change nothing. */
  lemma AttemptsDone(s: PoolState, outcomes: Cycle)
    ensures Attempts(s, outcomes, MaxAttempts) == s
  {
    assert s.closed + [] == s.closed && s.slept + [] == s.slept;
  }

  /** A succeeding attempt ends the loop with the pool it built installed. */
  lemma StepSucceeded(s: PoolState, outcomes: Cycle, i: nat)
    requires i < MaxAttempts && Succeeds(outcomes[i])
    ensures Attempts(s, outcomes, i) == Installed(s.(dialed := s.dialed + 1))
  {
    assert s.closed + [] == s.closed && s.slept + [] == s.slept;
  }

  /** A failed attempt hands over to the next one. */
  lemma StepFailed(s: PoolState, outcomes: Cycle, i: nat)
    requires i < MaxAttempts && !Succeeds(outcomes[i])
    ensures Attempts(s, outcomes, i) == Attempts(Failed(s.(dialed := s.dialed + 1), outcomes[i], i), outcomes, i + 1)
  {
    var w := Failed(s.(dialed := s.dialed + 1), outcomes[i], i);
    var a, b := Attempts(s, outcomes, i), Attempts(w, outcomes, i + 1);
    StepFailedCounts(s, outcomes, i);
    StepFailedClosed(s, outcomes, i);
    StepFailedSlept(s, outcomes, i);
    assert a.pool == b.pool && a.dialed == b.dialed && a.built == b.built;
    assert a.closed == b.closed && a.slept == b.slept && a.cancelled == b.cancelled;
  }

  lemma StepFailedCounts(s: PoolState, outcomes: Cycle, i: nat)
    requires i < MaxAttempts && !Succeeds(outcomes[i])
    ensures var a, b := Attempts(s, outcomes, i), Attempts(Failed(s.(dialed := s.dialed + 1), outcomes[i], i), outcomes, i + 1);
      a.pool == b.pool && a.dialed == b.dialed && a.built == b.built
  {
    assert FirstSuccess(outcomes, i) == FirstSuccess(outcomes, i + 1);
  }

  lemma StepFailedClosed(s: PoolState, outcomes: Cycle, i: nat)
    requires i < MaxAttempts && !Succeeds(outcomes[i])
    ensures Attempts(s, outcomes, i).closed == Attempts(Failed(s.(dialed := s.dialed + 1), outcomes[i], i), outcomes, i + 1).closed
  {
    if outcomes[i].buildOk {
      assert ClosedFrom(outcomes, i, s.built) == [s.built] + ClosedFrom(outcomes, i + 1, s.built + 1);
      SeqAssoc(s.closed, [s.built], ClosedFrom(outcomes, i + 1, s.built + 1));
    }
  }

  lemma StepFailedSlept(s: PoolState, outcomes: Cycle, i: nat)
    requires i < MaxAttempts && !Succeeds(outcomes[i])
    ensures Attempts(s, outcomes, i).slept == Attempts(Failed(s.(dialed := s.dialed + 1), outcomes[i], i), outcomes, i + 1).slept
  {
    var z: seq<nat> := if i < MaxAttempts - 1 then [Backoff(i)] else [];
    assert SleepsFrom(outcomes, i) == z + SleepsFrom(outcomes, i + 1);
    SeqAssoc(s.slept, z, SleepsFrom(outcomes, i + 1));
  }

  lemma SeqAssoc<T>(a: seq<T>, b: seq<T>, c: seq<T>)
    ensures a + b + c == a + (b + c)
  {
  }

  // ------------------------------------------------------- accounting

  /** A pool that has just been built has never been closed. */
  lemma FreshHandleNeverClosed(s: PoolState)
    requires Accounted(s)
    ensures multiset(s.closed)[s.built] == 0
  {
    assert s.built !in s.closed;
  }

  /** The live handle and every handle not yet built are absent from the closed pools. */
  lemma FreshOrLiveNotClosed(s: PoolState)
    requires Accounted(s)
    ensures s.pool.Some? ==> s.pool.value < s.built && s.pool.value !in s.closed
    ensures s.built !in s.closed
  {
    if s.pool.Some? {
      assert multiset(s.closed)[s.pool.value] == 0;
    }
    assert s.built !in s.closed;
  }

  /** Closing the live handle and clearing it keeps every pool accounted for. */
  lemma ReleasedAccounted(s: PoolState)
    requires Accounted(s)
    ensures Accounted(Released(s)) && Released(s).pool.None?
  {
    if s.pool.Some? {
      var r := Released(s);
      assert multiset(r.closed) == multiset(s.closed) + multiset{s.pool.value};
      forall k | 0 <= k < |r.closed| ensures r.closed[k] < r.built {
        if k < |s.closed| { assert r.closed[k] == s.closed[k]; }
      }
    }
  }

  /** A failed attempt keeps every pool accounted for. */
  lemma FailedAccounted(s: PoolState, a: Attempt, i: nat)
    requires Accounted(s) && s.pool.None?
    ensures Accounted(Failed(s, a, i)) && Failed(s, a, i).pool.None?
  {
    if a.buildOk {
      var r := s.(built := s.built + 1, closed := s.closed + [s.built]);
      FreshHandleNeverClosed(s);
      assert multiset(r.closed) == multiset(s.closed) + multiset{s.built};
      forall k | 0 <= k < |r.closed| ensures r.closed[k] < r.built {
        if k < |s.closed| { assert r.closed[k] == s.closed[k]; }
      }
    }
  }

  /** Installing the pool just built keeps every pool accounted for. */
  lemma InstalledAccounted(s: PoolState)
    requires Accounted(s) && s.pool.None?
    ensures Accounted(Installed(s))
  {
    FreshHandleNeverClosed(s);
  }

  /** The loop keeps every pool accounted for. */
  lemma {:induction false} AttemptsAccounted(s: PoolState, outcomes: Cycle, i: nat)
    requires i <= MaxAttempts && s.pool.None? && Accounted(s)
    ensures Accounted(Attempts(s, outcomes, i))
    decreases MaxAttempts - i
  {
    var d := s.(dialed := s.dialed + 1);
    if i == MaxAttempts {
      AttemptsDone(s, outcomes);
    } else if Succeeds(outcomes[i]) {
      StepSucceeded(s, outcomes, i);
      InstalledAccounted(d);
    } else {
      StepFailed(s, outcomes, i);
      FailedAccounted(d, outcomes[i], i);
      AttemptsAccounted(Failed(d, outcomes[i], i), outcomes, i + 1);
    }
  }

  /** Every pool the loop closes was built by the loop itself. */
  lemma {:induction false} ClosedFromFresh(outcomes: Cycle, i: nat, next: Handle)
    requires i <= MaxAttempts
    ensures forall k :: 0 <= k < |ClosedFrom(outcomes, i, next)| ==> next <= ClosedFrom(outcomes, i, next)[k]
    decreases MaxAttempts - i
  {
    if i < MaxAttempts && !Succeeds(outcomes[i]) {
      if outcomes[i].buildOk {
        ClosedFromFresh(outcomes, i + 1, next + 1);
      } else {
        ClosedFromFresh(outcomes, i + 1, next);
      }
    }
  }

  // ------------------------------------------------- a reconnect cycle

  /**
   * reconnect first closes and clears the live handle: its close is the first close
   * of the cycle, the closes that follow are of pools the cycle built itself, and the
   * old handle is never installed again.
   */
  lemma ReconnectClosesOldHandleFirst(s: PoolState, outcomes: Cycle)
    requires Accounted(s) && s.pool.Some?
    ensures var r := Reconnected(s, outcomes);
      && |s.closed| < |r.closed|
      && r.closed[..|s.closed| + 1] == s.closed + [s.pool.value]
      && (forall k :: |s.closed| < k < |r.closed| ==> s.built <= r.closed[k])
      && r.pool != s.pool
  {
    var p := Released(s);
    var r := Reconnected(s, outcomes);
    var c := ClosedFrom(outcomes, 0, s.built);
    assert r.closed == p.closed + c;
    ClosedFromFresh(outcomes, 0, s.built);
    forall k | |s.closed| < k < |r.closed| ensures s.built <= r.closed[k] {
      assert r.closed[k] == c[k - |p.closed|];
    }
  }

  /**
   * reconnect makes between 1 and 5 attempts: exactly up to the first attempt whose build
   * and ping both succeed, and then installs the pool that attempt built, the last one
   * built; with no such attempt it makes all 5 and leaves the handle absent.
   */
  lemma ReconnectInstallsFirstSuccess(s: PoolState, outcomes: Cycle)
    ensures var r, k := Reconnected(s, outcomes), FirstSuccess(outcomes, 0);
      && 1 <= r.dialed - s.dialed <= MaxAttempts
      && (r.pool.Some? <==> exists j :: 0 <= j < MaxAttempts && Succeeds(outcomes[j]))
      && (k < MaxAttempts ==> r.dialed == s.dialed + k + 1 && r.pool == Some(r.built - 1))
      && (k == MaxAttempts ==> r.dialed == s.dialed + MaxAttempts && r.pool.None?)
      && s.built <= r.built && r.cancelled == s.cancelled
  {
    var k := FirstSuccess(outcomes, 0);
    if k < MaxAttempts {
      assert Succeeds(outcomes[k]);
    }
  }

  /**
   * The sleeps of a cycle come between consecutive attempts, one fewer than the
   * attempts made, and follow the schedule 2, 4, 6, 8 seconds.
   */
  lemma ReconnectBackoff(s: PoolState, outcomes: Cycle)
    ensures var r := Reconnected(s, outcomes);
      && |s.slept| <= |r.slept|
      && r.slept[..|s.slept|] == s.slept
      && |r.slept| - |s.slept| == r.dialed - s.dialed - 1
      && (forall j :: |s.slept| <= j < |r.slept| ==> r.slept[j] == 2 * (j - |s.slept| + 1))
      && (forall j :: |s.slept| <= j < |r.slept| ==> r.slept[j] <= 8)
  {
    var w := LastWait(outcomes, 0);
    SleepsSchedule(outcomes, 0);
    WaitsSchedule(0, w);
    var r := Reconnected(s, outcomes);
    assert r.slept == s.slept + Waits(0, w);
    forall j | |s.slept| <= j < |r.slept|
      ensures r.slept[j] == 2 * (j - |s.slept| + 1)
    {
      assert r.slept[j] == Waits(0, w)[j - |s.slept|];
    }
  }

  /** Against a database that never answers, a cycle tries 5 times, sleeps 2, 4, 6, 8 s, and returns with no handle. */
  lemma ReconnectAllFail(s: PoolState, outcomes: Cycle)
    requires forall j :: 0 <= j < MaxAttempts ==> !Succeeds(outcomes[j])
    ensures var r := Reconnected(s, outcomes);
      && r.pool.None?
      && r.dialed == s.dialed + 5
      && r.slept == s.slept + [2, 4, 6, 8]
  {
    assert FirstSuccess(outcomes, 0) == MaxAttempts;
    SleepsSchedule(outcomes, 0);
    WaitsSchedule(0, 4);
  }

  /** A database that fails twice and then answers: three attempts, sleeps of 2 and 4 s, a live pool. */
  lemma ReconnectThirdAttemptSucceeds(s: PoolState, outcomes: Cycle)
    requires !Succeeds(outcomes[0]) && !Succeeds(outcomes[1]) && Succeeds(outcomes[2])
    ensures var r := Reconnected(s, outcomes);
      && r.pool.Some?
      && r.dialed == s.dialed + 3
      && r.slept == s.slept + [2, 4]
  {
    assert FirstSuccess(outcomes, 0) == 2;
    SleepsSchedule(outcomes, 0);
    WaitsSchedule(0, 2);
  }

  /**
   * No pool leaks and none is closed twice: every pool built during the cycle, other
   * than the one installed, is closed exactly once, and so is the handle it replaced.
   */
  lemma ReconnectedAccounted(s: PoolState, outcomes: Cycle)
    requires Accounted(s)
    ensures var r := Reconnected(s, outcomes);
      && Accounted(r)
      && (forall h :: 0 <= h < r.built && r.pool != Some(h) ==> multiset(r.closed)[h] == 1)
  {
    ReleasedAccounted(s);
    AttemptsAccounted(Released(s), outcomes, 0);
  }

  // --------------------------------------------------------- health ticks

  /** A wake-up keeps every pool accounted for; when the select takes the cancellation it changes nothing and the loop returns. */
  lemma TickAccounted(s: PoolState, pingOk: bool, outcomes: Cycle, tickFirst: bool)
    requires Accounted(s)
    ensures var r := Tick(s, pingOk, outcomes, tickFirst);
      && Accounted(r.1)
      && (r.0 <==> !s.cancelled || tickFirst)
      && (!r.0 ==> r.1 == s)
  {
    if !(s.cancelled && !tickFirst) && (s.pool.None? || !pingOk) {
      ReconnectedAccounted(s, outcomes);
    }
  }

  /**
   * A tick that finds the handle absent, or whose ping fails, recovers as soon as the
   * database answers one of the cycle's attempts: afterwards a newly built pool is live.
   * A tick whose ping succeeds changes nothing.
   */
  lemma TickRecovers(s: PoolState, pingOk: bool, outcomes: Cycle)
    requires !s.cancelled
    ensures var r := Tick(s, pingOk, outcomes, false);
      && r.0
      && (s.pool.Some? && pingOk ==> r.1 == s)
      && (((s.pool.None? || !pingOk) && (exists j :: 0 <= j < MaxAttempts && Succeeds(outcomes[j])))
          ==> r.1.pool.Some? && r.1.pool.value >= s.built)
  {
    if s.pool.None? || !pingOk {
      ReconnectInstallsFirstSuccess(s, outcomes);
    }
  }

  /** However many wake-ups run, every pool stays accounted for. */
  lemma {:induction false} RunTicksAccounted(s: PoolState, ticks: seq<TickInput>)
    requires Accounted(s)
    ensures Accounted(RunTicks(s, ticks))
    decreases |ticks|
  {
    if ticks != [] {
      TickAccounted(s, ticks[0].pingOk, ticks[0].outcomes, ticks[0].tickFirst);
      var r := Tick(s, ticks[0].pingOk, ticks[0].outcomes, ticks[0].tickFirst);
      if r.0 {
        RunTicksAccounted(r.1, ticks[1..]);
      }
    }
  }

  // ---------------------------------------------------------------- Close

  /**
   * Close cancels the loop and closes a live handle exactly once; afterwards there is no
   * handle and IsHealthy is false whatever a ping would answer.
   */
  lemma ShutdownClosesLiveOnce(s: PoolState)
    requires Accounted(s)
    ensures var r := Shutdown(s);
      && Accounted(r) && Quiescent(r)
      && r.cancelled && r.pool.None?
      && (s.pool.Some? ==> r.closed == s.closed + [s.pool.value] && multiset(r.closed)[s.pool.value] == 1)
      && (s.pool.None? ==> r.closed == s.closed)
      && (forall ok :: !Healthy(r, ok))
  {
    ReleasedAccounted(s);
  }

  /** A second Close closes nothing and changes nothing. */
  lemma ShutdownIdempotent(s: PoolState)
    ensures Shutdown(Shutdown(s)) == Shutdown(s)
    ensures Shutdown(Shutdown(s)).closed == Shutdown(s).closed
  {
  }

  /**
   * Once Close has run, the health-check loop returns at the first wake-up whose select
   * takes the cancellation, leaving the closed state as it is.
   */
  lemma TicksAfterShutdownInert(s: PoolState, ticks: seq<TickInput>)
    requires ticks != [] ==> !ticks[0].tickFirst
    ensures RunTicks(Shutdown(s), ticks) == Shutdown(s)
  {
  }

  /**
   * But when a tick is pending as Close cancels the context and the select takes the tick,
   * the loop finds the handle absent and reconnects: a database that answers gets a new
   * live pool after Close, one that no later Close will see.
   */
  lemma TickAfterShutdownReopens(s: PoolState, pingOk: bool, outcomes: Cycle)
    requires Succeeds(outcomes[0])
    ensures var r := Tick(Shutdown(s), pingOk, outcomes, true);
      r.0 && r.1.cancelled && r.1.pool.Some? && !Quiescent(r.1)
  {
    assert FirstSuccess(outcomes, 0) == 0;
  }

  /** With the intended wake-up, Close is final: no sequence of wake-ups reopens the pool. */
  lemma GuardedShutdownFinal(s: PoolState, ticks: seq<TickInput>)
    ensures RunGuardedTicks(Shutdown(s), ticks) == Shutdown(s)
    ensures Quiescent(RunGuardedTicks(Shutdown(s), ticks))
  {
  }

  /** Before Close the intended loop does exactly what the loop as written does. */
  lemma {:induction false} GuardedTicksAgree(s: PoolState, ticks: seq<TickInput>)
    requires !s.cancelled
    ensures RunGuardedTicks(s, ticks) == RunTicks(s, ticks)
    decreases |ticks|
  {
    if ticks != [] {
      var r := Tick(s, ticks[0].pingOk, ticks[0].outcomes, ticks[0].tickFirst);
      GuardedTicksAgree(r.1, ticks[1..]);
    }
  }

  /** The intended loop keeps every pool accounted for, and keeps a quiescent state quiescent. */
  lemma {:induction false} GuardedTicksAccounted(s: PoolState, ticks: seq<TickInput>)
    requires Accounted(s) && Quiescent(s)
    ensures Accounted(RunGuardedTicks(s, ticks)) && Quiescent(RunGuardedTicks(s, ticks))
  {
    if !s.cancelled {
      GuardedTicksAgree(s, ticks);
      RunTicksAccounted(s, ticks);
    }
  }
}
