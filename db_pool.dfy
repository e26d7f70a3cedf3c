/**
 * The Pool type of db/db.go as a class whose methods update its fields in place.
 *
 * `pool` and `cancelled` are the source's own state (the *pgxpool.Pool pointer and the
 * background context); `dialed`, `built`, `closed` and `slept` are what the pool factory,
 * pool.Close and time.Sleep observe. Every method is proved against the state machine in
 * PoolSpec, and what that state machine promises is proved in PoolLemmas.
 */
module Db {
  import opened Wrappers
  import opened PoolSpec
  import PoolLemmas

  /** The error NewPool returns when the DSN does not parse. */
  const ParseConfigError := "failed to parse database URL"

  class Pool {
    var pool: Option<Handle>
    var cancelled: bool
    var dialed: nat
    var built: nat
    var closed: seq<Handle>
    var slept: seq<nat>

    function State(): PoolState
      reads this
    {
      PoolState(pool, cancelled, dialed, built, closed, slept)
    }

    /** No pool leaks and no pool is closed twice. */
    ghost predicate Valid()
      reads this
    {
      Accounted(State())
    }

    /**
     * The part of NewPool after the DSN has parsed: one build, one ping when the build
     * succeeds, and a pool whose ping failed is closed and dropped.
     */
    constructor (first: Attempt)
      ensures Valid() && State() == Initial(first)
    {
      pool := None;
      cancelled := false;
      dialed := 1;
      built := 0;
      closed := [];
      slept := [];
      new;
      if first.buildOk {
        var h := built;
        built := built + 1;
        if first.pingOk {
          pool := Some(h);
        } else {
          closed := closed + [h];
        }
      }
    }

    /** GetPool: the live handle, which is never one that has been closed. */
    function GetPool(): (h: Option<Handle>)
      reads this
      requires Valid()
      ensures h.Some? ==> h.value < built && h.value !in closed
      ensures h.None? <==> State().pool.None?
    {
      PoolLemmas.FreshOrLiveNotClosed(State());
      pool
    }

    /**
     * IsHealthy: false without a handle, otherwise whether the ping answered; a healthy
     * answer always comes from a live pool that has not been closed.
     */
    method IsHealthy(pingOk: bool) returns (healthy: bool)
      requires Valid()
      ensures healthy == Healthy(State(), pingOk)
      ensures healthy ==> pingOk && GetPool().Some? && GetPool().value !in closed
      ensures !pingOk ==> !healthy
    {
      var h := GetPool();
      if h.None? {
        return false;
      }
      healthy := pingOk;
    }

    /**
     * reconnect: close and clear the live handle, then up to MaxAttempts attempts to build
     * and ping a new pool, sleeping Backoff(i) after failed attempt i except the last.
     */
    method Reconnect(outcomes: Cycle)
      requires Valid()
      modifies this
      ensures Valid()
      ensures State() == Reconnected(old(State()), outcomes)
    {
      PoolLemmas.ReconnectedAccounted(State(), outcomes);
      Release();
      Retry(outcomes);
    }

    /** Close and clear the live handle, if there is one. */
    method Release()
      modifies this
      ensures State() == Released(old(State()))
    {
      if pool.Some? {
        closed := closed + [pool.value];
        pool := None;
      }
    }

    /** reconnect's loop: attempts until one succeeds, at most MaxAttempts of them. */
    method Retry(outcomes: Cycle)
      requires pool.None?
      modifies this
      ensures State() == Attempts(old(State()), outcomes, 0)
    {
      ghost var target := Attempts(State(), outcomes, 0);
      var i := 0;
      while i < MaxAttempts
        invariant 0 <= i <= MaxAttempts
        invariant pool.None?
        invariant Attempts(State(), outcomes, i) == target
      {
        ghost var before := State();
        var connected := TryConnect(outcomes[i], i);
        if connected {
          PoolLemmas.StepSucceeded(before, outcomes, i);
          return;
        }
        PoolLemmas.StepFailed(before, outcomes, i);
        i := i + 1;
      }
      PoolLemmas.AttemptsDone(State(), outcomes);
    }

    /**
     * Attempt `i` of reconnect's loop: build a pool and ping it; install it when both
     * succeed, otherwise close a pool that was built and, unless this was the last
     * attempt, sleep Backoff(i).
     */
    method TryConnect(a: Attempt, i: nat) returns (connected: bool)
      requires pool.None?
      modifies this
      ensures connected == Succeeds(a)
      ensures connected ==> State() == Installed(old(State()).(dialed := old(dialed) + 1))
      ensures !connected ==> State() == Failed(old(State()).(dialed := old(dialed) + 1), a, i)
    {
      dialed := dialed + 1;
      if a.buildOk {
        var h := built;
        built := built + 1;
        if a.pingOk {
          pool := Some(h);
          return true;
        }
        closed := closed + [h];
      }
      if i < MaxAttempts - 1 {
        slept := slept + [Backoff(i)];
      }
      return false;
    }

    /**
     * One wake-up of healthCheck: return when the select takes the cancelled context
     * (`tickFirst` says it took a pending tick instead); reconnect when the handle is
     * absent or its ping fails; otherwise do nothing.
     */
    method HealthTick(pingOk: bool, outcomes: Cycle, tickFirst: bool) returns (running: bool)
      requires Valid()
      modifies this
      ensures Valid()
      ensures (running, State()) == Tick(old(State()), pingOk, outcomes, tickFirst)
    {
      if cancelled && !tickFirst {
        return false;
      }
      running := true;
      var h := GetPool();
      if h.None? {
        Reconnect(outcomes);
        return;
      }
      if !pingOk {
        Reconnect(outcomes);
      }
    }

    /** healthCheck: wake-ups in order, until the select takes the cancelled context. */
    method HealthCheck(ticks: seq<TickInput>)
      requires Valid()
      modifies this
      ensures Valid()
      ensures State() == RunTicks(old(State()), ticks)
    {
      var i := 0;
      while i < |ticks|
        invariant 0 <= i <= |ticks|
        invariant Valid()
        invariant RunTicks(State(), ticks[i..]) == RunTicks(old(State()), ticks)
      {
        assert ticks[i..][0] == ticks[i] && ticks[i..][1..] == ticks[i + 1..];
        var running := HealthTick(ticks[i].pingOk, ticks[i].outcomes, ticks[i].tickFirst);
        if !running {
          return;
        }
        i := i + 1;
      }
    }

    /** Close: cancel the background context, then close and clear a live handle. */
    method Close()
      requires Valid()
      modifies this
      ensures Valid() && cancelled && pool.None?
      ensures State() == Shutdown(old(State()))
    {
      cancelled := true;
      Release();
      PoolLemmas.ReleasedAccounted(old(State()));
    }
  }

  /**
   * NewPool: a DSN that does not parse is an error and no pool; otherwise a new Pool
   * in the state of its first attempt, with its background context not cancelled.
   */
  method NewPool(configParses: bool, first: Attempt) returns (p: Option<Pool>, err: Option<string>)
    ensures err.Some? <==> !configParses
    ensures err.Some? ==> p.None? && err.value == ParseConfigError
    ensures err.None? ==> p.Some? && fresh(p.value) && p.value.Valid() && p.value.State() == Initial(first)
  {
    if !configParses {
      return None, Some(ParseConfigError);
    }
    var pool := new Pool(first);
    return Some(pool), None;
  }
}
