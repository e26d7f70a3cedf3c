/**
 * The database pool manager of db/db.go as a pure state machine.
 *
 * The pgx pool is replaced by an oracle: every build of a pool (pgxpool.NewWithConfig)
 * and its first ping is one `Attempt`, and every later ping is a boolean answer.
 * Pools are identified by `Handle`s numbered in the order they were built. Besides the
 * source's own fields (the live handle and the cancelled background context) the state
 * records what the outside world observes: how many builds were tried, how many pools
 * were built, which pools were closed (in order) and how long the manager slept.
 */
module PoolSpec {
  import opened Wrappers

  type Handle = nat

  /** What the database does to one build-and-ping attempt. */
  datatype Attempt = Attempt(buildOk: bool, pingOk: bool)

  predicate Succeeds(a: Attempt) { a.buildOk && a.pingOk }

  /** What the database does to each of the attempts one reconnect cycle may make. */
  type Cycle = o: seq<Attempt> | |o| == MaxAttempts
    witness [Attempt(false, false), Attempt(false, false), Attempt(false, false),
             Attempt(false, false), Attempt(false, false)]

  datatype PoolState = PoolState(
    pool: Option<Handle>,   // the live pgx pool, or nil
    cancelled: bool,        // the background context has been cancelled
    dialed: nat,            // calls of the pool factory so far
    built: nat,             // pools built so far; handles 0 .. built-1
    closed: seq<Handle>,    // pools closed, in the order they were closed
    slept: seq<nat>         // sleeps of the reconnect loop, in seconds
  )

  /** Reconnect makes at most this many attempts per cycle. */
  const MaxAttempts: nat := 5

  /** Seconds slept after failed attempt `i` (counted from 0): (i+1)*2. */
  function Backoff(i: nat): (b: nat)
    ensures 2 <= b && b % 2 == 0
    ensures i < MaxAttempts - 1 ==> b <= 8
  {
    (i + 1) * 2
  }

  /** The sleeps after attempts lo .. hi-1, in order. */
  function Waits(lo: nat, hi: nat): (w: seq<nat>)
    requires lo <= hi
    decreases hi - lo
  {
    if lo == hi then [] else [Backoff(lo)] + Waits(lo + 1, hi)
  }

  /**
   * Every pool ever built is either the live handle, never closed, or has been
   * closed exactly once; nothing that was not built is ever closed.
   */
  ghost predicate Accounted(s: PoolState) {
    PoolsAccounted(s.pool, s.built, s.closed)
  }

  ghost predicate PoolsAccounted(pool: Option<Handle>, built: nat, closed: seq<Handle>) {
    && (pool.Some? ==> pool.value < built)
    && (forall k :: 0 <= k < |closed| ==> closed[k] < built)
    && (forall h :: 0 <= h < built ==>
          multiset(closed)[h] == if pool == Some(h) then 0 else 1)
  }

  /** After cancellation no pool is live. */
  ghost predicate Quiescent(s: PoolState) {
    s.cancelled ==> s.pool.None?
  }

  // ---------------------------------------------------------------- NewPool

  /**
   * The state NewPool returns once the DSN has parsed: one build, and when it
   * succeeds one ping; a pool whose ping failed is closed and dropped.
   */
  function Initial(first: Attempt): (s: PoolState)
    ensures s.dialed == 1 && !s.cancelled && s.slept == []
    ensures s.pool.Some? <==> Succeeds(first)
    ensures s.built == (if first.buildOk then 1 else 0)
    ensures s.closed == (if first.buildOk && !first.pingOk then [0] else [])
    ensures Accounted(s) && Quiescent(s)
  {
    if !first.buildOk then PoolState(None, false, 1, 0, [], [])
    else if first.pingOk then PoolState(Some(0), false, 1, 1, [], [])
    else PoolState(None, false, 1, 1, [0], [])
  }

  // -------------------------------------------------------------- reconnect

  /** The first step of reconnect: close and clear the live handle, if any. */
  function Released(s: PoolState): (r: PoolState)
    ensures r.pool.None?
    ensures r.cancelled == s.cancelled && r.dialed == s.dialed && r.built == s.built && r.slept == s.slept
    ensures s.closed <= r.closed && |r.closed| <= |s.closed| + 1
    ensures s.pool.Some? ==> |r.closed| == |s.closed| + 1 && r.closed[|s.closed|] == s.pool.value
  {
    match s.pool
    case None => s
    case Some(h) => s.(pool := None, closed := s.closed + [h])
  }

  /**
   * The bookkeeping of failed attempt `i` (after the factory call is counted): a pool
   * that was built but did not answer its ping is closed, and unless this was the last
   * attempt the loop sleeps Backoff(i).
   */
  function Failed(s: PoolState, a: Attempt, i: nat): (r: PoolState)
    ensures r.pool == s.pool && r.cancelled == s.cancelled && r.dialed == s.dialed
    ensures s.closed <= r.closed && s.slept <= r.slept
    ensures r.built == s.built + (if a.buildOk then 1 else 0)
    ensures |r.closed| == |s.closed| + (if a.buildOk then 1 else 0)
    ensures a.buildOk ==> r.closed[|s.closed|] == s.built
    ensures |r.slept| == |s.slept| + (if i < MaxAttempts - 1 then 1 else 0)
  {
    var b := if a.buildOk then s.(built := s.built + 1, closed := s.closed + [s.built]) else s;
    if i < MaxAttempts - 1 then b.(slept := b.slept + [Backoff(i)]) else b
  }

  /** The attempt that succeeds installs the pool it has just built. */
  function Installed(s: PoolState): (r: PoolState)
    ensures r.pool.Some? && s.built <= r.pool.value < r.built
    ensures r.closed == s.closed && r.slept == s.slept && r.dialed == s.dialed && r.cancelled == s.cancelled
  {
    s.(pool := Some(s.built), built := s.built + 1)
  }

  /** The index of the first succeeding attempt at or after `i`, or MaxAttempts. */
  function FirstSuccess(outcomes: Cycle, i: nat): (k: nat)
    requires i <= MaxAttempts
    ensures i <= k <= MaxAttempts
    ensures forall j :: i <= j < k ==> !Succeeds(outcomes[j])
    ensures k < MaxAttempts ==> Succeeds(outcomes[k])
    decreases MaxAttempts - i
  {
    if i == MaxAttempts || Succeeds(outcomes[i]) then i else FirstSuccess(outcomes, i + 1)
  }

  /** How many attempts the loop makes from attempt `i` on: up to the first success, or all. */
  function Dials(outcomes: Cycle, i: nat): nat
    requires i <= MaxAttempts
  {
    var k := FirstSuccess(outcomes, i);
    if k < MaxAttempts then k + 1 - i else MaxAttempts - i
  }

  /** How many pools the loop builds from attempt `i` on. */
  function BuiltFrom(outcomes: Cycle, i: nat): (n: nat)
    requires i <= MaxAttempts
    ensures FirstSuccess(outcomes, i) < MaxAttempts ==> 1 <= n
    decreases MaxAttempts - i
  {
    if i == MaxAttempts then 0
    else if Succeeds(outcomes[i]) then 1
    else (if outcomes[i].buildOk then 1 else 0) + BuiltFrom(outcomes, i + 1)
  }

  /** The pools the loop closes from attempt `i` on, when the next pool built gets handle `next`. */
  function ClosedFrom(outcomes: Cycle, i: nat, next: Handle): seq<Handle>
    requires i <= MaxAttempts
    decreases MaxAttempts - i
  {
    if i == MaxAttempts || Succeeds(outcomes[i]) then []
    else if outcomes[i].buildOk then [next] + ClosedFrom(outcomes, i + 1, next + 1)
    else ClosedFrom(outcomes, i + 1, next)
  }

  /** The sleeps of the loop from attempt `i` on. */
  function SleepsFrom(outcomes: Cycle, i: nat): seq<nat>
    requires i <= MaxAttempts
    decreases MaxAttempts - i
  {
    if i == MaxAttempts || Succeeds(outcomes[i]) then []
    else (if i < MaxAttempts - 1 then [Backoff(i)] else []) + SleepsFrom(outcomes, i + 1)
  }

  /**
   * The effect of reconnect's loop from attempt `i` on, field by field: the attempts
   * made, the pools built and closed, the sleeps, and the pool built by the first
   * succeeding attempt, which is the last pool built.
   */
  function Attempts(s: PoolState, outcomes: Cycle, i: nat): (r: PoolState)
    requires i <= MaxAttempts
    ensures r.cancelled == s.cancelled && s.built <= r.built
    ensures s.closed <= r.closed && s.slept <= r.slept
    ensures i < MaxAttempts ==> s.dialed < r.dialed <= s.dialed + MaxAttempts - i
    ensures r.pool != s.pool ==> r.pool.Some? && s.built <= r.pool.value < r.built
  {
    var n := BuiltFrom(outcomes, i);
    s.(pool := if FirstSuccess(outcomes, i) < MaxAttempts then Some(s.built + n - 1) else s.pool,
       dialed := s.dialed + Dials(outcomes, i),
       built := s.built + n,
       closed := s.closed + ClosedFrom(outcomes, i, s.built),
       slept := s.slept + SleepsFrom(outcomes, i))
  }

  /** One whole reconnect cycle: release the live handle, then up to five attempts. */
  function Reconnected(s: PoolState, outcomes: Cycle): (r: PoolState)
    ensures r.cancelled == s.cancelled && s.built <= r.built
    ensures s.closed <= r.closed && s.slept <= r.slept
    ensures s.dialed < r.dialed <= s.dialed + MaxAttempts
    ensures r.pool.Some? ==> s.built <= r.pool.value < r.built
    ensures s.pool.Some? ==> s.pool.value in r.closed
  {
    Attempts(Released(s), outcomes, 0)
  }

  // ------------------------------------------------------------ healthCheck

  /**
   * One wake-up of the health-check goroutine: `running` is false when the select takes
   * the cancelled context's case and the loop returns. When the context is done and a
   * tick is pending as well, Go's select may take either case; `tickFirst` says that it
   * took the tick's.
   */
  function Tick(s: PoolState, pingOk: bool, outcomes: Cycle, tickFirst: bool): (r: (bool, PoolState))
    ensures r.0 <==> !s.cancelled || tickFirst
    ensures r.1.cancelled == s.cancelled && s.closed <= r.1.closed && s.built <= r.1.built
    ensures r.1 == s <==> !r.0 || (s.pool.Some? && pingOk)
  {
    if s.cancelled && !tickFirst then (false, s)
    else if s.pool.None? then (true, Reconnected(s, outcomes))
    else if pingOk then (true, s)
    else (true, Reconnected(s, outcomes))
  }

  /** The inputs of one wake-up: the select's choice, the ping's answer and the attempts a reconnect would see. */
  datatype TickInput = TickInput(tickFirst: bool, pingOk: bool, outcomes: Cycle)

  /** Runs the health-check loop over a sequence of wake-ups, stopping when it returns. */
  function RunTicks(s: PoolState, ticks: seq<TickInput>): (r: PoolState)
    ensures r.cancelled == s.cancelled && s.closed <= r.closed && s.built <= r.built
    ensures s.dialed <= r.dialed
    decreases |ticks|
  {
    if ticks == [] then s
    else
      var r := Tick(s, ticks[0].pingOk, ticks[0].outcomes, ticks[0].tickFirst);
      if !r.0 then r.1 else RunTicks(r.1, ticks[1..])
  }

  /**
   * The wake-up as evidently intended: a tick taken after the context was cancelled
   * returns instead of reconnecting, whichever case the select chose.
   */
  function GuardedTick(s: PoolState, pingOk: bool, outcomes: Cycle, tickFirst: bool): (r: (bool, PoolState))
    ensures r.0 <==> !s.cancelled
    ensures s.cancelled ==> r.1 == s
    ensures r.1.cancelled == s.cancelled
  {
    if s.cancelled then (false, s) else Tick(s, pingOk, outcomes, tickFirst)
  }

  /** The health-check loop with the intended wake-up. */
  function RunGuardedTicks(s: PoolState, ticks: seq<TickInput>): (r: PoolState)
    ensures r.cancelled == s.cancelled
    ensures s.cancelled ==> r == s
    decreases |ticks|
  {
    if ticks == [] then s
    else
      var r := GuardedTick(s, ticks[0].pingOk, ticks[0].outcomes, ticks[0].tickFirst);
      if !r.0 then r.1 else RunGuardedTicks(r.1, ticks[1..])
  }

  // ------------------------------------------------------------------ Close

  /** Close: cancel the background context, then close and clear a live handle. */
  function Shutdown(s: PoolState): (r: PoolState)
    ensures r.cancelled && r.pool.None? && Quiescent(r)
    ensures s.closed <= r.closed && r.built == s.built && r.dialed == s.dialed
    ensures s.pool.Some? ==> r.closed == s.closed + [s.pool.value]
    ensures s.pool.None? ==> r.closed == s.closed
  {
    Released(s).(cancelled := true)
  }

  /** IsHealthy: false without a handle, otherwise the ping's answer. */
  function Healthy(s: PoolState, pingOk: bool): (healthy: bool)
    ensures healthy ==> s.pool.Some?
  {
    s.pool.Some? && pingOk
  }
}
