/** The circuit breaker in front of the list query: the trip rule of this repository inside the three-state
    machine of gobreaker (MaxRequests 1, Interval 60 s, Timeout 30 s). */
module Breaker {
  import opened Models

  // ----- The trip rule -----

  datatype Counts = Counts(requests: nat, successes: nat, failures: nat, consecutiveSuccesses: nat)

  const NO_COUNTS := Counts(0, 0, 0, 0)

  /** 2^-53, half the distance from 1 to the next larger float64. */
  const ULP := 1.0 / 9_007_199_254_740_992.0

  const SMALLEST := 1.0 / 8_589_934_592.0
  const LARGEST := 4_294_967_296.0

  /** All that is used of float64 rounding: it is monotone, and on the numbers from 2^-33 to 2^32, far from
      subnormals and overflow, it has relative error at most 2^-53. */
  ghost predicate Rounds(fl: real -> real) {
    && (forall x: real, y: real :: x <= y ==> fl(x) <= fl(y))
    && (forall x: real :: SMALLEST <= x <= LARGEST ==> x - x * ULP <= fl(x) <= x + x * ULP)
  }

  /** ReadyToTrip as written. When requests is zero Go's quotient is not a number and the first conjunct fails. */
  predicate ReadyToTrip(fl: real -> real, c: Counts) {
    && c.requests >= 3 && c.failures >= 3
    && fl(c.failures as real / c.requests as real) >= fl(0.6)
  }

  /** The rule in whole numbers: at least three failures and at least three fifths of the requests. */
  predicate Trips(c: Counts) {
    c.requests >= 3 && c.failures >= 3 && 5 * c.failures >= 3 * c.requests
  }

  /** A quotient below three fifths is below it by more than rounding can hide. */
  lemma QuotientGap(q: real, f: nat, r: nat)
    requires 1 <= r < 0x1_0000_0000 && q * r as real == f as real && 0.0 <= q
    requires 5 * f < 3 * r
    ensures q + q * ULP < 0.6 - 0.6 * ULP
  {
    var n, d, least := r as real, 3.0 - 5.0 * q, 1.0 / 4_294_967_296.0;
    assert d * n == 3.0 * n - 5.0 * (q * n);
    assert d * n >= 1.0;
    assert least * n < 1.0;
    if d <= least {
      RealMulMonotone(d, least, n);
    }
    assert d > least;
  }

  lemma RealMulMonotone(a: real, b: real, c: real)
    requires a <= b && 0.0 <= c
    ensures a * c <= b * c
  {
  }

  lemma QuotientAtLeast(q: real, f: nat, r: nat)
    requires 1 <= r && q * r as real == f as real && 5 * f >= 3 * r
    ensures q >= 0.6
  {
    if q < 0.6 {
      assert (0.6 - q) * r as real > 0.0;
    }
  }

  lemma QuotientNotTiny(q: real, f: nat, r: nat)
    requires 1 <= r < 0x1_0000_0000 && q * r as real == f as real && f >= 1
    ensures q >= SMALLEST
  {
    var n, least := r as real, 1.0 / 8_589_934_592.0;
    assert least * n < 1.0;
    if q < least {
      RealMulMonotone(q, least, n);
    }
  }

  /** A quotient below three fifths stays below it when both are rounded. */
  lemma RoundedBelow(fl: real -> real, q: real, f: nat, r: nat)
    requires Rounds(fl) && 1 <= r < 0x1_0000_0000 && f >= 1 && q * r as real == f as real && 0.0 <= q
    requires 5 * f < 3 * r
    ensures fl(q) < fl(0.6)
  {
    QuotientGap(q, f, r);
    QuotientNotTiny(q, f, r);
    assert 0.6 - 0.6 * ULP <= fl(0.6);
    assert fl(q) <= q + q * ULP;
  }

  /** Trip-rule exactness: for all 32-bit counts the rounded quotient test decides exactly the integer rule. */
  lemma TripRuleExact(fl: real -> real, c: Counts)
    requires Rounds(fl) && c.requests < 0x1_0000_0000
    ensures ReadyToTrip(fl, c) <==> Trips(c)
  {
    if c.requests >= 3 && c.failures >= 3 {
      var q := c.failures as real / c.requests as real;
      if 5 * c.failures >= 3 * c.requests {
        QuotientAtLeast(q, c.failures, c.requests);
      } else {
        RoundedBelow(fl, q, c.failures, c.requests);
      }
    }
  }

  /** The minimum on requests never decides: failures are requests. */
  lemma MinimumRequestsRedundant(c: Counts)
    requires c.failures <= c.requests
    ensures Trips(c) <==> c.failures >= 3 && 5 * c.failures >= 3 * c.requests
  {
  }

  // ----- gobreaker -----

  // Times are in milliseconds.
  const INTERVAL := 60_000
  const TIMEOUT := 30_000
  const MAX_REQUESTS := 1

  datatype Mode = Closed | HalfOpen | Open

  /** `expiry` is the end of the counting interval when closed and of the pause when open. */
  datatype Breaker = Breaker(mode: Mode, generation: nat, counts: Counts, expiry: int)

  function NewGeneration(b: Breaker, mode: Mode, now: int): Breaker {
    Breaker(mode, b.generation + 1, NO_COUNTS,
            match mode case Closed => now + INTERVAL case Open => now + TIMEOUT case HalfOpen => 0)
  }

  function Current(b: Breaker, now: int): Breaker {
    if b.mode.Closed? && b.expiry < now then NewGeneration(b, Closed, now)
    else if b.mode.Open? && b.expiry < now then NewGeneration(b, HalfOpen, now)
    else b
  }

  datatype Admission = Admitted(generation: nat) | OpenState | TooManyRequests

  function Admit(b: Breaker, now: int): Admission {
    var c := Current(b, now);
    if c.mode.Open? then OpenState
    else if c.mode.HalfOpen? && c.counts.requests >= MAX_REQUESTS then TooManyRequests
    else Admitted(c.generation)
  }

  function Before(b: Breaker, now: int): Breaker {
    var c := Current(b, now);
    if Admit(b, now).Admitted? then c.(counts := c.counts.(requests := c.counts.requests + 1)) else c
  }

  function After(b: Breaker, ticket: nat, now: int, success: bool): Breaker {
    var c := Current(b, now);
    var n := c.counts;
    if c.generation != ticket then c
    else if success then
      var n' := n.(successes := n.successes + 1, consecutiveSuccesses := n.consecutiveSuccesses + 1);
      if c.mode.HalfOpen? && n'.consecutiveSuccesses >= MAX_REQUESTS then NewGeneration(c, Closed, now)
      else c.(counts := n')
    else if c.mode.HalfOpen? then NewGeneration(c, Open, now)
    else
      var n' := n.(failures := n.failures + 1, consecutiveSuccesses := 0);
      if Trips(n') then NewGeneration(c, Open, now) else c.(counts := n')
  }

  /** The breaker, the clock, and the generations of the queries now running. */
  datatype Guarded = Guarded(b: Breaker, clock: int, running: seq<nat>)

  datatype BreakerStep = Wait(elapsed: nat) | Start | Finish(k: nat, success: bool)

  predicate GuardedCan(g: Guarded, st: BreakerStep) {
    st.Finish? ==> st.k < |g.running|
  }

  function GuardedNext(g: Guarded, st: BreakerStep): Guarded
    requires GuardedCan(g, st)
  {
    match st
    case Wait(d) => g.(clock := g.clock + d)
    case Start =>
      g.(b := Before(g.b, g.clock),
         running := match Admit(g.b, g.clock) case Admitted(n) => g.running + [n] case _ => g.running)
    case Finish(k, success) =>
      g.(b := After(g.b, g.running[k], g.clock, success), running := g.running[..k] + g.running[k + 1..])
  }

  function GuardedRun(g: Guarded, sts: seq<BreakerStep>): Option<Guarded> {
    if sts == [] then Some(g)
    else match GuardedRun(g, sts[..|sts| - 1])
      case None => None
      case Some(u) => if GuardedCan(u, sts[|sts| - 1]) then Some(GuardedNext(u, sts[|sts| - 1])) else None
  }

  ghost predicate GuardedInit(g: Guarded) {
    g.b == NewGeneration(Breaker(Open, 0, NO_COUNTS, 0), Closed, g.clock) && g.running == []
  }

  ghost predicate BreakerInv(g: Guarded) {
    && (forall k :: 0 <= k < |g.running| ==> g.running[k] <= g.b.generation)
    && g.b.counts.requests ==
         g.b.counts.successes + g.b.counts.failures + multiset(g.running)[g.b.generation]
    && (g.b.mode.Closed? ==> !Trips(g.b.counts))
    && (g.b.mode.HalfOpen? ==> g.b.counts.requests <= MAX_REQUESTS)
    && (g.b.mode.Open? ==> g.b.counts.requests == 0)
  }

  lemma FreshGeneration(g: Guarded, n: nat)
    requires forall k :: 0 <= k < |g.running| ==> g.running[k] < n
    ensures multiset(g.running)[n] == 0
  {
    assert n !in g.running;
  }

  lemma CurrentKeepsInv(g: Guarded)
    requires BreakerInv(g)
    ensures BreakerInv(g.(b := Current(g.b, g.clock)))
  {
    FreshGeneration(g, g.b.generation + 1);
  }

  lemma StartKeepsInv(g: Guarded)
    requires BreakerInv(g)
    ensures BreakerInv(GuardedNext(g, Start))
  {
    CurrentKeepsInv(g);
    var n := Current(g.b, g.clock).generation;
    assert multiset(g.running + [n]) == multiset(g.running) + multiset{n};
  }

  lemma FinishKeepsInv(g: Guarded, k: nat, success: bool)
    requires BreakerInv(g) && k < |g.running|
    ensures BreakerInv(GuardedNext(g, Finish(k, success)))
  {
    CurrentKeepsInv(g);
    var g' := GuardedNext(g, Finish(k, success));
    assert g.running == g.running[..k] + [g.running[k]] + g.running[k + 1..];
    assert multiset(g.running) == multiset(g'.running) + multiset{g.running[k]};
    forall j | 0 <= j < |g'.running| ensures g'.running[j] <= Current(g.b, g.clock).generation {
      assert g'.running[j] == if j < k then g.running[j] else g.running[j + 1];
    }
    FreshGeneration(g', Current(g.b, g.clock).generation + 1);
  }

  lemma StepKeepsBreakerInv(g: Guarded, st: BreakerStep)
    requires BreakerInv(g) && GuardedCan(g, st)
    ensures BreakerInv(GuardedNext(g, st))
  {
    match st
    case Wait(_) =>
    case Start => StartKeepsInv(g);
    case Finish(k, success) => FinishKeepsInv(g, k, success);
  }

  /** In every reachable state: closed means fewer than three failures counted or fewer than three fifths;
      half open means at most one query of this generation is running; open means none of this generation is. */
  lemma {:induction false} BreakerSafety(g: Guarded, sts: seq<BreakerStep>)
    requires GuardedInit(g) && GuardedRun(g, sts).Some?
    ensures var u := GuardedRun(g, sts).value;
            && BreakerInv(u)
            && (u.b.mode.Closed? ==> u.b.counts.failures < 3 || 5 * u.b.counts.failures < 3 * u.b.counts.requests)
            && (u.b.mode.HalfOpen? ==> multiset(u.running)[u.b.generation] <= 1)
            && (u.b.mode.Open? ==> multiset(u.running)[u.b.generation] == 0)
  {
    if sts != [] {
      BreakerSafety(g, sts[..|sts| - 1]);
      StepKeepsBreakerInv(GuardedRun(g, sts[..|sts| - 1]).value, sts[|sts| - 1]);
    }
  }

  /** A step opens a breaker that was not open only by finishing a query of the current generation with a failure:
      a closed one with at least the third failure of its interval, which makes three fifths, a half-open one with
      its probe. A breaker that opened at time t starts no query up to and including t + 30 s, and the next after. */
  lemma TripNeedsThreeFailures(g: Guarded, st: BreakerStep)
    requires BreakerInv(g) && GuardedCan(g, st) && !g.b.mode.Open? && GuardedNext(g, st).b.mode.Open?
    ensures st.Finish? && !st.success && g.running[st.k] == g.b.generation
    ensures g.b.mode.Closed? ==>
              && g.clock <= g.b.expiry
              && g.b.counts.failures + 1 >= 3 && 5 * (g.b.counts.failures + 1) >= 3 * g.b.counts.requests
    ensures forall now :: now <= g.clock + 30_000 ==> Admit(GuardedNext(g, st).b, now).OpenState?
    ensures forall now :: now > g.clock + 30_000 ==> Admit(GuardedNext(g, st).b, now).Admitted?
  {
    if Current(g.b, g.clock) != g.b {
      FreshGeneration(g, g.b.generation + 1);
    }
  }

  // ----- The breaker does act -----

  /** A failing query of the current interval trips a closed breaker exactly if it is at least the third failure and
      at least three fifths of the requests have failed; otherwise it is counted and nothing else changes. */
  lemma FailureTripsExactly(g: Guarded, k: nat)
    requires BreakerInv(g) && k < |g.running| && g.running[k] == g.b.generation
    requires g.b.mode.Closed? && g.clock <= g.b.expiry
    ensures var b, n := GuardedNext(g, Finish(k, false)).b, g.b.counts;
            && (b.mode.Open? <==> n.failures + 1 >= 3 && 5 * (n.failures + 1) >= 3 * n.requests)
            && (!b.mode.Open? ==> b == g.b.(counts := Counts(n.requests, n.successes, n.failures + 1, 0)))
  {
    assert multiset(g.running)[g.b.generation] >= 1 by {
      assert g.running[k] in g.running;
    }
  }

  /** A succeeding one is counted. */
  lemma SuccessCounts(g: Guarded, k: nat)
    requires k < |g.running| && g.running[k] == g.b.generation && g.b.mode.Closed? && g.clock <= g.b.expiry
    ensures var b, n := GuardedNext(g, Finish(k, true)).b, g.b.counts;
            b == g.b.(counts := Counts(n.requests, n.successes + 1, n.failures, n.consecutiveSuccesses + 1))
  {
  }

  /** A closed breaker runs every query and counts it; the counts start afresh when more than sixty seconds have
      passed since the interval began, and not before. */
  lemma ClosedAdmits(b: Breaker, began: int, now: int)
    requires b.mode.Closed? && b.expiry == began + 60_000
    ensures Admit(b, now).Admitted?
    ensures now <= began + 60_000 ==>
              && Admit(b, now).generation == b.generation
              && Before(b, now) == b.(counts := b.counts.(requests := b.counts.requests + 1))
    ensures now > began + 60_000 ==>
              Before(b, now) == Breaker(Closed, b.generation + 1, Counts(1, 0, 0, 0), now + 60_000)
  {
  }

  /** A half-open breaker runs one query at a time; that query closes it when it succeeds, with a new interval, and
      opens it for another thirty seconds when it fails. */
  lemma ProbeDecides(b: Breaker, now: int, later: int)
    requires b.mode.HalfOpen?
    ensures Admit(b, now).Admitted? <==> b.counts.requests == 0
    ensures b.counts.requests > 0 ==> Admit(b, now).TooManyRequests?
    ensures b.counts.consecutiveSuccesses == 0 ==>
              After(b, b.generation, later, true)
              == Breaker(Closed, b.generation + 1, Counts(0, 0, 0, 0), later + 60_000)
    ensures After(b, b.generation, later, false)
            == Breaker(Open, b.generation + 1, Counts(0, 0, 0, 0), later + 30_000)
  {
  }

  /** The pause of an open breaker ends with a half-open one that admits its probe. */
  lemma PauseEnds(b: Breaker, now: int)
    requires b.mode.Open? && now > b.expiry
    ensures Before(b, now) == Breaker(HalfOpen, b.generation + 1, Counts(1, 0, 0, 0), 0)
    ensures Admit(b, now) == Admitted(b.generation + 1)
  {
  }

  /** The outcome of a query whose interval is over does not count. */
  lemma LateOutcomeIgnored(b: Breaker, ticket: nat, now: int, success: bool)
    requires ticket != Current(b, now).generation
    ensures After(b, ticket, now, success) == Current(b, now)
  {
  }

  function Starts(sts: seq<BreakerStep>): nat {
    if sts == [] then 0 else Starts(sts[..|sts| - 1]) + if sts[|sts| - 1].Start? then 1 else 0
  }

  function Failures(sts: seq<BreakerStep>): nat {
    if sts == [] then 0
    else Failures(sts[..|sts| - 1]) + if sts[|sts| - 1].Finish? && !sts[|sts| - 1].success then 1 else 0
  }

  /** As long as the first interval lasts and the breaker has not tripped, its counts are those of the run. */
  ghost predicate CountsTrue(g: Guarded, sts: seq<BreakerStep>, u: Guarded) {
    && u.b.mode.Closed? && u.b.generation == g.b.generation && u.b.expiry == g.b.expiry
    && (forall k :: 0 <= k < |u.running| ==> u.running[k] == u.b.generation)
    && u.b.counts.requests == Starts(sts) && u.b.counts.failures == Failures(sts)
  }

  lemma CountsStayTrue(g: Guarded, sts: seq<BreakerStep>, u: Guarded, st: BreakerStep)
    requires CountsTrue(g, sts, u) && BreakerInv(u) && GuardedCan(u, st) && u.clock <= g.b.expiry
    ensures Starts(sts + [st]) == Starts(sts) + (if st.Start? then 1 else 0)
    ensures Failures(sts + [st]) == Failures(sts) + if st.Finish? && !st.success then 1 else 0
    ensures var v := GuardedNext(u, st);
            && v.b.generation >= u.b.generation
            && (v.b.generation == u.b.generation ==> CountsTrue(g, sts + [st], v))
  {
    assert (sts + [st])[..|sts|] == sts;
    if st.Finish? {
      if st.success { SuccessCounts(u, st.k); } else { FailureTripsExactly(u, st.k); }
    }
  }

  lemma GenerationsGrow(g: Guarded, st: BreakerStep)
    requires GuardedCan(g, st)
    ensures GuardedNext(g, st).b.generation >= g.b.generation && GuardedNext(g, st).clock >= g.clock
  {
  }

  ghost predicate FirstInterval(g: Guarded, sts: seq<BreakerStep>, u: Guarded) {
    u.b.generation >= g.b.generation && (u.b.generation == g.b.generation ==> CountsTrue(g, sts, u))
  }

  lemma FirstIntervalStep(g: Guarded, sts: seq<BreakerStep>, u: Guarded, st: BreakerStep)
    requires FirstInterval(g, sts, u) && BreakerInv(u) && GuardedCan(u, st) && u.clock <= g.b.expiry
    ensures FirstInterval(g, sts + [st], GuardedNext(u, st))
  {
    GenerationsGrow(u, st);
    if u.b.generation == g.b.generation {
      CountsStayTrue(g, sts, u, st);
    }
  }

  lemma {:induction false} FirstIntervalCounts(g: Guarded, sts: seq<BreakerStep>)
    requires GuardedInit(g) && GuardedRun(g, sts).Some? && GuardedRun(g, sts).value.clock <= g.b.expiry
    ensures FirstInterval(g, sts, GuardedRun(g, sts).value)
  {
    if sts != [] {
      var pre, st := sts[..|sts| - 1], sts[|sts| - 1];
      BreakerSafety(g, pre);
      GenerationsGrow(GuardedRun(g, pre).value, st);
      FirstIntervalCounts(g, pre);
      FirstIntervalStep(g, pre, GuardedRun(g, pre).value, st);
      assert sts == pre + [st];
    }
  }

  lemma OnlyOpeningEndsInterval(u: Guarded, st: BreakerStep)
    requires u.b.mode.Closed? && u.clock <= u.b.expiry && GuardedCan(u, st)
    requires GuardedNext(u, st).b.generation != u.b.generation
    ensures GuardedNext(u, st).b.mode.Open?
  {
  }

  lemma {:induction false} OpenedBefore(g: Guarded, sts: seq<BreakerStep>) returns (n: nat)
    requires GuardedInit(g) && GuardedRun(g, sts).Some? && GuardedRun(g, sts).value.clock <= g.b.expiry
    requires GuardedRun(g, sts).value.b.generation != g.b.generation
    ensures n <= |sts| && GuardedRun(g, sts[..n]).Some? && GuardedRun(g, sts[..n]).value.b.mode.Open?
  {
    var pre, st := sts[..|sts| - 1], sts[|sts| - 1];
    var u := GuardedRun(g, pre).value;
    GenerationsGrow(u, st);
    if u.b.generation != g.b.generation {
      n := OpenedBefore(g, pre);
      assert pre[..n] == sts[..n];
    } else {
      FirstIntervalCounts(g, pre);
      OnlyOpeningEndsInterval(u, st);
      n := |sts|;
      assert sts[..n] == sts;
    }
  }

  /** It trips: in every run within the first interval, however its queries overlap, if three failures and three
      fifths of the queries started have failed, the breaker was open after some of its steps. */
  lemma {:induction false} ThreeFailuresTrip(g: Guarded, sts: seq<BreakerStep>) returns (n: nat)
    requires GuardedInit(g) && GuardedRun(g, sts).Some? && GuardedRun(g, sts).value.clock <= g.clock + 60_000
    requires Failures(sts) >= 3 && 5 * Failures(sts) >= 3 * Starts(sts)
    ensures n <= |sts| && GuardedRun(g, sts[..n]).Some? && GuardedRun(g, sts[..n]).value.b.mode.Open?
  {
    FirstIntervalCounts(g, sts);
    BreakerSafety(g, sts);
    n := OpenedBefore(g, sts);
  }
}
