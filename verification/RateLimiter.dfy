/**
 * The worker's rate limiter (apps/worker/src/github-rate-limiter.ts). `acquire` runs in segments between its
 * awaits; the clock readings of a segment are parameters, and concurrent acquirers interleave by segments.
 */
module RateLimits {
  import opened Arithmetic

  datatype Limiter = Limiter(budget: int, refillMs: int, pauseFloor: int, tokens: int, refillAt: int, pauseUntil: int)

  datatype Outcome = Paused | Short | Granted

  /** `refillIfNeeded`: it reads the clock once for the test and, after it, once for the next refill. */
  function Refilled(l: Limiter, t1: int, t2: int): Limiter {
    if t1 >= l.refillAt then l.(tokens := l.budget, refillAt := t2 + l.refillMs) else l
  }

  /** The segment from a refill to the grant or to the next wait. */
  function Attempt(l: Limiter, cost: int, t1: int, t2: int): (Limiter, Outcome) {
    var r := Refilled(l, t1, t2);
    if r.tokens < cost then (r, Short) else (r.(tokens := r.tokens - cost), Granted)
  }

  /** The segment that starts an `acquire`, or resumes it after a pause. */
  function Enter(l: Limiter, cost: int, t0: int, t1: int, t2: int): (Limiter, Outcome) {
    if t0 < l.pauseUntil then (l, Paused) else Attempt(l, cost, t1, t2)
  }

  function Observed(l: Limiter, remaining: int, resetEpochSec: int): Limiter {
    l.(tokens := Min(l.tokens, remaining),
       pauseUntil := if remaining < l.pauseFloor then resetEpochSec * 1000 else l.pauseUntil)
  }

  class RateLimiter {
    const budget: int
    const refillMs: int
    const pauseFloor: int
    var tokens: int
    var refillAt: int
    var pauseUntil: int

    ghost function View(): Limiter
      reads this
    {
      Limiter(budget, refillMs, pauseFloor, tokens, refillAt, pauseUntil)
    }

    /** `floor` is 500 unless it is configured. */
    constructor (b: int, refill: int, floor: int, now: int)
      ensures View() == Limiter(b, refill, floor, b, now + refill, 0)
    {
      budget, refillMs, pauseFloor := b, refill, floor;
      tokens, refillAt, pauseUntil := b, now + refill, 0;
    }

    method RefillIfNeeded(t1: int, t2: int)
      modifies this
      ensures View() == Refilled(old(View()), t1, t2)
    {
      if t1 >= refillAt {
        tokens := budget;
        refillAt := t2 + refillMs;
      }
    }

    method EnterAcquire(cost: int, t0: int, t1: int, t2: int) returns (r: Outcome)
      modifies this
      ensures (View(), r) == Enter(old(View()), cost, t0, t1, t2)
    {
      if t0 < pauseUntil { return Paused; }
      r := RetryAcquire(cost, t1, t2);
    }

    method RetryAcquire(cost: int, t1: int, t2: int) returns (r: Outcome)
      modifies this
      ensures (View(), r) == Attempt(old(View()), cost, t1, t2)
    {
      RefillIfNeeded(t1, t2);
      if tokens < cost { return Short; }
      tokens := tokens - cost;
      r := Granted;
    }

    method Observe(remaining: int, resetEpochSec: int)
      modifies this
      ensures View() == Observed(old(View()), remaining, resetEpochSec)
    {
      tokens := Min(tokens, remaining);
      if remaining < pauseFloor { pauseUntil := resetEpochSec * 1000; }
    }
  }

  // ---- Runs of any number of acquirers ----

  /** A segment's clock readings in order, the last being the instant of the grant, or an observed response. */
  datatype Event =
    | Arrive(cost: nat, t0: int, t1: int, t2: int, at: int)
    | Retry(cost: nat, t1: int, t2: int, at: int)
    | Response(remaining: nat, resetEpochSec: int, at: int)

  /** The clock does not go back: `now` is the last reading before the event. */
  predicate Timely(e: Event, now: int) {
    match e
    case Arrive(_, t0, t1, t2, at) => now <= t0 <= t1 <= t2 <= at
    case Retry(_, t1, t2, at) => now <= t1 <= t2 <= at
    case Response(_, _, at) => now <= at
  }

  ghost predicate TimelyRun(es: seq<Event>, now: int) {
    es == [] || (Timely(es[0], now) && TimelyRun(es[1..], es[0].at))
  }

  function Step(l: Limiter, e: Event): (Limiter, Outcome) {
    match e
    case Arrive(cost, t0, t1, t2, _) => Enter(l, cost, t0, t1, t2)
    case Retry(cost, t1, t2, _) => Attempt(l, cost, t1, t2)
    case Response(remaining, reset, _) => (Observed(l, remaining, reset), Short)
  }

  ghost function After(l: Limiter, es: seq<Event>): Limiter
    decreases |es|
  {
    if es == [] then l else After(Step(l, es[0]).0, es[1..])
  }

  /** The cost one event is granted, if that is at an instant of `[from, until]`. */
  function Cost(l: Limiter, e: Event, from: int, until: int): nat {
    if Step(l, e).1.Granted? && from <= e.at <= until then (if e.Response? then 0 else e.cost) else 0
  }

  ghost function Total(l: Limiter, es: seq<Event>, from: int, until: int): nat
    decreases |es|
  {
    if es == [] then 0 else Cost(l, es[0], from, until) + Total(Step(l, es[0]).0, es[1..], from, until)
  }

  ghost predicate Valid(l: Limiter) {
    0 <= l.tokens <= l.budget && l.refillMs > 0
  }

  lemma ValidStep(l: Limiter, e: Event)
    requires Valid(l)
    ensures Valid(Step(l, e).0) && Step(l, e).0.budget == l.budget && Step(l, e).0.refillMs == l.refillMs
  {
  }

  /** The tokens stay within the budget, whoever acquires and whatever is observed. */
  lemma {:induction false} TokensStayInBudget(l: Limiter, es: seq<Event>)
    requires Valid(l)
    ensures Valid(After(l, es)) && After(l, es).budget == l.budget
    decreases |es|
  {
    if es != [] {
      ValidStep(l, es[0]);
      TokensStayInBudget(Step(l, es[0]).0, es[1..]);
    }
  }

  /** A request for more than the budget is never granted. */
  lemma OverBudgetIsNeverGranted(l: Limiter, es: seq<Event>, e: Event)
    requires Valid(l) && !e.Response? && e.cost > l.budget
    ensures !Step(After(l, es), e).1.Granted?
  {
    TokensStayInBudget(l, es);
    ValidStep(After(l, es), e);
  }

  // ---- What a response does ----

  /** When the pause that the run leaves in force ends: the reset of the last response below the floor. */
  ghost function PauseAfter(l: Limiter, es: seq<Event>): int {
    if es == [] then l.pauseUntil
    else
      var e := es[|es| - 1];
      if e.Response? && e.remaining < l.pauseFloor then e.resetEpochSec * 1000 else PauseAfter(l, es[..|es| - 1])
  }

  lemma {:induction false} AfterLast(l: Limiter, es: seq<Event>, e: Event)
    ensures After(l, es + [e]) == Step(After(l, es), e).0
    decreases |es|
  {
    hide Step;
    if es == [] {
      assert [] + [e] == [e] && [e][1..] == [];
    } else {
      assert (es + [e])[1..] == es[1..] + [e];
      AfterLast(Step(l, es[0]).0, es[1..], e);
    }
  }

  lemma {:induction false} PauseIsLastReset(l: Limiter, es: seq<Event>)
    ensures After(l, es).pauseUntil == PauseAfter(l, es) && After(l, es).pauseFloor == l.pauseFloor
  {
    if es != [] {
      var init, e := es[..|es| - 1], es[|es| - 1];
      PauseIsLastReset(l, init);
      AfterLast(l, init, e);
      assert init + [e] == es;
    }
  }

  /**
   An acquire that enters is paused exactly when its clock is before the reset of the last response below the floor;
   a paused one takes nothing, and what happens afterwards is as if it had not come.
   */
  lemma PausedExactly(l: Limiter, es: seq<Event>, cost: nat, t0: int, t1: int, t2: int, at: int)
    ensures var (z, r) := Step(After(l, es), Arrive(cost, t0, t1, t2, at));
            && (r.Paused? <==> t0 < PauseAfter(l, es))
            && (t0 < PauseAfter(l, es) ==> !r.Granted? && z == After(l, es))
  {
    PauseIsLastReset(l, es);
  }

  /** After a response below the floor nothing that enters before its reset is granted, until the next response. */
  lemma LowResponsePauses(l: Limiter, before: seq<Event>, low: Event, es: seq<Event>, e: Event)
    requires low.Response? && low.remaining < l.pauseFloor && forall i :: 0 <= i < |es| ==> !es[i].Response?
    requires e.Arrive? && e.t0 < low.resetEpochSec * 1000
    ensures Step(After(l, before + [low] + es), e).1.Paused?
  {
    PauseStays(l, before + [low], es);
    assert (before + [low])[..|before|] == before;
    PausedExactly(l, before + [low] + es, e.cost, e.t0, e.t1, e.t2, e.at);
  }

  lemma {:induction false} PauseStays(l: Limiter, before: seq<Event>, es: seq<Event>)
    requires forall i :: 0 <= i < |es| ==> !es[i].Response?
    ensures PauseAfter(l, before + es) == PauseAfter(l, before)
    decreases |es|
  {
    if es == [] {
      assert before + es == before;
    } else {
      assert (before + es)[..|before + es| - 1] == before + es[..|es| - 1];
      PauseStays(l, before, es[..|es| - 1]);
    }
  }

  /** No event of the run reads a clock that makes it refill. */
  ghost predicate NoRefill(l: Limiter, es: seq<Event>)
    decreases |es|
  {
    es == [] || ((es[0].Response? || es[0].t1 < l.refillAt) && NoRefill(Step(l, es[0]).0, es[1..]))
  }

  lemma {:induction false} GrantsComeFromTokens(l: Limiter, es: seq<Event>, from: int, until: int)
    requires Valid(l) && NoRefill(l, es)
    ensures Total(l, es, from, until) <= l.tokens
    decreases |es|
  {
    if es != [] {
      ValidStep(l, es[0]);
      GrantsComeFromTokens(Step(l, es[0]).0, es[1..], from, until);
    }
  }

  /** Until the next refill no more is granted than the service reported to be left. */
  lemma ReportedRemainingIsKept(l: Limiter, remaining: nat, reset: int, at: int, es: seq<Event>, from: int, until: int)
    requires Valid(l) && NoRefill(Step(l, Response(remaining, reset, at)).0, es)
    ensures Total(Step(l, Response(remaining, reset, at)).0, es, from, until) <= remaining
  {
    ValidStep(l, Response(remaining, reset, at));
    GrantsComeFromTokens(Step(l, Response(remaining, reset, at)).0, es, from, until);
  }

  /** A request within the budget is granted by its first try after the refill is due, whatever was taken before. */
  lemma RefillGrants(l: Limiter, es: seq<Event>, cost: nat, t1: int, t2: int, at: int)
    requires Valid(l) && cost <= l.budget && After(l, es).refillAt <= t1
    ensures var (z, r) := Step(After(l, es), Retry(cost, t1, t2, at));
            r.Granted? && z.tokens == l.budget - cost && z.refillAt == t2 + l.refillMs
  {
    TokensStayInBudget(l, es);
    RefillMsStays(l, es);
  }

  lemma {:induction false} RefillMsStays(l: Limiter, es: seq<Event>)
    ensures After(l, es).refillMs == l.refillMs
    decreases |es|
  {
    if es != [] { RefillMsStays(Step(l, es[0]).0, es[1..]); }
  }

  /** How many refills can happen at instants of `[from, until]`. */
  function Refills(from: int, until: int, refillMs: int): nat
    requires refillMs > 0
  {
    if until < from then 0 else (until - from) / refillMs + 1
  }

  lemma RefillsMonotone(a: int, b: int, until: int, refillMs: int)
    requires refillMs > 0 && a <= b
    ensures Refills(b, until, refillMs) <= Refills(a, until, refillMs)
  {
    if b <= until { QuotientMonotone(until - b, until - a, refillMs); }
  }

  lemma QuotientLess(a: int, r: int)
    requires r > 0
    ensures (a - r) / r == a / r - 1
  {
    assert r * (a / r) + a % r == a;
    QuotientUnique(a - r, r, a / r - 1, a % r);
  }

  /** A refill uses up one of those that the time left has room for. */
  lemma OneRefillLess(t: int, until: int, refillMs: int)
    requires refillMs > 0 && t <= until
    ensures Refills(t + refillMs, until, refillMs) + 1 <= Refills(t, until, refillMs)
  {
    if t + refillMs <= until { QuotientLess(until - t, refillMs); }
  }

  /** What can still be granted up to `until`: the tokens in hand, and a budget for each refill there is room for. */
  function Reserve(l: Limiter, now: int, until: int): int
    requires l.refillMs > 0
  {
    if now > until then 0 else l.tokens + l.budget * Refills(Max(l.refillAt, now), until, l.refillMs)
  }

  lemma ReserveLater(l: Limiter, tokens: int, now: int, at: int, until: int)
    requires Valid(l) && 0 <= tokens <= l.tokens && now <= at
    ensures Reserve(l.(tokens := tokens), at, until) + (if at <= until then l.tokens - tokens else 0)
            <= Reserve(l, now, until)
  {
    if at <= until {
      RefillsMonotone(Max(l.refillAt, now), Max(l.refillAt, at), until, l.refillMs);
      TimesMonotone(l.budget, Refills(Max(l.refillAt, at), until, l.refillMs),
          Refills(Max(l.refillAt, now), until, l.refillMs));
    } else if now <= until {
      TimesMonotone(l.budget, 0, Refills(Max(l.refillAt, now), until, l.refillMs));
    }
  }

  lemma ReserveRefill(l: Limiter, now: int, t1: int, t2: int, until: int)
    requires Valid(l) && now <= t1 <= t2 && t1 >= l.refillAt
    ensures Reserve(Refilled(l, t1, t2), t2, until) <= Reserve(l, now, until)
  {
    if t2 <= until {
      var first := Max(l.refillAt, now);
      assert Max(t2 + l.refillMs, t2) == t2 + l.refillMs;
      OneRefillLess(t2, until, l.refillMs);
      RefillsMonotone(first, t2, until, l.refillMs);
      var m, n := Refills(t2 + l.refillMs, until, l.refillMs), Refills(first, until, l.refillMs);
      TimesMonotone(l.budget, m + 1, n);
      assert l.budget * (m + 1) == l.budget * m + l.budget;
    } else if now <= until {
      TimesMonotone(l.budget, 0, Refills(Max(l.refillAt, now), until, l.refillMs));
    }
  }

  /** One event takes what it grants out of the reserve. */
  lemma ReserveStep(l: Limiter, e: Event, now: int, from: int, until: int)
    requires Valid(l) && Timely(e, now)
    ensures Valid(Step(l, e).0)
    ensures Cost(l, e, from, until) + Reserve(Step(l, e).0, e.at, until) <= Reserve(l, now, until)
  {
    ValidStep(l, e);
    hide Reserve, Refills;
    if e.Response? {
      ReserveLater(l, Min(l.tokens, e.remaining), now, e.at, until);
      ReserveIgnoresPause(l.(tokens := Min(l.tokens, e.remaining)), Step(l, e).0, e.at, until);
    } else if Step(l, e).1.Paused? {
      ReserveLater(l, l.tokens, now, e.at, until);
    } else {
      var r := Refilled(l, e.t1, e.t2);
      if e.t1 >= l.refillAt {
        ReserveRefill(l, now, e.t1, e.t2, until);
      } else {
        ReserveLater(l, l.tokens, now, e.t2, until);
      }
      ReserveLater(r, Step(l, e).0.tokens, e.t2, e.at, until);
    }
  }

  lemma ReserveIgnoresPause(l: Limiter, k: Limiter, now: int, until: int)
    requires Valid(l) && k == l.(pauseUntil := k.pauseUntil)
    ensures Reserve(k, now, until) == Reserve(l, now, until)
  {
  }

  lemma {:induction false} ReserveBoundsRun(l: Limiter, es: seq<Event>, now: int, from: int, until: int)
    requires Valid(l) && TimelyRun(es, now)
    ensures Total(l, es, from, until) <= Reserve(l, now, until)
    decreases |es|
  {
    if es == [] {
      if now <= until { TimesMonotone(l.budget, 0, Refills(Max(l.refillAt, now), until, l.refillMs)); }
    } else {
      hide Reserve, Cost, Step;
      ReserveStep(l, es[0], now, from, until);
      ReserveBoundsRun(Step(l, es[0]).0, es[1..], es[0].at, from, until);
    }
  }

  /**
   * Whoever acquires and whatever is observed, the total granted in a span `[from, from + length]` is at most
   * `budget * (length / refillMs + 2)`.
   */
  lemma {:induction false} WindowBound(l: Limiter, es: seq<Event>, now: int, from: int, length: nat)
    requires Valid(l) && TimelyRun(es, now)
    ensures Total(l, es, from, from + length) <= l.budget * (length / l.refillMs + 2)
    decreases |es|
  {
    var until := from + length;
    if from <= now {
      ReserveBoundsRun(l, es, now, from, until);
      FullReserve(l, now, from, length);
    } else if es == [] {
      TimesMonotone(l.budget, 0, length / l.refillMs + 2);
    } else {
      ValidStep(l, es[0]);
      var k := Step(l, es[0]).0;
      if es[0].at < from {
        WindowBound(k, es[1..], es[0].at, from, length);
      } else {
        ReserveBoundsRun(k, es[1..], es[0].at, from, until);
        FirstInWindow(l, es[0], now, from, length);
      }
    }
  }

  lemma FullReserve(l: Limiter, now: int, from: int, length: nat)
    requires Valid(l) && from <= now
    ensures Reserve(l, now, from + length) <= l.tokens + l.budget * (length / l.refillMs + 1)
    ensures l.tokens + l.budget * (length / l.refillMs + 1) <= l.budget * (length / l.refillMs + 2)
  {
    var q := length / l.refillMs;
    RefillsMonotone(from, Max(l.refillAt, now), from + length, l.refillMs);
    TimesMonotone(l.budget, Refills(Max(l.refillAt, now), from + length, l.refillMs), q + 1);
    TimesMonotone(l.budget, 0, q + 1);
    assert l.budget * (q + 2) == l.budget * (q + 1) + l.budget;
  }

  /** The first event that ends in the span may still have refilled before it. */
  lemma FirstInWindow(l: Limiter, e: Event, now: int, from: int, length: nat)
    requires Valid(l) && Timely(e, now) && from <= e.at
    ensures Cost(l, e, from, from + length) + Reserve(Step(l, e).0, e.at, from + length)
            <= l.budget * (length / l.refillMs + 2)
  {
    ValidStep(l, e);
    var k := Step(l, e).0;
    FullReserve(k, e.at, from, length);
    FullReserve(k.(tokens := k.budget), e.at, from, length);
    hide Reserve;
    assert Cost(l, e, from, from + length) + k.tokens <= l.budget;
    assert l.budget * (length / l.refillMs + 2) == l.budget * (length / l.refillMs + 1) + l.budget;
  }

  // ---- The bound is reached ----

  /** An acquire that begins and is granted at one instant. */
  function Due(b: nat, at: int): Event {
    Arrive(b, at, at, at, at)
  }

  /** Every budget is taken the moment it is there; the first grant lands just as the first refill falls due. */
  function Burst(b: nat, r: int, k: nat): seq<Event> {
    if k == 0 then [Arrive(b, r - 1, r - 1, r - 1, r), Due(b, r)]
    else Burst(b, r, k - 1) + [Due(b, (k + 1) * r)]
  }

  lemma {:induction false} TotalAppend(l: Limiter, es: seq<Event>, e: Event, from: int, until: int)
    ensures Total(l, es + [e], from, until) == Total(l, es, from, until) + Cost(After(l, es), e, from, until)
    ensures After(l, es + [e]) == Step(After(l, es), e).0
    decreases |es|
  {
    if es == [] {
      assert es + [e] == [e];
    } else {
      hide Step, Cost;
      assert (es + [e])[1..] == es[1..] + [e];
      TotalAppend(Step(l, es[0]).0, es[1..], e, from, until);
    }
  }

  lemma {:induction false} TimelyAppend(es: seq<Event>, e: Event, now: int)
    requires TimelyRun(es, now) && Timely(e, if es == [] then now else es[|es| - 1].at)
    ensures TimelyRun(es + [e], now)
  {
    if es == [] {
      assert es + [e] == [e];
    } else {
      assert (es + [e])[1..] == es[1..] + [e];
      TimelyAppend(es[1..], e, es[0].at);
    }
  }

  /** For every budget and every number of refills in the span, some run is granted exactly the bound. */
  lemma {:induction false} BoundIsReached(b: nat, r: int, floor: int, k: nat, until: int)
    requires r > 0 && until >= (k + 1) * r
    ensures var l := Limiter(b, r, floor, b, r, 0);
            && TimelyRun(Burst(b, r, k), 0)
            && Burst(b, r, k)[|Burst(b, r, k)| - 1].at == (k + 1) * r
            && After(l, Burst(b, r, k)) == l.(tokens := 0, refillAt := (k + 2) * r)
            && Total(l, Burst(b, r, k), r, until) == b * (k + 2)
  {
    var l := Limiter(b, r, floor, b, r, 0);
    if k == 0 {
      var e, f := Arrive(b, r - 1, r - 1, r - 1, r), Due(b, r);
      assert Burst(b, r, 0) == [e] + [f];
      TotalAppend(l, [e], f, r, until);
      TotalAppend(l, [], e, r, until);
      assert [] + [e] == [e];
      TimelyAppend([], e, 0);
      TimelyAppend([e], f, 0);
    } else {
      assert (k + 1) * r == k * r + r && (k + 2) * r == (k + 1) * r + r;
      BoundIsReached(b, r, floor, k - 1, until);
      var e := Due(b, (k + 1) * r);
      TotalAppend(l, Burst(b, r, k - 1), e, r, until);
      TimelyAppend(Burst(b, r, k - 1), e, 0);
      assert b * (k + 2) == b * (k + 1) + b;
      assert (k + 1) * r >= r by { TimesMonotone(r, 1, k + 1); }
    }
  }
}
