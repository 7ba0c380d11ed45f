/** The shared rate gate, the retry delays, and the cost tracker. */
module Llm {
  import opened Basics

  // ------------------------------------------------------------ rate gate

  /** slots[n] for the given arrivals: the first at its arrival, each later one no sooner than an interval on. */
  ghost function SlotsFor(arrivals: seq<int>, interval: int): (slots: seq<int>)
    ensures |slots| == |arrivals|
  {
    if arrivals == [] then []
    else
      var before := SlotsFor(Front(arrivals), interval);
      before + [if before == [] then Last(arrivals) else Max(Last(arrivals), Last(before) + interval)]
  }

  /** The slot allocator. Times are in whole clock units; lastSlot is none until the first claim. */
  class RateGate {
    const interval: int
    var lastSlot: Option<int>
    ghost var arrivals: seq<int>
    ghost var slots: seq<int>

    ghost predicate Valid()
      reads this
    {
      && interval > 0
      && slots == SlotsFor(arrivals, interval)
      && lastSlot == if slots == [] then None else Some(Last(slots))
    }

    constructor (interval: int)
      requires interval > 0
      ensures Valid() && this.interval == interval && arrivals == []
    {
      this.interval := interval;
      lastSlot, arrivals, slots := None, [], [];
    }

    /** Claims the next slot at clock reading now; the caller then waits for it. */
    method Throttle(now: int) returns (wait: int)
      requires Valid()
      modifies this
      ensures Valid() && arrivals == old(arrivals) + [now]
      ensures wait >= 0 && Last(slots) == now + wait
      ensures slots[..|old(slots)|] == old(slots)
    {
      wait := 0;
      if lastSlot.None? {
        lastSlot := Some(now);
      } else {
        var next := lastSlot.value + interval;
        if next > now {
          wait := next - now;
          lastSlot := Some(next);
        } else {
          lastSlot := Some(now);
        }
      }
      ghost var before := arrivals;
      arrivals := arrivals + [now];
      assert Front(arrivals) == before;
      slots := slots + [now + wait];
    }
  }

  /** An in-order schedule with the given spacing that serves nobody before they arrive. */
  ghost predicate Schedule(s: seq<int>, arrivals: seq<int>, interval: int) {
    && |s| == |arrivals|
    && (forall n :: 0 <= n < |s| ==> arrivals[n] <= s[n])
    && (forall n :: 0 < n < |s| ==> s[n - 1] + interval <= s[n])
  }

  lemma SlotsPrefix(arrivals: seq<int>, interval: int, n: nat)
    requires n <= |arrivals|
    ensures SlotsFor(arrivals[..n], interval) == SlotsFor(arrivals, interval)[..n]
    decreases |arrivals| - n
  {
    if n == |arrivals| {
      assert arrivals[..n] == arrivals;
    } else {
      SlotsPrefix(arrivals, interval, n + 1);
      assert Front(arrivals[..n + 1]) == arrivals[..n];
    }
  }

  /** The claimed slots form a schedule. */
  lemma {:induction false} SlotsAreSchedule(arrivals: seq<int>, interval: int)
    ensures Schedule(SlotsFor(arrivals, interval), arrivals, interval)
  {
    if arrivals != [] {
      SlotsAreSchedule(Front(arrivals), interval);
      var before, all := SlotsFor(Front(arrivals), interval), SlotsFor(arrivals, interval);
      assert forall n :: 0 <= n < |before| ==> all[n] == before[n] && Front(arrivals)[n] == arrivals[n];
    }
  }

  /** No schedule serves any request sooner: the gate's slots are the pointwise earliest ones. */
  lemma {:induction false} SlotsAreEarliest(arrivals: seq<int>, interval: int, other: seq<int>)
    requires Schedule(other, arrivals, interval)
    ensures forall n :: 0 <= n < |arrivals| ==> SlotsFor(arrivals, interval)[n] <= other[n]
  {
    if arrivals != [] {
      var f, o := Front(arrivals), Front(other);
      assert forall n :: 0 <= n < |f| ==> f[n] == arrivals[n] && o[n] == other[n];
      SlotsAreEarliest(f, interval, o);
      var before := SlotsFor(f, interval);
      if before != [] {
        assert before[|before| - 1] <= o[|before| - 1];
      }
    }
  }

  /** What request j forces on slot n. */
  function Demand(arrivals: seq<int>, interval: int, j: nat, n: nat): int
    requires j <= n < |arrivals|
  {
    arrivals[j] + (n - j) * interval
  }

  lemma DemandStep(arrivals: seq<int>, interval: int, j: nat, n: nat)
    requires j <= n && n + 1 < |arrivals|
    ensures Demand(arrivals, interval, j, n + 1) == Demand(arrivals, interval, j, n) + interval
  {
    assert (n + 1 - j) * interval == (n - j) * interval + interval;
  }

  /**
   * The closed form: slot n is the maximum over j <= n of arrival j plus n-j intervals.
   * It holds for arrivals in any order.
   */
  lemma {:induction false} SlotClosedForm(arrivals: seq<int>, interval: int, n: nat)
    requires n < |arrivals|
    ensures forall j :: 0 <= j <= n ==> Demand(arrivals, interval, j, n) <= SlotsFor(arrivals, interval)[n]
    ensures exists j :: 0 <= j <= n && SlotsFor(arrivals, interval)[n] == Demand(arrivals, interval, j, n)
    decreases n
  {
    var slots := SlotsFor(arrivals, interval);
    SlotsPrefix(arrivals, interval, n + 1);
    assert slots[n] == Last(SlotsFor(arrivals[..n + 1], interval));
    FrontOfPrefix(arrivals, n);
    SlotsPrefix(arrivals, interval, n);
    assert Demand(arrivals, interval, n, n) == arrivals[n];
    if n > 0 {
      SlotClosedForm(arrivals, interval, n - 1);
      assert slots[n] == Max(arrivals[n], slots[n - 1] + interval);
      forall j | 0 <= j < n
        ensures Demand(arrivals, interval, j, n) <= slots[n]
      {
        DemandStep(arrivals, interval, j, n - 1);
      }
      var j :| 0 <= j <= n - 1 && slots[n - 1] == Demand(arrivals, interval, j, n - 1);
      DemandStep(arrivals, interval, j, n - 1);
      if arrivals[n] >= slots[n - 1] + interval {
        assert slots[n] == Demand(arrivals, interval, n, n);
      } else {
        assert slots[n] == Demand(arrivals, interval, j, n);
      }
    }
  }

  /** Consecutive slots are spaced: n - m intervals lie between slots m and n. */
  lemma {:induction false} SpacedApart(s: seq<int>, arrivals: seq<int>, interval: int, m: nat, n: nat)
    requires Schedule(s, arrivals, interval) && m <= n < |s|
    ensures s[m] + (n - m) * interval <= s[n]
    decreases n - m
  {
    if m < n {
      SpacedApart(s, arrivals, interval, m, n - 1);
      assert (n - m) * interval == (n - 1 - m) * interval + interval;
    }
  }

  /** Any window [from, from + length] holds at most length / interval + 1 slots: here, slots m to n. */
  lemma WindowBound(arrivals: seq<int>, interval: int, m: nat, n: nat, from: int, length: nat)
    requires interval > 0 && m <= n < |arrivals|
    requires from <= SlotsFor(arrivals, interval)[m] && SlotsFor(arrivals, interval)[n] <= from + length
    ensures n - m + 1 <= length / interval + 1
  {
    var slots := SlotsFor(arrivals, interval);
    SlotsAreSchedule(arrivals, interval);
    SpacedApart(slots, arrivals, interval, m, n);
    assert (n - m) * interval <= length;
    DivBound(n - m, interval, length);
  }

  lemma DivBound(k: nat, d: int, x: nat)
    requires d > 0 && k * d <= x
    ensures k <= x / d
  {
    assert x == x / d * d + x % d;
    assert (k - x / d) * d < d;
    Below(k - x / d, d);
  }

  lemma Below(n: int, d: int)
    requires d > 0 && n * d < d
    ensures n <= 0
  {
  }

  // --------------------------------------------------------- retry delays

  /** A Go duration in nanoseconds. */
  newtype Duration = x: int | -0x8000_0000_0000_0000 <= x < 0x8000_0000_0000_0000

  const MAX_BACKOFF: int := 60_000_000_000

  /** Doubling as a 64-bit signed integer wraps. */
  function WrappedDouble(delay: Duration): int {
    var twice := delay as int * 2;
    if twice >= 0x8000_0000_0000_0000 then twice - 0x1_0000_0000_0000_0000
    else if twice < -0x8000_0000_0000_0000 then twice + 0x1_0000_0000_0000_0000
    else twice
  }

  function NextDelay(delay: Duration): int {
    var next := WrappedDouble(delay);
    if next > MAX_BACKOFF || next <= 0 then MAX_BACKOFF else next
  }

  /** For every positive 64-bit delay the next one is the double capped at a minute, wrap-around included. */
  lemma NextDelayCaps(delay: Duration)
    requires delay > 0
    ensures NextDelay(delay) == if 2 * delay as int < 60_000_000_000 then 2 * delay as int else 60_000_000_000
  {
  }

  function PowerOfTwo(k: nat): nat {
    if k == 0 then 1 else 2 * PowerOfTwo(k - 1)
  }

  /** The delay before the k-th retry: nextDelay applied k times. */
  function DelayAfter(start: Duration, k: nat): (d: Duration)
    requires start > 0
    ensures d > 0
  {
    if k == 0 then start else NextDelay(DelayAfter(start, k - 1)) as Duration
  }

  /** Capped at a minute, retries back off exponentially from the first delay, whatever it is. */
  lemma {:induction false} DelayClosedForm(start: Duration, k: nat)
    requires start > 0
    ensures Min(DelayAfter(start, k) as int, MAX_BACKOFF) == Min(start as int * PowerOfTwo(k), MAX_BACKOFF)
  {
    if k > 0 {
      DelayClosedForm(start, k - 1);
      NextDelayCaps(DelayAfter(start, k - 1));
      var before := start as int * PowerOfTwo(k - 1);
      assert start as int * PowerOfTwo(k) == 2 * before;
    }
  }

  /** One pause: the delay, or a longer wait the server asked for, never over a minute. */
  function Pause(delay: Duration, retryAfter: Option<Duration>): int {
    var pause := if retryAfter.Some? then Max(delay as int, Min(retryAfter.value as int, MAX_BACKOFF)) else delay as int;
    Min(pause, MAX_BACKOFF)
  }

  /** Every pause doubles the last one's base, waits at least as long as the server asked, and stays within a minute. */
  lemma PauseExact(start: Duration, k: nat, retryAfter: Option<Duration>)
    requires start > 0
    ensures var asked := if retryAfter.Some? then retryAfter.value as int else 0;
            Pause(DelayAfter(start, k), retryAfter) == Min(Max(start as int * PowerOfTwo(k), asked), MAX_BACKOFF)
  {
    DelayClosedForm(start, k);
  }

  // --------------------------------------------------------- cost tracker

  datatype Response = Response(text: string, model: string, inputTokens: int, outputTokens: int)

  datatype Prices = Prices(inMTok: real, outMTok: real)

  /** Usage so far. */
  datatype Usage = Usage(calls: nat, inputTokens: int, outputTokens: int)

  const NO_USAGE := Usage(0, 0, 0)

  function UsageAdd(u: Usage, r: Response): Usage {
    Usage(u.calls + 1, u.inputTokens + r.inputTokens, u.outputTokens + r.outputTokens)
  }

  function UsageAddAll(u: Usage, rs: seq<Response>): Usage {
    if rs == [] then u else UsageAdd(UsageAddAll(u, Front(rs)), Last(rs))
  }

  function TokenCost(p: Prices, inputTokens: int, outputTokens: int): real {
    inputTokens as real / 1000000.0 * p.inMTok + outputTokens as real / 1000000.0 * p.outMTok
  }

  function CostUSD(p: Prices, u: Usage): real {
    TokenCost(p, u.inputTokens, u.outputTokens)
  }

  predicate Priced(p: Prices) {
    p.inMTok > 0.0 || p.outMTok > 0.0
  }

  class CostTracker {
    const prices: Prices
    var calls: nat
    var inputTokens: int
    var outputTokens: int

    constructor (prices: Prices)
      ensures View() == NO_USAGE && this.prices == prices
    {
      this.prices := prices;
      calls, inputTokens, outputTokens := 0, 0, 0;
    }

    function View(): Usage
      reads this
    {
      Usage(calls, inputTokens, outputTokens)
    }

    method Add(r: Response)
      modifies this
      ensures View() == UsageAdd(old(View()), r)
      ensures calls == old(calls) + 1
      ensures inputTokens == old(inputTokens) + r.inputTokens && outputTokens == old(outputTokens) + r.outputTokens
    {
      calls := calls + 1;
      inputTokens := inputTokens + r.inputTokens;
      outputTokens := outputTokens + r.outputTokens;
    }
  }

  /** What the responses cost one by one. */
  function Spend(p: Prices, rs: seq<Response>): real {
    if rs == [] then 0.0 else Spend(p, Front(rs)) + TokenCost(p, Last(rs).inputTokens, Last(rs).outputTokens)
  }

  lemma TokenCostAdds(p: Prices, a: int, b: int, c: int, d: int)
    ensures TokenCost(p, a + c, b + d) == TokenCost(p, a, b) + TokenCost(p, c, d)
  {
    var x, y, u, v := a as real / 1000000.0, c as real / 1000000.0, b as real / 1000000.0, d as real / 1000000.0;
    assert (a + c) as real / 1000000.0 == x + y;
    assert (b + d) as real / 1000000.0 == u + v;
    Distributes(x, y, p.inMTok);
    Distributes(u, v, p.outMTok);
  }

  lemma Distributes(x: real, y: real, k: real)
    ensures (x + y) * k == x * k + y * k
  {
  }

  /** The tracker's total is the sum of what its responses cost. */
  lemma {:induction false} CostIsSpend(p: Prices, u: Usage, rs: seq<Response>)
    ensures CostUSD(p, UsageAddAll(u, rs)) == CostUSD(p, u) + Spend(p, rs)
  {
    if rs != [] {
      CostIsSpend(p, u, Front(rs));
      var m := UsageAddAll(u, Front(rs));
      TokenCostAdds(p, m.inputTokens, m.outputTokens, Last(rs).inputTokens, Last(rs).outputTokens);
    }
  }
}
