/** The reporting scheduler and the wall clock: nanoseconds, ticks and sample indices. */
module Timing {
  import opened Bytes
  import opened Frames

  const NANOS := 1_000_000_000

  // ----- arithmetic ------------------------------------------------------------------------

  lemma DivLower(n: nat, d: nat, q: nat)
    requires d > 0
    ensures q * d <= n <==> q <= n / d
  {
    var p := n / d;
    assert n == d * p + n % d;
    MulMonotone(q, p, d);
    MulMonotone(p + 1, q, d);
    assert (p + 1) * d == p * d + d;
  }

  lemma MulMonotone(a: nat, b: nat, d: nat)
    ensures a <= b ==> a * d <= b * d
  {
  }

  lemma ModOfSum(a: nat, k: nat, d: nat)
    requires d > 0
    ensures (k * d + a) % d == a % d && (k * d + a) / d == k + a / d
  {
    var q := a / d;
    assert a == d * q + a % d;
    var n := k * d + a;
    assert n == (k + q) * d + a % d;
    var p := n / d;
    DivLower(n, d, k + q);
    DivLower(n, d, k + q + 1);
    assert (k + q + 1) * d == (k + q) * d + d;
    assert p == k + q;
    assert n == d * p + n % d;
  }

  // ----- scheduler -------------------------------------------------------------------------

  /** Nanosecond offset of a sample from the start, rounded down. */
  function SampleOffset(index: nat, rate: nat): nat
    requires rate > 0
  {
    var n := index * NANOS / rate;
    if n <= U64_MAX then n else U64_MAX
  }

  datatype Scheduler = Scheduler(started: nat, rate: nat, next: nat)

  function Elapsed(s: Scheduler, now: nat): nat {
    if now >= s.started then now - s.started else 0
  }

  function Timeout(s: Scheduler, now: nat): nat
    requires s.rate > 0
  {
    var due := s.started + SampleOffset(s.next, s.rate);
    if due >= now then due - now else 0
  }

  /** The index of the sample that is due at `now`. */
  function CurrentIndex(s: Scheduler, now: nat): nat {
    var n := Elapsed(s, now) * s.rate / NANOS;
    if n <= U64_MAX then n else U64_MAX
  }

  datatype Taken = Taken(scheduler: Scheduler, skipped: nat, due: Option<nat>)

  function TakeDue(s: Scheduler, skipped: nat, now: nat): Taken {
    var current := CurrentIndex(s, now);
    if current < s.next then Taken(s, skipped, None)
    else
      var next := if current < U64_MAX then current + 1 else U64_MAX;
      Taken(s.(next := next), skipped + (current - s.next), Some(current))
  }

  /**
    * The sample handed out is the one whose interval the clock stands in: a backlog is skipped and
    * counted, never worked through. Something is handed out exactly once the next index is reached,
    * and afterwards nothing more at the same instant.
    */
  lemma TakenIsCurrent(s: Scheduler, skipped: nat, now: nat)
    ensures var elapsed := if now >= s.started then now - s.started else 0;
            var r := TakeDue(s, skipped, now);
            && (s.next <= U64_MAX ==> (r.due.Some? <==> s.next * NANOS <= elapsed * s.rate))
            && (r.due.None? ==> r.scheduler == s && r.skipped == skipped)
            && (r.due.Some? && elapsed * s.rate < U64_MAX * NANOS ==>
                  var k := r.due.value;
                  && k * NANOS <= elapsed * s.rate < (k + 1) * NANOS
                  && r.scheduler == s.(next := k + 1) && r.skipped == skipped + (k - s.next)
                  && TakeDue(r.scheduler, r.skipped, now) == Taken(r.scheduler, r.skipped, None))
  {
    var elapsed := if now >= s.started then now - s.started else 0;
    var n := elapsed * s.rate;
    DivLower(n, NANOS, s.next);
    DivLower(n, NANOS, n / NANOS);
    DivLower(n, NANOS, n / NANOS + 1);
    DivLower(n, NANOS, U64_MAX);
  }

  /** The scheduler's field is the only thing a call changes. */
  class SchedulerCell {
    const started: nat
    const rate: nat
    var next: nat

    ghost function State(): Scheduler
      reads this
    {
      Scheduler(started, rate, next)
    }

    constructor (rate: nat, started: nat)
      ensures State() == Scheduler(started, rate, 0)
    {
      this.started := started;
      this.rate := rate;
      next := 0;
    }

    method Take(now: nat, skipped: nat) returns (due: Option<nat>, skipped': nat)
      modifies this
      ensures Taken(State(), skipped', due) == TakeDue(old(State()), skipped, now)
      ensures var elapsed := if now >= started then now - started else 0;
              due.Some? && elapsed * rate < U64_MAX * NANOS ==>
                && due.value * NANOS <= elapsed * rate < (due.value + 1) * NANOS
                && next == due.value + 1 && skipped' == skipped + (due.value - old(next))
    {
      TakenIsCurrent(State(), skipped, now);
      var elapsed := if now >= started then now - started else 0;
      var current := elapsed * rate / NANOS;
      if current > U64_MAX {
        current := U64_MAX;
      }
      if current < next {
        return None, skipped;
      }
      skipped' := skipped + (current - next);
      next := if current < U64_MAX then current + 1 else U64_MAX;
      due := Some(current);
    }
  }

  /** The loop's history: the samples emitted so far. */
  datatype Ticking = Ticking(scheduler: Scheduler, skipped: nat, emitted: seq<nat>)

  function Tick(t: Ticking, now: nat): Ticking {
    var r := TakeDue(t.scheduler, t.skipped, now);
    Ticking(r.scheduler, r.skipped, if r.due.Some? then t.emitted + [r.due.value] else t.emitted)
  }

  /** The run loop polls the scheduler at arbitrary instants, in any order. */
  function Ticks(t: Ticking, instants: seq<nat>): Ticking
    decreases |instants|
  {
    if instants == [] then t else Ticks(Tick(t, instants[0]), instants[1..])
  }

  predicate StrictlyIncreasing(s: seq<nat>) {
    forall i, j :: 0 <= i < j < |s| ==> s[i] < s[j]
  }

  predicate Conserved(t: Ticking) {
    && |t.emitted| + t.skipped == t.scheduler.next
    && StrictlyIncreasing(t.emitted)
    && forall i :: 0 <= i < |t.emitted| ==> t.emitted[i] < t.scheduler.next
  }

  /**
    * Conservation: below saturation, emitted samples plus skipped ticks are the next index, and
    * the emitted indices strictly increase. Clock readings need not be monotonic.
    */
  lemma {:induction false} SamplesConserved(t: Ticking, instants: seq<nat>)
    requires Conserved(t)
    requires forall now :: now in instants ==> CurrentIndex(t.scheduler, now) < U64_MAX
    ensures Conserved(Ticks(t, instants))
    decreases |instants|
  {
    if instants != [] {
      assert instants[0] in instants;
      var u := Tick(t, instants[0]);
      forall now | now in instants[1..]
        ensures CurrentIndex(u.scheduler, now) < U64_MAX
      {
        assert now in instants;
      }
      SamplesConserved(u, instants[1..]);
    }
  }

  /** Once the last index has been emitted it stays emitted, and the next index never exceeds it. */
  lemma {:induction false} SaturationStays(t: Ticking, instants: seq<nat>)
    requires t.scheduler.next <= U64_MAX
    ensures Ticks(t, instants).scheduler.next <= U64_MAX
    ensures U64_MAX in t.emitted ==> U64_MAX in Ticks(t, instants).emitted
    ensures (exists now :: now in instants && CurrentIndex(t.scheduler, now) == U64_MAX) ==>
              U64_MAX in Ticks(t, instants).emitted
    decreases |instants|
  {
    if instants != [] {
      var u := Tick(t, instants[0]);
      SaturationStays(u, instants[1..]);
      if now :| now in instants && CurrentIndex(t.scheduler, now) == U64_MAX {
        if now != instants[0] {
          assert now in instants[1..] && CurrentIndex(u.scheduler, now) == U64_MAX;
        } else {
          assert u.emitted == t.emitted + [U64_MAX];
        }
      }
    }
  }

  /** The exact condition: the balance is kept if and only if no poll sees the last index. */
  lemma ConservedExactly(t: Ticking, instants: seq<nat>)
    requires Conserved(t) && t.scheduler.next <= U64_MAX
    ensures Conserved(Ticks(t, instants))
       <==> forall now :: now in instants ==> CurrentIndex(t.scheduler, now) < U64_MAX
  {
    if forall now :: now in instants ==> CurrentIndex(t.scheduler, now) < U64_MAX {
      SamplesConserved(t, instants);
    } else {
      SaturationStays(t, instants);
      var last := Ticks(t, instants);
      assert U64_MAX in last.emitted;
      assert exists i :: 0 <= i < |last.emitted| && last.emitted[i] == U64_MAX;
    }
  }

  /** At saturation the balance is lost: every further poll emits the last index once more, without end. */
  lemma {:induction false} SaturatedSchedulerRepeats(t: Ticking, instants: seq<nat>)
    requires t.scheduler.next == U64_MAX
    requires forall now :: now in instants ==> CurrentIndex(t.scheduler, now) == U64_MAX
    ensures Ticks(t, instants) == t.(emitted := t.emitted + seq(|instants|, _ => U64_MAX))
    decreases |instants|
  {
    if instants == [] {
      assert t.emitted + seq(0, _ => U64_MAX) == t.emitted;
    } else {
      var u := Tick(t, instants[0]);
      assert instants[0] in instants && u == t.(emitted := t.emitted + [U64_MAX]);
      forall now | now in instants[1..]
        ensures CurrentIndex(u.scheduler, now) == U64_MAX
      {
        assert now in instants;
      }
      SaturatedSchedulerRepeats(u, instants[1..]);
      assert t.emitted + [U64_MAX] + seq(|instants| - 1, _ => U64_MAX) == t.emitted + seq(|instants|, _ => U64_MAX);
    }
  }

  predicate IsDue(s: Scheduler, now: nat) {
    TakeDue(s, 0, now).due.Some?
  }

  /** Due means the exact product has been reached; waking means its rounded-down quotient has. */
  lemma DueIffReached(s: Scheduler, now: nat)
    requires s.rate > 0 && now >= s.started && s.next <= U64_MAX && s.next * NANOS / s.rate <= U64_MAX
    ensures IsDue(s, now) <==> s.next * NANOS <= (now - s.started) * s.rate
    ensures Timeout(s, now) == 0 <==> s.next * NANOS / s.rate <= now - s.started
  {
    DivLower((now - s.started) * s.rate, NANOS, s.next);
  }

  /**
    * The loop wakes exactly when a sample is due, except at one instant: the rounded-down offset
    * of a sample whose offset is not a whole number of nanoseconds. There it wakes too early.
    */
  lemma WakesExactlyWhenDue(s: Scheduler, now: nat)
    requires s.rate > 0 && now >= s.started && s.next <= U64_MAX && s.next * NANOS / s.rate <= U64_MAX
    ensures (Timeout(s, now) == 0 <==> IsDue(s, now))
       <==> (s.next * NANOS % s.rate == 0 || now - s.started != s.next * NANOS / s.rate)
  {
    hide Timeout, IsDue;
    DueIffReached(s, now);
    QuotientReached(s.next * NANOS, s.rate, now - s.started);
  }

  /** Reaching the rounded-down quotient falls short of the product only at the quotient itself. */
  lemma QuotientReached(p: nat, d: nat, e: nat)
    requires d > 0
    ensures (p / d <= e <==> p <= e * d) <==> (p % d == 0 || e != p / d)
  {
    var q := p / d;
    assert p == d * q + p % d;
    assert (q + 1) * d == q * d + d;
    MulMonotone(q + 1, e, d);
    assert (e + 1) * d == e * d + d;
    MulMonotone(e + 1, q, d);
  }

  /** For a rate that divides a second the exception never arises. */
  lemma WholeRateWakesExactly(s: Scheduler, now: nat)
    requires s.rate > 0 && now >= s.started && s.next <= U64_MAX && s.next * NANOS / s.rate <= U64_MAX
    requires NANOS % s.rate == 0
    ensures Timeout(s, now) == 0 <==> IsDue(s, now)
  {
    var k := NANOS / s.rate;
    assert NANOS == k * s.rate;
    assert s.next * NANOS == (s.next * k) * s.rate + 0 by {
      assert s.next * (k * s.rate) == (s.next * k) * s.rate;
    }
    ModOfSum(0, s.next * k, s.rate);
    WakesExactlyWhenDue(s, now);
  }

  /**
    * Waiting the timeout ends at the due instant rounded down to a nanosecond, and every shorter
    * wait ends before the sample is due.
    */
  lemma WaitEndsWhenDue(s: Scheduler, now: nat, early: nat)
    requires s.rate > 0 && now >= s.started && s.next * NANOS / s.rate <= U64_MAX
    requires early < Timeout(s, now)
    ensures var wait := now + Timeout(s, now) - s.started;
            wait * s.rate <= s.next * NANOS < (wait + 1) * s.rate
    ensures (now + early - s.started) * s.rate < s.next * NANOS
  {
    var n := s.next * NANOS;
    var wait := now + Timeout(s, now) - s.started;
    assert wait == n / s.rate;
    assert n == s.rate * wait + n % s.rate;
    assert (wait + 1) * s.rate == wait * s.rate + s.rate;
    MulMonotone(now + early - s.started + 1, wait, s.rate);
    assert (now + early - s.started + 1) * s.rate == (now + early - s.started) * s.rate + s.rate;
  }

  /** The exception is real: sixty samples a second wake one nanosecond before sample one is due. */
  lemma SixtyHertzWakesEarly()
    ensures var s := Scheduler(0, 60, 1); Timeout(s, 16_666_666) == 0 && !IsDue(s, 16_666_666)
  {
    var s := Scheduler(0, 60, 1);
    assert 1 * NANOS / 60 == 16_666_666;
    assert 16_666_666 * 60 / NANOS == 0;
  }

  // ----- wall clock ------------------------------------------------------------------------

  /** The validated time base and rate: a 24-bit time base that the rate divides. */
  predicate ValidRate(rate: nat, timeBase: nat) {
    0 < rate && 0 < timeBase < 0x100_0000 && timeBase % rate == 0
  }

  function TicksPerFrame(rate: nat, timeBase: nat): (t: nat)
    requires ValidRate(rate, timeBase)
    ensures t > 0 && t * rate == timeBase
  {
    timeBase / rate
  }

  function ToTicks(ts: Timestamp, timeBase: nat): nat {
    ts.soc * timeBase + ts.fracsec
  }

  /** Whole ticks elapsed at a wall time in nanoseconds, as computed from seconds and nanoseconds. */
  function NowTicks(now: nat, timeBase: nat): nat {
    now / NANOS * timeBase + now % NANOS * timeBase / NANOS
  }

  /** The first multiple of `step` above `ticks`. */
  function NextMultiple(ticks: nat, step: nat): (n: nat)
    requires step > 0
    ensures n > ticks && n >= step && n - step <= ticks && n % step == 0
  {
    var q := ticks / step;
    assert ticks == step * q + ticks % step;
    assert (q + 1) * step == q * step + step;
    ModOfSum(0, q + 1, step);
    (q + 1) * step
  }

  /** `aligned_timestamp`; no product saturates while the seconds fit the SOC field. */
  function AlignedTimestamp(now: nat, rate: nat, timeBase: nat): Result<Timestamp, ()>
    requires ValidRate(rate, timeBase)
  {
    hide NowTicks, NextMultiple;
    var next := NextMultiple(NowTicks(now, timeBase), TicksPerFrame(rate, timeBase));
    if next / timeBase > U32_MAX then Err(()) else Ok(Timestamp(next / timeBase, next % timeBase))
  }

  function CeilDiv(n: nat, d: nat): (c: nat)
    requires d > 0
    ensures n <= c * d < n + d
  {
    var m := n + (d - 1);
    assert m == d * (m / d) + m % d;
    m / d
  }

  /** `delay_until_timestamp`: the target rounded up to a nanosecond. */
  function DelayUntil(now: nat, ts: Timestamp, timeBase: nat): nat
    requires timeBase > 0
  {
    var target := CeilDiv(ToTicks(ts, timeBase) * NANOS, timeBase);
    if target >= now then target - now else 0
  }

  /** Splitting off the seconds does not lose a tick. */
  lemma NowTicksExact(now: nat, timeBase: nat)
    ensures NowTicks(now, timeBase) == now * timeBase / NANOS
  {
    var s, r := now / NANOS, now % NANOS;
    assert now * timeBase == (s * timeBase) * NANOS + r * timeBase by {
      assert now == s * NANOS + r;
      assert (s * NANOS + r) * timeBase == s * NANOS * timeBase + r * timeBase;
      assert s * NANOS * timeBase == (s * timeBase) * NANOS;
    }
    ModOfSum(r * timeBase, s * timeBase, NANOS);
  }

  /**
    * The first timestamp is the least frame-aligned tick strictly after now, and its fraction
    * lies on the frame grid of its second.
    */
  lemma FirstTimestampIsLeast(now: nat, rate: nat, timeBase: nat)
    requires ValidRate(rate, timeBase) && AlignedTimestamp(now, rate, timeBase).Ok?
    ensures var step := TicksPerFrame(rate, timeBase);
            var ts := AlignedTimestamp(now, rate, timeBase).value;
            var t := ToTicks(ts, timeBase);
            && ts.soc <= U32_MAX && ts.fracsec < timeBase && ts.fracsec % step == 0
            && t % step == 0 && t >= step
            && t * NANOS > now * timeBase && (t - step) * NANOS <= now * timeBase
  {
    hide NowTicks, NextMultiple, TicksPerFrame;
    var step := TicksPerFrame(rate, timeBase);
    var ticks := NowTicks(now, timeBase);
    var next := NextMultiple(ticks, step);
    assert ToTicks(Timestamp(next / timeBase, next % timeBase), timeBase) == next;
    FractionOnGrid(next, rate, timeBase);
    NowTicksExact(now, timeBase);
    TickIsAfter(now * timeBase, ticks, next, step);
  }

  /** There is a first timestamp exactly until the last frame-aligned tick of the SOC range. */
  lemma FirstTimestampExists(now: nat, rate: nat, timeBase: nat)
    requires ValidRate(rate, timeBase)
    ensures AlignedTimestamp(now, rate, timeBase).Ok?
       <==> now * timeBase < ((U32_MAX + 1) * timeBase - TicksPerFrame(rate, timeBase)) * NANOS
  {
    hide NowTicks, NextMultiple, TicksPerFrame;
    var step := TicksPerFrame(rate, timeBase);
    var ticks := NowTicks(now, timeBase);
    var next := NextMultiple(ticks, step);
    var end := (U32_MAX + 1) * timeBase;
    NowTicksExact(now, timeBase);
    DivLower(next, timeBase, U32_MAX + 1);
    assert end == ((U32_MAX + 1) * rate) * step by {
      assert timeBase == step * rate;
    }
    MultiplesApart(next, end, step, (U32_MAX + 1) * rate);
    assert next < end <==> ticks < end - step;
    DivLower(now * timeBase, NANOS, end - step);
  }

  /** Different multiples of a step lie at least a step apart. */
  lemma MultiplesApart(a: nat, b: nat, step: nat, k: nat)
    requires step > 0 && a % step == 0 && b == k * step
    ensures a < b ==> a + step <= b
  {
    var j := a / step;
    assert a == step * j + a % step;
    MulMonotone(k, j, step);
    MulMonotone(j + 1, k, step);
    assert (j + 1) * step == j * step + step;
  }

  lemma TickIsAfter(product: nat, ticks: nat, next: nat, step: nat)
    requires ticks == product / NANOS && next > ticks && step <= next && next - step <= ticks
    ensures next * NANOS > product && (next - step) * NANOS <= product
  {
  }

  /** A multiple of the frame step leaves a multiple of it as the fraction of its second. */
  lemma FractionOnGrid(ticks: nat, rate: nat, timeBase: nat)
    requires ValidRate(rate, timeBase) && ticks % TicksPerFrame(rate, timeBase) == 0
    ensures ticks % timeBase % TicksPerFrame(rate, timeBase) == 0
  {
    var step := TicksPerFrame(rate, timeBase);
    var s, f := ticks / timeBase, ticks % timeBase;
    assert ticks == (s * rate) * step + f by {
      assert ticks == timeBase * s + f;
      assert timeBase * s == (s * rate) * step;
    }
    ModOfSum(f, s * rate, step);
  }

  /**
    * Waiting the computed delay reaches exactly the target tick, despite rounding the tick up to
    * a nanosecond and the clock down to a tick; any earlier instant still shows an earlier tick.
    */
  lemma DelayReachesTick(now: nat, ts: Timestamp, timeBase: nat, early: nat)
    requires 0 < timeBase <= NANOS && ToTicks(ts, timeBase) * NANOS > now * timeBase
    requires early < DelayUntil(now, ts, timeBase)
    ensures NowTicks(now + DelayUntil(now, ts, timeBase), timeBase) == ToTicks(ts, timeBase)
    ensures NowTicks(now + early, timeBase) < ToTicks(ts, timeBase)
  {
    hide NowTicks, CeilDiv, ToTicks;
    var t := ToTicks(ts, timeBase);
    var target := CeilDiv(t * NANOS, timeBase);
    MulMonotone(target, now, timeBase);
    assert target > now;
    NowTicksExact(target, timeBase);
    NowTicksExact(now + early, timeBase);
    TickReached(target * timeBase, t, timeBase);
    MulMonotone(now + early + 1, target, timeBase);
    assert (now + early + 1) * timeBase == (now + early) * timeBase + timeBase;
    TickNotReached((now + early) * timeBase, t);
  }

  lemma TickReached(product: nat, t: nat, timeBase: nat)
    requires t * NANOS <= product < t * NANOS + timeBase && timeBase <= NANOS
    ensures product / NANOS == t
  {
  }

  lemma TickNotReached(product: nat, t: nat)
    requires product < t * NANOS
    ensures product / NANOS < t
  {
  }

  datatype WallClock = WallClock(first: Timestamp, rate: nat, timeBase: nat)

  /** `timestamp_for_sample`: the product saturates, the quotient is cut to 32 bits, the sum saturates. */
  function TimestampForSample(c: WallClock, index: nat): Timestamp
    requires ValidRate(c.rate, c.timeBase)
  {
    var advance := index * TicksPerFrame(c.rate, c.timeBase);
    var total := c.first.fracsec + (if advance <= U64_MAX then advance else U64_MAX);
    var soc := c.first.soc + total / c.timeBase % (U32_MAX + 1);
    Timestamp(if soc <= U32_MAX then soc else U32_MAX, total % c.timeBase)
  }

  predicate Aligned(c: WallClock) {
    && ValidRate(c.rate, c.timeBase)
    && c.first.fracsec < c.timeBase && c.first.fracsec % TicksPerFrame(c.rate, c.timeBase) == 0
  }

  predicate InSocRange(c: WallClock, index: nat)
    requires ValidRate(c.rate, c.timeBase)
  {
    c.first.soc + (c.first.fracsec + index * TicksPerFrame(c.rate, c.timeBase)) / c.timeBase <= U32_MAX
  }

  /** Within the SOC range every sample lies on the grid, exactly `index` steps after the first. */
  lemma SampleTimestamp(c: WallClock, index: nat)
    requires Aligned(c) && InSocRange(c, index)
    ensures var step := TicksPerFrame(c.rate, c.timeBase);
            var ts := TimestampForSample(c, index);
            && ts.fracsec < c.timeBase && ts.fracsec % step == 0 && ValidTime(ts)
            && ToTicks(ts, c.timeBase) == ToTicks(c.first, c.timeBase) + index * step
  {
    hide TicksPerFrame;
    var step := TicksPerFrame(c.rate, c.timeBase);
    var total := c.first.fracsec + index * step;
    ModOfSum(c.first.fracsec, index, step);
    assert index * step + c.first.fracsec == total;
    FractionOnGrid(total, c.rate, c.timeBase);
    var s := total / c.timeBase;
    assert total == c.timeBase * s + total % c.timeBase;
    NoSaturation(total, c.timeBase, s);
    assert (c.first.soc + s) * c.timeBase == c.first.soc * c.timeBase + s * c.timeBase;
  }

  lemma NoSaturation(total: nat, timeBase: nat, s: nat)
    requires 0 < timeBase < 0x100_0000 && s <= U32_MAX && total < timeBase * s + timeBase
    ensures total <= U64_MAX && s % (U32_MAX + 1) == s
  {
    MulMonotone(s, U32_MAX, timeBase);
  }

  lemma AlignedIsValid(c: WallClock)
    requires Aligned(c)
    ensures ValidRate(c.rate, c.timeBase)
  {
  }

  /** Samples differ by exactly as many steps as their indices: the step the probes check. */
  lemma SampleSpacing(c: WallClock, i: nat, j: nat)
    requires Aligned(c) && i < j && InSocRange(c, i) && InSocRange(c, j)
    ensures ToTicks(TimestampForSample(c, j), c.timeBase)
         == ToTicks(TimestampForSample(c, i), c.timeBase) + (j - i) * TicksPerFrame(c.rate, c.timeBase)
  {
    hide TicksPerFrame, TimestampForSample, ToTicks, InSocRange, Aligned;
    AlignedIsValid(c);
    SampleTimestamp(c, i);
    SampleTimestamp(c, j);
    var step := TicksPerFrame(c.rate, c.timeBase);
    assert j * step == i * step + (j - i) * step;
  }
}
