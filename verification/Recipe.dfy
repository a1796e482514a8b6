/**
  * The signal recipe of a fleet: the range checks on its numbers, the conversion of scales to
  * PHUNIT, and what the checks are for: no sample exceeds the fixed-point fields. Numbers are
  * exact reals; `None` is a float that is not finite.
  */
module Recipe {
  import opened Bytes
  import Catalog

  type Float = Option<real>

  datatype Signal = Signal(nominal: Float, variation: Float)

  datatype Recipe = Recipe(
    voltageMagnitude: Float,
    voltageVariation: Float,
    voltageClass: Float,
    voltageScale: Float,
    currentMagnitude: Float,
    currentVariation: Float,
    currentScale: Float,
    frequencyDeviation: Signal,
    rocof: Signal)

  predicate Positive(x: Float) { x.Some? && x.value > 0.0 }

  predicate NonNegative(x: Float) { x.Some? && x.value >= 0.0 }

  function Abs(x: real): real { if x >= 0.0 then x else -x }

  /** A magnitude with its variation, which stays non-negative and fits sixteen bits at its scale. */
  predicate MagnitudeOk(magnitude: Float, variation: Float, scale: Float) {
    && Positive(magnitude) && NonNegative(variation) && Positive(scale)
    && variation.value <= magnitude.value && (magnitude.value + variation.value) / scale.value <= 65535.0
  }

  predicate SignalOk(s: Signal, limit: real) {
    s.nominal.Some? && NonNegative(s.variation) && Abs(s.nominal.value) + s.variation.value <= limit
  }

  predicate RecipeOk(r: Recipe) {
    && MagnitudeOk(r.voltageMagnitude, r.voltageVariation, r.voltageScale) && NonNegative(r.voltageClass)
    && MagnitudeOk(r.currentMagnitude, r.currentVariation, r.currentScale)
    && SignalOk(r.frequencyDeviation, 32.767) && SignalOk(r.rocof, 327.67)
  }

  /** Rounding half away from zero. */
  function Round(x: real): int {
    if x >= 0.0 then (x + 0.5).Floor else -(-x + 0.5).Floor
  }

  /** `v2_phunit` without its current flag: the scale in units of 10^-5, if it has a 24-bit representation. */
  function Units(scale: Float): (u: Option<nat>)
    ensures u.Some? ==> 1 <= u.value < 0x100_0000
  {
    if scale.None? then None
    else
      var scaled := Round(scale.value * 100000.0);
      if 1 <= scaled <= 0xFF_FFFF then Some(scaled) else None
  }

  /** A float cast to an unsigned sixteen-bit word saturates. */
  function SaturateU16(n: int): nat {
    if n < 0 then 0 else if n > U16_MAX then U16_MAX else n
  }

  /** `fixed_magnitude` of a sample whose waveform is `w`; `delta` is the signal excursion, zero without one. */
  function FixedMagnitude(magnitude: real, variation: real, delta: real, scale: real, w: real): int
    requires scale > 0.0
  {
    Round(Over(Swung(magnitude, variation, w) + delta, scale))
  }

  function Swung(nominal: real, variation: real, w: real): real { nominal + variation * w }

  function Over(x: real, scale: real): real
    requires scale > 0.0
  {
    x / scale
  }

  /** `fixed_frequency` and `fixed_rocof`, with the excursion of the signal. */
  function FixedSignal(s: Signal, delta: real, units: real, w: real): int
    requires s.nominal.Some? && s.variation.Some?
  {
    Round(Scaled(Swung(s.nominal.value, s.variation.value, w) + delta, units))
  }

  function Scaled(x: real, units: real): real { x * units }

  // ----- when a sample saturates -----------------------------------------------------------

  /** Any value the waveform could take; the sampled sine need not come up to its ends. */
  predicate Waveform(w: real) { -1.0 <= w <= 1.0 }

  lemma SwingBound(nominal: real, variation: real, w: real)
    requires variation >= 0.0 && Waveform(w)
    ensures nominal - variation <= Swung(nominal, variation, w) <= nominal + variation
    ensures Swung(nominal, variation, 1.0) == nominal + variation
    ensures Swung(nominal, variation, -1.0) == nominal - variation
  {
    assert variation * (1.0 - w) >= 0.0 && variation * (1.0 + w) >= 0.0;
  }

  lemma OverMonotone(a: real, b: real, d: real)
    requires d > 0.0 && a <= b
    ensures Over(a, d) <= Over(b, d)
  {
    assert b / d - a / d == (b - a) / d >= 0.0;
  }

  lemma ScaledMonotone(a: real, b: real, units: real)
    requires units > 0.0 && a <= b
    ensures Scaled(a, units) <= Scaled(b, units)
  {
    assert (b - a) * units >= 0.0;
  }

  /** The magnitudes a recipe can produce are nonnegative and at most 65535 scale units. */
  ghost predicate MagnitudesInRange(magnitude: real, variation: real, scale: real)
    requires scale > 0.0
  {
    forall w :: Waveform(w) ==>
                  && 0.0 <= Swung(magnitude, variation, w)
                  && Over(Swung(magnitude, variation, w), scale) <= 65535.0
  }

  /** The range check accepts exactly the positive magnitudes that never leave their range. */
  lemma MagnitudeOkExactly(magnitude: Float, variation: Float, scale: Float)
    ensures MagnitudeOk(magnitude, variation, scale)
       <==> && Positive(magnitude) && NonNegative(variation) && Positive(scale)
            && MagnitudesInRange(magnitude.value, variation.value, scale.value)
  {
    hide Over, Swung;
    if Positive(magnitude) && NonNegative(variation) && Positive(scale) {
      var m, v, s := magnitude.value, variation.value, scale.value;
      SwingBound(m, v, 1.0);
      SwingBound(m, v, -1.0);
      OverIs(m + v, s);
      assert Waveform(1.0) && Waveform(-1.0);
      if MagnitudeOk(magnitude, variation, scale) {
        forall w | Waveform(w)
          ensures 0.0 <= Swung(m, v, w) && Over(Swung(m, v, w), s) <= 65535.0
        {
          SwingBound(m, v, w);
          OverMonotone(Swung(m, v, w), m + v, s);
        }
      }
    }
  }

  lemma OverIs(x: real, scale: real)
    requires scale > 0.0
    ensures Over(x, scale) == x / scale
  {
  }

  /** Frequency deviation and ROCOF are accepted exactly if no sample leaves the plus-or-minus range. */
  lemma SignalOkExactly(s: Signal, limit: real)
    ensures SignalOk(s, limit)
       <==> && s.nominal.Some? && NonNegative(s.variation)
            && forall w :: Waveform(w) ==> -limit <= Swung(s.nominal.value, s.variation.value, w) <= limit
  {
    hide Swung;
    if s.nominal.Some? && NonNegative(s.variation) {
      var n, v := s.nominal.value, s.variation.value;
      SwingBound(n, v, 1.0);
      SwingBound(n, v, -1.0);
      assert Waveform(1.0) && Waveform(-1.0);
      if SignalOk(s, limit) {
        forall w | Waveform(w)
          ensures -limit <= Swung(n, v, w) <= limit
        {
          SwingBound(n, v, w);
        }
      }
    }
  }

  lemma RoundMonotone(x: real, y: real)
    requires x <= y
    ensures Round(x) <= Round(y)
  {
  }

  /** A rounded value lies in a range exactly if the value lies within half a unit of it. */
  lemma RoundWithin(x: real, low: int, high: int)
    requires low <= 0 <= high
    ensures Round(x) <= high <==> x < high as real + 0.5
    ensures Round(x) >= low <==> x > low as real - 0.5
  {
  }

  /** All samples lie between those of the two ends of the waveform. */
  lemma MagnitudeBetween(magnitude: real, variation: real, delta: real, scale: real, w: real)
    requires variation >= 0.0 && scale > 0.0 && Waveform(w)
    ensures FixedMagnitude(magnitude, variation, delta, scale, -1.0)
         <= FixedMagnitude(magnitude, variation, delta, scale, w)
         <= FixedMagnitude(magnitude, variation, delta, scale, 1.0)
  {
    hide Round, Over, Swung;
    SwingBound(magnitude, variation, w);
    var low, high := magnitude - variation + delta, magnitude + variation + delta;
    var mid := Swung(magnitude, variation, w) + delta;
    OverMonotone(low, mid, scale);
    OverMonotone(mid, high, scale);
    RoundMonotone(Over(low, scale), Over(mid, scale));
    RoundMonotone(Over(mid, scale), Over(high, scale));
  }

  /** The sample fits its word, so the cast changes nothing. */
  predicate FitsU16(n: int) { 0 <= n <= U16_MAX }

  predicate FitsI16(n: int) { -32768 <= n <= 32767 }

  /**
    * The exact condition on a magnitude, its variation and an excursion: no waveform saturates the
    * word if and only if the two extremes, at the scale in use, round into its range.
    */
  lemma MagnitudeFitsExactly(magnitude: real, variation: real, delta: real, scale: real)
    requires variation >= 0.0 && scale > 0.0
    ensures (forall w :: Waveform(w) ==> FitsU16(FixedMagnitude(magnitude, variation, delta, scale, w)))
       <==> && Over(magnitude - variation + delta, scale) > -0.5
            && Over(magnitude + variation + delta, scale) < 65535.5
  {
    hide Round, Over, Swung;
    forall w | Waveform(w)
      ensures FixedMagnitude(magnitude, variation, delta, scale, -1.0)
           <= FixedMagnitude(magnitude, variation, delta, scale, w)
           <= FixedMagnitude(magnitude, variation, delta, scale, 1.0)
    {
      MagnitudeBetween(magnitude, variation, delta, scale, w);
    }
    assert Waveform(1.0) && Waveform(-1.0);
    SwingBound(magnitude, variation, 1.0);
    RoundWithin(Over(magnitude - variation + delta, scale), 0, 65535);
    RoundWithin(Over(magnitude + variation + delta, scale), 0, 65535);
  }

  lemma SignalBetween(s: Signal, delta: real, units: real, w: real)
    requires s.nominal.Some? && NonNegative(s.variation) && units > 0.0 && Waveform(w)
    ensures FixedSignal(s, delta, units, -1.0) <= FixedSignal(s, delta, units, w) <= FixedSignal(s, delta, units, 1.0)
  {
    hide Round, Scaled, Swung;
    var n, v := s.nominal.value, s.variation.value;
    SwingBound(n, v, w);
    var low, mid, high := n - v + delta, Swung(n, v, w) + delta, n + v + delta;
    ScaledMonotone(low, mid, units);
    ScaledMonotone(mid, high, units);
    RoundMonotone(Scaled(low, units), Scaled(mid, units));
    RoundMonotone(Scaled(mid, units), Scaled(high, units));
  }

  /** The exact condition for the signed words of frequency deviation and ROCOF. */
  lemma SignalFitsExactly(s: Signal, delta: real, units: real)
    requires s.nominal.Some? && NonNegative(s.variation) && units > 0.0
    ensures (forall w :: Waveform(w) ==> FitsI16(FixedSignal(s, delta, units, w)))
       <==> && Scaled(s.nominal.value - s.variation.value + delta, units) > -32768.5
            && Scaled(s.nominal.value + s.variation.value + delta, units) < 32767.5
  {
    hide Round, Scaled, Swung;
    var n, v := s.nominal.value, s.variation.value;
    forall w | Waveform(w)
      ensures FixedSignal(s, delta, units, -1.0) <= FixedSignal(s, delta, units, w) <= FixedSignal(s, delta, units, 1.0)
    {
      SignalBetween(s, delta, units, w);
    }
    assert Waveform(1.0) && Waveform(-1.0);
    SwingBound(n, v, 1.0);
    RoundWithin(Scaled(n - v + delta, units), -32768, 32767);
    RoundWithin(Scaled(n + v + delta, units), -32768, 32767);
  }

  // ----- accepted recipes ------------------------------------------------------------------

  /** Without an excursion and at the configured scale, as version 3 encodes, no accepted recipe saturates. */
  lemma MagnitudeFits(magnitude: Float, variation: Float, scale: Float, w: real)
    requires MagnitudeOk(magnitude, variation, scale) && Waveform(w)
    ensures FitsU16(FixedMagnitude(magnitude.value, variation.value, 0.0, scale.value, w))
  {
    hide Round, Swung;
    var m, v, s := magnitude.value, variation.value, scale.value;
    OverMonotone(0.0, m - v, s);
    assert Over(0.0, s) == 0.0 && m - v + 0.0 == m - v && m + v + 0.0 == m + v;
    MagnitudeFitsExactly(m, v, 0.0, s);
  }

  /**
    * Version 2 encodes with the scale that PHUNIT can represent, which may be smaller. Without an
    * excursion its samples stay in range if and only if the largest magnitude does at that scale.
    */
  lemma MagnitudeFitsV2(magnitude: Float, variation: Float, scale: Float)
    requires MagnitudeOk(magnitude, variation, scale) && Units(scale).Some?
    ensures var represented := Units(scale).value as real / 100000.0;
            (forall w :: Waveform(w) ==> FitsU16(FixedMagnitude(magnitude.value, variation.value, 0.0, represented, w)))
            <==> (magnitude.value + variation.value) / represented < 65535.5
  {
    hide Round, Swung;
    var m, v := magnitude.value, variation.value;
    var s := Units(scale).value as real / 100000.0;
    OverMonotone(0.0, m - v, s);
    assert Over(0.0, s) == 0.0 && m - v + 0.0 == m - v && m + v + 0.0 == m + v;
    MagnitudeFitsExactly(m, v, 0.0, s);
  }

  /** The exception is real: an accepted recipe whose scale rounds down saturates on the wire. */
  lemma SmallScaleSaturates()
    ensures var magnitude, variation, scale := Some(0.917), Some(0.0), Some(0.000014);
            && MagnitudeOk(magnitude, variation, scale) && Units(scale) == Some(1)
            && FixedMagnitude(0.917, 0.0, 0.0, 1.0 / 100000.0, 0.0) == 91700
            && SaturateU16(91700) == 65535
  {
    assert 0.917 / 0.000014 == 65500.0;
    assert 0.000014 * 100000.0 == 1.4;
    assert Over(Swung(0.917, 0.0, 0.0) + 0.0, 1.0 / 100000.0) == 91700.0;
  }

  /** Without an excursion, frequency deviation and ROCOF of an accepted recipe fit their signed words. */
  lemma RecipeFits(r: Recipe, w: real)
    requires RecipeOk(r) && Waveform(w)
    ensures FitsI16(FixedSignal(r.frequencyDeviation, 0.0, 1000.0, w))
    ensures FitsI16(FixedSignal(r.rocof, 0.0, 100.0, w))
  {
    hide FixedSignal, MagnitudeOk;
    SignalFits(r.frequencyDeviation, 32.767, 1000.0, w);
    SignalFits(r.rocof, 327.67, 100.0, w);
  }

  lemma SignalFits(s: Signal, limit: real, units: real, w: real)
    requires SignalOk(s, limit) && Waveform(w) && units > 0.0 && limit * units == 32767.0
    ensures FitsI16(FixedSignal(s, 0.0, units, w))
  {
    hide Round, Swung;
    var n, v := s.nominal.value, s.variation.value;
    assert -limit <= n - v && n + v <= limit;
    ScaledMonotone(-limit, n - v, units);
    ScaledMonotone(n + v, limit, units);
    assert Scaled(-limit, units) == -32767.0 && Scaled(limit, units) == 32767.0;
    assert n - v + 0.0 == n - v && n + v + 0.0 == n + v;
    SignalFitsExactly(s, 0.0, units);
  }

  // ----- excursions ------------------------------------------------------------------------

  /** A scenario whose excursion no catalogue check refuses. */
  const LARGE_EXCURSION :=
    Catalog.RawScenario("large-excursion", Catalog.SignalExcursion, 0, Catalog.Transient, Some(1),
                        Some(Catalog.RawSignal(Some(1000000.0), Some(0.0), Some(0.0))))

  /**
    * The catalogue asks an excursion only to be finite and not all zero, so an accepted recipe and
    * an accepted scenario can saturate the word together, in both versions.
    */
  lemma ExcursionSaturates()
    ensures var magnitude, variation, scale := Some(100.0), Some(0.0), Some(0.01);
            && MagnitudeOk(magnitude, variation, scale) && Units(scale) == Some(1000)
            && Catalog.CompileScenario(LARGE_EXCURSION).Ok?
            && Catalog.CompileScenario(LARGE_EXCURSION).value.signal == Some(Catalog.Signal(1000000.0, 0.0, 0.0))
            && FixedMagnitude(100.0, 0.0, 1000000.0, 0.01, 0.0) == 100010000
            && FixedMagnitude(100.0, 0.0, 1000000.0, 1000.0 / 100000.0, 0.0) == 100010000
            && SaturateU16(100010000) == 65535
  {
    assert 100.0 / 0.01 == 10000.0;
    assert 0.01 * 100000.0 == 1000.0;
    assert Over(Swung(100.0, 0.0, 0.0) + 1000000.0, 0.01) == 100010000.0;
    assert Over(Swung(100.0, 0.0, 0.0) + 1000000.0, 1000.0 / 100000.0) == 100010000.0;
  }

  /** Whether every sample of a recipe under an excursion fits, in the words of one version. */
  ghost predicate NeverSaturates(r: Recipe, e: Catalog.Signal, voltageScale: real, currentScale: real)
    requires RecipeOk(r) && voltageScale > 0.0 && currentScale > 0.0
  {
    forall w :: Waveform(w) ==>
                  && FitsU16(FixedMagnitude(
                               r.voltageMagnitude.value, r.voltageVariation.value, e.voltage, voltageScale, w))
                  && FitsU16(FixedMagnitude(r.currentMagnitude.value, r.currentVariation.value, 0.0, currentScale, w))
                  && FitsI16(FixedSignal(r.frequencyDeviation, e.frequency, 1000.0, w))
                  && FitsI16(FixedSignal(r.rocof, e.rocof, 100.0, w))
  }

  predicate MagnitudeInside(magnitude: Float, variation: Float, delta: real, scale: real)
    requires magnitude.Some? && variation.Some? && scale > 0.0
  {
    && Over(magnitude.value - variation.value + delta, scale) > -0.5
    && Over(magnitude.value + variation.value + delta, scale) < 65535.5
  }

  predicate SignalInside(s: Signal, delta: real, units: real)
    requires s.nominal.Some? && s.variation.Some?
  {
    && Scaled(s.nominal.value - s.variation.value + delta, units) > -32768.5
    && Scaled(s.nominal.value + s.variation.value + delta, units) < 32767.5
  }

  /**
    * The exact condition for a whole data frame, checkable when profile and catalogue are loaded:
    * under an accepted recipe, an excursion and the scales of either version, no waveform
    * saturates any word if and only if all eight extremes round into their words.
    */
  lemma NeverSaturatesExactly(r: Recipe, e: Catalog.Signal, voltageScale: real, currentScale: real)
    requires RecipeOk(r) && voltageScale > 0.0 && currentScale > 0.0
    ensures NeverSaturates(r, e, voltageScale, currentScale)
       <==> && MagnitudeInside(r.voltageMagnitude, r.voltageVariation, e.voltage, voltageScale)
            && MagnitudeInside(r.currentMagnitude, r.currentVariation, 0.0, currentScale)
            && SignalInside(r.frequencyDeviation, e.frequency, 1000.0)
            && SignalInside(r.rocof, e.rocof, 100.0)
  {
    hide FixedMagnitude, FixedSignal, Over, Scaled, Waveform, FitsU16, FitsI16;
    MagnitudeFitsExactly(r.voltageMagnitude.value, r.voltageVariation.value, e.voltage, voltageScale);
    MagnitudeFitsExactly(r.currentMagnitude.value, r.currentVariation.value, 0.0, currentScale);
    SignalFitsExactly(r.frequencyDeviation, e.frequency, 1000.0);
    SignalFitsExactly(r.rocof, e.rocof, 100.0);
  }
}
