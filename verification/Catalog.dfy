/** Startup compilation of the fault-scenario catalog. */
module Catalog {
  import opened Bytes

  datatype Kind = Normal | DegradedTime | MissingFrames | DisconnectPdc | SignalExcursion | Recovery

  datatype Lifecycle = Transient | Sustained

  datatype Signal = Signal(voltage: real, frequency: real, rocof: real)

  /** A raw component is absent here when its floating-point value is not finite. */
  datatype RawSignal = RawSignal(voltage: Option<real>, frequency: Option<real>, rocof: Option<real>)

  datatype RawScenario = RawScenario(
    name: string, kind: Kind, startFrameOffset: nat, lifecycle: Lifecycle,
    durationFrames: Option<nat>, signal: Option<RawSignal>)

  datatype Definition = Definition(
    name: string, kind: Kind, startFrameOffset: nat, lifecycle: Lifecycle,
    durationFrames: Option<nat>, signal: Option<Signal>)

  datatype CatalogError =
    | WrongVersion | EmptyCatalog | TooManyScenarios | InvalidName | DuplicateName
    | DurationNotPositive | DurationMissing | DurationForbidden
    | SignalMissing | SignalForbidden | SignalNotFinite | SignalWithoutEffect

  const CATALOG_VERSION := 1
  const MAX_ENTRIES := 128

  predicate ValidName(name: string) {
    1 <= |name| <= 64 && forall c :: c in name ==> 'a' <= c <= 'z' || '0' <= c <= '9' || c == '-'
  }

  function CompileDuration(lifecycle: Lifecycle, duration: Option<nat>): Result<Option<nat>, CatalogError> {
    match (lifecycle, duration)
    case (Transient, Some(d)) => if d > 0 then Ok(Some(d)) else Err(DurationNotPositive)
    case (Transient, None) => Err(DurationMissing)
    case (Sustained, None) => Ok(None)
    case (Sustained, Some(_)) => Err(DurationForbidden)
  }

  function CompileSignal(kind: Kind, raw: Option<RawSignal>): Result<Option<Signal>, CatalogError> {
    match (kind, raw)
    case (SignalExcursion, Some(s)) =>
      if s.voltage.None? || s.frequency.None? || s.rocof.None? then Err(SignalNotFinite)
      else if s.voltage.value == 0.0 && s.frequency.value == 0.0 && s.rocof.value == 0.0 then Err(SignalWithoutEffect)
      else Ok(Some(Signal(s.voltage.value, s.frequency.value, s.rocof.value)))
    case (SignalExcursion, None) => Err(SignalMissing)
    case (_, Some(_)) => Err(SignalForbidden)
    case (_, None) => Ok(None)
  }

  function CompileScenario(raw: RawScenario): Result<Definition, CatalogError> {
    match (CompileDuration(raw.lifecycle, raw.durationFrames), CompileSignal(raw.kind, raw.signal))
    case (Err(e), _) => Err(e)
    case (Ok(_), Err(e)) => Err(e)
    case (Ok(duration), Ok(signal)) =>
      Ok(Definition(raw.name, raw.kind, raw.startFrameOffset, raw.lifecycle, duration, signal))
  }

  /**
    * What the controller relies on: a transient has a positive duration and a sustained scenario
    * none, so reading the duration of a transient cannot fail; exactly the signal excursions
    * carry a signal.
    */
  predicate WellFormed(d: Definition) {
    && (d.lifecycle.Transient? <==> d.durationFrames.Some?)
    && (d.durationFrames.Some? ==> d.durationFrames.value > 0)
    && (d.kind.SignalExcursion? <==> d.signal.Some?)
  }

  /** A raw scenario that compiles: a duration exactly for a transient, a signal exactly for an excursion. */
  predicate Compilable(raw: RawScenario) {
    && (raw.lifecycle.Transient? <==> raw.durationFrames.Some?)
    && (raw.durationFrames.Some? ==> raw.durationFrames.value > 0)
    && (raw.kind.SignalExcursion? <==> raw.signal.Some?)
    && (raw.signal.Some? ==>
          var s := raw.signal.value;
          s.voltage.Some? && s.frequency.Some? && s.rocof.Some?
          && !(s.voltage.value == 0.0 && s.frequency.value == 0.0 && s.rocof.value == 0.0))
  }

  /** Every field of the compiled definition is the raw one. */
  predicate Carries(raw: RawScenario, d: Definition) {
    && d.name == raw.name && d.kind == raw.kind && d.lifecycle == raw.lifecycle
    && d.startFrameOffset == raw.startFrameOffset && d.durationFrames == raw.durationFrames
    && d.signal.Some? == raw.signal.Some?
    && (d.signal.Some? ==>
          var s, t := raw.signal.value, d.signal.value;
          s.voltage == Some(t.voltage) && s.frequency == Some(t.frequency) && s.rocof == Some(t.rocof))
  }

  lemma CompiledCarries(raw: RawScenario)
    ensures CompileScenario(raw).Ok? <==> Compilable(raw)
    ensures CompileScenario(raw).Ok? ==>
              Carries(raw, CompileScenario(raw).value) && WellFormed(CompileScenario(raw).value)
  {
    hide CompileSignal, CompileDuration;
    DurationCarried(raw.lifecycle, raw.durationFrames);
    SignalCarried(raw.kind, raw.signal);
  }

  lemma DurationCarried(lifecycle: Lifecycle, duration: Option<nat>)
    ensures CompileDuration(lifecycle, duration).Ok?
       <==> (lifecycle.Transient? <==> duration.Some?) && (duration.Some? ==> duration.value > 0)
    ensures CompileDuration(lifecycle, duration).Ok? ==> CompileDuration(lifecycle, duration).value == duration
  {
  }

  lemma SignalCarried(kind: Kind, raw: Option<RawSignal>)
    ensures CompileSignal(kind, raw).Ok?
       <==> && (kind.SignalExcursion? <==> raw.Some?)
            && (raw.Some? ==>
                  var s := raw.value;
                  s.voltage.Some? && s.frequency.Some? && s.rocof.Some?
                  && !(s.voltage.value == 0.0 && s.frequency.value == 0.0 && s.rocof.value == 0.0))
    ensures CompileSignal(kind, raw).Ok? ==>
              var signal := CompileSignal(kind, raw).value;
              && signal.Some? == raw.Some?
              && (signal.Some? ==>
                    && raw.value.voltage == Some(signal.value.voltage)
                    && raw.value.frequency == Some(signal.value.frequency)
                    && raw.value.rocof == Some(signal.value.rocof))
  {
  }

  predicate DistinctNames(catalog: seq<Definition>) {
    forall i, j :: 0 <= i < j < |catalog| ==> catalog[i].name != catalog[j].name
  }

  predicate HasName(catalog: seq<Definition>, name: string) {
    exists i :: 0 <= i < |catalog| && catalog[i].name == name
  }

  predicate Compiles(version: nat, raws: seq<RawScenario>) {
    && version == 1 && 1 <= |raws| <= 128
    && (forall i :: 0 <= i < |raws| ==> ValidName(raws[i].name) && Compilable(raws[i]))
    && (forall i, j :: 0 <= i < j < |raws| ==> raws[i].name != raws[j].name)
  }

  /** The loop of `compile_catalog`: it succeeds exactly on the catalogs described by `Compiles`. */
  method CompileCatalog(version: nat, raws: seq<RawScenario>) returns (r: Result<seq<Definition>, CatalogError>)
    ensures r.Ok? <==> Compiles(version, raws)
    ensures r.Ok? ==>
              && |r.value| == |raws| && DistinctNames(r.value)
              && forall i :: 0 <= i < |raws| ==> Carries(raws[i], r.value[i]) && WellFormed(r.value[i])
  {
    hide CompileScenario, Compilable, WellFormed, ValidName;
    if version != CATALOG_VERSION {
      return Err(WrongVersion);
    }
    if raws == [] {
      return Err(EmptyCatalog);
    }
    if |raws| > MAX_ENTRIES {
      return Err(TooManyScenarios);
    }
    var scenarios: seq<Definition> := [];
    for i := 0 to |raws|
      invariant |scenarios| == i
      invariant forall k :: 0 <= k < i ==> ValidName(raws[k].name) && Compilable(raws[k])
      invariant forall k :: 0 <= k < i ==> Carries(raws[k], scenarios[k]) && WellFormed(scenarios[k])
      invariant DistinctNames(scenarios)
      invariant forall k :: 0 <= k < i ==> scenarios[k].name == raws[k].name
    {
      if !ValidName(raws[i].name) {
        return Err(InvalidName);
      }
      if HasName(scenarios, raws[i].name) {
        return Err(DuplicateName);
      }
      CompiledCarries(raws[i]);
      match CompileScenario(raws[i]) {
        case Err(e) => return Err(e);
        case Ok(definition) => scenarios := scenarios + [definition];
      }
    }
    assert forall i, j :: 0 <= i < j < |raws| ==> scenarios[i].name != scenarios[j].name;
    r := Ok(scenarios);
  }

  /** The first definition with a name. */
  function Find(catalog: seq<Definition>, name: string): (d: Option<Definition>)
    ensures d.Some? <==> HasName(catalog, name)
    ensures d.Some? ==> d.value in catalog && d.value.name == name
  {
    if catalog == [] then None
    else if catalog[0].name == name then Some(catalog[0])
    else
      var rest := Find(catalog[1..], name);
      assert HasName(catalog[1..], name) ==>
          exists i :: 0 <= i < |catalog| - 1 && catalog[1..][i] == catalog[i + 1] && catalog[i + 1].name == name;
      assert HasName(catalog, name) ==>
          exists i :: 1 <= i < |catalog| && catalog[i].name == name && catalog[1..][i - 1] == catalog[i];
      rest
  }
}
