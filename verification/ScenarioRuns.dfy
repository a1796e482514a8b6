/** What every run of the scenario controller keeps. */
module ScenarioRuns {
  import opened Bytes
  import opened Catalog
  import opened Scenario
  import Timing

  datatype Op =
    | OpPrepare(target: Target, name: string, actor: Option<string>, now: nat)
    | OpClear(target: Target, actor: Option<string>, now: nat)
    | OpConfirm(token: nat, now: nat)
    | OpCancel(token: nat, now: nat)
    | OpAdvance(sample: nat)
    | OpSnapshot(now: nat)

  function Apply(c: Controller, op: Op): Controller
    requires Valid(c)
  {
    hide PrepareActivation, PrepareClear, Confirm, Cancel, DiscardExpired, AdvanceBoundary, Valid;
    match op
    case OpPrepare(target, name, actor, now) => PrepareActivation(c, target, name, actor, now).controller
    case OpClear(target, actor, now) => PrepareClear(c, target, actor, now).controller
    case OpConfirm(token, now) => Confirm(c, token, now).controller
    case OpCancel(token, now) => Cancel(c, token, now).controller
    case OpAdvance(sample) => AdvanceKeeps(c, sample); AdvanceBoundary(c, sample).controller
    case OpSnapshot(now) => DiscardExpired(c, now)
  }

  lemma ApplyKeeps(c: Controller, op: Op)
    requires Valid(c)
    ensures Valid(Apply(c, op))
  {
    hide PrepareActivation, PrepareClear, Confirm, Cancel, DiscardExpired, AdvanceBoundary, Valid;
    match op {
      case OpPrepare(target, name, actor, now) => PrepareActivationKeeps(c, target, name, actor, now);
      case OpClear(target, actor, now) => PrepareClearKeeps(c, target, actor, now);
      case OpConfirm(token, now) => ConfirmKeeps(c, token, now);
      case OpCancel(token, now) => CancelKeeps(c, token, now);
      case OpAdvance(sample) => AdvanceKeeps(c, sample);
      case OpSnapshot(now) => DiscardKeeps(c, now);
    }
  }

  ghost predicate Follows(c: Controller, op: Op, d: Controller) {
    Valid(c) ==> d == Apply(c, op)
  }

  /** A run from any valid state; the freshly created controller is one. */
  ghost predicate IsRun(states: seq<Controller>, ops: seq<Op>) {
    && |states| == |ops| + 1 && Valid(states[0])
    && forall k :: 0 <= k < |ops| ==> Follows(states[k], ops[k], states[k + 1])
  }

  lemma {:induction false} RunValid(states: seq<Controller>, ops: seq<Op>, k: nat)
    requires IsRun(states, ops) && k < |states|
    ensures Valid(states[k])
    ensures k < |ops| ==> states[k + 1] == Apply(states[k], ops[k])
  {
    hide Apply, Valid;
    if k > 0 {
      var j := k - 1;
      RunValid(states, ops, j);
      ApplyKeeps(states[j], ops[j]);
    }
    if k < |ops| {
      assert Follows(states[k], ops[k], states[k + 1]);
    }
  }

  // ----- one step --------------------------------------------------------------------------

  /**
    * What every step other than a boundary keeps: the active map and the boundary, and a
    * preparation present afterwards with an old token was present before, and is the same.
    */
  predicate KeepsActive(c: Controller, d: Controller) {
    && d.active == c.active && d.current == c.current && d.catalog == c.catalog && d.nextToken >= c.nextToken
    && forall t :: t in d.prepared && t < c.nextToken ==> t in c.prepared && d.prepared[t] == c.prepared[t]
  }

  /** The revision never falls, and stands still only if no lifecycle record changed. */
  predicate Revised(c: Controller, d: Controller) {
    d.revision >= c.revision && (d.revision == c.revision ==> RecordsOf(d) == RecordsOf(c))
  }

  lemma DiscardStep(c: Controller, now: nat)
    ensures KeepsActive(c, DiscardExpired(c, now)) && Revised(c, DiscardExpired(c, now))
  {
    hide DiscardExpired;
    DiscardFrame(c, now);
    DiscardRevision(c, now);
  }

  lemma PrepareActionStep(c: Controller, target: Target, action: Action, actor: Option<string>, now: nat,
                          permitsActive: bool)
    ensures var d := PrepareAction(c, target, action, actor, now, permitsActive).controller;
            KeepsActive(c, d) && Revised(c, d)
  {
    hide DiscardExpired;
    DiscardStep(c, now);
  }

  lemma PrepareActivationStep(c: Controller, target: Target, name: string, actor: Option<string>, now: nat)
    ensures var d := PrepareActivation(c, target, name, actor, now).controller;
            KeepsActive(c, d) && Revised(c, d)
  {
    hide PrepareAction;
    var found := Find(c.catalog, name);
    if found.Some? {
      PrepareActionStep(c, target, Activate(found.value), actor, now, false);
    }
  }

  lemma PrepareClearStep(c: Controller, target: Target, actor: Option<string>, now: nat)
    ensures var d := PrepareClear(c, target, actor, now).controller;
            KeepsActive(c, d) && Revised(c, d)
  {
    hide PrepareAction, DiscardExpired;
    DiscardStep(c, now);
    PrepareActionStep(DiscardExpired(c, now), target, Clear, actor, now, true);
  }

  lemma ConsumeStep(c: Controller, token: nat, now: nat)
    requires token in c.prepared
    ensures var d := Consume(c, token);
            KeepsActive(c, d) && d.revision == c.revision + 1 && token !in d.prepared
    ensures var d := DiscardExpired(Consume(c, token), now);
            KeepsActive(c, d) && d.revision > c.revision && token !in d.prepared
  {
    hide DiscardExpired;
    DiscardStep(Consume(c, token), now);
    DiscardFrame(Consume(c, token), now);
  }

  lemma ConfirmStep(c: Controller, token: nat, now: nat)
    ensures var d := Confirm(c, token, now).controller;
            KeepsActive(c, d) && Revised(c, d) && token !in d.prepared
  {
    hide DiscardExpired, Consume;
    if token in c.prepared {
      ConsumeStep(c, token, now);
    }
  }

  lemma CancelStep(c: Controller, token: nat, now: nat)
    ensures var d := Cancel(c, token, now).controller;
            KeepsActive(c, d) && Revised(c, d) && token !in d.prepared
  {
    hide DiscardExpired, Consume;
    if token in c.prepared {
      ConsumeStep(c, token, now);
    }
  }

  /** Every step that changes a lifecycle record raises the revision, failed calls included. */
  lemma StepFacts(c: Controller, op: Op)
    requires Valid(c)
    ensures var d := Apply(c, op);
            && Revised(c, d) && d.nextToken >= c.nextToken
            && (!op.OpAdvance? ==> KeepsActive(c, d))
            && (forall t :: t in d.prepared && t < c.nextToken ==> t in c.prepared && d.prepared[t] == c.prepared[t])
            && (op.OpConfirm? || op.OpCancel? ==> op.token !in d.prepared)
  {
    hide PrepareActivation, PrepareClear, Confirm, Cancel, DiscardExpired, Valid, Revised, ApplyPending;
    match op {
      case OpPrepare(target, name, actor, now) => PrepareActivationStep(c, target, name, actor, now);
      case OpClear(target, actor, now) => PrepareClearStep(c, target, actor, now);
      case OpConfirm(token, now) => ConfirmStep(c, token, now);
      case OpCancel(token, now) => CancelStep(c, token, now);
      case OpAdvance(sample) =>
        AdvanceKeeps(c, sample);
        AdvanceRevision(c, sample);
      case OpSnapshot(now) => DiscardStep(c, now);
    }
  }

  // ----- the revision ----------------------------------------------------------------------

  lemma DiscardRevision(c: Controller, now: nat)
    ensures Revised(c, DiscardExpired(c, now))
  {
    if |ExpiredTokens(c, now)| == 0 {
      assert c.prepared - {} == c.prepared;
    }
  }

  lemma SameSizeSubmap(a: map<Target, Active>, b: map<Target, Active>)
    requires forall t :: t in a ==> t in b && a[t] == b[t]
    requires |a| == |b|
    ensures a == b
  {
    assert a.Keys <= b.Keys;
    if a.Keys != b.Keys {
      var x :| x in b.Keys && x !in a.Keys;
      SubsetSize(a.Keys, b.Keys - {x});
    }
  }

  lemma NothingPending(c: Controller, sample: nat)
    requires c.pending == map[]
    ensures ApplyPending(c, sample) == c.active
  {
  }

  lemma UnexpiredIsSubmap(active: map<Target, Active>, sample: nat)
    requires DurationsPresent(active)
    ensures forall t :: t in Unexpired(active, sample) ==> t in active && Unexpired(active, sample)[t] == active[t]
  {
  }

  lemma AdvanceRevision(c: Controller, sample: nat)
    requires DurationsPresent(ApplyPending(c, sample))
    ensures Revised(c, AdvanceBoundary(c, sample).controller)
  {
    hide ApplyPending, Unexpired, DurationsPresent;
    var applied := ApplyPending(c, sample);
    var kept := Unexpired(applied, sample);
    if c.pending == map[] && |kept| == |applied| {
      UnexpiredIsSubmap(applied, sample);
      SameSizeSubmap(kept, applied);
      NothingPending(c, sample);
    }
  }

  /** What a successful boundary does to one target. */
  lemma AdvanceAt(c: Controller, sample: nat, g: Target)
    requires Valid(c) && DurationsPresent(ApplyPending(c, sample)) && (c.current.Some? ==> sample > c.current.value)
    ensures var d := AdvanceBoundary(c, sample).controller;
            && d.current == Some(sample)
            && (g in c.pending && c.pending[g].action.Clear? ==> g !in d.active)
            && (g in c.pending && c.pending[g].action.Activate? ==>
                  var a := Active(c.pending[g].action.scenario, c.pending[g].actor, sample);
                  WellFormed(a.scenario) && (g in d.active <==> Survives(a, sample))
                  && (g in d.active ==> d.active[g] == a))
            && (g !in c.pending && g in c.active ==>
                  WellFormed(c.active[g].scenario) && (g in d.active <==> Survives(c.active[g], sample))
                  && (g in d.active ==> d.active[g] == c.active[g]))
            && (g !in c.pending && g !in c.active ==> g !in d.active)
  {
    hide Tracked, Inverse, Tokens;
    if g in c.pending {
      assert Applicable(c.active, g, c.pending[g].action);
    }
  }

  /** A target with an active transient has nothing pending: it can be neither activated nor cleared. */
  lemma TransientHasNothingPending(c: Controller, g: Target)
    requires Valid(c) && g in c.active && c.active[g].scenario.lifecycle.Transient?
    ensures g !in c.pending
  {
    hide Tracked, Inverse, Tokens, ActiveOk;
    assert g in c.pending ==> Applicable(c.active, g, c.pending[g].action);
  }

  /**
    * Revision faithfulness: along any run the revision never decreases, and two states with the
    * same revision hold the same prepared, pending and active records.
    */
  lemma {:induction false} RevisionFaithful(states: seq<Controller>, ops: seq<Op>, i: nat, j: nat)
    requires IsRun(states, ops) && i <= j < |states|
    ensures states[i].revision <= states[j].revision
    ensures states[i].revision == states[j].revision ==> RecordsOf(states[i]) == RecordsOf(states[j])
    decreases j - i
  {
    hide IsRun, Apply, Valid;
    if i < j {
      var k := j - 1;
      RunLength(states, ops);
      RunValid(states, ops, k);
      StepFacts(states[k], ops[k]);
      RevisionFaithful(states, ops, i, k);
    }
  }

  lemma RunLength(states: seq<Controller>, ops: seq<Op>)
    requires IsRun(states, ops)
    ensures |states| == |ops| + 1
  {
  }

  // ----- tokens ----------------------------------------------------------------------------

  /** A token that was issued and is no longer prepared stays unknown for the rest of the run. */
  lemma {:induction false} ConsumedTokenStaysUnknown(states: seq<Controller>, ops: seq<Op>, i: nat, j: nat,
                                                     token: nat, now: nat)
    requires IsRun(states, ops) && i <= j < |states|
    requires token < states[i].nextToken && token !in states[i].prepared
    ensures token < states[j].nextToken && token !in states[j].prepared
    ensures Confirm(states[j], token, now).result == Err(UnknownToken)
    ensures Cancel(states[j], token, now).result == Err(UnknownToken)
    decreases j - i
  {
    hide IsRun, Apply, Valid;
    if i < j {
      var k := j - 1;
      RunLength(states, ops);
      RunValid(states, ops, k);
      StepFacts(states[k], ops[k]);
      ConsumedTokenStaysUnknown(states, ops, i, k, token, now);
    }
  }

  lemma TokenIssued(c: Controller, token: nat)
    requires Valid(c) && token in c.prepared
    ensures token < c.nextToken
  {
  }

  /** Each token is consumed at most once: after a confirm or cancel it is never accepted again. */
  lemma TokenConsumedOnce(states: seq<Controller>, ops: seq<Op>, i: nat, j: nat, now: nat)
    requires IsRun(states, ops) && i < j < |states|
    requires (ops[i].OpConfirm? || ops[i].OpCancel?) && ops[i].token in states[i].prepared
    ensures Confirm(states[j], ops[i].token, now).result == Err(UnknownToken)
    ensures Cancel(states[j], ops[i].token, now).result == Err(UnknownToken)
  {
    hide IsRun, Apply, Valid, Confirm, Cancel;
    RunLength(states, ops);
    RunValid(states, ops, i);
    TokenIssued(states[i], ops[i].token);
    StepFacts(states[i], ops[i]);
    ConsumedTokenStaysUnknown(states, ops, i + 1, j, ops[i].token, now);
  }

  // ----- effect windows --------------------------------------------------------------------

  /** The first boundary at which a transient is gone. */
  function EndOf(a: Active): nat
    requires a.scenario.durationFrames.Some?
  {
    a.first + a.scenario.startFrameOffset + a.scenario.durationFrames.value
  }

  /** The entry is present exactly until its end; after that any entry is a later activation. */
  predicate InWindow(c: Controller, g: Target, a: Active) {
    && a.scenario.lifecycle.Transient? && a.scenario.durationFrames.Some?
    && c.current.Some? && a.first <= c.current.value
    && (c.current.value < EndOf(a) ==> g in c.active && c.active[g] == a)
    && (c.current.value >= EndOf(a) ==> (g in c.active ==> c.active[g].first > a.first))
  }

  lemma StepKeepsWindow(c: Controller, op: Op, g: Target, a: Active)
    requires Valid(c) && InWindow(c, g, a)
    ensures InWindow(Apply(c, op), g, a)
  {
    StepFacts(c, op);
    if op.OpAdvance? {
      AdvanceKeeps(c, op.sample);
      if op.sample > c.current.value {
        AdvanceKeepsWindow(c, op.sample, g, a);
      }
    }
  }

  lemma AdvanceKeepsWindow(c: Controller, sample: nat, g: Target, a: Active)
    requires Valid(c) && InWindow(c, g, a) && sample > c.current.value
    requires DurationsPresent(ApplyPending(c, sample))
    ensures InWindow(AdvanceBoundary(c, sample).controller, g, a)
  {
    hide Valid, AdvanceBoundary, ApplyPending, DurationsPresent;
    AdvanceAt(c, sample, g);
    if c.current.value < EndOf(a) {
      TransientHasNothingPending(c, g);
    }
  }

  /** The state right after the boundary that applies a queued activation. */
  lemma ActivationOpensWindow(c: Controller, b: nat, g: Target)
    requires Valid(c) && (c.current.Some? ==> b > c.current.value)
    requires g in c.pending && c.pending[g].action.Activate? && c.pending[g].action.scenario.lifecycle.Transient?
    ensures InWindow(Apply(c, OpAdvance(b)), g, Active(c.pending[g].action.scenario, c.pending[g].actor, b))
  {
    hide Valid, AdvanceBoundary, ApplyPending, DurationsPresent;
    AdvanceKeeps(c, b);
    AdvanceAt(c, b, g);
  }

  lemma {:induction false} WindowPersists(states: seq<Controller>, ops: seq<Op>, i: nat, j: nat, g: Target, a: Active)
    requires IsRun(states, ops) && i <= j < |states| && InWindow(states[i], g, a)
    ensures InWindow(states[j], g, a)
    decreases j - i
  {
    hide IsRun, Apply, InWindow, Valid;
    if i < j {
      RunLength(states, ops);
      RunValid(states, ops, j - 1);
      WindowPersists(states, ops, i, j - 1, g, a);
      StepKeepsWindow(states[j - 1], ops[j - 1], g, a);
    }
  }

  /**
    * Exact effect window: a transient applied at boundary b with offset o and duration d is in
    * effect at a later boundary s, gaps included, exactly when b+o <= s < b+o+d, and its entry
    * exists exactly while s < b+o+d, whatever other operations happen in between.
    */
  lemma ExactEffectWindow(states: seq<Controller>, ops: seq<Op>, i: nat, j: nat, g: Target)
    requires IsRun(states, ops) && i < j < |states| && ops[i].OpAdvance?
    requires states[i].current.Some? ==> ops[i].sample > states[i].current.value
    requires g in states[i].pending && states[i].pending[g].action.Activate?
    requires states[i].pending[g].action.scenario.lifecycle.Transient?
    ensures var d := states[i].pending[g].action.scenario;
            var b := ops[i].sample;
            var c := states[j];
            && d.durationFrames.Some? && c.current.Some? && c.current.value >= b
            && var s := c.current.value;
            && (g in c.active && c.active[g].first == b <==> s < b + d.startFrameOffset + d.durationFrames.value)
            && (g in c.active && c.active[g].first == b && EffectiveAt(c.active[g], s)
                <==> b + d.startFrameOffset <= s < b + d.startFrameOffset + d.durationFrames.value)
  {
    hide IsRun, Valid;
    RunLength(states, ops);
    RunValid(states, ops, i);
    var a := Active(states[i].pending[g].action.scenario, states[i].pending[g].actor, ops[i].sample);
    ActivationOpensWindow(states[i], ops[i].sample, g);
    WindowPersists(states, ops, i + 1, j, g, a);
  }

  // ----- what the windows mean for the frame plan ------------------------------------------

  /** The plan's effect on a target is that of one definition, in force or not. */
  predicate PlanShows(plan: FramePlan, g: Target, d: Definition, inForce: bool) {
    match g
    case EndpointTarget(_) =>
      && (plan.omitData <==> inForce && d.kind.MissingFrames?)
      && (plan.degradedTime <==> inForce && d.kind.DegradedTime?)
      && plan.signal == (if inForce && d.kind.SignalExcursion? then d.signal else None)
    case PdcTarget(_, id) => id in plan.disconnect <==> inForce
  }

  /** The plan leaves a target alone. */
  predicate PlanSpares(plan: FramePlan, g: Target) {
    match g
    case EndpointTarget(_) => !plan.omitData && !plan.degradedTime && plan.signal.None?
    case PdcTarget(_, id) => id !in plan.disconnect
  }

  lemma DisconnectsIff(c: Controller, streamId: nat, id: nat)
    ensures var d := InEffect(c, PdcTarget(streamId, id));
            id in Disconnects(c, streamId) <==> d.Some? && d.value.kind.DisconnectPdc?
  {
    hide EffectiveAt;
    var g := PdcTarget(streamId, id);
    assert g.PdcTarget? && g.streamId == streamId && g.connectionId == id;
  }

  /** The plan of a stream shows each target's active entry exactly while it is effective. */
  lemma PlanOfActive(c: Controller, g: Target)
    requires Valid(c) && g in c.active
    ensures c.current.Some? && PlanShows(PlanFor(c, g.streamId), g, c.active[g].scenario,
                                         EffectiveAt(c.active[g], c.current.value))
  {
    hide Tracked, Inverse, Tokens, Consistent, EffectiveAt, Survives, Disconnects;
    assert Compatible(g, c.active[g].scenario.kind);
    if g.PdcTarget? {
      DisconnectsIff(c, g.streamId, g.connectionId);
    }
  }

  lemma PlanOfIdle(c: Controller, g: Target)
    requires g !in c.active
    ensures PlanSpares(PlanFor(c, g.streamId), g)
  {
    hide EffectiveAt, Disconnects;
    if g.PdcTarget? {
      DisconnectsIff(c, g.streamId, g.connectionId);
    }
  }

  /**
    * Exact effect window of the plan: at every boundary s before b+o+d the frame plan omits data,
    * degrades time, shifts the signals or disconnects the PDC, as the kind says, exactly when
    * b+o <= s; from b+o+d on it does nothing to the target until a later activation.
    */
  lemma EffectWindowInPlan(states: seq<Controller>, ops: seq<Op>, i: nat, j: nat, g: Target)
    requires IsRun(states, ops) && i < j < |states| && ops[i].OpAdvance?
    requires states[i].current.Some? ==> ops[i].sample > states[i].current.value
    requires g in states[i].pending && states[i].pending[g].action.Activate?
    requires states[i].pending[g].action.scenario.lifecycle.Transient?
    ensures var d := states[i].pending[g].action.scenario;
            var b := ops[i].sample;
            var c := states[j];
            && d.durationFrames.Some? && c.current.Some?
            && var s := c.current.value;
            && (s < b + d.startFrameOffset + d.durationFrames.value ==>
                  PlanShows(PlanFor(c, g.streamId), g, d, b + d.startFrameOffset <= s))
            && (s >= b + d.startFrameOffset + d.durationFrames.value ==>
                  PlanSpares(PlanFor(c, g.streamId), g) || (g in c.active && c.active[g].first > b))
  {
    hide IsRun, Valid, PlanFor, PlanShows, PlanSpares;
    RunLength(states, ops);
    RunValid(states, ops, i);
    RunValid(states, ops, j);
    var a := Active(states[i].pending[g].action.scenario, states[i].pending[g].actor, ops[i].sample);
    ActivationOpensWindow(states[i], ops[i].sample, g);
    WindowPersists(states, ops, i + 1, j, g, a);
    if g in states[j].active {
      PlanOfActive(states[j], g);
    } else {
      PlanOfIdle(states[j], g);
    }
  }

  /** Whether a step is the boundary that applies a queued clear of `g`. */
  predicate ClearsAt(c: Controller, op: Op, g: Target) {
    op.OpAdvance? && (c.current.Some? ==> op.sample > c.current.value) && g in c.pending
  }

  /** A sustained entry is untouched by every step except the boundary of its confirmed clear. */
  lemma SustainedStep(c: Controller, op: Op, g: Target)
    requires Valid(c) && g in c.active && c.active[g].scenario.lifecycle.Sustained?
    ensures var d := Apply(c, op);
            if ClearsAt(c, op, g) then c.pending[g].action.Clear? && g !in d.active
            else g in d.active && d.active[g] == c.active[g]
  {
    hide Valid, AdvanceBoundary, ApplyPending, DurationsPresent;
    StepFacts(c, op);
    if op.OpAdvance? {
      AdvanceKeeps(c, op.sample);
      if c.current.Some? && op.sample <= c.current.value {
        RejectedBoundary(c, op.sample);
      } else {
        AdvanceAt(c, op.sample, g);
        PendingIsClear(c, g);
      }
    }
  }

  lemma RejectedBoundary(c: Controller, sample: nat)
    requires c.current.Some? && sample <= c.current.value && DurationsPresent(ApplyPending(c, sample))
    ensures AdvanceBoundary(c, sample).controller == c
  {
  }

  lemma PendingIsClear(c: Controller, g: Target)
    requires Valid(c) && g in c.active
    ensures g in c.pending ==> c.pending[g].action.Clear?
  {
    hide Tracked, Inverse, Tokens, ActiveOk;
    assert g in c.pending ==> Applicable(c.active, g, c.pending[g].action);
  }

  /** Hence a sustained scenario lasts until the boundary of its confirmed clear, and no longer. */
  lemma {:induction false} SustainedUntilCleared(states: seq<Controller>, ops: seq<Op>, i: nat, j: nat, g: Target)
    requires IsRun(states, ops) && i <= j < |states|
    requires g in states[i].active && states[i].active[g].scenario.lifecycle.Sustained?
    requires forall k :: i <= k < j ==> !ClearsAt(states[k], ops[k], g)
    ensures g in states[j].active && states[j].active[g] == states[i].active[g]
    ensures j < |ops| && ClearsAt(states[j], ops[j], g) ==> g !in states[j + 1].active
    decreases j - i
  {
    hide IsRun, Apply, Valid, ClearsAt;
    RunLength(states, ops);
    if i < j {
      SustainedUntilCleared(states, ops, i, j - 1, g);
      RunValid(states, ops, j - 1);
      SustainedStep(states[j - 1], ops[j - 1], g);
    }
    RunValid(states, ops, j);
    if j < |ops| {
      SustainedStep(states[j], ops[j], g);
    }
  }

  /** The plan of a sustained scenario: in force from its offset on, until the boundary of its clear. */
  lemma SustainedInPlan(states: seq<Controller>, ops: seq<Op>, i: nat, j: nat, g: Target)
    requires IsRun(states, ops) && i <= j < |states|
    requires g in states[i].active && states[i].active[g].scenario.lifecycle.Sustained?
    requires forall k :: i <= k < j ==> !ClearsAt(states[k], ops[k], g)
    ensures var a := states[i].active[g];
            && states[j].current.Some?
            && PlanShows(PlanFor(states[j], g.streamId), g, a.scenario,
                         a.first + a.scenario.startFrameOffset <= states[j].current.value)
    ensures j < |ops| && ClearsAt(states[j], ops[j], g) ==> PlanSpares(PlanFor(states[j + 1], g.streamId), g)
  {
    hide IsRun, Valid, PlanFor, PlanShows, PlanSpares, ClearsAt;
    RunLength(states, ops);
    RunValid(states, ops, j);
    SustainedUntilCleared(states, ops, i, j, g);
    PlanOfActive(states[j], g);
    if j < |ops| && ClearsAt(states[j], ops[j], g) {
      PlanOfIdle(states[j + 1], g);
    }
  }

  // ----- boundaries from the scheduler -----------------------------------------------------

  /** The samples of the boundary operations, in order. */
  function Samples(ops: seq<Op>): seq<nat> {
    if ops == [] then []
    else Samples(ops[..|ops| - 1]) + (if ops[|ops| - 1].OpAdvance? then [ops[|ops| - 1].sample] else [])
  }

  lemma {:induction false} CurrentIsLastSample(states: seq<Controller>, ops: seq<Op>, k: nat)
    requires IsRun(states, ops) && states[0].current.None? && k < |states|
    requires Timing.StrictlyIncreasing(Samples(ops[..k]))
    ensures var s := Samples(ops[..k]);
            states[k].current == if s == [] then None else Some(s[|s| - 1])
  {
    hide IsRun, Valid, Apply, Timing.StrictlyIncreasing;
    RunLength(states, ops);
    if k > 0 {
      var j := k - 1;
      assert ops[..k][..j] == ops[..j] && ops[..k][j] == ops[j];
      PrefixIncreasing(Samples(ops[..j]), Samples(ops[..k]));
      CurrentIsLastSample(states, ops, j);
      RunValid(states, ops, j);
      CurrentMoves(states[j], ops[j]);
      if ops[j].OpAdvance? {
        LastIsGreatest(Samples(ops[..j]), ops[j].sample);
      }
    }
  }

  /** Only a later boundary moves the current one. */
  lemma CurrentMoves(c: Controller, op: Op)
    requires Valid(c)
    ensures Apply(c, op).current
         == if op.OpAdvance? && (c.current.None? || op.sample > c.current.value) then Some(op.sample) else c.current
  {
    hide Valid, PrepareActivation, PrepareClear, Confirm, Cancel, DiscardExpired, ApplyPending, Unexpired, Revised;
    StepFacts(c, op);
    if op.OpAdvance? {
      AdvanceKeeps(c, op.sample);
    }
  }

  lemma PrefixIncreasing(a: seq<nat>, b: seq<nat>)
    requires a <= b && Timing.StrictlyIncreasing(b)
    ensures Timing.StrictlyIncreasing(a)
  {
  }

  lemma LastIsGreatest(s: seq<nat>, x: nat)
    requires Timing.StrictlyIncreasing(s + [x])
    ensures s != [] ==> s[|s| - 1] < x
  {
    if s != [] {
      assert (s + [x])[|s| - 1] < (s + [x])[|s|];
    }
  }

  /**
    * Driven by the scheduler's strictly increasing samples, the controller never reports a
    * non-monotonic boundary.
    */
  lemma SchedulerNeverRejected(states: seq<Controller>, ops: seq<Op>, k: nat)
    requires IsRun(states, ops) && states[0].current.None? && k < |ops| && ops[k].OpAdvance?
    requires Timing.StrictlyIncreasing(Samples(ops[..k + 1]))
    ensures DurationsPresent(ApplyPending(states[k], ops[k].sample))
    ensures AdvanceBoundary(states[k], ops[k].sample).result.Ok?
  {
    hide IsRun, Valid, Timing.StrictlyIncreasing;
    assert ops[..k + 1][..k] == ops[..k] && ops[..k + 1][k] == ops[k];
    PrefixIncreasing(Samples(ops[..k]), Samples(ops[..k + 1]));
    RunLength(states, ops);
    CurrentIsLastSample(states, ops, k);
    LastIsGreatest(Samples(ops[..k]), ops[k].sample);
    RunValid(states, ops, k);
    AdvanceKeeps(states[k], ops[k].sample);
  }

  lemma {:induction false} SamplesPrefix(ops: seq<Op>, k: nat)
    requires k <= |ops|
    ensures Samples(ops[..k]) <= Samples(ops)
    decreases |ops|
  {
    if k == |ops| {
      assert ops[..k] == ops;
    } else {
      assert ops[..|ops| - 1][..k] == ops[..k];
      SamplesPrefix(ops[..|ops| - 1], k);
    }
  }

  /**
    * The run loop: whatever instants the scheduler is polled at, below saturation, a controller
    * whose boundaries are the samples it hands out accepts every one of them.
    */
  lemma RunLoopNeverRejected(states: seq<Controller>, ops: seq<Op>, k: nat, t: Timing.Ticking, instants: seq<nat>)
    requires IsRun(states, ops) && states[0].current.None? && k < |ops| && ops[k].OpAdvance?
    requires Timing.Conserved(t) && Samples(ops) == Timing.Ticks(t, instants).emitted
    requires forall now :: now in instants ==> Timing.CurrentIndex(t.scheduler, now) < U64_MAX
    ensures DurationsPresent(ApplyPending(states[k], ops[k].sample))
    ensures AdvanceBoundary(states[k], ops[k].sample).result.Ok?
  {
    hide IsRun, Valid, Timing.StrictlyIncreasing;
    Timing.SamplesConserved(t, instants);
    SamplesPrefix(ops, k + 1);
    PrefixIncreasing(Samples(ops[..k + 1]), Samples(ops));
    SchedulerNeverRejected(states, ops, k);
  }

  // ----- capacity --------------------------------------------------------------------------

  lemma {:induction false} TargetsInjective(c: Controller, tokens: set<nat>)
    requires Inverse(c) && tokens <= c.prepared.Keys
    ensures |TargetsOf(c.prepared, tokens)| == |tokens|
  {
    if tokens != {} {
      var t :| t in tokens;
      var rest := tokens - {t};
      TargetsInjective(c, rest);
      assert TargetsOf(c.prepared, tokens) == TargetsOf(c.prepared, rest) + {c.prepared[t].target};
      assert c.prepared[t].target !in TargetsOf(c.prepared, rest) by {
        assert forall u :: u in rest ==> c.preparedTargets[c.prepared[u].target] == u;
      }
    }
  }

  /** At most 450 targets, hence at most 900 lifecycle records. */
  lemma CapacityBound(c: Controller)
    requires Valid(c)
    ensures |c.prepared| + |c.pending| + |c.active| <= 2 * MAX_TARGETS
  {
    TargetsInjective(c, c.prepared.Keys);
    var targets := TargetsOf(c.prepared, c.prepared.Keys);
    assert targets <= c.preparedTargets.Keys;
    assert targets !! c.pending.Keys;
    SubsetSize(targets + c.pending.Keys, Tracked(c));
    SubsetSize(c.active.Keys, Tracked(c));
  }
}
