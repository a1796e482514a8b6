/**
  * The scenario controller as the source runs it: an object whose maps are updated in place.
  * Each method refines the function of the same name in `Scenario`.
  */
module ScenarioController {
  import opened Bytes
  import opened Catalog
  import opened Scenario

  /** The active map after the queued actions of `done` have been applied. */
  ghost function Applied(active: map<Target, Active>, pending: map<Target, Pending>, done: set<Target>,
                         sample: nat): map<Target, Active>
    requires done <= pending.Keys
  {
    map t | t in active.Keys + done && (t in done ==> pending[t].action.Activate?) ::
      if t in done then Active(pending[t].action.scenario, pending[t].actor, sample) else active[t]
  }

  /** The controller once the tokens of `done` have been discarded. */
  ghost function Dropped(c: Controller, done: set<nat>): Controller {
    c.(prepared := c.prepared - done,
    preparedTargets := c.preparedTargets - TargetsOf(c.prepared, done),
    revision := c.revision + |done|)
  }

  /** Removing one more expired token from both views of the preparations. */
  lemma DiscardStep(c: Controller, done: set<nat>, token: nat)
    requires token in c.prepared && token !in done
    ensures token in Dropped(c, done).prepared
    ensures var d := Dropped(c, done);
            Dropped(c, done + {token})
            == d.(prepared := d.prepared - {token}, preparedTargets := d.preparedTargets - {d.prepared[token].target},
            revision := d.revision + 1)
  {
    var target := c.prepared[token].target;
    assert TargetsOf(c.prepared, done + {token}) == TargetsOf(c.prepared, done) + {target} by {
      forall g
        ensures g in TargetsOf(c.prepared, done + {token}) <==> g in TargetsOf(c.prepared, done) || g == target
      {
        assert token in done + {token};
      }
    }
    assert c.prepared - done - {token} == c.prepared - (done + {token});
    assert c.preparedTargets - TargetsOf(c.prepared, done) - {target}
        == c.preparedTargets - TargetsOf(c.prepared, done + {token});
  }

  lemma DiscardEnds(c: Controller, now: nat)
    ensures Dropped(c, {}) == c && Dropped(c, ExpiredTokens(c, now)) == DiscardExpired(c, now)
    ensures ExpiredTokens(c, now) <= c.prepared.Keys
  {
  }

  /** Applying one more queued action. */
  lemma ApplyStep(active: map<Target, Active>, pending: map<Target, Pending>, done: set<Target>, sample: nat,
                  target: Target)
    requires done <= pending.Keys && target in pending
    ensures var now := Applied(active, pending, done, sample);
            var next := Applied(active, pending, done + {target}, sample);
            match pending[target].action
            case Activate(scenario) => next == now[target := Active(scenario, pending[target].actor, sample)]
            case Clear => next == now - {target}
  {
  }

  lemma AppliedStart(active: map<Target, Active>, pending: map<Target, Pending>, sample: nat)
    ensures Applied(active, pending, {}, sample) == active
  {
  }

  lemma AppliedAll(c: Controller, sample: nat)
    ensures Applied(c.active, c.pending, c.pending.Keys, sample) == ApplyPending(c, sample)
  {
  }

  /** A preparation is gone exactly if its expiry has been reached, and otherwise unchanged. */
  ghost predicate OnlyExpiredGone(before: map<nat, Prepared>, after: map<nat, Prepared>, now: nat) {
    && (forall t :: t in after <==> t in before && now < before[t].expiresAt)
    && forall t :: t in after ==> after[t] == before[t]
  }

  lemma DiscardIsExact(c: Controller, now: nat)
    ensures OnlyExpiredGone(c.prepared, DiscardExpired(c, now).prepared, now)
  {
    hide DiscardExpired;
    DiscardFrame(c, now);
  }

  /** What an issued ticket says about the state it was issued in. */
  lemma TicketFacts(c: Controller, target: Target, action: Action, actor: Option<string>, now: nat, permitsActive: bool)
    requires Scenario.Valid(c)
    ensures var o := PrepareAction(c, target, action, actor, now, permitsActive);
            o.result.Ok? ==>
              var t := o.result.value;
              && t.token !in c.prepared && t.token in o.controller.prepared
              && o.controller.prepared[t.token] == t.prepared
              && t.token == c.nextToken && t.prepared == Prepared(target, action, actor, now + 60_000_000_000)
              && target !in o.controller.pending && (permitsActive || target !in o.controller.active)
  {
    hide DiscardExpired, Tracked, Inverse, Consistent, ActiveOk;
    DiscardFrame(c, now);
  }

  class ScenarioController {
    const catalog: seq<Definition>
    const horizon: nat
    var prepared: map<nat, Prepared>
    var preparedTargets: map<Target, nat>
    var pending: map<Target, Pending>
    var active: map<Target, Active>
    var current: Option<nat>
    var nextToken: nat
    var revision: nat

    function State(): Controller
      reads this
    {
      Controller(catalog, horizon, prepared, preparedTargets, pending, active, current, nextToken, revision)
    }

    /** The controller's invariant: the four maps agree, and tokens, durations and capacity are in bounds. */
    ghost predicate Valid()
      reads this
    {
      Scenario.Valid(State())
    }

    constructor (catalog: seq<Definition>, horizon: nat)
      requires forall i :: 0 <= i < |catalog| ==> WellFormed(catalog[i])
      ensures Valid() && State() == New(catalog, horizon)
    {
      this.catalog := catalog;
      this.horizon := horizon;
      prepared := map[];
      preparedTargets := map[];
      pending := map[];
      active := map[];
      current := None;
      nextToken := 1;
      revision := 0;
      NewIsValid(catalog, horizon);
    }

    /** One removal and one revision step for each expired token, in any order. */
    method DiscardExpiredPreparations(now: nat)
      modifies this`prepared, this`preparedTargets, this`revision
      ensures State() == DiscardExpired(old(State()), now)
      ensures OnlyExpiredGone(old(prepared), prepared, now)
    {
      hide TargetsOf, ExpiredTokens, Dropped, DiscardExpired, OnlyExpiredGone;
      ghost var c := State();
      DiscardIsExact(c, now);
      var expired := ExpiredTokens(State(), now);
      DiscardEnds(c, now);
      var remaining := expired;
      ghost var done: set<nat> := {};
      while remaining != {}
        invariant done !! remaining && done + remaining == expired
        invariant State() == Dropped(c, done)
        decreases |remaining|
      {
        var token :| token in remaining;
        DiscardStep(c, done, token);
        preparedTargets := preparedTargets - {prepared[token].target};
        prepared := prepared - {token};
        revision := revision + 1;
        remaining := remaining - {token};
        done := done + {token};
      }
      assert done == expired;
    }

    method Prepare(target: Target, action: Action, actor: Option<string>, now: nat, permitsActive: bool)
      returns (r: Result<Ticket, Error>)
      modifies this`prepared, this`preparedTargets, this`revision, this`nextToken
      ensures Outcome(State(), r) == PrepareAction(old(State()), target, action, actor, now, permitsActive)
    {
      hide DiscardExpired, Tracked;
      DiscardExpiredPreparations(now);
      ghost var c := State();
      if target in preparedTargets || target in pending || (!permitsActive && target in active) {
        return Err(TargetBusy);
      }
      var tracked := Tracked(State());
      if target !in tracked && |tracked| >= MAX_TARGETS {
        return Err(TargetCapacityExceeded);
      }
      if now + TOKEN_TTL > horizon {
        return Err(TokenExpiryOverflow);
      }
      if nextToken + 1 > U64_MAX {
        return Err(TokenSpaceExhausted);
      }
      var token := nextToken;
      var p := Prepared(target, action, actor, now + TOKEN_TTL);
      nextToken := nextToken + 1;
      prepared := prepared[token := p];
      preparedTargets := preparedTargets[target := token];
      revision := revision + 1;
      r := Ok(Ticket(token, p));
    }

    /** A ticket is issued only for a target that is idle in all maps, and expires a minute later. */
    method PrepareScenario(target: Target, name: string, actor: Option<string>, now: nat)
      returns (r: Result<Ticket, Error>)
      requires Valid()
      modifies this`prepared, this`preparedTargets, this`revision, this`nextToken
      ensures Valid() && Outcome(State(), r) == PrepareActivation(old(State()), target, name, actor, now)
      ensures r.Ok? ==>
                && r.value.token !in old(prepared) && r.value.token in prepared
                && prepared[r.value.token] == r.value.prepared
                && r.value.prepared.target == target && r.value.prepared.expiresAt == now + TOKEN_TTL
                && target !in pending && target !in active
                && r.value.prepared.actor == actor && r.value.prepared.action.Activate?
                && r.value.prepared.action.scenario in catalog && r.value.prepared.action.scenario.name == name
                && Compatible(target, r.value.prepared.action.scenario.kind)
    {
      hide PrepareAction, Scenario.Valid;
      PrepareActivationKeeps(State(), target, name, actor, now);
      ghost var c := State();
      if target.streamId == 0 {
        return Err(InvalidTarget);
      }
      if !ValidName(name) {
        return Err(InvalidScenarioName);
      }
      if !ValidLabel(actor) {
        return Err(InvalidActorLabel);
      }
      match Find(catalog, name) {
        case None => r := Err(UnknownScenario);
        case Some(scenario) =>
          if !Compatible(target, scenario.kind) {
            return Err(IncompatibleTarget);
          }
          TicketFacts(c, target, Activate(scenario), actor, now, false);
          r := Prepare(target, Activate(scenario), actor, now, false);
      }
    }

    /** A clear is prepared only for a target with an active sustained scenario. */
    method PrepareClearing(target: Target, actor: Option<string>, now: nat) returns (r: Result<Ticket, Error>)
      requires Valid()
      modifies this`prepared, this`preparedTargets, this`revision, this`nextToken
      ensures Valid() && Outcome(State(), r) == PrepareClear(old(State()), target, actor, now)
      ensures r.Ok? ==> target in active && active[target].scenario.lifecycle.Sustained? && target !in pending
      ensures r.Ok? ==>
                && r.value.token !in old(prepared) && r.value.token in prepared
                && prepared[r.value.token] == r.value.prepared
                && r.value.prepared == Prepared(target, Clear, actor, now + TOKEN_TTL)
    {
      hide PrepareAction, DiscardExpired, Scenario.Valid;
      PrepareClearKeeps(State(), target, actor, now);
      DiscardKeeps(State(), now);
      DiscardFrame(State(), now);
      NextTokenIsFresh(State());
      if target.streamId == 0 {
        return Err(InvalidTarget);
      }
      if !ValidLabel(actor) {
        return Err(InvalidActorLabel);
      }
      DiscardExpiredPreparations(now);
      if target in preparedTargets || target in pending {
        return Err(TargetBusy);
      }
      if target !in active {
        return Err(NoActiveScenario);
      }
      if !active[target].scenario.lifecycle.Sustained? {
        return Err(ClearRequiresSustainedScenario);
      }
      TicketFacts(State(), target, Clear, actor, now, true);
      r := Prepare(target, Clear, actor, now, true);
    }

    /** A known, unexpired token always confirms and queues its action; afterwards it is unknown in any case. */
    method ConfirmToken(token: nat, now: nat) returns (r: Result<Pending, Error>)
      requires Valid()
      modifies this`prepared, this`preparedTargets, this`revision, this`pending
      ensures Valid() && Outcome(State(), r) == Confirm(old(State()), token, now)
      ensures r.Ok? <==> token in old(prepared) && now < old(prepared)[token].expiresAt
      ensures r.Ok? ==>
                var p := old(prepared)[token];
                r.value == Pending(p.action, p.actor) && pending == old(pending)[p.target := r.value]
      ensures token !in prepared
    {
      hide DiscardExpired, Scenario.Valid;
      ConfirmKeeps(State(), token, now);
      if token in prepared && now < prepared[token].expiresAt {
        ConfirmSucceeds(State(), token, now);
      }
      ghost var taken := if token in prepared then Consume(State(), token) else State();
      DiscardFrame(taken, now);
      if token !in prepared {
        return Err(UnknownToken);
      }
      var p := prepared[token];
      prepared := prepared - {token};
      preparedTargets := preparedTargets - {p.target};
      revision := revision + 1;
      if now >= p.expiresAt {
        return Err(ExpiredToken);
      }
      DiscardExpiredPreparations(now);
      if p.target in pending {
        return Err(TargetBusy);
      }
      match p.action {
        case Activate(_) =>
          if p.target in active {
            return Err(TargetBusy);
          }
        case Clear =>
          if p.target !in active {
            return Err(NoActiveScenario);
          }
          if !active[p.target].scenario.lifecycle.Sustained? {
            return Err(ClearRequiresSustainedScenario);
          }
      }
      var queued := Pending(p.action, p.actor);
      pending := pending[p.target := queued];
      r := Ok(queued);
    }

    /** A known, unexpired token is cancelled; afterwards it is unknown in any case. */
    method CancelToken(token: nat, now: nat) returns (r: Result<Ticket, Error>)
      requires Valid()
      modifies this`prepared, this`preparedTargets, this`revision
      ensures Valid() && Outcome(State(), r) == Cancel(old(State()), token, now)
      ensures r.Ok? <==> token in old(prepared) && now < old(prepared)[token].expiresAt
      ensures r.Ok? ==> r.value == Ticket(token, old(prepared)[token])
      ensures token !in prepared
    {
      hide DiscardExpired, Scenario.Valid;
      CancelKeeps(State(), token, now);
      ghost var taken := if token in prepared then Consume(State(), token) else State();
      DiscardFrame(taken, now);
      if token !in prepared {
        return Err(UnknownToken);
      }
      var p := prepared[token];
      prepared := prepared - {token};
      preparedTargets := preparedTargets - {p.target};
      revision := revision + 1;
      if now >= p.expiresAt {
        return Err(ExpiredToken);
      }
      DiscardExpiredPreparations(now);
      r := Ok(Ticket(token, p));
    }

    /** The queued actions, one by one. */
    method ApplyQueue(queued: map<Target, Pending>, sample: nat)
      modifies this`active
      ensures active == Applied(old(active), queued, queued.Keys, sample)
    {
      hide Applied;
      ghost var before := active;
      var queue := queued;
      ghost var done: set<Target> := {};
      AppliedStart(before, queued, sample);
      while queue != map[]
        invariant done !! queue.Keys && done + queue.Keys == queued.Keys
        invariant forall t :: t in queue ==> queue[t] == queued[t]
        invariant active == Applied(before, queued, done, sample)
        decreases |queue|
      {
        var target :| target in queue;
        ApplyStep(before, queued, done, sample, target);
        match queue[target].action {
          case Activate(scenario) => active := active[target := Active(scenario, queue[target].actor, sample)];
          case Clear => active := active - {target};
        }
        queue := queue - {target};
        done := done + {target};
      }
      assert done == queued.Keys;
    }

    /** The queued actions are taken out and applied, then expired transients dropped. */
    method ReachBoundary(sample: nat) returns (r: Result<(), Error>)
      requires Valid()
      modifies this`current, this`pending, this`active, this`revision
      ensures Valid() && DurationsPresent(ApplyPending(old(State()), sample))
      ensures Outcome(State(), r) == AdvanceBoundary(old(State()), sample)
      ensures r.Ok? <==> old(current).None? || sample > old(current).value
      ensures r.Ok? ==> pending == map[] && current == Some(sample)
    {
      hide Survives, Applied, ApplyPending, Unexpired, Scenario.Valid;
      AdvanceKeeps(State(), sample);
      if current.Some? && sample <= current.value {
        return Err(NonMonotonicBoundary);
      }
      current := Some(sample);
      var queue := pending;
      var changed := queue != map[];
      pending := map[];
      ApplyQueue(queue, sample);
      AppliedAll(old(State()), sample);
      var before := |active|;
      active := Unexpired(active, sample);
      if changed || |active| != before {
        revision := revision + 1;
      }
      r := Ok(());
    }

    /** `frame_plan`: the loop over the active map collects the planned PDC disconnects. */
    method FramePlanFor(streamId: nat) returns (plan: FramePlan)
      ensures plan == PlanFor(State(), streamId)
    {
      if current.None? {
        assert Disconnects(State(), streamId) == {};
        return NO_EFFECT;
      }
      plan := NO_EFFECT;
      var target := EndpointTarget(streamId);
      if target in active && EffectiveAt(active[target], current.value) {
        var scenario := active[target].scenario;
        match scenario.kind {
          case DegradedTime => plan := plan.(degradedTime := true);
          case MissingFrames => plan := plan.(omitData := true);
          case SignalExcursion => plan := plan.(signal := scenario.signal);
          case _ =>
        }
      }
      var remaining, ids: set<nat> := active.Keys, {};
      while remaining != {}
        invariant remaining <= active.Keys
        invariant forall id :: id in ids <==>
                               var t := PdcTarget(streamId, id);
                               t in active && t !in remaining && InEffect(State(), t).Some?
                               && InEffect(State(), t).value.kind.DisconnectPdc?
        decreases |remaining|
      {
        var t :| t in remaining;
        if t.PdcTarget? && t.streamId == streamId && active[t].scenario.kind.DisconnectPdc?
           && EffectiveAt(active[t], current.value) {
          ids := ids + {t.connectionId};
        }
        remaining := remaining - {t};
      }
      assert ids == Disconnects(State(), streamId) by {
        forall id
          ensures id in ids <==> id in Disconnects(State(), streamId)
        {
          var t := PdcTarget(streamId, id);
          assert id in ids ==> t in active && t.PdcTarget? && t.connectionId == id;
        }
      }
      plan := plan.(disconnect := ids);
    }
  }
}
