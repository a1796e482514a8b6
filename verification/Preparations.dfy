/**
  * The life of a prepared action: exactly which requests are granted a ticket, how long the ticket
  * stays good, and that what takes effect at the boundary is what was asked for.
  */
module Preparations {
  import opened Bytes
  import opened Catalog
  import opened Scenario
  import opened ScenarioRuns

  // ----- granting a ticket -----------------------------------------------------------------

  const A_MINUTE := 60_000_000_000

  /** Targets with a preparation that has not expired. */
  function Waiting(c: Controller, now: nat): set<Target> {
    set t | t in c.prepared && now < c.prepared[t].expiresAt :: c.prepared[t].target
  }

  function Held(c: Controller, now: nat): set<Target> {
    c.active.Keys + c.pending.Keys + Waiting(c, now)
  }

  /** Nothing is prepared or queued for the target. */
  predicate Free(c: Controller, target: Target, now: nat) {
    target !in Waiting(c, now) && target !in c.pending
  }

  predicate RoomForTicket(c: Controller, target: Target, now: nat) {
    && (target in Held(c, now) || |Held(c, now)| < 450)
    && now + A_MINUTE <= c.horizon && c.nextToken < U64_MAX
  }

  lemma WaitingTargets(c: Controller, now: nat)
    requires Inverse(c)
    ensures DiscardExpired(c, now).preparedTargets.Keys == Waiting(c, now)
    ensures Tracked(DiscardExpired(c, now)) == Held(c, now)
  {
    var expired := ExpiredTokens(c, now);
    forall g
      ensures g in DiscardExpired(c, now).preparedTargets <==> g in Waiting(c, now)
    {
      if g in c.preparedTargets {
        var t := c.preparedTargets[g];
        assert t in expired ==> g in TargetsOf(c.prepared, expired);
      }
      if g in Waiting(c, now) {
        var t :| t in c.prepared && now < c.prepared[t].expiresAt && c.prepared[t].target == g;
        assert c.preparedTargets[g] == t;
      }
    }
  }

  /** The preparations afterwards: the unexpired ones, and the new one under the next token. */
  ghost predicate Grants(c: Controller, d: Controller, p: Prepared, now: nat) {
    && (forall t :: t in d.prepared <==> t == c.nextToken || (t in c.prepared && now < c.prepared[t].expiresAt))
    && (forall t :: t in d.prepared && t != c.nextToken ==> d.prepared[t] == c.prepared[t])
    && d.prepared[c.nextToken] == p && d.nextToken == c.nextToken + 1
    && d.pending == c.pending && d.active == c.active && d.current == c.current
  }

  lemma ActionGranted(c: Controller, target: Target, action: Action, actor: Option<string>, now: nat,
                      permitsActive: bool)
    requires Valid(c)
    ensures var o := PrepareAction(c, target, action, actor, now, permitsActive);
            var busy := !Free(c, target, now) || (!permitsActive && target in c.active);
            && (o.result.Ok? <==> !busy && RoomForTicket(c, target, now))
            && (o.result == Err(TargetBusy) <==> busy)
            && (o.result.Ok? ==>
                  var p := Prepared(target, action, actor, now + A_MINUTE);
                  o.result.value == Ticket(c.nextToken, p) && Grants(c, o.controller, p, now))
            && (o.result.Err? ==> o.controller == DiscardExpired(c, now))
  {
    hide DiscardExpired, Consistent, ActiveOk, Inverse, Waiting, Held, Tracked;
    WaitingTargets(c, now);
    DiscardFrame(c, now);
    NextTokenIsFresh(c);
  }

  /**
    * An activation is granted exactly if the request is well-formed, names a scenario of the
    * catalogue that suits the target, the target is idle and there is room. The ticket carries the
    * scenario of the name asked for and the caller's label, and is good for one minute.
    */
  lemma ActivationGranted(c: Controller, target: Target, name: string, actor: Option<string>, now: nat)
    requires Valid(c)
    ensures var o := PrepareActivation(c, target, name, actor, now);
            var found := Find(c.catalog, name);
            && (o.result.Ok? <==>
                && target.streamId != 0 && ValidName(name) && ValidLabel(actor)
                && found.Some? && Compatible(target, found.value.kind)
                && Free(c, target, now) && target !in c.active && RoomForTicket(c, target, now))
            && (o.result.Ok? ==>
                  var p := Prepared(target, Activate(found.value), actor, now + A_MINUTE);
                  && found.value in c.catalog && found.value.name == name
                  && o.result.value == Ticket(c.nextToken, p) && Grants(c, o.controller, p, now))
            && (o.result.Err? ==> o.controller == c || o.controller == DiscardExpired(c, now))
  {
    hide PrepareAction, DiscardExpired, Valid, Free, RoomForTicket, Grants, Utf8Length;
    var found := Find(c.catalog, name);
    if found.Some? {
      ActionGranted(c, target, Activate(found.value), actor, now, false);
    }
  }

  /** A clear is granted exactly for a target with an active sustained scenario and nothing under way. */
  lemma ClearGranted(c: Controller, target: Target, actor: Option<string>, now: nat)
    requires Valid(c)
    ensures var o := PrepareClear(c, target, actor, now);
            && (o.result.Ok? <==>
                && target.streamId != 0 && ValidLabel(actor) && Free(c, target, now)
                && target in c.active && c.active[target].scenario.lifecycle.Sustained?
                && RoomForTicket(c, target, now))
            && (o.result.Ok? ==>
                  var p := Prepared(target, Clear, actor, now + A_MINUTE);
                  o.result.value == Ticket(c.nextToken, p) && Grants(c, o.controller, p, now))
            && (o.result.Err? ==> o.controller == c || o.controller == DiscardExpired(c, now))
  {
    hide PrepareAction, DiscardExpired, Valid, Grants, Utf8Length, Inverse, Waiting, Held, Tracked;
    ValidIsInverse(c);
    WaitingTargets(c, now);
    DiscardFrame(c, now);
    DiscardTwice(c, target, Clear, actor, now, true);
    ActionGranted(c, target, Clear, actor, now, true);
  }

  lemma ValidIsInverse(c: Controller)
    requires Valid(c)
    ensures Inverse(c)
  {
  }

  /** Discarding a second time at the same instant changes nothing. */
  lemma DiscardTwice(c: Controller, target: Target, action: Action, actor: Option<string>, now: nat,
                     permitsActive: bool)
    ensures PrepareAction(DiscardExpired(c, now), target, action, actor, now, permitsActive)
         == PrepareAction(c, target, action, actor, now, permitsActive)
  {
    hide DiscardExpired;
    NothingLeftToDiscard(c, now);
  }

  lemma NothingLeftToDiscard(c: Controller, now: nat)
    ensures DiscardExpired(DiscardExpired(c, now), now) == DiscardExpired(c, now)
  {
    var d := DiscardExpired(c, now);
    assert ExpiredTokens(d, now) == {};
    assert TargetsOf(d.prepared, {}) == {};
    assert d.prepared - {} == d.prepared && d.preparedTargets - {} == d.preparedTargets;
  }

  /** Confirming or cancelling removes the token in every case, and otherwise only what has expired. */
  lemma ConsumedExactly(c: Controller, token: nat, now: nat)
    requires Valid(c)
    ensures var o := Confirm(c, token, now);
            && o.result == (if token !in c.prepared then Err(UnknownToken)
                            else if now >= c.prepared[token].expiresAt then Err(ExpiredToken)
                            else Ok(Pending(c.prepared[token].action, c.prepared[token].actor)))
            && (o.result.Err? ==> o.controller.pending == c.pending)
            && forall t :: t != token && t in c.prepared && now < c.prepared[t].expiresAt ==>
                             t in o.controller.prepared && o.controller.prepared[t] == c.prepared[t]
    ensures var o := Cancel(c, token, now);
            && o.result == (if token !in c.prepared then Err(UnknownToken)
                            else if now >= c.prepared[token].expiresAt then Err(ExpiredToken)
                            else Ok(Ticket(token, c.prepared[token])))
            && o.controller.pending == c.pending && o.controller.active == c.active
            && forall t :: t != token && t in c.prepared && now < c.prepared[t].expiresAt ==>
                             t in o.controller.prepared && o.controller.prepared[t] == c.prepared[t]
  {
    hide DiscardExpired, Valid;
    if token in c.prepared {
      DiscardFrame(Consume(c, token), now);
      if now < c.prepared[token].expiresAt {
        ConfirmSucceeds(c, token, now);
      }
    }
  }

  // ----- waiting ---------------------------------------------------------------------------

  predicate Consumes(op: Op, token: nat) {
    (op.OpConfirm? || op.OpCancel?) && op.token == token
  }

  /** Boundaries read no clock. */
  predicate ReadsBefore(op: Op, instant: nat) {
    op.OpAdvance? || op.now < instant
  }

  lemma GrantedStays(c: Controller, d: Controller, p: Prepared, now: nat, token: nat)
    requires Valid(c) && Grants(c, d, p, now) && token in c.prepared && now < c.prepared[token].expiresAt
    ensures token in d.prepared && d.prepared[token] == c.prepared[token]
  {
    NextTokenIsFresh(c);
  }

  /** A preparation survives every step that neither consumes it nor reads a clock at its expiry. */
  lemma UnconsumedStays(c: Controller, op: Op, token: nat)
    requires Valid(c) && token in c.prepared
    requires !Consumes(op, token) && ReadsBefore(op, c.prepared[token].expiresAt)
    ensures token in Apply(c, op).prepared && Apply(c, op).prepared[token] == c.prepared[token]
  {
    hide PrepareActivation, PrepareClear, Confirm, Cancel, DiscardExpired, Valid, Grants, ApplyPending, Unexpired;
    match op {
      case OpPrepare(target, name, actor, now) =>
        DiscardFrame(c, now);
        ActivationGranted(c, target, name, actor, now);
        var o := PrepareActivation(c, target, name, actor, now);
        if o.result.Ok? {
          GrantedStays(c, o.controller, o.result.value.prepared, now, token);
        }
      case OpClear(target, actor, now) =>
        DiscardFrame(c, now);
        ClearGranted(c, target, actor, now);
        var o := PrepareClear(c, target, actor, now);
        if o.result.Ok? {
          GrantedStays(c, o.controller, o.result.value.prepared, now, token);
        }
      case OpConfirm(other, now) => ConsumedExactly(c, other, now);
      case OpCancel(other, now) => ConsumedExactly(c, other, now);
      case OpAdvance(sample) => AdvanceKeeps(c, sample);
      case OpSnapshot(now) => DiscardFrame(c, now);
    }
  }

  /**
    * A ticket stays good: as long as no operation confirms or cancels it and every clock reading
    * lies before its expiry, it is prepared unchanged, whatever else happens; confirming it before
    * its expiry then succeeds with its action, and cancelling it returns it.
    */
  lemma {:induction false} TicketStaysGood(states: seq<Controller>, ops: seq<Op>, i: nat, j: nat, token: nat, now: nat)
    requires IsRun(states, ops) && i <= j < |states| && token in states[i].prepared
    requires forall k :: i <= k < j ==>
                           !Consumes(ops[k], token) && ReadsBefore(ops[k], states[i].prepared[token].expiresAt)
    ensures token in states[j].prepared && states[j].prepared[token] == states[i].prepared[token]
    ensures var p := states[i].prepared[token];
            now < p.expiresAt ==> && Confirm(states[j], token, now).result == Ok(Pending(p.action, p.actor))
                                  && Cancel(states[j], token, now).result == Ok(Ticket(token, p))
    decreases j - i
  {
    hide IsRun, Apply, Valid, Confirm, Cancel, Consumes, ReadsBefore;
    RunLength(states, ops);
    RunValid(states, ops, j);
    if i < j {
      TicketStaysGood(states, ops, i, j - 1, token, now);
      RunValid(states, ops, j - 1);
      UnconsumedStays(states[j - 1], ops[j - 1], token);
    }
    ConsumedExactly(states[j], token, now);
  }

  // ----- what was asked for is what takes effect -------------------------------------------

  /** A token never changes what it stands for. */
  lemma {:induction false} TokenKeepsMeaning(states: seq<Controller>, ops: seq<Op>, i: nat, j: nat, token: nat)
    requires IsRun(states, ops) && i <= j < |states|
    requires token < states[i].nextToken && token in states[j].prepared
    ensures token in states[i].prepared && states[i].prepared[token] == states[j].prepared[token]
    ensures states[j].nextToken >= states[i].nextToken
    decreases j - i
  {
    hide IsRun, Apply, Valid;
    RunLength(states, ops);
    if i < j {
      RunValid(states, ops, j - 1);
      StepFacts(states[j - 1], ops[j - 1]);
      NextTokenGrows(states, ops, i, j - 1);
      TokenKeepsMeaning(states, ops, i, j - 1, token);
    }
  }

  lemma {:induction false} NextTokenGrows(states: seq<Controller>, ops: seq<Op>, i: nat, j: nat)
    requires IsRun(states, ops) && i <= j < |states|
    ensures states[j].nextToken >= states[i].nextToken
    decreases j - i
  {
    hide IsRun, Apply, Valid;
    RunLength(states, ops);
    if i < j {
      RunValid(states, ops, j - 1);
      StepFacts(states[j - 1], ops[j - 1]);
      NextTokenGrows(states, ops, i, j - 1);
    }
  }

  predicate Reaches(c: Controller, op: Op) {
    op.OpAdvance? && (c.current.Some? ==> op.sample > c.current.value)
  }

  /** A queued action waits for the next boundary, which applies it there. */
  lemma QueuedStep(c: Controller, op: Op, g: Target)
    requires Valid(c) && g in c.pending
    ensures var d := Apply(c, op);
            var q := c.pending[g];
            if !Reaches(c, op) then g in d.pending && d.pending[g] == q
            else if q.action.Activate? then
              g in d.active && d.active[g] == Active(q.action.scenario, q.actor, op.sample)
            else g !in d.active
  {
    hide PrepareActivation, PrepareClear, Confirm, Cancel, DiscardExpired, Valid, AdvanceBoundary, ApplyPending,
      DurationsPresent;
    match op {
      case OpPrepare(target, name, actor, now) =>
        DiscardFrame(c, now);
        ActivationGranted(c, target, name, actor, now);
      case OpClear(target, actor, now) =>
        DiscardFrame(c, now);
        ClearGranted(c, target, actor, now);
      case OpConfirm(token, now) => ConfirmSpares(c, token, now, g);
      case OpCancel(token, now) => ConsumedExactly(c, token, now);
      case OpAdvance(sample) =>
        AdvanceKeeps(c, sample);
        if c.current.Some? && sample <= c.current.value {
          RejectedBoundary(c, sample);
        } else {
          AdvanceAt(c, sample, g);
        }
      case OpSnapshot(now) => DiscardFrame(c, now);
    }
  }

  lemma ConfirmSpares(c: Controller, token: nat, now: nat, g: Target)
    requires Valid(c) && g in c.pending
    ensures var d := Confirm(c, token, now).controller; g in d.pending && d.pending[g] == c.pending[g]
  {
    hide Valid, Confirm;
    ConsumedExactly(c, token, now);
    if token in c.prepared && now < c.prepared[token].expiresAt {
      ConfirmSucceeds(c, token, now);
    }
  }

  lemma {:induction false} QueuedWaits(states: seq<Controller>, ops: seq<Op>, j: nat, k: nat, g: Target)
    requires IsRun(states, ops) && j <= k < |states| && g in states[j].pending
    requires forall m :: j <= m < k ==> !Reaches(states[m], ops[m])
    ensures g in states[k].pending && states[k].pending[g] == states[j].pending[g]
    decreases k - j
  {
    hide IsRun, Apply, Valid, Reaches;
    RunLength(states, ops);
    if j < k {
      QueuedWaits(states, ops, j, k - 1, g);
      RunValid(states, ops, k - 1);
      QueuedStep(states[k - 1], ops[k - 1], g);
    }
  }

  /** A prepared action, confirmed at step `j`, is queued until the next boundary and applied there. */
  lemma TicketIsApplied(states: seq<Controller>, ops: seq<Op>, i: nat, j: nat, k: nat, token: nat)
    requires IsRun(states, ops) && i <= j < k < |states| && token in states[i].prepared
    requires ops[j].OpConfirm? && ops[j].token == token && Confirm(states[j], token, ops[j].now).result.Ok?
    requires forall m :: j < m < k ==> !Reaches(states[m], ops[m])
    ensures var p := states[i].prepared[token];
            && p.target in states[k].pending && states[k].pending[p.target] == Pending(p.action, p.actor)
            && (k < |ops| && Reaches(states[k], ops[k]) ==>
                  match p.action
                  case Activate(d) => p.target in states[k + 1].active
                                      && states[k + 1].active[p.target] == Active(d, p.actor, ops[k].sample)
                  case Clear => p.target !in states[k + 1].active)
  {
    hide IsRun, Valid, Confirm, Reaches, Apply;
    RunLength(states, ops);
    RunValid(states, ops, i);
    RunValid(states, ops, k);
    TokenIssued(states[i], token);
    var p := states[i].prepared[token];
    ConfirmedIsQueued(states, ops, i, j, token);
    QueuedWaits(states, ops, j + 1, k, p.target);
    if k < |ops| {
      QueuedStep(states[k], ops[k], p.target);
    }
  }

  /** Right after the confirmation the action is queued. */
  lemma ConfirmedIsQueued(states: seq<Controller>, ops: seq<Op>, i: nat, j: nat, token: nat)
    requires IsRun(states, ops) && i <= j < |ops| && token in states[i].prepared && token < states[i].nextToken
    requires ops[j].OpConfirm? && ops[j].token == token && Confirm(states[j], token, ops[j].now).result.Ok?
    ensures |states| == |ops| + 1
    ensures var p := states[i].prepared[token];
            p.target in states[j + 1].pending && states[j + 1].pending[p.target] == Pending(p.action, p.actor)
  {
    hide IsRun, Valid, Confirm, Apply;
    RunLength(states, ops);
    RunValid(states, ops, j);
    ConsumedExactly(states[j], token, ops[j].now);
    TokenKeepsMeaning(states, ops, i, j, token);
    ConfirmSucceeds(states[j], token, ops[j].now);
    assert states[j + 1] == Confirm(states[j], token, ops[j].now).controller by {
      ApplyConfirm(states[j], ops[j]);
    }
  }

  lemma ApplyConfirm(c: Controller, op: Op)
    requires Valid(c) && op.OpConfirm?
    ensures Apply(c, op) == Confirm(c, op.token, op.now).controller
  {
  }

  /**
    * What takes effect is what was asked for: an activation prepared by name, once its token is
    * confirmed, is queued and then active with a scenario of that very name and the caller's label.
    */
  lemma RequestedIsApplied(states: seq<Controller>, ops: seq<Op>, i: nat, j: nat, k: nat)
    requires IsRun(states, ops) && i < j < k < |states| && ops[i].OpPrepare? && ops[j].OpConfirm?
    requires var o := PrepareActivation(states[i], ops[i].target, ops[i].name, ops[i].actor, ops[i].now);
             o.result.Ok? && ops[j].token == o.result.value.token
    requires Confirm(states[j], ops[j].token, ops[j].now).result.Ok?
    requires forall m :: j < m < k ==> !Reaches(states[m], ops[m])
    ensures var g := ops[i].target;
            && g in states[k].pending && states[k].pending[g].action.Activate?
            && states[k].pending[g].action.scenario.name == ops[i].name && states[k].pending[g].actor == ops[i].actor
            && (k < |ops| && Reaches(states[k], ops[k]) ==>
                  && g in states[k + 1].active && states[k + 1].active[g].scenario.name == ops[i].name
                  && states[k + 1].active[g].actor == ops[i].actor && states[k + 1].active[g].first == ops[k].sample)
  {
    hide IsRun, Valid, Confirm, Reaches, PrepareActivation;
    RunLength(states, ops);
    RunValid(states, ops, i);
    ActivationGranted(states[i], ops[i].target, ops[i].name, ops[i].actor, ops[i].now);
    assert states[i + 1]
        == PrepareActivation(states[i], ops[i].target, ops[i].name, ops[i].actor, ops[i].now).controller;
    TicketIsApplied(states, ops, i + 1, j, k, ops[j].token);
  }

  /** The same for a clear: once confirmed, the target's scenario ends at the next boundary. */
  lemma RequestedClearIsApplied(states: seq<Controller>, ops: seq<Op>, i: nat, j: nat, k: nat)
    requires IsRun(states, ops) && i < j < k < |ops| && ops[i].OpClear? && ops[j].OpConfirm?
    requires var o := PrepareClear(states[i], ops[i].target, ops[i].actor, ops[i].now);
             o.result.Ok? && ops[j].token == o.result.value.token
    requires Confirm(states[j], ops[j].token, ops[j].now).result.Ok?
    requires forall m :: j < m < k ==> !Reaches(states[m], ops[m])
    ensures var g := ops[i].target;
            && g in states[k].pending && states[k].pending[g] == Pending(Clear, ops[i].actor)
            && (Reaches(states[k], ops[k]) ==> g !in states[k + 1].active)
  {
    hide IsRun, Valid, Confirm, Reaches, PrepareClear;
    RunLength(states, ops);
    RunValid(states, ops, i);
    ClearGranted(states[i], ops[i].target, ops[i].actor, ops[i].now);
    assert states[i + 1] == PrepareClear(states[i], ops[i].target, ops[i].actor, ops[i].now).controller;
    TicketIsApplied(states, ops, i + 1, j, k, ops[j].token);
  }

  // ----- the revision moves only with the records ------------------------------------------

  /** A step that leaves every lifecycle record as it was leaves the revision as it was. */
  lemma RevisionMovesWithRecords(c: Controller, op: Op)
    requires Valid(c) && RecordsOf(Apply(c, op)) == RecordsOf(c)
    ensures Apply(c, op).revision == c.revision
  {
    hide PrepareActivation, PrepareClear, Confirm, Cancel, DiscardExpired, Valid, Grants, AdvanceBoundary, Free,
      RoomForTicket, Find, ValidName, ValidLabel, DurationsPresent, ApplyPending;
    match op {
      case OpPrepare(target, name, actor, now) =>
        ActivationGranted(c, target, name, actor, now);
        SameRecordsSameRevision(c, now);
        GrantIsSeen(c, PrepareActivation(c, target, name, actor, now), now);
      case OpClear(target, actor, now) =>
        ClearGranted(c, target, actor, now);
        SameRecordsSameRevision(c, now);
        GrantIsSeen(c, PrepareClear(c, target, actor, now), now);
      case OpConfirm(token, now) => ConsumedIsSeen(c, token, now);
      case OpCancel(token, now) => ConsumedIsSeen(c, token, now);
      case OpAdvance(sample) =>
        AdvanceKeeps(c, sample);
        BoundaryRevision(c, sample);
      case OpSnapshot(now) => SameRecordsSameRevision(c, now);
    }
  }

  lemma GrantIsSeen(c: Controller, o: Outcome<Ticket>, now: nat)
    requires Valid(c)
    ensures o.result.Ok? && Grants(c, o.controller, o.result.value.prepared, now) ==>
              o.controller.prepared != c.prepared
  {
    hide Valid;
    NextTokenIsFresh(c);
  }

  lemma SameRecordsSameRevision(c: Controller, now: nat)
    ensures DiscardExpired(c, now).prepared == c.prepared ==> DiscardExpired(c, now).revision == c.revision
  {
    if DiscardExpired(c, now).prepared == c.prepared {
      assert forall t :: t in ExpiredTokens(c, now) ==> t !in DiscardExpired(c, now).prepared;
      assert ExpiredTokens(c, now) == {};
    }
  }

  lemma ConsumedIsSeen(c: Controller, token: nat, now: nat)
    ensures token !in Confirm(c, token, now).controller.prepared
    ensures token !in Cancel(c, token, now).controller.prepared
    ensures token !in c.prepared ==>
              Confirm(c, token, now).controller == c && Cancel(c, token, now).controller == c
  {
    ConfirmStep(c, token, now);
    CancelStep(c, token, now);
  }

  lemma BoundaryRevision(c: Controller, sample: nat)
    requires Valid(c) && DurationsPresent(ApplyPending(c, sample))
    ensures var d := AdvanceBoundary(c, sample).controller;
            d.pending == c.pending && d.active == c.active ==> d.revision == c.revision
  {
    hide Valid, ApplyPending, Unexpired;
    if c.pending == map[] {
      NothingPending(c, sample);
    }
  }
}
