/**
  * The runtime scenario controller: prepare, confirm, cancel, clear, reporting boundaries and
  * frame plans, as functions on its state. Time is a natural number of nanoseconds.
  */
module Scenario {
  import opened Bytes
  import opened Catalog

  datatype Target = EndpointTarget(streamId: nat) | PdcTarget(streamId: nat, connectionId: nat)

  datatype Action = Activate(scenario: Definition) | Clear

  datatype Prepared = Prepared(target: Target, action: Action, actor: Option<string>, expiresAt: nat)
  datatype Pending = Pending(action: Action, actor: Option<string>)
  datatype Active = Active(scenario: Definition, actor: Option<string>, first: nat)

  datatype Controller = Controller(
    catalog: seq<Definition>,
    horizon: nat,
    prepared: map<nat, Prepared>,
    preparedTargets: map<Target, nat>,
    pending: map<Target, Pending>,
    active: map<Target, Active>,
    current: Option<nat>,
    nextToken: nat,
    revision: nat)

  datatype Error =
    | InvalidTarget | InvalidScenarioName | InvalidActorLabel | UnknownScenario | IncompatibleTarget
    | TargetBusy | TargetCapacityExceeded | NoActiveScenario | ClearRequiresSustainedScenario
    | UnknownToken | ExpiredToken | TokenSpaceExhausted | TokenExpiryOverflow
    | NonMonotonicBoundary

  const TOKEN_TTL := 60_000_000_000
  const MAX_TARGETS := 450
  const MAX_ACTOR_LABEL_BYTES := 64

  /** What `prepare` returns: the token and the record it names. */
  datatype Ticket = Ticket(token: nat, prepared: Prepared)

  datatype Outcome<T> = Outcome(controller: Controller, result: Result<T, Error>)

  /** `horizon` is the greatest instant the platform's clock type can represent. */
  function New(catalog: seq<Definition>, horizon: nat): Controller {
    Controller(catalog, horizon, map[], map[], map[], map[], None, 1, 0)
  }

  // ----- expiry of preparations ------------------------------------------------------------

  function ExpiredTokens(c: Controller, now: nat): set<nat> {
    set t | t in c.prepared && now >= c.prepared[t].expiresAt
  }

  function TargetsOf(prepared: map<nat, Prepared>, tokens: set<nat>): set<Target> {
    set t | t in tokens && t in prepared :: prepared[t].target
  }

  /** Every discarded preparation bumps the revision once. */
  function DiscardExpired(c: Controller, now: nat): Controller {
    var expired := ExpiredTokens(c, now);
    c.(prepared := c.prepared - expired,
    preparedTargets := c.preparedTargets - TargetsOf(c.prepared, expired),
    revision := c.revision + |expired|)
  }

  // ----- prepare ---------------------------------------------------------------------------

  function Tracked(c: Controller): set<Target> {
    c.active.Keys + c.pending.Keys + c.preparedTargets.Keys
  }

  /** Reject a target that is busy, or a new one beyond the capacity; otherwise issue a token. */
  function PrepareAction(c0: Controller, target: Target, action: Action, actor: Option<string>, now: nat,
                         permitsActive: bool): Outcome<Ticket> {
    var c := DiscardExpired(c0, now);
    if target in c.preparedTargets || target in c.pending || (!permitsActive && target in c.active) then
      Outcome(c, Err(TargetBusy))
    else if target !in Tracked(c) && |Tracked(c)| >= MAX_TARGETS then Outcome(c, Err(TargetCapacityExceeded))
    else if now + TOKEN_TTL > c.horizon then Outcome(c, Err(TokenExpiryOverflow))
    else if c.nextToken + 1 > U64_MAX then Outcome(c, Err(TokenSpaceExhausted))
    else
      var p := Prepared(target, action, actor, now + TOKEN_TTL);
      Outcome(Issue(c, p), Ok(Ticket(c.nextToken, p)))
  }

  function Issue(c: Controller, p: Prepared): Controller {
    c.(prepared := c.prepared[c.nextToken := p], preparedTargets := c.preparedTargets[p.target := c.nextToken],
    nextToken := c.nextToken + 1, revision := c.revision + 1)
  }

  /** The number of bytes of a character in UTF-8 (section 3 of RFC 3629). */
  function Utf8Bytes(c: char): nat {
    var code := c as nat;
    if code < 0x80 then 1 else if code < 0x800 then 2 else if code < 0x1_0000 then 3 else 4
  }

  function Utf8Length(s: string): nat {
    if s == "" then 0 else Utf8Bytes(s[0]) + Utf8Length(s[1..])
  }

  /** The limit of a label counts bytes, not characters. */
  predicate ValidLabel(actor: Option<string>) {
    actor.Some? ==> Utf8Length(actor.value) <= MAX_ACTOR_LABEL_BYTES
  }

  /** Characters that all take the same number of bytes in UTF-8. */
  predicate AllTake(s: string, bytes: nat) {
    forall i :: 0 <= i < |s| ==>
                  match bytes
                  case 1 => s[i] as int < 0x80
                  case 2 => 0x80 <= s[i] as int < 0x800
                  case 3 => 0x800 <= s[i] as int < 0x1_0000
                  case _ => 0x1_0000 <= s[i] as int
  }

  /** At most 64 bytes: 64 characters of ASCII, 32, 21 or 16 of the longer kinds, or no label at all. */
  lemma LabelLimit(s: string, bytes: nat)
    requires 1 <= bytes <= 4 && AllTake(s, bytes)
    ensures ValidLabel(None) && (ValidLabel(Some(s)) <==> |s| <= 64 / bytes)
  {
    LabelBytes(s, bytes);
  }

  lemma {:induction false} LabelBytes(s: string, bytes: nat)
    requires 1 <= bytes <= 4 && AllTake(s, bytes)
    ensures Utf8Length(s) == bytes * |s|
  {
    if s != "" {
      assert AllTake(s[1..], bytes);
      LabelBytes(s[1..], bytes);
    }
  }

  /** A disconnect acts on one PDC connection, every other kind on an endpoint. */
  predicate Compatible(target: Target, kind: Kind) {
    kind.DisconnectPdc? <==> target.PdcTarget?
  }

  function PrepareActivation(c: Controller, target: Target, name: string, actor: Option<string>,
                             now: nat): Outcome<Ticket> {
    if target.streamId == 0 then Outcome(c, Err(InvalidTarget))
    else if !ValidName(name) then Outcome(c, Err(InvalidScenarioName))
    else if !ValidLabel(actor) then Outcome(c, Err(InvalidActorLabel))
    else match Find(c.catalog, name)
         case None => Outcome(c, Err(UnknownScenario))
         case Some(scenario) =>
           if !Compatible(target, scenario.kind) then Outcome(c, Err(IncompatibleTarget))
           else PrepareAction(c, target, Activate(scenario), actor, now, false)
  }

  function PrepareClear(c0: Controller, target: Target, actor: Option<string>, now: nat): Outcome<Ticket> {
    if target.streamId == 0 then Outcome(c0, Err(InvalidTarget))
    else if !ValidLabel(actor) then Outcome(c0, Err(InvalidActorLabel))
    else
      var c := DiscardExpired(c0, now);
      if target in c.preparedTargets || target in c.pending then Outcome(c, Err(TargetBusy))
      else if target !in c.active then Outcome(c, Err(NoActiveScenario))
      else if !c.active[target].scenario.lifecycle.Sustained? then Outcome(c, Err(ClearRequiresSustainedScenario))
      else PrepareAction(c, target, Clear, actor, now, true)
  }

  // ----- confirm and cancel ----------------------------------------------------------------

  /** The token leaves both maps, whatever happens next. */
  function Consume(c: Controller, token: nat): Controller
    requires token in c.prepared
  {
    c.(prepared := c.prepared - {token}, preparedTargets := c.preparedTargets - {c.prepared[token].target},
    revision := c.revision + 1)
  }

  function Confirm(c0: Controller, token: nat, now: nat): Outcome<Pending> {
    if token !in c0.prepared then Outcome(c0, Err(UnknownToken))
    else
      var p := c0.prepared[token];
      var taken := Consume(c0, token);
      if now >= p.expiresAt then Outcome(taken, Err(ExpiredToken))
      else
        var c := DiscardExpired(taken, now);
        if p.target in c.pending then Outcome(c, Err(TargetBusy))
        else if p.action.Activate? && p.target in c.active then Outcome(c, Err(TargetBusy))
        else if p.action.Clear? && p.target !in c.active then Outcome(c, Err(NoActiveScenario))
        else if p.action.Clear? && !c.active[p.target].scenario.lifecycle.Sustained? then
          Outcome(c, Err(ClearRequiresSustainedScenario))
        else
          var queued := Pending(p.action, p.actor);
          Outcome(c.(pending := c.pending[p.target := queued]), Ok(queued))
  }

  function Cancel(c0: Controller, token: nat, now: nat): Outcome<Ticket> {
    if token !in c0.prepared then Outcome(c0, Err(UnknownToken))
    else
      var p := c0.prepared[token];
      var taken := Consume(c0, token);
      if now >= p.expiresAt then Outcome(taken, Err(ExpiredToken))
      else Outcome(DiscardExpired(taken, now), Ok(Ticket(token, p)))
  }

  // ----- boundaries ------------------------------------------------------------------------

  predicate EffectiveAt(a: Active, sample: nat) {
    sample >= a.first && sample - a.first >= a.scenario.startFrameOffset
  }

  /** Only transients are asked; reading an absent duration would be the source's panic. */
  predicate ExpiredAt(a: Active, sample: nat)
    requires a.scenario.durationFrames.Some?
  {
    EffectiveAt(a, sample) && sample - a.first - a.scenario.startFrameOffset >= a.scenario.durationFrames.value
  }

  /** The transient entries all carry a duration. */
  predicate DurationsPresent(active: map<Target, Active>) {
    forall t :: t in active && active[t].scenario.lifecycle.Transient? ==> active[t].scenario.durationFrames.Some?
  }

  predicate Survives(a: Active, sample: nat)
    requires a.scenario.lifecycle.Transient? ==> a.scenario.durationFrames.Some?
  {
    a.scenario.lifecycle.Transient? ==> !ExpiredAt(a, sample)
  }

  /** Queued actions take effect at the boundary: activations start there, clears remove. */
  function ApplyPending(c: Controller, sample: nat): map<Target, Active> {
    map t | t in c.active.Keys + c.pending.Keys
            && (t in c.pending ==> c.pending[t].action.Activate?) ::
      if t in c.pending then Active(c.pending[t].action.scenario, c.pending[t].actor, sample) else c.active[t]
  }

  function Unexpired(active: map<Target, Active>, sample: nat): map<Target, Active>
    requires DurationsPresent(active)
  {
    map t | t in active && Survives(active[t], sample) :: active[t]
  }

  function AdvanceBoundary(c: Controller, sample: nat): Outcome<()>
    requires DurationsPresent(ApplyPending(c, sample))
  {
    if c.current.Some? && sample <= c.current.value then Outcome(c, Err(NonMonotonicBoundary))
    else
      var applied := ApplyPending(c, sample);
      var kept := Unexpired(applied, sample);
      var changed := c.pending != map[] || |kept| != |applied|;
      Outcome(c.(current := Some(sample), pending := map[], active := kept,
              revision := if changed then c.revision + 1 else c.revision),
              Ok(()))
  }

  // ----- frame plans -----------------------------------------------------------------------

  datatype FramePlan = FramePlan(degradedTime: bool, omitData: bool, signal: Option<Signal>, disconnect: set<nat>)

  const NO_EFFECT := FramePlan(false, false, None, {})

  /** The scenario in effect on a target at the current boundary. */
  function InEffect(c: Controller, target: Target): Option<Definition> {
    if c.current.Some? && target in c.active && EffectiveAt(c.active[target], c.current.value)
    then Some(c.active[target].scenario) else None
  }

  /** The PDC connections of a stream whose disconnect is in effect. */
  function Disconnects(c: Controller, streamId: nat): set<nat> {
    set t | t in c.active && t.PdcTarget? && t.streamId == streamId
            && InEffect(c, t).Some? && InEffect(c, t).value.kind.DisconnectPdc? :: t.connectionId
  }

  function PlanFor(c: Controller, streamId: nat): FramePlan {
    var d := InEffect(c, EndpointTarget(streamId));
    FramePlan(d.Some? && d.value.kind.DegradedTime?, d.Some? && d.value.kind.MissingFrames?,
              if d.Some? && d.value.kind.SignalExcursion? then d.value.signal else None,
              Disconnects(c, streamId))
  }

  // ----- invariant -------------------------------------------------------------------------

  /** The two views of the preparations are inverse to each other. */
  predicate Inverse(c: Controller) {
    && (forall t :: t in c.prepared ==>
                      c.prepared[t].target in c.preparedTargets && c.preparedTargets[c.prepared[t].target] == t)
    && (forall g :: g in c.preparedTargets ==>
                      c.preparedTargets[g] in c.prepared && c.prepared[c.preparedTargets[g]].target == g)
  }

  /** An action that can still be applied: activations to idle targets, clears to sustained ones. */
  predicate Applicable(active: map<Target, Active>, target: Target, action: Action) {
    match action
    case Activate(d) => target !in active && WellFormed(d) && Compatible(target, d.kind)
    case Clear => target in active && active[target].scenario.lifecycle.Sustained?
  }

  predicate Tokens(c: Controller) {
    c.nextToken >= 1 && forall t :: t in c.prepared ==> 1 <= t < c.nextToken
  }

  predicate Consistent(c: Controller) {
    && (forall t :: t in c.prepared ==> Applicable(c.active, c.prepared[t].target, c.prepared[t].action))
    && (forall g :: g in c.pending ==> g !in c.preparedTargets && Applicable(c.active, g, c.pending[g].action))
  }

  predicate ActiveOk(c: Controller) {
    forall g :: g in c.active ==>
                  && WellFormed(c.active[g].scenario) && Compatible(g, c.active[g].scenario.kind)
                  && c.current.Some? && c.active[g].first <= c.current.value
                  && Survives(c.active[g], c.current.value)
  }

  ghost predicate Valid(c: Controller) {
    && (forall i :: 0 <= i < |c.catalog| ==> WellFormed(c.catalog[i]))
    && Inverse(c) && Tokens(c) && Consistent(c) && ActiveOk(c)
    && |Tracked(c)| <= MAX_TARGETS
  }

  /** The records that the revision covers. */
  datatype Records = Records(prepared: map<nat, Prepared>, pending: map<Target, Pending>, active: map<Target, Active>)

  function RecordsOf(c: Controller): Records {
    Records(c.prepared, c.pending, c.active)
  }

  // ----- every operation keeps the invariant -----------------------------------------------

  lemma NewIsValid(catalog: seq<Definition>, horizon: nat)
    requires forall i :: 0 <= i < |catalog| ==> WellFormed(catalog[i])
    ensures Valid(New(catalog, horizon))
  {
    assert Tracked(New(catalog, horizon)) == {};
  }

  lemma SubsetSize<T>(a: set<T>, b: set<T>)
    requires a <= b
    ensures |a| <= |b|
  {
    assert b == a + (b - a);
  }

  lemma DropInverse(c: Controller, d: Controller, tokens: set<nat>)
    requires Inverse(c) && d.prepared == c.prepared - tokens
    requires d.preparedTargets == c.preparedTargets - TargetsOf(c.prepared, tokens)
    ensures Inverse(d)
  {
    forall t | t in d.prepared
      ensures d.prepared[t].target in d.preparedTargets && d.preparedTargets[d.prepared[t].target] == t
    {
      assert c.preparedTargets[c.prepared[t].target] == t;
    }
    forall g | g in d.preparedTargets
      ensures d.preparedTargets[g] in d.prepared && d.prepared[d.preparedTargets[g]].target == g
    {
      var t := c.preparedTargets[g];
      assert t in tokens ==> g in TargetsOf(c.prepared, tokens);
    }
  }

  lemma ActiveFrame(c: Controller, d: Controller)
    requires ActiveOk(c) && d.active == c.active && d.current == c.current
    ensures ActiveOk(d)
  {
  }

  lemma DropConsistent(c: Controller, d: Controller)
    requires Consistent(c) && Tokens(c) && d.active == c.active && d.pending == c.pending && d.nextToken == c.nextToken
    requires d.preparedTargets.Keys <= c.preparedTargets.Keys
    requires forall t :: t in d.prepared ==> t in c.prepared && d.prepared[t] == c.prepared[t]
    ensures Consistent(d) && Tokens(d)
  {
    hide Applicable;
  }

  lemma TrackedShrinks(c: Controller, d: Controller)
    requires d.active.Keys <= c.active.Keys && d.pending.Keys <= c.pending.Keys
    requires d.preparedTargets.Keys <= c.preparedTargets.Keys
    ensures Tracked(d) <= Tracked(c) && |Tracked(d)| <= |Tracked(c)|
  {
    SubsetSize(Tracked(d), Tracked(c));
  }

  /** Dropping preparations from both maps at once. */
  lemma DropKeeps(c: Controller, d: Controller, tokens: set<nat>)
    requires Valid(c)
    requires d == c.(prepared := c.prepared - tokens,
                  preparedTargets := c.preparedTargets - TargetsOf(c.prepared, tokens), revision := d.revision)
    ensures Valid(d) && Tracked(d) <= Tracked(c)
  {
    hide Inverse, TargetsOf, Consistent, Tokens, ActiveOk, Tracked;
    DropInverse(c, d, tokens);
    DropConsistent(c, d);
    ActiveFrame(c, d);
    TrackedShrinks(c, d);
  }

  lemma DiscardKeeps(c: Controller, now: nat)
    requires Valid(c)
    ensures Valid(DiscardExpired(c, now))
    ensures Tracked(DiscardExpired(c, now)) <= Tracked(c)
  {
    hide Valid, Tracked;
    DropKeeps(c, DiscardExpired(c, now), ExpiredTokens(c, now));
  }

  lemma ConsumeKeeps(c: Controller, token: nat)
    requires Valid(c) && token in c.prepared
    ensures var d := Consume(c, token);
            && Valid(d) && Tracked(d) <= Tracked(c)
            && d.active == c.active && d.pending == c.pending && d.current == c.current && d.nextToken == c.nextToken
            && d.preparedTargets.Keys == c.preparedTargets.Keys - {c.prepared[token].target}
            && d.prepared == c.prepared - {token}
  {
    hide Valid, Tracked;
    assert TargetsOf(c.prepared, {token}) == {c.prepared[token].target};
    DropKeeps(c, Consume(c, token), {token});
  }

  lemma IssueInverse(c: Controller, p: Prepared)
    requires Inverse(c) && Tokens(c) && p.target !in c.preparedTargets
    ensures Inverse(Issue(c, p)) && Tokens(Issue(c, p))
  {
    var d := Issue(c, p);
    forall t | t in d.prepared
      ensures d.prepared[t].target in d.preparedTargets && d.preparedTargets[d.prepared[t].target] == t
    {
      if t != c.nextToken {
        assert t in c.prepared;
      }
    }
    forall g | g in d.preparedTargets
      ensures d.preparedTargets[g] in d.prepared && d.prepared[d.preparedTargets[g]].target == g
    {
      if g != p.target {
        assert g in c.preparedTargets;
      }
    }
  }

  lemma IssueConsistent(c: Controller, p: Prepared)
    requires Consistent(c) && p.target !in c.pending && Applicable(c.active, p.target, p.action)
    ensures Consistent(Issue(c, p))
  {
    hide Applicable;
  }

  lemma IssueKeeps(c: Controller, p: Prepared)
    requires Valid(c) && p.target !in c.preparedTargets && p.target !in c.pending
             && Applicable(c.active, p.target, p.action)
    requires p.target in Tracked(c) || |Tracked(c)| < MAX_TARGETS
    ensures Valid(Issue(c, p))
  {
    hide Inverse, Tokens, Consistent, Applicable, ActiveOk, Tracked;
    IssueInverse(c, p);
    IssueConsistent(c, p);
    ActiveFrame(c, Issue(c, p));
    IssueTracked(c, p);
  }

  lemma IssueTracked(c: Controller, p: Prepared)
    ensures Tracked(Issue(c, p)) == Tracked(c) + {p.target}
    ensures p.target in Tracked(c) ==> Tracked(Issue(c, p)) == Tracked(c)
  {
  }

  lemma PrepareActionKeeps(c: Controller, target: Target, action: Action, actor: Option<string>, now: nat,
                           permitsActive: bool)
    requires Valid(c)
    requires match action
             case Activate(d) => !permitsActive && WellFormed(d) && Compatible(target, d.kind)
             case Clear => permitsActive && target in c.active && c.active[target].scenario.lifecycle.Sustained?
    ensures Valid(PrepareAction(c, target, action, actor, now, permitsActive).controller)
  {
    hide Valid, Tracked, DiscardExpired, Issue;
    DiscardKeeps(c, now);
    var d := DiscardExpired(c, now);
    DiscardFrame(c, now);
    if target !in d.preparedTargets && target !in d.pending && (permitsActive || target !in d.active)
       && (target in Tracked(d) || |Tracked(d)| < MAX_TARGETS)
    {
      IssueKeeps(d, Prepared(target, action, actor, now + TOKEN_TTL));
    }
  }

  /** Discarding removes exactly the expired preparations and touches nothing else. */
  lemma DiscardFrame(c: Controller, now: nat)
    ensures var d := DiscardExpired(c, now);
            && d.active == c.active && d.pending == c.pending && d.current == c.current && d.catalog == c.catalog
            && d.nextToken == c.nextToken && d.horizon == c.horizon
            && d.prepared.Keys <= c.prepared.Keys && d.preparedTargets.Keys <= c.preparedTargets.Keys
            && (forall t :: t in d.prepared <==> t in c.prepared && now < c.prepared[t].expiresAt)
            && forall t :: t in d.prepared ==> d.prepared[t] == c.prepared[t]
  {
  }

  lemma NextTokenIsFresh(c: Controller)
    requires Valid(c)
    ensures c.nextToken !in c.prepared
  {
  }

  lemma PrepareActivationKeeps(c: Controller, target: Target, name: string, actor: Option<string>, now: nat)
    requires Valid(c)
    ensures Valid(PrepareActivation(c, target, name, actor, now).controller)
  {
    hide PrepareAction, Inverse, Tokens, Consistent, ActiveOk, Tracked;
    var found := Find(c.catalog, name);
    if found.Some? && Compatible(target, found.value.kind) {
      assert WellFormed(found.value);
      PrepareActionKeeps(c, target, Activate(found.value), actor, now, false);
    }
  }

  lemma PrepareClearKeeps(c: Controller, target: Target, actor: Option<string>, now: nat)
    requires Valid(c)
    ensures Valid(PrepareClear(c, target, actor, now).controller)
  {
    hide Valid, PrepareAction, DiscardExpired;
    DiscardKeeps(c, now);
    DiscardFrame(c, now);
    var d := DiscardExpired(c, now);
    if target in d.active && d.active[target].scenario.lifecycle.Sustained? {
      PrepareActionKeeps(d, target, Clear, actor, now, true);
    }
  }

  /**
    * Confirming an unexpired prepared token always succeeds and queues exactly its action: the
    * busy, no-active and not-sustained branches are unreachable, whatever happened in between.
    */
  lemma ConfirmSucceeds(c: Controller, token: nat, now: nat)
    requires Valid(c) && token in c.prepared && now < c.prepared[token].expiresAt
    ensures var p := c.prepared[token];
            var r := Confirm(c, token, now);
            && r.result == Ok(Pending(p.action, p.actor))
            && p.target !in c.pending && r.controller.pending == c.pending[p.target := Pending(p.action, p.actor)]
            && r.controller.active == c.active
  {
    hide DiscardExpired, Tracked;
    DiscardFrame(Consume(c, token), now);
    var p := c.prepared[token];
    assert Applicable(c.active, p.target, p.action);
  }

  lemma ConfirmKeeps(c: Controller, token: nat, now: nat)
    requires Valid(c)
    ensures Valid(Confirm(c, token, now).controller)
  {
    hide Valid, DiscardExpired, Tracked, Consume;
    if token in c.prepared {
      var p := c.prepared[token];
      ConsumeKeeps(c, token);
      var taken := Consume(c, token);
      if now < p.expiresAt {
        DiscardKeeps(taken, now);
        DiscardFrame(taken, now);
        ConfirmSucceeds(c, token, now);
        QueueKeeps(c, DiscardExpired(taken, now), token);
      }
    }
  }

  lemma QueueConsistent(c: Controller, target: Target, queued: Pending)
    requires Consistent(c) && target !in c.preparedTargets && Applicable(c.active, target, queued.action)
    ensures Consistent(c.(pending := c.pending[target := queued]))
  {
    hide Applicable;
  }

  lemma QueueKeeps(c: Controller, d: Controller, token: nat)
    requires Valid(c) && Valid(d) && token in c.prepared
    requires d.active == c.active && d.pending == c.pending && d.current == c.current
    requires d.preparedTargets.Keys <= c.preparedTargets.Keys - {c.prepared[token].target}
    requires Tracked(d) <= Tracked(c)
    ensures var p := c.prepared[token];
            Valid(d.(pending := d.pending[p.target := Pending(p.action, p.actor)]))
  {
    hide Inverse, Tokens, Consistent, Applicable, ActiveOk, Tracked;
    var p := c.prepared[token];
    var e := d.(pending := d.pending[p.target := Pending(p.action, p.actor)]);
    PreparedFacts(c, token);
    QueueConsistent(d, p.target, Pending(p.action, p.actor));
    QueueInverse(d, e);
    ActiveFrame(d, e);
    QueueTracked(c, d, p.target, Pending(p.action, p.actor));
    SubsetSize(Tracked(e), Tracked(c));
  }

  lemma PreparedFacts(c: Controller, token: nat)
    requires Valid(c) && token in c.prepared
    ensures var p := c.prepared[token];
            && Applicable(c.active, p.target, p.action) && p.target in c.preparedTargets && p.target !in c.pending
            && p.target in Tracked(c)
  {
  }

  lemma QueueInverse(d: Controller, e: Controller)
    requires Inverse(d) && Tokens(d) && e.prepared == d.prepared && e.preparedTargets == d.preparedTargets
             && e.nextToken == d.nextToken
    ensures Inverse(e) && Tokens(e)
  {
  }

  lemma QueueTracked(c: Controller, d: Controller, target: Target, queued: Pending)
    requires Tracked(d) <= Tracked(c) && target in Tracked(c)
    ensures Tracked(d.(pending := d.pending[target := queued])) <= Tracked(c)
  {
    assert Tracked(d.(pending := d.pending[target := queued])) == Tracked(d) + {target};
  }

  lemma CancelKeeps(c: Controller, token: nat, now: nat)
    requires Valid(c)
    ensures Valid(Cancel(c, token, now).controller)
  {
    hide Valid, DiscardExpired, Consume;
    if token in c.prepared {
      ConsumeKeeps(c, token);
      DiscardKeeps(Consume(c, token), now);
    }
  }

  /** No missing-duration panic: every transient the controller holds has a duration. */
  lemma AppliedHasDurations(c: Controller, sample: nat)
    requires Valid(c)
    ensures DurationsPresent(ApplyPending(c, sample))
    ensures forall g :: g in ApplyPending(c, sample) ==> WellFormed(ApplyPending(c, sample)[g].scenario)
  {
    hide Tracked, Inverse, Tokens;
    forall g | g in ApplyPending(c, sample)
      ensures WellFormed(ApplyPending(c, sample)[g].scenario)
    {
      if g in c.pending {
        assert Applicable(c.active, g, c.pending[g].action);
      }
    }
  }

  lemma AdvanceKeeps(c: Controller, sample: nat)
    requires Valid(c)
    ensures DurationsPresent(ApplyPending(c, sample))
    ensures Valid(AdvanceBoundary(c, sample).controller)
  {
    hide Tracked, ActiveOk, Consistent, Inverse, Tokens, ApplyPending, Unexpired;
    AppliedHasDurations(c, sample);
    if c.current.None? || sample > c.current.value {
      var d := AdvanceBoundary(c, sample).controller;
      AdvanceConsistent(c, sample);
      QueueInverse(c, d);
      AdvanceTracked(c, sample);
      AdvanceActiveOk(c, sample);
    }
  }

  lemma AdvanceTracked(c: Controller, sample: nat)
    requires DurationsPresent(ApplyPending(c, sample))
    ensures var d := AdvanceBoundary(c, sample).controller;
            Tracked(d) <= Tracked(c) && |Tracked(d)| <= |Tracked(c)|
  {
    var d := AdvanceBoundary(c, sample).controller;
    assert d.active.Keys <= c.active.Keys + c.pending.Keys;
    SubsetSize(Tracked(d), Tracked(c));
  }

  lemma AdvanceConsistent(c: Controller, sample: nat)
    requires Consistent(c) && Inverse(c) && DurationsPresent(ApplyPending(c, sample))
    requires ActiveOk(c) && (c.current.Some? ==> sample > c.current.value)
    ensures Consistent(AdvanceBoundary(c, sample).controller)
  {
    hide Tracked;
    var d := AdvanceBoundary(c, sample).controller;
    forall t | t in d.prepared
      ensures Applicable(d.active, d.prepared[t].target, d.prepared[t].action)
    {
      var g := c.prepared[t].target;
      assert g in c.preparedTargets && g !in c.pending;
      assert Applicable(c.active, g, c.prepared[t].action);
      assert g in c.active <==> g in ApplyPending(c, sample);
    }
  }

  /** An entry after a boundary is an old one that survives, or a queued activation. */
  lemma AppliedEntryOk(c: Controller, sample: nat, g: Target)
    requires ActiveOk(c) && Consistent(c) && (c.current.Some? ==> sample > c.current.value)
             && g in ApplyPending(c, sample)
    ensures var a := ApplyPending(c, sample)[g];
            WellFormed(a.scenario) && Compatible(g, a.scenario.kind) && a.first <= sample
  {
    hide WellFormed, Compatible, Survives;
    if g in c.pending {
      assert Applicable(c.active, g, c.pending[g].action);
    }
  }

  lemma AdvanceActiveOk(c: Controller, sample: nat)
    requires Valid(c) && (c.current.Some? ==> sample > c.current.value)
    requires DurationsPresent(ApplyPending(c, sample))
    ensures ActiveOk(AdvanceBoundary(c, sample).controller)
  {
    hide Tracked, Inverse, Tokens, Consistent, ApplyPending, Survives;
    var d := AdvanceBoundary(c, sample).controller;
    forall g | g in d.active
      ensures WellFormed(d.active[g].scenario) && Compatible(g, d.active[g].scenario.kind)
              && d.active[g].first <= sample
    {
      AppliedEntryOk(c, sample, g);
    }
  }
}
