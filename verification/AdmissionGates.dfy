/**
 What each gate of the pipeline decides, from the request's own fields and over every run
 (`crates/runlet/src/handler.rs`).
 */
module AdmissionGates {
  import opened Wrappers
  import opened Counting
  import opened Sequences
  import opened Quota
  import opened Admission
  import opened AdmissionSafety
  import opened AdmissionTheorems

  // -- The gates before the quota ---------------------------------------------

  /** The edge credential: a server with a token serves only requests that carry it. */
  ghost predicate TokenAccepted(cfg: Config, r: Request) {
    cfg.accessToken.Some? ==> r.token.Some? && r.token.value == cfg.accessToken.value
  }

  /** In trusted mode the caller is known, active, of a tenant, and acting for it. */
  ghost predicate IdentityAccepted(cfg: Config, r: Request) {
    cfg.trusted.Some? ==>
      && !r.identity.anonymous && !r.identity.suspended && r.identity.tenant.Some?
      && r.identity.scope.Some? && r.identity.scope.value == "acting"
  }

  /** In trusted mode the caller holds the grant of every gated capability it asks for. */
  ghost predicate GrantsHeld(cfg: Config, r: Request) {
    cfg.trusted.Some? && r.body.Some? ==>
      forall i :: 0 <= i < |r.body.value.caps| && r.body.value.caps[i] in cfg.trusted.value.entitlements ==>
        cfg.trusted.value.entitlements[r.body.value.caps[i]] in r.identity.grants
  }

  ghost predicate NamesOneScript(b: Body) { b.script.Some? != b.key.Some? }

  ghost predicate ScriptKnown(cfg: Config, b: Body) { b.key.Some? ==> b.key.value in cfg.registry }

  ghost predicate ScriptFits(cfg: Config, b: Body) {
    && (b.script.Some? ==> |b.script.value| <= cfg.maxScript)
    && (b.key.Some? && b.key.value in cfg.registry ==> |cfg.registry[b.key.value]| <= cfg.maxScript)
  }

  /** Everything a request needs to get as far as the quota. */
  ghost predicate Admissible(cfg: Config, r: Request) {
    && TokenAccepted(cfg, r) && IdentityAccepted(cfg, r) && r.body.Some? && GrantsHeld(cfg, r)
    && NamesOneScript(r.body.value) && ScriptKnown(cfg, r.body.value) && ScriptFits(cfg, r.body.value)
    && r.body.value.contextBytes <= cfg.maxContext
  }

  ghost predicate IsGateDenial(d: Denial) {
    || d.Unauthorized? || d.Anonymous? || d.Suspended? || d.TenantRequired? || d.ActingScopeRequired? || d.Malformed?
    || d.EntitlementRequired? || d.ScriptXorKey? || d.ScriptNotFound? || d.ScriptTooLarge? || d.ContextTooLarge?
  }

  /** Each denial's own condition, with every earlier one false. */
  ghost predicate RefusedAs(cfg: Config, r: Request, d: Denial) {
    match d
    case Unauthorized => !TokenAccepted(cfg, r)
    case Anonymous => TokenAccepted(cfg, r) && cfg.trusted.Some? && r.identity.anonymous
    case Suspended =>
      TokenAccepted(cfg, r) && cfg.trusted.Some? && !r.identity.anonymous && r.identity.suspended
    case TenantRequired =>
      && TokenAccepted(cfg, r) && cfg.trusted.Some? && !r.identity.anonymous && !r.identity.suspended
      && r.identity.tenant.None?
    case ActingScopeRequired =>
      && TokenAccepted(cfg, r) && cfg.trusted.Some? && !r.identity.anonymous && !r.identity.suspended
      && r.identity.tenant.Some? && !(r.identity.scope.Some? && r.identity.scope.value == "acting")
    case Malformed => TokenAccepted(cfg, r) && IdentityAccepted(cfg, r) && r.body.None?
    case EntitlementRequired =>
      TokenAccepted(cfg, r) && IdentityAccepted(cfg, r) && r.body.Some? && !GrantsHeld(cfg, r)
    case ScriptXorKey =>
      && TokenAccepted(cfg, r) && IdentityAccepted(cfg, r) && r.body.Some? && GrantsHeld(cfg, r)
      && !NamesOneScript(r.body.value)
    case ScriptNotFound =>
      && TokenAccepted(cfg, r) && IdentityAccepted(cfg, r) && r.body.Some? && GrantsHeld(cfg, r)
      && NamesOneScript(r.body.value) && !ScriptKnown(cfg, r.body.value)
    case ScriptTooLarge =>
      && TokenAccepted(cfg, r) && IdentityAccepted(cfg, r) && r.body.Some? && GrantsHeld(cfg, r)
      && NamesOneScript(r.body.value) && ScriptKnown(cfg, r.body.value) && !ScriptFits(cfg, r.body.value)
    case ContextTooLarge =>
      && TokenAccepted(cfg, r) && IdentityAccepted(cfg, r) && r.body.Some? && GrantsHeld(cfg, r)
      && NamesOneScript(r.body.value) && ScriptKnown(cfg, r.body.value) && ScriptFits(cfg, r.body.value)
      && r.body.value.contextBytes > cfg.maxContext
    case _ => false
  }

  lemma EntitledIsGrantsHeld(cfg: Config, r: Request)
    requires cfg.trusted.Some? && r.body.Some?
    ensures Entitled(cfg.trusted.value, r.identity, r.body.value.caps) <==> GrantsHeld(cfg, r)
  {
    var caps, t := r.body.value.caps, cfg.trusted.value;
    if GrantsHeld(cfg, r) {
      forall k | k in caps && k in t.entitlements ensures t.entitlements[k] in r.identity.grants {
        var i :| 0 <= i < |caps| && caps[i] == k;
      }
    }
  }

  lemma ScriptGateSpelled(cfg: Config, b: Body)
    ensures ScriptGate(cfg, b).None? <==>
              NamesOneScript(b) && ScriptKnown(cfg, b) && ScriptFits(cfg, b) && b.contextBytes <= cfg.maxContext
    ensures ScriptGate(cfg, b) == Some(ScriptXorKey) <==> !NamesOneScript(b)
    ensures ScriptGate(cfg, b) == Some(ScriptNotFound) <==> NamesOneScript(b) && !ScriptKnown(cfg, b)
    ensures ScriptGate(cfg, b) == Some(ScriptTooLarge) <==>
              NamesOneScript(b) && ScriptKnown(cfg, b) && !ScriptFits(cfg, b)
    ensures ScriptGate(cfg, b) == Some(ContextTooLarge) <==>
              NamesOneScript(b) && ScriptKnown(cfg, b) && ScriptFits(cfg, b) && b.contextBytes > cfg.maxContext
  {
  }

  lemma GatesSpelled(cfg: Config, r: Request, d: Denial)
    ensures Gates(cfg, r) == Some(d) <==> RefusedAs(cfg, r, d)
  {
    if cfg.trusted.Some? && r.body.Some? { EntitledIsGrantsHeld(cfg, r); }
    if r.body.Some? { ScriptGateSpelled(cfg, r.body.value); }
  }

  lemma NoGateMeansAdmissible(cfg: Config, r: Request)
    ensures Gates(cfg, r).None? <==> Admissible(cfg, r)
    ensures Gates(cfg, r).Some? ==> IsGateDenial(Gates(cfg, r).value)
  {
    if cfg.trusted.Some? && r.body.Some? { EntitledIsGrantsHeld(cfg, r); }
    if r.body.Some? { ScriptGateSpelled(cfg, r.body.value); }
  }

  /** A flight stands where its gates put it. */
  ghost predicate GateOk(cfg: Config, f: Flight) {
    match f.phase
    case AtGates => true
    case Finishing(e, _, _) =>
      if e.Denied? && IsGateDenial(e.denial) then Gates(cfg, f.request) == Some(e.denial) else Gates(cfg, f.request).None?
    case _ => Gates(cfg, f.request).None?
  }

  lemma PerformKeepsGate(cfg: Config, s: State, id: nat, f: Flight, a: Action)
    requires f.phase.Finishing? && GateOk(cfg, f)
    ensures id in Perform(cfg, s, id, f, a).flights && GateOk(cfg, Perform(cfg, s, id, f, a).flights[id])
  {
  }

  lemma GateKept(cfg: Config, s: State, id: nat, w: World)
    requires id in s.flights && GateOk(cfg, s.flights[id])
    ensures id in Advance(cfg, s, id, w).flights && GateOk(cfg, Advance(cfg, s, id, w).flights[id])
  {
    var f := s.flights[id];
    NoGateMeansAdmissible(cfg, f.request);
    match f.phase
    case Finishing(_, _, todo) => if todo != [] { PerformKeepsGate(cfg, s, id, Ticked(f), todo[0]); }
    case _ =>
  }

  ghost predicate GatesOk(cfg: Config, s: State) { forall id :: id in s.flights ==> GateOk(cfg, s.flights[id]) }

  lemma StepKeepsGates(cfg: Config, s: State, step: Step)
    requires GatesOk(cfg, s)
    ensures GatesOk(cfg, Apply(cfg, s, step))
  {
    if step.Move? && step.id in s.flights {
      GateKept(cfg, s, step.id, step.world);
      AdvancesAlone(cfg, s, step.id, step.world);
    }
  }

  lemma {:induction false} GatesAlways(cfg: Config, steps: seq<Step>)
    ensures GatesOk(cfg, Run(cfg, steps))
  {
    if steps != [] {
      GatesAlways(cfg, steps[..|steps| - 1]);
      StepKeepsGates(cfg, Run(cfg, steps[..|steps| - 1]), steps[|steps| - 1]);
    }
  }

  /**
   In every run, a request that has been through the gates is on its way out with a gate's denial
   exactly when that gate's own condition holds and every earlier gate's does not.
   */
  lemma RefusedExactly(cfg: Config, steps: seq<Step>, id: nat, d: Denial)
    requires id in Run(cfg, steps).flights && !Run(cfg, steps).flights[id].phase.AtGates? && IsGateDenial(d)
    ensures var f := Run(cfg, steps).flights[id];
            f.phase.Finishing? && f.phase.exit == Denied(d) <==> RefusedAs(cfg, f.request, d)
  {
    GatesAlways(cfg, steps);
    var f := Run(cfg, steps).flights[id];
    assert GateOk(cfg, f);
    GatesSpelled(cfg, f.request, d);
  }

  /**
   In every run, a request past the gates (waiting, running, executed, or refused by a later stage)
   carries the configured token, an accepted identity, every grant it needs, exactly one known script
   and sizes within their limits.
   */
  lemma PastTheGates(cfg: Config, steps: seq<Step>, id: nat)
    requires id in Run(cfg, steps).flights && !Run(cfg, steps).flights[id].phase.AtGates?
    ensures var f := Run(cfg, steps).flights[id];
            !(f.phase.Finishing? && f.phase.exit.Denied? && IsGateDenial(f.phase.exit.denial)) <==> Admissible(cfg, f.request)
  {
    GatesAlways(cfg, steps);
    var f := Run(cfg, steps).flights[id];
    assert GateOk(cfg, f);
    NoGateMeansAdmissible(cfg, f.request);
  }

  // -- The later stages, one move each ----------------------------------------

  /** Where request `id` stands after its next move. */
  ghost function AfterMove(cfg: Config, s: State, id: nat, w: World): Flight
    requires id in s.flights
  {
    StaysAboard(cfg, s, id, w);
    Apply(cfg, s, Move(id, w)).flights[id]
  }

  lemma StaysAboard(cfg: Config, s: State, id: nat, w: World)
    requires id in s.flights
    ensures id in Apply(cfg, s, Move(id, w)).flights
  {
    AdvancesAlone(cfg, s, id, w);
  }

  /**
   The quota stage charges exactly the trusted tenant, and only where a quota is configured: it refuses
   iff the tenant's plan has no room, and otherwise counts one more for that tenant and no other.
   */
  lemma QuotaStage(cfg: Config, s: State, id: nat, w: World, plans: Plans, tenant: string)
    requires id in s.flights && s.flights[id].phase.AtQuota?
    requires cfg.trusted.Some? && cfg.trusted.value.quota == Some(plans) && s.flights[id].request.identity.tenant == Some(tenant)
    requires Quota.Usage(s.inflight, tenant) < U64_MAX
    ensures var f, f' := s.flights[id], AfterMove(cfg, s, id, w);
            var inflight := Apply(cfg, s, Move(id, w)).inflight;
            if HasRoom(plans, f.request.identity.plan, Quota.Usage(s.inflight, tenant)) then
              f'.phase.AtSession? && f'.quota == Some(tenant) && inflight == s.inflight[tenant := Quota.Usage(s.inflight, tenant) + 1]
            else
              f'.phase.Finishing? && f'.phase.exit == Denied(OverQuota) && inflight == s.inflight
  {
  }

  lemma NoQuotaStage(cfg: Config, s: State, id: nat, w: World)
    requires id in s.flights && s.flights[id].phase.AtQuota? && s.flights[id].quota.None?
    requires cfg.trusted.None? || cfg.trusted.value.quota.None? || s.flights[id].request.identity.tenant.None?
    ensures var f' := AfterMove(cfg, s, id, w);
            f'.phase.AtSession? && f'.quota.None? && Apply(cfg, s, Move(id, w)).inflight == s.inflight
  {
  }

  /** A capability served by the egress sidecar, by its name. */
  ghost predicate IsEgressKind(k: string) {
    k == "db" || k == "mongo" || k == "mail" || k == "redis" || k == "amq" || k == "auth"
  }

  ghost predicate AsksForEgress(r: Request) {
    r.body.Some? && exists i :: 0 <= i < |r.body.value.caps| && IsEgressKind(r.body.value.caps[i])
  }

  lemma AsksIsNeeds(r: Request)
    requires r.body.Some?
    ensures NeedsEgress(r.body.value) <==> AsksForEgress(r)
  {
    var caps := r.body.value.caps;
    if NeedsEgress(r.body.value) {
      var k :| k in caps && k in EgressKinds();
      var i :| 0 <= i < |caps| && caps[i] == k;
      assert IsEgressKind(caps[i]);
    }
    if AsksForEgress(r) {
      var i :| 0 <= i < |caps| && IsEgressKind(caps[i]);
      assert caps[i] in caps && caps[i] in EgressKinds();
    }
  }

  /**
   The session stage fails a request exactly when it asks for a sidecar capability and no session was
   opened, with the failure the session reported.
   */
  lemma SessionStage(cfg: Config, s: State, id: nat, w: World)
    requires id in s.flights && s.flights[id].phase.AtSession?
    ensures var f, f' := s.flights[id], AfterMove(cfg, s, id, w);
            if AsksForEgress(f.request) && !w.session.Connected? then
              && f'.phase.Finishing?
              && (w.session.Unavailable? <==> f'.phase.exit == Denied(SessionUnavailable))
              && (w.session.ProtocolSlip? <==> f'.phase.exit == Denied(SessionProtocol))
              && (w.session.Unresolved? <==> f'.phase.exit.Denied? && f'.phase.exit.denial.SessionUnresolved?)
              && (w.session.Unresolved? ==> f'.phase.exit == Denied(SessionUnresolved(w.session.code)))
            else f'.phase.AtPartition?
  {
    if s.flights[id].request.body.Some? { AsksIsNeeds(s.flights[id].request); }
  }

  /** The fairness key: the trusted tenant in trusted mode, otherwise the header's key, otherwise the body's. */
  ghost predicate IsFairnessKey(cfg: Config, r: Request, key: string) {
    if cfg.trusted.Some? then r.identity.tenant == Some(key)
    else r.headerPartition == Some(key) || (r.headerPartition.None? && r.body.Some? && r.body.value.partition == Some(key))
  }

  /** The bucket of a key: its hash, or zero for one wider than the machine's word, round the buckets. */
  ghost predicate IsBucketOf(cfg: Config, key: string, b: nat) {
    && b < cfg.buckets
    && (cfg.hash(key) <= cfg.usizeMax ==> exists rounds: nat :: cfg.hash(key) == rounds * cfg.buckets + b)
    && (cfg.hash(key) > cfg.usizeMax ==> b == 0)
  }

  lemma BucketSpelled(cfg: Config, r: Request)
    ensures BucketFor(cfg, r).Some? <==> 0 < cfg.perPartition && 0 < cfg.buckets && exists key :: IsFairnessKey(cfg, r, key)
    ensures forall key :: BucketFor(cfg, r).Some? && IsFairnessKey(cfg, r, key) ==> IsBucketOf(cfg, key, BucketFor(cfg, r).value)
  {
    var key := PartitionKey(cfg, r);
    if key.Some? { assert IsFairnessKey(cfg, r, key.value); }
  }

  /**
   In every run, an execution runs under the permit of its own fairness key's bucket, or under none
   exactly when fairness is off or it has no key; and it holds its tenant's quota unit.
   */
  lemma RunsUnderItsOwnKey(cfg: Config, steps: seq<Step>, id: nat)
    requires id in Run(cfg, steps).flights && Run(cfg, steps).flights[id].phase.Running?
    ensures var f := Run(cfg, steps).flights[id];
            && f.global
            && (f.bucket.Some? <==> 0 < cfg.perPartition && 0 < cfg.buckets && exists key :: IsFairnessKey(cfg, f.request, key))
            && (forall key :: f.bucket.Some? && IsFairnessKey(cfg, f.request, key) ==> IsBucketOf(cfg, key, f.bucket.value))
            && (cfg.trusted.Some? && cfg.trusted.value.quota.Some? ==> f.quota == f.request.identity.tenant)
            && (cfg.trusted.None? || cfg.trusted.value.quota.None? ==> f.quota.None?)
  {
    InvAlways(cfg, steps);
    var f := Run(cfg, steps).flights[id];
    assert HoldingsOk(cfg, f);
    BucketSpelled(cfg, f.request);
  }

  /** The partition stage refuses exactly a request whose bucket has no permit left, and takes one otherwise. */
  lemma PartitionStage(cfg: Config, s: State, id: nat, w: World, key: string, b: nat)
    requires id in s.flights && s.flights[id].phase.AtPartition? && |s.bucketFree| == BucketCount(cfg)
    requires 0 < cfg.perPartition && 0 < cfg.buckets && IsFairnessKey(cfg, s.flights[id].request, key)
    requires BucketFor(cfg, s.flights[id].request) == Some(b)
    ensures IsBucketOf(cfg, key, b) && b < |s.bucketFree|
    ensures var f', free := AfterMove(cfg, s, id, w), Apply(cfg, s, Move(id, w)).bucketFree;
            if s.bucketFree[b] == 0 then f'.phase.Finishing? && f'.phase.exit == Denied(PartitionBusy) && free == s.bucketFree
            else f'.phase.AtGlobal? && f'.bucket == Some(b) && free == s.bucketFree[b := s.bucketFree[b] - 1]
  {
    BucketSpelled(cfg, s.flights[id].request);
  }

  lemma GlobalStage(cfg: Config, s: State, id: nat, w: World)
    requires id in s.flights && s.flights[id].phase.AtGlobal?
    ensures var f', free := AfterMove(cfg, s, id, w), Apply(cfg, s, Move(id, w)).globalFree;
            if s.globalFree == 0 then f'.phase.Finishing? && f'.phase.exit == Denied(GlobalBusy) && free == 0
            else f'.phase.Running? && f'.global && free == s.globalFree - 1
  {
  }

  lemma RunStage(cfg: Config, s: State, id: nat, w: World)
    requires id in s.flights && s.flights[id].phase.Running?
    ensures var f' := AfterMove(cfg, s, id, w); f'.phase.Finishing? && f'.phase.exit == Executed(w.outcome)
  {
  }

  // -- Tenants ----------------------------------------------------------------

  /** An execution of this tenant that is running now. */
  ghost function RunningFor(tenant: string): Flight -> bool {
    (f: Flight) => f.phase.Running? && f.request.identity.tenant == Some(tenant)
  }

  ghost function ChargedTo(tenant: string): Flight -> bool { (f: Flight) => f.quota == Some(tenant) }

  lemma ChargedAreGuards(flights: map<nat, Flight>, tenant: string)
    ensures Tally(flights, ChargedTo(tenant)) == LiveOf(Guarded(flights), tenant)
  {
    assert Matching(flights, ChargedTo(tenant)) == Matching(Guarded(flights), IsTenant(tenant));
  }

  /** With quota enforced, no tenant ever has more executions running than the largest plan limit allows. */
  lemma TenantNeverOverruns(cfg: Config, steps: seq<Step>, plans: Plans, tenant: string)
    requires cfg.trusted.Some? && cfg.trusted.value.quota == Some(plans)
    ensures var running := Tally(Run(cfg, steps).flights, RunningFor(tenant));
            running <= Quota.Usage(Run(cfg, steps).inflight, tenant)
            && (running > 0 ==> exists plan :: plan in plans && running <= plans[plan])
  {
    InvAlways(cfg, steps);
    var s := Run(cfg, steps);
    forall id | id in s.flights && RunningFor(tenant)(s.flights[id]) ensures ChargedTo(tenant)(s.flights[id]) {
      assert HoldingsOk(cfg, s.flights[id]);
    }
    TallyMonotone(s.flights, RunningFor(tenant), ChargedTo(tenant));
    ChargedAreGuards(s.flights, tenant);
    TenantsStayWithinPlans(cfg, steps, tenant);
  }

  // -- What a denial leaves behind --------------------------------------------

  /** The audit reason of each denial, by name. */
  ghost predicate AuditedAs(d: Denial, reason: string) {
    match d
    case Unauthorized => false
    case Anonymous => reason == "ANONYMOUS_FORBIDDEN"
    case Suspended => reason == "SUSPENDED_FORBIDDEN"
    case TenantRequired => reason == "TENANT_REQUIRED"
    case ActingScopeRequired => reason == "ACTING_SCOPE_REQUIRED"
    case Malformed => reason == "MALFORMED_REQUEST"
    case EntitlementRequired => reason == "ENTITLEMENT_REQUIRED"
    case ScriptXorKey | ScriptNotFound => reason == "SCRIPT_NOT_FOUND"
    case ScriptTooLarge | ContextTooLarge => reason == "INPUT_TOO_LARGE"
    case OverQuota => reason == "QUOTA_EXCEEDED"
    case SessionUnavailable | SessionUnresolved(_) | SessionProtocol => reason == "EGRESS_UNAVAILABLE"
    case PartitionBusy | GlobalBusy => reason == "OVERLOADED"
  }

  /**
   In every run the log of a finished, refused request holds one audit event with its stage's reason,
   or none at all when the token was refused; one that executed left its usage and an allowed audit.
   */
  lemma LogOfFinished(cfg: Config, steps: seq<Step>, id: nat)
    requires cfg.eventsOn && id in Run(cfg, steps).flights && Finished(Run(cfg, steps).flights[id])
    ensures var s := Run(cfg, steps);
            var log, e := EventsOf(s.log, id), s.flights[id].phase.exit;
            && (e == Denied(Unauthorized) ==> log == [])
            && (e.Denied? && !e.denial.Unauthorized? ==>
                |log| == 1 && log[0].Audit? && log[0].id == id && log[0].reason.Some? && AuditedAs(e.denial, log[0].reason.value))
            && (e.Executed? ==> log == [Usage(id, e.outcome), Audit(id, None)])
  {
    TrailExactly(cfg, steps, id);
  }

  /** The counters, by what the requests came to: refusals, the two overloads, and the outcomes. */
  lemma CountersByExit(cfg: Config, steps: seq<Step>)
    requires Idle(Run(cfg, steps))
    ensures var s := Run(cfg, steps);
            && s.counters[OverloadPartition] == Tally(s.flights, LeftAs(Denied(PartitionBusy)))
            && s.counters[OverloadGlobal] == Tally(s.flights, LeftAs(Denied(GlobalBusy)))
            && s.counters[Rejections] == Tally(s.flights, Rejected)
            && forall o :: s.counters[OutcomeOf(o)] == Tally(s.flights, LeftAs(Executed(o)))
  {
    EveryRequestCountedOnce(cfg, steps);
    var s := Run(cfg, steps);
    OverloadsByExit(s.flights);
    RejectionsByExit(s.flights);
    forall o ensures s.counters[OutcomeOf(o)] == Tally(s.flights, LeftAs(Executed(o))) { OutcomeByExit(s.flights, o); }
  }

  lemma OverloadsByExit(flights: map<nat, Flight>)
    ensures Tally(flights, EndedAs(OverloadPartition)) == Tally(flights, LeftAs(Denied(PartitionBusy)))
    ensures Tally(flights, EndedAs(OverloadGlobal)) == Tally(flights, LeftAs(Denied(GlobalBusy)))
  {
    TallySame(flights, EndedAs(OverloadPartition), LeftAs(Denied(PartitionBusy)));
    TallySame(flights, EndedAs(OverloadGlobal), LeftAs(Denied(GlobalBusy)));
  }

  lemma RejectionsByExit(flights: map<nat, Flight>)
    ensures Tally(flights, EndedAs(Rejections)) == Tally(flights, Rejected)
  {
    TallySame(flights, EndedAs(Rejections), Rejected);
  }

  lemma OutcomeByExit(flights: map<nat, Flight>, o: Outcome)
    ensures Tally(flights, EndedAs(OutcomeOf(o))) == Tally(flights, LeftAs(Executed(o)))
  {
    TallySame(flights, EndedAs(OutcomeOf(o)), LeftAs(Executed(o)));
  }

  ghost function LeftAs(e: Exit): Flight -> bool { (f: Flight) => f.phase.Finishing? && f.phase.exit == e }

  ghost predicate Rejected(f: Flight) {
    f.phase.Finishing? && f.phase.exit.Denied? && !f.phase.exit.denial.PartitionBusy? && !f.phase.exit.denial.GlobalBusy?
  }

  /** The response codes that differ from the audit reason, by name. */
  lemma CoarseCodes(code: string)
    ensures ResponseCode(Unauthorized) == "UNAUTHORIZED"
    ensures ResponseCode(ScriptXorKey) == "SCRIPT_XOR_KEY" && ResponseCode(ScriptTooLarge) == "SCRIPT_TOO_LARGE"
    ensures ResponseCode(ContextTooLarge) == "CONTEXT_TOO_LARGE" && ResponseCode(PartitionBusy) == "PARTITION_OVERLOADED"
    ensures ResponseCode(SessionProtocol) == "EGRESS_PROTOCOL" && ResponseCode(SessionUnresolved(code)) == code
  {
  }
}
