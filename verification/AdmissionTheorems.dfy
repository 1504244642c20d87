/** The promises of the admission pipeline, over every interleaving and every exit. */
module AdmissionTheorems {
  import opened Wrappers
  import opened Counting
  import Quota
  import opened Admission
  import opened AdmissionSafety

  ghost predicate IsRunning(f: Flight) { f.phase.Running? }

  /** Executions running now whose fairness key falls into bucket `b`. */
  ghost function RunningIn(cfg: Config, b: nat): Flight -> bool {
    (f: Flight) => f.phase.Running? && BucketFor(cfg, f.request) == Some(b)
  }

  /** Every arrived request has reached its response. */
  ghost predicate Idle(s: State) {
    forall id :: id in s.flights ==> Finished(s.flights[id])
  }

  /**
   Capacity is never exceeded and never lost: in every reachable state the running executions
   fit the bulkhead and each bucket's cap, and free plus held is the capacity of every semaphore.
   */
  lemma NeverOversubscribed(cfg: Config, steps: seq<Step>)
    ensures var s := Run(cfg, steps);
            && Tally(s.flights, IsRunning) <= cfg.bulkhead
            && s.globalFree + Tally(s.flights, HoldsGlobal) == cfg.bulkhead
            && |s.bucketFree| == BucketCount(cfg)
    ensures var s := Run(cfg, steps);
            forall b :: 0 <= b < BucketCount(cfg) ==>
              && s.bucketFree[b] + Tally(s.flights, HoldsBucket(b)) == cfg.perPartition
              && Tally(s.flights, RunningIn(cfg, b)) <= cfg.perPartition
  {
    var s := Run(cfg, steps);
    InvAlways(cfg, steps);
    RunningHolds(cfg, s);
    TallyMonotone(s.flights, IsRunning, HoldsGlobal);
    forall b: nat | b < BucketCount(cfg)
      ensures Tally(s.flights, RunningIn(cfg, b)) <= Tally(s.flights, HoldsBucket(b))
    {
      TallyMonotone(s.flights, RunningIn(cfg, b), HoldsBucket(b));
    }
  }

  lemma RunningHolds(cfg: Config, s: State)
    requires FlightsOk(cfg, s)
    ensures forall id :: id in s.flights && s.flights[id].phase.Running? ==>
              s.flights[id].global && s.flights[id].bucket == BucketFor(cfg, s.flights[id].request)
  {
    forall id | id in s.flights && s.flights[id].phase.Running?
      ensures s.flights[id].global && s.flights[id].bucket == BucketFor(cfg, s.flights[id].request)
    {
      assert HoldingsOk(cfg, s.flights[id]);
    }
  }

  /** With quota enforced, no tenant's in-flight count passes the largest configured limit. */
  lemma TenantsStayWithinPlans(cfg: Config, steps: seq<Step>, tenant: string)
    requires cfg.trusted.Some? && cfg.trusted.value.quota.Some?
    ensures var s := Run(cfg, steps);
            && Quota.Usage(s.inflight, tenant) == Quota.LiveOf(Guarded(s.flights), tenant)
            && (tenant in s.inflight ==>
                exists plan :: plan in cfg.trusted.value.quota.value
                            && s.inflight[tenant] <= cfg.trusted.value.quota.value[plan])
    ensures cfg.trusted.value.quota.value == map[] ==> Run(cfg, steps).inflight == map[]
  {
    InvAlways(cfg, steps);
    var s := Run(cfg, steps);
    if cfg.trusted.value.quota.value == map[] {
      assert forall t :: t !in s.inflight;
    }
  }

  /** Every exit returns everything: an idle server has all permits free and an empty quota map. */
  lemma IdleReturnsEverything(cfg: Config, steps: seq<Step>)
    requires Idle(Run(cfg, steps))
    ensures var s := Run(cfg, steps);
            && s.globalFree == cfg.bulkhead
            && s.bucketFree == seq(BucketCount(cfg), _ => cfg.perPartition)
            && s.inflight == map[]
  {
    var s := Run(cfg, steps);
    InvAlways(cfg, steps);
    NothingHeld(cfg, s);
    TallyZero(s.flights, HoldsGlobal);
    forall b: nat | b < |s.bucketFree| ensures s.bucketFree[b] == cfg.perPartition {
      TallyZero(s.flights, HoldsBucket(b));
    }
    assert Guarded(s.flights) == map[];
    forall t ensures t !in s.inflight {
      TallyZero(Guarded(s.flights), Quota.IsTenant(t));
      assert Quota.Usage(s.inflight, t) == Quota.LiveOf(Guarded(s.flights), t);
    }
  }

  lemma NothingHeld(cfg: Config, s: State)
    requires FlightsOk(cfg, s) && Idle(s)
    ensures forall id :: id in s.flights ==>
              s.flights[id].quota.None? && s.flights[id].bucket.None? && !s.flights[id].global
  {
    forall id | id in s.flights
      ensures s.flights[id].quota.None? && s.flights[id].bucket.None? && !s.flights[id].global
    {
      assert HoldingsOk(cfg, s.flights[id]) && Finished(s.flights[id]);
    }
  }

  // -- Terminal accounting ----------------------------------------------------

  /** The one counter each way of ending belongs to. */
  function Terminal(e: Exit): Counter {
    match e
    case Executed(o) => OutcomeOf(o)
    case Denied(PartitionBusy) => OverloadPartition
    case Denied(GlobalBusy) => OverloadGlobal
    case Denied(_) => Rejections
  }

  ghost function EndedAs(c: Counter): Flight -> bool {
    (f: Flight) => f.phase.Finishing? && Terminal(f.phase.exit) == c
  }

  ghost predicate Ran(f: Flight) { f.phase.Finishing? && f.phase.exit.Executed? }

  lemma ScriptBumpsTerminal(e: Exit)
    ensures forall c :: Bump(c) in Script(e) <==> c == Terminal(e)
    ensures ObserveLatency in Script(e) <==> e.Executed?
  {
    var at := match e
              case Executed(_) => 5
              case Denied(d) => if Script(e)[0].Bump? then 0 else 1;
    assert Script(e)[at] == Bump(Terminal(e));
    ScriptFacts(e);
  }

  lemma FinishedPerformed(s: State, id: nat)
    requires ScriptsOk(s) && id in s.flights && Finished(s.flights[id])
    ensures Performed(s.flights[id]) == Script(s.flights[id].phase.exit)
  {
    var f := s.flights[id];
    assert ScriptOk(f);
    assert f.phase.done + [] == f.phase.done;
  }

  lemma FinishedFacts(s: State, id: nat)
    requires ScriptsOk(s) && id in s.flights && Finished(s.flights[id])
    ensures var f := s.flights[id];
            && (forall c :: Bump(c) in Performed(f) <==> c == Terminal(f.phase.exit))
            && Settled(f) && (SettledRun(f) <==> Ran(f)) && (Timed(f) <==> Ran(f))
  {
    var f := s.flights[id];
    FinishedPerformed(s, id);
    ScriptBumpsTerminal(f.phase.exit);
    assert Bump(Terminal(f.phase.exit)) in Performed(f);
    if Ran(f) { assert Bump(OutcomeOf(f.phase.exit.outcome)) in Performed(f); }
  }

  /**
   At every moment of every run: a finished request has bumped exactly its exit's counter and
   nothing else, and each counter is the number of requests that have bumped it.
   */
  lemma FinishedCountedOnce(cfg: Config, steps: seq<Step>, id: nat, c: Counter)
    requires id in Run(cfg, steps).flights && Finished(Run(cfg, steps).flights[id])
    ensures Bumped(c)(Run(cfg, steps).flights[id]) <==> c == Terminal(Run(cfg, steps).flights[id].phase.exit)
    ensures Run(cfg, steps).counters[c] == Tally(Run(cfg, steps).flights, Bumped(c))
    ensures |Run(cfg, steps).counters| == Tally(Run(cfg, steps).flights, Settled)
  {
    InvAlways(cfg, steps);
    FinishedFacts(Run(cfg, steps), id);
  }

  /**
   Every finished request is counted under exactly one of the ten counters, the one its exit
   belongs to; the latency count is the sum of the seven outcomes, the executions that ran.
   */
  lemma EveryRequestCountedOnce(cfg: Config, steps: seq<Step>)
    requires Idle(Run(cfg, steps))
    ensures var s := Run(cfg, steps);
            && (forall c :: s.counters[c] == Tally(s.flights, EndedAs(c)))
            && |s.counters| == |s.flights|
            && s.latencyCount == OutcomeTotal(s.counters) == Tally(s.flights, Ran)
  {
    InvAlways(cfg, steps);
    IdleCounts(Run(cfg, steps));
  }

  lemma IdleCounts(s: State)
    requires ScriptsOk(s) && CountersExact(s) && Idle(s)
    ensures forall c :: s.counters[c] == Tally(s.flights, EndedAs(c))
    ensures |s.counters| == |s.flights|
    ensures s.latencyCount == OutcomeTotal(s.counters) == Tally(s.flights, Ran)
  {
    forall id | id in s.flights
      ensures Settled(s.flights[id]) && (SettledRun(s.flights[id]) <==> Ran(s.flights[id]))
              && (Timed(s.flights[id]) <==> Ran(s.flights[id]))
    {
      FinishedFacts(s, id);
    }
    TallyAll(s.flights, Settled);
    TallySame(s.flights, SettledRun, Ran);
    TallySame(s.flights, Timed, Ran);
    forall c ensures s.counters[c] == Tally(s.flights, EndedAs(c)) { IdleCount(s, c); }
  }

  lemma IdleCount(s: State, c: Counter)
    requires ScriptsOk(s) && Idle(s)
    ensures Tally(s.flights, Bumped(c)) == Tally(s.flights, EndedAs(c))
  {
    forall id | id in s.flights ensures Bumped(c)(s.flights[id]) <==> EndedAs(c)(s.flights[id]) {
      FinishedFacts(s, id);
    }
    TallySame(s.flights, Bumped(c), EndedAs(c));
  }

  /** The audit trail an exit must leave: nothing for a bad bearer token, else one decision. */
  function Trail(id: nat, e: Exit): seq<Event> {
    match e
    case Executed(o) => [Usage(id, o), Audit(id, None)]
    case Denied(Unauthorized) => []
    case Denied(d) => [Audit(id, Some(AuditReason(d)))]
  }

  lemma ScriptEmitsTrail(id: nat, e: Exit)
    ensures Emitted(id, Script(e)) == Trail(id, e)
  {
    match e
    case Executed(o) => ExecutedTrail(id, o);
    case Denied(d) => DeniedTrail(id, d);
  }

  lemma ExecutedTrail(id: nat, o: Outcome)
    ensures Emitted(id, Script(Executed(o))) == Trail(id, Executed(o))
  {
    var tail := [EmitUsage(o), EmitAudit(None), Bump(OutcomeOf(o)), DropQuota];
    FewEmit(id, tail);
    EmittedCons(id, ObserveLatency, tail);
    EmittedCons(id, DropPartition, [ObserveLatency] + tail);
    EmittedCons(id, DropGlobal, [DropPartition] + ([ObserveLatency] + tail));
    assert Script(Executed(o)) == [DropGlobal] + ([DropPartition] + ([ObserveLatency] + tail));
  }

  lemma DeniedTrail(id: nat, d: Denial)
    ensures Emitted(id, Script(Denied(d))) == Trail(id, Denied(d))
  {
    FewEmit(id, Script(Denied(d)));
  }

  /** The events of at most four actions. */
  lemma {:induction false} FewEmit(id: nat, a: seq<Action>)
    requires 1 <= |a| <= 4
    ensures Emitted(id, a)
         == EventOf(id, a[0]) + (if |a| > 1 then EventOf(id, a[1]) else [])
            + (if |a| > 2 then EventOf(id, a[2]) else []) + (if |a| > 3 then EventOf(id, a[3]) else [])
    decreases |a|
  {
    EmittedCons(id, a[0], a[1..]);
    assert a == [a[0]] + a[1..];
    if |a| > 1 { FewEmit(id, a[1..]); }
  }

  /**
   In every reachable state the log holds, for each finished request and in order, exactly its
   trail: one audit event past the bearer check, and a usage event iff it executed.
   */
  lemma TrailExactly(cfg: Config, steps: seq<Step>, id: nat)
    requires id in Run(cfg, steps).flights && Finished(Run(cfg, steps).flights[id])
    ensures EventsOf(Run(cfg, steps).log, id)
         == if cfg.eventsOn then Trail(id, Run(cfg, steps).flights[id].phase.exit) else []
  {
    InvAlways(cfg, steps);
    TrailIn(cfg, Run(cfg, steps), id);
  }

  lemma TrailIn(cfg: Config, s: State, id: nat)
    requires ScriptsOk(s) && Logged(cfg, s) && id in s.flights && Finished(s.flights[id])
    ensures EventsOf(s.log, id) == if cfg.eventsOn then Trail(id, s.flights[id].phase.exit) else []
  {
    assert LoggedFor(cfg, s, id);
    FinishedPerformed(s, id);
    ScriptEmitsTrail(id, s.flights[id].phase.exit);
  }

  lemma CodesDiffer(d: Denial)
    requires !d.Unauthorized?
    ensures AuditReason(d) == ResponseCode(d) <==>
      !(d.ScriptXorKey? || d.ScriptTooLarge? || d.ContextTooLarge? || d.PartitionBusy?
        || d.SessionProtocol? || (d.SessionUnresolved? && d.code != "EGRESS_UNAVAILABLE"))
  {
    assert "SCRIPT_XOR_KEY"[7] == 'X' && "SCRIPT_NOT_FOUND"[7] == 'N';
    assert "SCRIPT_TOO_LARGE"[0] == 'S' && "CONTEXT_TOO_LARGE"[0] == 'C' && "INPUT_TOO_LARGE"[0] == 'I';
    assert "PARTITION_OVERLOADED"[0] == 'P' && "OVERLOADED"[0] == 'O';
    assert "EGRESS_PROTOCOL"[7] == 'P' && "EGRESS_UNAVAILABLE"[7] == 'U';
  }

  /**
   The audit event of a refused request carries the response's own error code exactly when the denial
   is none of those listed: the events module promises it for all, the pipeline writes a coarser
   reason for these.
   */
  lemma AuditReasonIsResponseCode(cfg: Config, steps: seq<Step>, id: nat, d: Denial)
    requires cfg.eventsOn && id in Run(cfg, steps).flights && Finished(Run(cfg, steps).flights[id])
    requires Run(cfg, steps).flights[id].phase.exit == Denied(d) && !d.Unauthorized?
    ensures EventsOf(Run(cfg, steps).log, id) == [Audit(id, Some(ResponseCode(d)))] <==>
      !(d.ScriptXorKey? || d.ScriptTooLarge? || d.ContextTooLarge? || d.PartitionBusy?
        || d.SessionProtocol? || (d.SessionUnresolved? && d.code != "EGRESS_UNAVAILABLE"))
  {
    TrailExactly(cfg, steps, id);
    CodesDiffer(d);
    SameReason(id, AuditReason(d), ResponseCode(d));
  }

  lemma SameReason(id: nat, a: string, b: string)
    ensures [Audit(id, Some(a))] == [Audit(id, Some(b))] <==> a == b
  {
    assert [Audit(id, Some(a))][0] == Audit(id, Some(a)) && [Audit(id, Some(b))][0] == Audit(id, Some(b));
  }

  // -- No request waits for another -------------------------------------------

  /** The most atomic moves a request can still need. */
  ghost function Left(f: Flight): nat {
    match f.phase
    case AtGates => 13
    case AtQuota => 12
    case AtSession => 11
    case AtPartition => 10
    case AtGlobal => 9
    case Running => 8
    case Finishing(_, _, todo) => |todo|
  }

  /** How often request `id` has been given a turn since it arrived. */
  ghost function Turns(cfg: Config, steps: seq<Step>, id: nat): nat {
    if steps == [] then 0
    else
      var before, last := steps[..|steps| - 1], steps[|steps| - 1];
      Turns(cfg, before, id) + if last.Move? && last.id == id && id in Run(cfg, before).flights then 1 else 0
  }

  lemma LeaveIsShort(f: Flight, e: Exit)
    ensures Left(Leave(f, e)) <= 7
  {
  }

  lemma TurnShortens(cfg: Config, s: State, id: nat, w: World)
    requires id in s.flights && !Finished(s.flights[id])
    ensures id in Advance(cfg, s, id, w).flights
    ensures Left(Advance(cfg, s, id, w).flights[id]) < Left(s.flights[id])
  {
    var f := s.flights[id];
    match f.phase
    case AtGates => GatesShorten(cfg, s, id, f);
    case AtQuota => LeaveIsShort(f, Denied(OverQuota));
    case AtSession => if !w.session.Connected? { LeaveIsShort(f, Denied(SessionDenial(w.session))); }
    case AtPartition => LeaveIsShort(f, Denied(PartitionBusy));
    case AtGlobal => LeaveIsShort(f, Denied(GlobalBusy));
    case Running => LeaveIsShort(f, Executed(w.outcome));
    case Finishing(_, _, _) =>
  }

  lemma GatesShorten(cfg: Config, s: State, id: nat, f: Flight)
    requires f.phase == AtGates
    ensures Left(PassGates(cfg, s, id, f).flights[id]) < 13
  {
    var gate := Gates(cfg, f.request);
    if gate.Some? { LeaveIsShort(f, Denied(gate.value)); }
  }

  /** A step never lengthens a request's way, and its own turn shortens it. */
  lemma StepShortens(cfg: Config, s: State, step: Step, id: nat)
    requires id in s.flights
    ensures id in Apply(cfg, s, step).flights
    ensures var own := step.Move? && step.id == id;
            var left, left' := Left(s.flights[id]), Left(Apply(cfg, s, step).flights[id]);
            left' <= left && (own && left > 0 ==> left' < left)
  {
    if step.Move? && step.id == id {
      if Left(s.flights[id]) > 0 { TurnShortens(cfg, s, id, step.world); }
    } else {
      OthersUntouched(cfg, s, step, id);
    }
  }

  lemma OthersUntouched(cfg: Config, s: State, step: Step, id: nat)
    requires id in s.flights && (step.Arrive? || step.id != id)
    ensures id in Apply(cfg, s, step).flights && Apply(cfg, s, step).flights[id] == s.flights[id]
  {
    if step.Move? && step.id in s.flights { AdvancesAlone(cfg, s, step.id, step.world); }
  }

  /** `t` differs from `s` at most in flight `id`. */
  ghost predicate OnlyFlight(s: State, t: State, id: nat) {
    id in t.flights && t.flights == s.flights[id := t.flights[id]]
  }

  lemma AdvancesAlone(cfg: Config, s: State, id: nat, w: World)
    requires id in s.flights
    ensures OnlyFlight(s, Advance(cfg, s, id, w), id)
  {
    var f := s.flights[id];
    match f.phase
    case AtQuota => TakesQuotaAlone(cfg, s, id, f);
    case Finishing(_, _, todo) => if todo != [] { PerformsAlone(cfg, s, id, Ticked(f), todo[0]); }
    case _ =>
  }

  lemma PerformsAlone(cfg: Config, s: State, id: nat, f: Flight, a: Action)
    ensures OnlyFlight(s, Perform(cfg, s, id, f, a), id)
  {
  }

  lemma TakesQuotaAlone(cfg: Config, s: State, id: nat, f: Flight)
    ensures OnlyFlight(s, TakeQuota(cfg, s, id, f), id)
  {
  }

  lemma ArrivesWhole(cfg: Config, s: State, step: Step, id: nat)
    requires id !in s.flights
    ensures id in Apply(cfg, s, step).flights ==> Left(Apply(cfg, s, step).flights[id]) == 13
  {
    if step.Move? && step.id in s.flights { AdvancesAlone(cfg, s, step.id, step.world); }
  }

  lemma {:induction false} TurnsBound(cfg: Config, steps: seq<Step>, id: nat)
    ensures id !in Run(cfg, steps).flights ==> Turns(cfg, steps, id) == 0
    ensures id in Run(cfg, steps).flights ==>
              Left(Run(cfg, steps).flights[id]) == 0
              || Turns(cfg, steps, id) + Left(Run(cfg, steps).flights[id]) <= 13
  {
    if steps != [] {
      var before, last := steps[..|steps| - 1], steps[|steps| - 1];
      TurnsBound(cfg, before, id);
      if id in Run(cfg, before).flights {
        StepShortens(cfg, Run(cfg, before), last, id);
      } else {
        ArrivesWhole(cfg, Run(cfg, before), last, id);
      }
    }
  }

  /** Whatever the other requests do, thirteen turns are enough for a request to finish. */
  lemma EveryRequestFinishes(cfg: Config, steps: seq<Step>, id: nat)
    requires Turns(cfg, steps, id) >= 13
    ensures id in Run(cfg, steps).flights && Finished(Run(cfg, steps).flights[id])
  {
    TurnsBound(cfg, steps, id);
  }

  // -- A request on its own ---------------------------------------------------

  /** The quota gate refuses the request at this usage. */
  ghost predicate OverLimit(cfg: Config, r: Request, inflight: map<string, nat>) {
    && ChargedTenant(cfg, r).Some?
    && Quota.Check(cfg.trusted.value.quota.value, r.identity.plan,
                   Quota.Usage(inflight, ChargedTenant(cfg, r).value)).Some?
  }

  ghost function PermitVerdict(cfg: Config, r: Request, w: World, bucketFree: seq<nat>, free: nat): Exit
    requires |bucketFree| == BucketCount(cfg)
  {
    var b := BucketFor(cfg, r);
    if b.Some? && bucketFree[b.value] == 0 then Denied(PartitionBusy)
    else if free == 0 then Denied(GlobalBusy)
    else Executed(w.outcome)
  }

  /** How a request past the quota gate must end when it is alone with these permits. */
  ghost function Admitted(cfg: Config, r: Request, w: World, bucketFree: seq<nat>, free: nat): Exit
    requires |bucketFree| == BucketCount(cfg)
  {
    if r.body.Some? && NeedsEgress(r.body.value) && !w.session.Connected? then Denied(SessionDenial(w.session))
    else PermitVerdict(cfg, r, w, bucketFree, free)
  }

  /** How a request that is alone with this shared state must end, from where it stands. */
  ghost function Verdict(cfg: Config, s: State, f: Flight, w: World): Exit
    requires |s.bucketFree| == BucketCount(cfg)
  {
    var past := Admitted(cfg, f.request, w, s.bucketFree, s.globalFree);
    match f.phase
    case AtGates =>
      if Gates(cfg, f.request).Some? then Denied(Gates(cfg, f.request).value)
      else if OverLimit(cfg, f.request, s.inflight) then Denied(OverQuota) else past
    case AtQuota => if OverLimit(cfg, f.request, s.inflight) then Denied(OverQuota) else past
    case AtSession => past
    case AtPartition => PermitVerdict(cfg, f.request, w, s.bucketFree, s.globalFree)
    case AtGlobal => if s.globalFree == 0 then Denied(GlobalBusy) else Executed(w.outcome)
    case Running => Executed(w.outcome)
    case Finishing(e, _, _) => e
  }

  /** Flight `id` of `t` ends as `e` if left alone. */
  ghost predicate Ends(cfg: Config, t: State, id: nat, w: World, e: Exit) {
    |t.bucketFree| == BucketCount(cfg) && id in t.flights && Verdict(cfg, t, t.flights[id], w) == e
  }

  lemma GatesDecide(cfg: Config, s: State, id: nat, f: Flight, w: World)
    requires |s.bucketFree| == BucketCount(cfg) && f.phase.AtGates?
    ensures Ends(cfg, PassGates(cfg, s, id, f), id, w, Verdict(cfg, s, f, w))
  {
  }

  lemma QuotaDecides(cfg: Config, s: State, id: nat, f: Flight, w: World)
    requires |s.bucketFree| == BucketCount(cfg) && f.phase.AtQuota?
    ensures Ends(cfg, TakeQuota(cfg, s, id, f), id, w, Verdict(cfg, s, f, w))
  {
  }

  lemma SessionDecides(cfg: Config, s: State, id: nat, f: Flight, w: World)
    requires |s.bucketFree| == BucketCount(cfg) && f.phase.AtSession?
    ensures Ends(cfg, OpenSession(s, id, f, w), id, w, Verdict(cfg, s, f, w))
  {
  }

  lemma PartitionDecides(cfg: Config, s: State, id: nat, f: Flight, w: World)
    requires |s.bucketFree| == BucketCount(cfg) && f.phase.AtPartition?
    ensures Ends(cfg, TakePartition(cfg, s, id, f), id, w, Verdict(cfg, s, f, w))
  {
  }

  lemma GlobalDecides(cfg: Config, s: State, id: nat, f: Flight, w: World)
    requires |s.bucketFree| == BucketCount(cfg) && f.phase.AtGlobal?
    ensures Ends(cfg, TakeGlobal(s, id, f), id, w, Verdict(cfg, s, f, w))
  {
  }

  lemma PerformKeepsExit(cfg: Config, s: State, id: nat, f: Flight, a: Action)
    requires f.phase.Finishing?
    ensures var t := Perform(cfg, s, id, f, a);
            id in t.flights && |t.bucketFree| == |s.bucketFree| && t.flights[id].phase == f.phase
  {
  }

  /** A request's own moves never change how it must end. */
  lemma VerdictKept(cfg: Config, s: State, id: nat, w: World)
    requires |s.bucketFree| == BucketCount(cfg) && id in s.flights
    ensures Ends(cfg, Advance(cfg, s, id, w), id, w, Verdict(cfg, s, s.flights[id], w))
  {
    var f := s.flights[id];
    match f.phase
    case AtGates => GatesDecide(cfg, s, id, f, w);
    case AtQuota => QuotaDecides(cfg, s, id, f, w);
    case AtSession => SessionDecides(cfg, s, id, f, w);
    case AtPartition => PartitionDecides(cfg, s, id, f, w);
    case AtGlobal => GlobalDecides(cfg, s, id, f, w);
    case Running =>
    case Finishing(_, _, todo) => if todo != [] { PerformKeepsExit(cfg, s, id, Ticked(f), todo[0]); }
  }

  /** The moves of one request, as steps of a run. */
  ghost function OwnMoves(id: nat, w: World, n: nat): seq<Step> { seq(n, _ => Move(id, w)) }

  lemma RunSnoc(cfg: Config, steps: seq<Step>, step: Step)
    ensures Run(cfg, steps + [step]) == Apply(cfg, Run(cfg, steps), step)
  {
    assert (steps + [step])[..|steps|] == steps;
  }

  lemma OwnMovesCons(steps: seq<Step>, id: nat, w: World, n: nat)
    requires n > 0
    ensures steps + OwnMoves(id, w, n) == steps + [Move(id, w)] + OwnMoves(id, w, n - 1)
  {
  }

  /** Flight `id` ends as `e` if left alone, within `n` moves. */
  ghost predicate Pending(cfg: Config, s: State, id: nat, w: World, e: Exit, n: nat) {
    Ends(cfg, s, id, w, e) && Left(s.flights[id]) <= n
  }

  ghost predicate Decided(s: State, id: nat, e: Exit) {
    id in s.flights && Finished(s.flights[id]) && s.flights[id].phase.exit == e
  }

  lemma MoveOn(cfg: Config, s: State, id: nat, w: World, e: Exit, n: nat)
    requires Pending(cfg, s, id, w, e, n) && n > 0
    ensures Pending(cfg, Apply(cfg, s, Move(id, w)), id, w, e, n - 1)
  {
    VerdictKept(cfg, s, id, w);
    if !Finished(s.flights[id]) { TurnShortens(cfg, s, id, w); }
  }

  lemma PendingIsDecided(cfg: Config, s: State, id: nat, w: World, e: Exit)
    requires Pending(cfg, s, id, w, e, 0)
    ensures Decided(s, id, e)
  {
  }

  lemma {:induction false} MovesDecide(cfg: Config, steps: seq<Step>, id: nat, w: World, e: Exit, n: nat)
    requires Pending(cfg, Run(cfg, steps), id, w, e, n)
    ensures Decided(Run(cfg, steps + OwnMoves(id, w, n)), id, e)
    decreases n
  {
    if n == 0 {
      assert steps + OwnMoves(id, w, 0) == steps;
      PendingIsDecided(cfg, Run(cfg, steps), id, w, e);
    } else {
      RunSnoc(cfg, steps, Move(id, w));
      MoveOn(cfg, Run(cfg, steps), id, w, e, n);
      OwnMovesCons(steps, id, w, n);
      MovesDecide(cfg, steps + [Move(id, w)], id, w, e, n - 1);
    }
  }

  /**
   A request that arrives and then moves alone ends within thirteen moves, exactly as the gates, the
   quota, the session and the free permits found on arrival decide.
   */
  lemma AloneDecides(cfg: Config, steps: seq<Step>, id: nat, r: Request, w: World)
    requires id !in Run(cfg, steps).flights
    ensures |Run(cfg, steps).bucketFree| == BucketCount(cfg)
    ensures Decided(Run(cfg, steps + [Arrive(id, r)] + OwnMoves(id, w, 13)), id,
                    Verdict(cfg, Run(cfg, steps), Flight(r, AtGates, None, None, false), w))
  {
    InvAlways(cfg, steps);
    RunSnoc(cfg, steps, Arrive(id, r));
    ArrivalPending(cfg, Run(cfg, steps), id, r, w);
    MovesDecide(cfg, steps + [Arrive(id, r)], id, w,
                Verdict(cfg, Run(cfg, steps), Flight(r, AtGates, None, None, false), w), 13);
  }

  lemma ArrivalPending(cfg: Config, s: State, id: nat, r: Request, w: World)
    requires |s.bucketFree| == BucketCount(cfg) && id !in s.flights
    ensures var f := Flight(r, AtGates, None, None, false);
            Pending(cfg, Apply(cfg, s, Arrive(id, r)), id, w, Verdict(cfg, s, f, w), 13)
  {
  }

  /**
   A reason that is not the response's code: a request with both a script and a key, on any server that
   asks for no token and trusts no headers, is answered with one code and audited under another.
   */
  lemma ScriptAndKeyAuditedCoarsely(cfg: Config, steps: seq<Step>, id: nat, r: Request, w: World)
    requires id !in Run(cfg, steps).flights && cfg.eventsOn && cfg.accessToken.None? && cfg.trusted.None?
    requires r.body.Some? && r.body.value.script.Some? && r.body.value.key.Some?
    ensures var s := Run(cfg, steps + [Arrive(id, r)] + OwnMoves(id, w, 13));
            && id in s.flights && s.flights[id].phase.Finishing? && s.flights[id].phase.exit == Denied(ScriptXorKey)
            && EventsOf(s.log, id) == [Audit(id, Some("SCRIPT_NOT_FOUND"))]
    ensures ResponseCode(ScriptXorKey) == "SCRIPT_XOR_KEY" != "SCRIPT_NOT_FOUND"
  {
    AloneDecides(cfg, steps, id, r, w);
    TrailExactly(cfg, steps + [Arrive(id, r)] + OwnMoves(id, w, 13), id);
    CodesDiffer(ScriptXorKey);
  }
}
