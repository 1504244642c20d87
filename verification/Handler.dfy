/**
 The `/execute` pipeline as the code runs it for one request (`crates/runlet/src/handler.rs`):
 shared objects updated in place, with an early return at every gate.
 */
module Handler {
  import opened Wrappers
  import opened Quota
  import opened Partition
  import opened Admission
  import opened AdmissionTheorems
  import opened AdmissionGates

  /** What `acquire_permits` returns: the permits to hold, or which limit was hit. */
  datatype Permits = Granted(partition: Option<nat>) | Busy(denial: Denial)

  class AppState {
    const cfg: Config
    const quota: TenantQuota?
    const limiter: PartitionLimiter?
    var free: nat
    var counters: multiset<Counter>
    var latencyCount: nat
    var log: seq<Event>

    ghost function Parts(): set<object>
    {
      (if quota != null then {quota as object} else {}) + (if limiter != null then {limiter.free as object} else {})
    }

    ghost predicate Valid()
      reads this, Parts()
    {
      && (quota != null <==> cfg.trusted.Some? && cfg.trusted.value.quota.Some?)
      && (quota != null ==> quota.plans == cfg.trusted.value.quota.value)
      && (quota != null ==> forall t :: t in quota.inflight ==> 0 < quota.inflight[t])
      && (limiter != null <==> 0 < BucketCount(cfg))
      && (limiter != null ==>
          && limiter.free.Length == BucketCount(cfg) && limiter.perPartition == cfg.perPartition
          && limiter.hash == cfg.hash && limiter.usizeMax == cfg.usizeMax && limiter.Valid())
      && free <= cfg.bulkhead
    }

    /** An empty server: every permit free, nothing counted. */
    constructor (cfg: Config)
      ensures Valid() && this.cfg == cfg
      ensures View() == Init(cfg)
    {
      this.cfg := cfg;
      free, counters, latencyCount, log := cfg.bulkhead, multiset{}, 0, [];
      var accountant: TenantQuota? := null;
      if cfg.trusted.Some? && cfg.trusted.value.quota.Some? {
        accountant := new TenantQuota(cfg.trusted.value.quota.value);
      }
      var semaphores: PartitionLimiter? := null;
      if 0 < BucketCount(cfg) {
        semaphores := new PartitionLimiter(cfg.buckets, cfg.perPartition, cfg.hash, cfg.usizeMax);
      }
      quota, limiter := accountant, semaphores;
    }

    ghost function Inflight(): map<string, nat>
      reads this, Parts()
    {
      if quota != null then quota.inflight else map[]
    }

    ghost function BucketFree(): seq<nat>
      reads this, Parts()
    {
      if limiter != null then limiter.free[..] else []
    }

    /** The partition permit first, then the bulkhead; a bulkhead refusal returns the first. */
    method AcquirePermits(partition: Option<string>) returns (p: Permits)
      requires Valid()
      modifies `free, if limiter != null then {limiter.free} else {}
      ensures Valid()
      ensures var b := if limiter != null && partition.Some? then Some(limiter.BucketFor(partition.value)) else None;
              if b.Some? && old(BucketFree())[b.value] == 0 then
                p == Busy(PartitionBusy) && BucketFree() == old(BucketFree()) && free == old(free)
              else if old(free) == 0 then
                p == Busy(GlobalBusy) && BucketFree() == old(BucketFree()) && free == old(free)
              else
                && p == Granted(b) && free == old(free) - 1
                && BucketFree() == if b.Some? then old(BucketFree())[b.value := old(BucketFree())[b.value] - 1]
                                   else old(BucketFree())
    {
      var permit := None;
      if limiter != null && partition.Some? {
        permit := limiter.TryAcquire(partition.value);
        if permit.None? {
          return Busy(PartitionBusy);
        }
      }
      if free == 0 {
        if permit.Some? {
          limiter.Release(permit.value);
        }
        return Busy(GlobalBusy);
      }
      free := free - 1;
      return Granted(permit);
    }

    method EmitDenied(id: nat, reason: string)
      modifies `log
      ensures log == old(log) + if cfg.eventsOn then [Audit(id, Some(reason))] else []
    {
      if cfg.eventsOn {
        log := log + [Audit(id, Some(reason))];
      }
    }

    method EmitExecuted(id: nat, o: Outcome)
      modifies `log
      ensures log == old(log) + if cfg.eventsOn then [Usage(id, o), Audit(id, None)] else []
    {
      if cfg.eventsOn {
        log := log + [Usage(id, o)];
        log := log + [Audit(id, None)];
      }
    }

    /** Denies after the quota gate: one counter, one audit event, the guard given back. */
    method Shed(id: nat, d: Denial, guard: Option<string>)
      requires Valid() && (guard.Some? ==> quota != null && guard.value in quota.inflight)
      requires !d.Unauthorized?
      modifies `counters, `log, if quota != null then {quota} else {}
      ensures Valid()
      ensures counters == old(counters) + multiset{Terminal(Denied(d))}
      ensures log == old(log) + if cfg.eventsOn then Trail(id, Denied(d)) else []
      ensures Inflight() == if guard.Some? then Released(old(Inflight()), guard.value) else old(Inflight())
    {
      counters := counters + multiset{Terminal(Denied(d))};
      EmitDenied(id, AuditReason(d));
      if guard.Some? {
        quota.DropGuard(guard.value);
      }
    }

    /** Per-tenant quota admission; the tenant charged, or the refusal. */
    method EnforceQuota(r: Request) returns (refused: bool, guard: Option<string>)
      requires Valid()
      modifies if quota != null then {quota} else {}
      ensures Valid()
      ensures refused == OverLimit(cfg, r, old(Inflight()))
      ensures refused ==> guard.None? && Inflight() == old(Inflight())
      ensures !refused ==> guard == ChargedTenant(cfg, r)
      ensures !refused && guard.None? ==> Inflight() == old(Inflight())
      ensures !refused && guard.Some? ==>
                && Quota.Usage(old(Inflight()), guard.value) < U64_MAX
                && Inflight() == old(Inflight())[guard.value := Quota.Usage(old(Inflight()), guard.value) + 1]
    {
      guard, refused := None, false;
      if quota != null && r.identity.tenant.Some? {
        var refusal := quota.Admit(r.identity.tenant.value, r.identity.plan);
        if refusal.Some? {
          refused := true;
        } else {
          guard := r.identity.tenant;
        }
      }
    }

    /** The shared part of the admission machine's state that this object holds. */
    ghost function View(): (s: State)
      requires Valid()
      reads this, Parts()
      ensures |s.bucketFree| == BucketCount(cfg)
    {
      State(map[], Inflight(), BucketFree(), free, counters, latencyCount, log)
    }

    /** How the admission machine ends a request that is alone with this state. */
    ghost function Decision(r: Request, w: World): Exit
      requires Valid()
      reads this, Parts()
    {
      Verdict(cfg, View(), Flight(r, AtGates, None, None, false), w)
    }

    /** Execution finished: the bulkhead permit and the partition permit go back. */
    method ReturnPermits(permit: Option<nat>)
      requires Valid() && free < cfg.bulkhead
      requires permit.Some? ==> limiter != null && permit.value < limiter.free.Length
      requires permit.Some? ==> limiter.free[permit.value] < cfg.perPartition
      modifies `free, if limiter != null then {limiter.free} else {}
      ensures Valid() && free == old(free) + 1
      ensures BucketFree() == if permit.Some? then old(BucketFree())[permit.value := old(BucketFree())[permit.value] + 1]
                              else old(BucketFree())
    {
      free := free + 1;
      if permit.Some? {
        limiter.Release(permit.value);
      }
    }

    /** `build_response`: latency, usage and audit events, the outcome counter; then the guard drops. */
    method RecordExecution(id: nat, o: Outcome, guard: Option<string>)
      requires Valid() && (guard.Some? ==> quota != null && guard.value in quota.inflight)
      modifies `latencyCount, `counters, `log, if quota != null then {quota} else {}
      ensures Valid()
      ensures latencyCount == old(latencyCount) + 1
      ensures counters == old(counters) + multiset{Terminal(Executed(o))}
      ensures log == old(log) + if cfg.eventsOn then Trail(id, Executed(o)) else []
      ensures Inflight() == if guard.Some? then Released(old(Inflight()), guard.value) else old(Inflight())
    {
      latencyCount := latencyCount + 1;
      EmitExecuted(id, o);
      counters := counters + multiset{OutcomeOf(o)};
      if guard.Some? {
        quota.DropGuard(guard.value);
      }
    }

    /** After the run: permits back, records written, guard dropped. */
    method Respond(id: nat, o: Outcome, permit: Option<nat>, guard: Option<string>)
      requires Valid() && free < cfg.bulkhead
      requires permit.Some? ==> limiter != null && permit.value < limiter.free.Length
      requires permit.Some? ==> limiter.free[permit.value] < cfg.perPartition
      requires guard.Some? ==> quota != null && guard.value in quota.inflight
      modifies this, Parts()
      ensures Valid() && free == old(free) + 1
      ensures BucketFree() == if permit.Some? then old(BucketFree())[permit.value := old(BucketFree())[permit.value] + 1]
                              else old(BucketFree())
      ensures latencyCount == old(latencyCount) + 1
      ensures counters == old(counters) + multiset{Terminal(Executed(o))}
      ensures log == old(log) + if cfg.eventsOn then Trail(id, Executed(o)) else []
      ensures Inflight() == if guard.Some? then Released(old(Inflight()), guard.value) else old(Inflight())
    {
      ReturnPermits(permit);
      RecordExecution(id, o, guard);
    }

    /** Session, permits, execution and response, holding the quota guard across all of it. */
    method ExecuteGuarded(id: nat, r: Request, w: World, guard: Option<string>) returns (exit: Exit)
      requires Valid() && (guard.Some? ==> quota != null && guard.value in quota.inflight)
      modifies this, Parts()
      ensures Valid()
      ensures exit == Admitted(cfg, r, w, old(BucketFree()), old(free))
      ensures free == old(free) && BucketFree() == old(BucketFree())
      ensures Inflight() == if guard.Some? then Released(old(Inflight()), guard.value) else old(Inflight())
      ensures counters == old(counters) + multiset{Terminal(exit)}
      ensures latencyCount == old(latencyCount) + if exit.Executed? then 1 else 0
      ensures log == old(log) + if cfg.eventsOn then Trail(id, exit) else []
    {
      if r.body.Some? && NeedsEgress(r.body.value) && !w.session.Connected? {
        Shed(id, SessionDenial(w.session), guard);
        return Denied(SessionDenial(w.session));
      }
      var permits := AcquirePermits(PartitionKey(cfg, r));
      if permits.Busy? {
        Shed(id, permits.denial, guard);
        return Denied(permits.denial);
      }
      Respond(id, w.outcome, permits.partition, guard);
      return Executed(w.outcome);
    }

    /** Refused before the quota: only records move. */
    method RejectAtGate(id: nat, d: Denial)
      requires Terminal(Denied(d)) == Rejections
      modifies `counters, `log
      ensures counters == old(counters) + multiset{Terminal(Denied(d))}
      ensures log == old(log) + if cfg.eventsOn then Trail(id, Denied(d)) else []
    {
      counters := counters + multiset{Rejections};
      if !d.Unauthorized? {
        EmitDenied(id, AuditReason(d));
      }
    }

    /**
     One request end to end: whatever the exit, every permit and the quota unit come back, exactly
     one terminal counter moves, and the log gains exactly the exit's trail. A gate refuses exactly
     on its own condition, and only an admissible request gets any further.
     */
    method RunExecute(id: nat, r: Request, w: World) returns (exit: Exit)
      requires Valid()
      modifies this, Parts()
      ensures Valid()
      ensures exit == old(Decision(r, w))
      ensures AsGatesSay(cfg, r, exit)
      ensures free == old(free) && BucketFree() == old(BucketFree()) && Inflight() == old(Inflight())
      ensures counters == old(counters) + multiset{Terminal(exit)}
      ensures latencyCount == old(latencyCount) + if exit.Executed? then 1 else 0
      ensures log == old(log) + if cfg.eventsOn then Trail(id, exit) else []
    {
      VerdictAsGatesSay(cfg, View(), r, w);
      var gate := Gates(cfg, r);
      if gate.Some? {
        GateDenials(cfg, r);
        RejectAtGate(id, gate.value);
        return Denied(gate.value);
      }
      var refused, guard := EnforceQuota(r);
      if refused {
        Shed(id, OverQuota, None);
        return Denied(OverQuota);
      }
      exit := ExecuteGuarded(id, r, w, guard);
      RestoresQuota(old(Inflight()), guard);
    }
  }

  /** A gate's denial exactly on that gate's own condition, anything else exactly for an admissible request. */
  ghost predicate AsGatesSay(cfg: Config, r: Request, exit: Exit) {
    if exit.Denied? && IsGateDenial(exit.denial) then RefusedAs(cfg, r, exit.denial) else Admissible(cfg, r)
  }

  lemma VerdictAsGatesSay(cfg: Config, s: State, r: Request, w: World)
    requires |s.bucketFree| == BucketCount(cfg)
    ensures AsGatesSay(cfg, r, Verdict(cfg, s, Flight(r, AtGates, None, None, false), w))
  {
    NoGateMeansAdmissible(cfg, r);
    if Gates(cfg, r).Some? { GatesSpelled(cfg, r, Gates(cfg, r).value); }
  }

  /** The local gates never answer with an overload, so their denials count as rejections. */
  lemma GateDenials(cfg: Config, r: Request)
    ensures Gates(cfg, r).Some? ==> Terminal(Denied(Gates(cfg, r).value)) == Rejections
  {
  }

  /** Dropping a guard undoes the admission that created it. */
  lemma RestoresQuota(before: map<string, nat>, guard: Option<string>)
    requires forall t :: t in before ==> 0 < before[t]
    ensures guard.Some? ==> Released(before[guard.value := Quota.Usage(before, guard.value) + 1], guard.value) == before
  {
  }
}
