/** Per-tenant, plan-gated in-flight accounting (`crates/runlet/src/quota.rs`). */
module Quota {
  import opened Wrappers
  import opened Counting

  /** Plan name to maximum concurrent executions. */
  type Plans = map<string, u64>

  datatype Exceeded = Exceeded(plan: string, limit: nat, usage: nat)

  ghost predicate IsLeast(least: nat, s: set<nat>) {
    least in s && forall x :: x in s ==> least <= x
  }

  lemma LeastExists(s: set<nat>)
    requires s != {}
    ensures exists least :: IsLeast(least, s)
  {
    var x :| x in s;
    if s - {x} == {} {
      assert s == {x};
      assert IsLeast(x, s);
    } else {
      LeastExists(s - {x});
      var y :| IsLeast(y, s - {x});
      assert s == (s - {x}) + {x};
      assert IsLeast(if x <= y then x else y, s);
    }
  }

  /** The most restrictive configured limit; a table with no plans denies everyone. */
  ghost function MostRestrictive(plans: Plans): (r: nat)
    ensures plans == map[] ==> r == 0
    ensures plans != map[] ==> exists name :: name in plans && plans[name] == r
    ensures forall name :: name in plans ==> r <= plans[name]
  {
    var limits := set name | name in plans :: plans[name] as nat;
    if plans == map[] then 0
    else
      assert limits != {} by { var name :| name in plans; assert plans[name] in limits; }
      LeastExists(limits);
      var least: nat :| IsLeast(least, limits);
      assert forall name :: name in plans ==> plans[name] in limits;
      least
  }

  /** The effective limit: the plan's own when configured, else the most restrictive one. */
  ghost function LimitFor(plans: Plans, plan: Option<string>): (r: nat)
    ensures r <= U64_MAX
    ensures plans == map[] ==> r == 0
    ensures plans != map[] ==> exists name :: name in plans && plans[name] == r
    ensures plan.Some? && plan.value in plans ==> r == plans[plan.value]
    ensures !(plan.Some? && plan.value in plans) ==> forall name :: name in plans ==> r <= plans[name]
  {
    if plan.Some? && plan.value in plans then plans[plan.value] else MostRestrictive(plans)
  }

  /** Room for one more: below the plan's own limit, or below every limit when the plan is not in the table. */
  ghost predicate HasRoom(plans: Plans, plan: Option<string>, live: nat) {
    if plan.Some? && plan.value in plans then live < plans[plan.value]
    else plans != map[] && forall name :: name in plans ==> live < plans[name]
  }

  /** At-or-above refuses, and the refusal carries the limit and the usage it was made on. */
  ghost function Check(plans: Plans, plan: Option<string>, usage: nat): (r: Option<Exceeded>)
    ensures r.None? <==> HasRoom(plans, plan, usage)
    ensures r.Some? ==> r.value.usage == usage && r.value.plan == (if plan.Some? then plan.value else "unknown")
    ensures r.Some? && plan.Some? && plan.value in plans ==> r.value.limit == plans[plan.value]
    ensures r.Some? && !(plan.Some? && plan.value in plans) ==> forall name :: name in plans ==> r.value.limit <= plans[name]
  {
    var limit := LimitFor(plans, plan);
    if usage >= limit
    then Some(Exceeded(if plan.Some? then plan.value else "unknown", limit, usage))
    else None
  }

  function Usage(inflight: map<string, nat>, tenant: string): nat {
    if tenant in inflight then inflight[tenant] else 0
  }

  /** The in-flight map after one admitted execution. */
  function Counted(inflight: map<string, nat>, tenant: string): map<string, nat>
    requires Usage(inflight, tenant) <= U64_MAX
  {
    inflight[tenant := SaturatingInc(Usage(inflight, tenant), U64_MAX)]
  }

  /** The in-flight map after one guard is dropped; a zero entry is removed. */
  function Released(inflight: map<string, nat>, tenant: string): map<string, nat> {
    if tenant !in inflight then inflight
    else
      var count := SaturatingDec(inflight[tenant]);
      if count == 0 then inflight - {tenant} else inflight[tenant := count]
  }

  /** The accountant: the plan table plus the live count per trusted tenant. */
  class TenantQuota {
    const plans: Plans
    var inflight: map<string, nat>

    constructor (plans: Plans)
      ensures this.plans == plans && inflight == map[]
    {
      this.plans := plans;
      inflight := map[];
    }

    /** The minimum over the configured plans, as a scan. */
    method LeastLimit() returns (least: nat)
      ensures least == MostRestrictive(plans)
    {
      var rest := plans.Keys;
      least := 0;
      var seen := false;
      while rest != {}
        invariant rest <= plans.Keys
        invariant seen <==> rest != plans.Keys
        invariant seen ==> exists name :: name in plans && plans[name] == least
        invariant !seen ==> least == 0
        invariant forall name :: name in plans && name !in rest ==> least <= plans[name]
        decreases rest
      {
        var name :| name in rest;
        if !seen || plans[name] < least {
          least := plans[name];
        }
        seen := true;
        rest := rest - {name};
      }
    }

    method Resolve(plan: Option<string>) returns (limit: nat)
      ensures limit == LimitFor(plans, plan)
      ensures plan.Some? && plan.value in plans ==> limit == plans[plan.value]
      ensures !(plan.Some? && plan.value in plans) ==> forall name :: name in plans ==> limit <= plans[name]
    {
      if plan.Some? && plan.value in plans {
        limit := plans[plan.value];
      } else {
        limit := LeastLimit();
      }
    }

    /** Counts one execution in, or refuses and counts nothing. */
    method Admit(tenant: string, plan: Option<string>) returns (refusal: Option<Exceeded>)
      modifies this
      ensures refusal == Check(plans, plan, Usage(old(inflight), tenant))
      ensures refusal.None? <==> HasRoom(plans, plan, Usage(old(inflight), tenant))
      ensures refusal.None? ==> Usage(old(inflight), tenant) < U64_MAX
      ensures refusal.None? ==> inflight == old(inflight)[tenant := Usage(old(inflight), tenant) + 1]
      ensures refusal.Some? ==> inflight == old(inflight)
    {
      var usage := Usage(inflight, tenant);
      var limit := Resolve(plan);
      if usage >= limit {
        return Some(Exceeded(if plan.Some? then plan.value else "unknown", limit, usage));
      }
      inflight := Counted(inflight, tenant);
      return None;
    }

    /** Dropping a guard gives its unit back. */
    method DropGuard(tenant: string)
      modifies this
      ensures inflight == Released(old(inflight), tenant)
    {
      if tenant in inflight {
        var count := SaturatingDec(inflight[tenant]);
        inflight := inflight[tenant := count];
        if count == 0 {
          inflight := inflight - {tenant};
          assert inflight == old(inflight) - {tenant};
        }
      }
    }
  }

  // -- Every interleaving of admits and guard drops ---------------------------

  /** What the callers hold: each live guard's tenant. */
  type Guards = map<nat, string>

  datatype Op = Admit(id: nat, tenant: string, plan: Option<string>) | Drop(id: nat)

  datatype Books = Books(inflight: map<string, nat>, live: Guards)

  ghost function IsTenant(tenant: string): string -> bool {
    t => t == tenant
  }

  /** The number of live guards a tenant holds. */
  ghost function LiveOf(live: Guards, tenant: string): nat {
    Tally(live, IsTenant(tenant))
  }

  /** The map counts live guards exactly: a key is present iff its count is positive. */
  ghost predicate Accounted(inflight: map<string, nat>, live: Guards) {
    && (forall tenant :: Usage(inflight, tenant) == LiveOf(live, tenant))
    && (forall tenant :: tenant in inflight ==> 0 < inflight[tenant])
  }

  /** No tenant is above every configured limit. */
  ghost predicate Capped(plans: Plans, inflight: map<string, nat>) {
    forall tenant :: tenant in inflight ==> exists name :: name in plans && inflight[tenant] <= plans[name]
  }

  /** One atomic operation on the shared map. An id is used for one guard only. */
  ghost function StepBooks(plans: Plans, b: Books, op: Op): Books {
    match op
    case Admit(id, tenant, plan) =>
      var usage := Usage(b.inflight, tenant);
      if id in b.live || Check(plans, plan, usage).Some? then b
      else Books(Counted(b.inflight, tenant), b.live[id := tenant])
    case Drop(id) =>
      if id !in b.live then b
      else Books(Released(b.inflight, b.live[id]), b.live - {id})
  }

  ghost function RunBooks(plans: Plans, ops: seq<Op>): Books {
    if ops == [] then Books(map[], map[])
    else StepBooks(plans, RunBooks(plans, ops[..|ops| - 1]), ops[|ops| - 1])
  }

  lemma CountedKeeps(inflight: map<string, nat>, live: Guards, id: nat, tenant: string)
    requires Accounted(inflight, live) && id !in live
    requires Usage(inflight, tenant) < U64_MAX
    ensures Accounted(Counted(inflight, tenant), live[id := tenant])
  {
    forall t ensures Usage(Counted(inflight, tenant), t) == LiveOf(live[id := tenant], t) {
      assert Usage(inflight, t) == LiveOf(live, t);
      TallyUpdate(live, id, tenant, IsTenant(t));
    }
  }

  lemma ReleasedKeeps(inflight: map<string, nat>, live: Guards, id: nat)
    requires Accounted(inflight, live) && id in live
    ensures Accounted(Released(inflight, live[id]), live - {id})
    ensures 0 < Usage(inflight, live[id])
  {
    TallyPositive(live, id, IsTenant(live[id]));
    forall t ensures Usage(Released(inflight, live[id]), t) == LiveOf(live - {id}, t) {
      assert Usage(inflight, t) == LiveOf(live, t);
      TallyRemove(live, id, IsTenant(t));
    }
  }

  /**
   For every interleaving: the map is exactly the per-tenant count of live guards and no
   tenant exceeds the largest configured limit.
   */
  lemma {:induction false} QuotaExact(plans: Plans, ops: seq<Op>)
    ensures Accounted(RunBooks(plans, ops).inflight, RunBooks(plans, ops).live)
    ensures Capped(plans, RunBooks(plans, ops).inflight)
  {
    if ops == [] {
      forall t ensures LiveOf(map[], t) == 0 { TallyZero(RunBooks(plans, ops).live, IsTenant(t)); }
    } else {
      var before, op := RunBooks(plans, ops[..|ops| - 1]), ops[|ops| - 1];
      QuotaExact(plans, ops[..|ops| - 1]);
      match op
      case Admit(id, tenant, plan) =>
        if id !in before.live && Check(plans, plan, Usage(before.inflight, tenant)).None? {
          CountedKeeps(before.inflight, before.live, id, tenant);
        }
      case Drop(id) =>
        if id in before.live {
          ReleasedKeeps(before.inflight, before.live, id);
          CappedAfterRelease(plans, before.inflight, before.live[id]);
        }
    }
  }

  lemma CappedAfterRelease(plans: Plans, inflight: map<string, nat>, tenant: string)
    requires Capped(plans, inflight)
    ensures Capped(plans, Released(inflight, tenant))
  {
    var after := Released(inflight, tenant);
    forall t | t in after ensures exists name :: name in plans && after[t] <= plans[name] {
      var name :| name in plans && inflight[t] <= plans[name];
      assert after[t] <= plans[name];
    }
  }

  /**
   After any interleaving, an admit is granted exactly when the tenant's live guards are
   below its plan's own limit, or below every limit when its plan is not in the table (and the table
   is not empty), and its saturating increment does not saturate.
   */
  lemma AdmitExactly(plans: Plans, ops: seq<Op>, id: nat, tenant: string, plan: Option<string>)
    requires id !in RunBooks(plans, ops).live
    ensures id in RunBooks(plans, ops + [Admit(id, tenant, plan)]).live
        <==> HasRoom(plans, plan, LiveOf(RunBooks(plans, ops).live, tenant))
    ensures id in RunBooks(plans, ops + [Admit(id, tenant, plan)]).live
        ==> Usage(RunBooks(plans, ops + [Admit(id, tenant, plan)]).inflight, tenant)
            == LiveOf(RunBooks(plans, ops).live, tenant) + 1 <= U64_MAX
  {
    QuotaExact(plans, ops);
    assert (ops + [Admit(id, tenant, plan)])[..|ops|] == ops;
  }

  /**
   After any interleaving, dropping a live guard takes exactly one from its tenant's count, so its
   saturating decrement does not saturate, and the key goes with the last guard.
   */
  lemma DropExactly(plans: Plans, ops: seq<Op>, id: nat)
    requires id in RunBooks(plans, ops).live
    ensures var before, after := RunBooks(plans, ops), RunBooks(plans, ops + [Drop(id)]);
            var tenant := before.live[id];
            && 0 < Usage(before.inflight, tenant) && after.live == before.live - {id}
            && Usage(after.inflight, tenant) == Usage(before.inflight, tenant) - 1
            && (tenant in after.inflight <==> LiveOf(after.live, tenant) > 0)
  {
    QuotaExact(plans, ops);
    QuotaExact(plans, ops + [Drop(id)]);
    assert (ops + [Drop(id)])[..|ops|] == ops;
    ReleasedKeeps(RunBooks(plans, ops).inflight, RunBooks(plans, ops).live, id);
  }

  /** A table without plans admits nobody, whatever the callers try. */
  lemma {:induction false} EmptyTableAdmitsNobody(ops: seq<Op>)
    ensures RunBooks(map[], ops) == Books(map[], map[])
  {
    if ops != [] {
      EmptyTableAdmitsNobody(ops[..|ops| - 1]);
    }
  }

  /** Once every guard is dropped the map is empty again. */
  lemma IdleMeansEmpty(plans: Plans, ops: seq<Op>)
    requires RunBooks(plans, ops).live == map[]
    ensures RunBooks(plans, ops).inflight == map[]
  {
    QuotaExact(plans, ops);
    var inflight := RunBooks(plans, ops).inflight;
    forall t ensures t !in inflight {
      TallyZero(RunBooks(plans, ops).live, IsTenant(t));
      assert Usage(inflight, t) == 0;
    }
  }
}
