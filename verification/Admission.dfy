/**
 Admission control as an interleaved step system (`crates/runlet/src/handler.rs`): any number
 of requests walk the pipeline
   gates, quota guard, egress session, partition permit, global permit, run, release, respond
 one atomic action at a time, in any order, against one shared state.
 */
module Admission {
  import opened Wrappers
  import opened Counting
  import opened Quota
  import Partition

  // -- Requests and configuration ---------------------------------------------

  datatype Identity = Identity(
    anonymous: bool, suspended: bool, tenant: Option<string>,
    plan: Option<string>, scope: Option<string>, grants: set<string>)

  /** A parsed body. `caps` are the capability kinds the request exercises, in pipeline order. */
  datatype Body = Body(
    script: Option<string>, key: Option<string>, partition: Option<string>,
    contextBytes: nat, caps: seq<string>)

  /** `body` is `None` when it failed to parse; `headerPartition` is the trimmed header. */
  datatype Request = Request(
    token: Option<string>, identity: Identity, headerPartition: Option<string>, body: Option<Body>)

  datatype Trusted = Trusted(entitlements: map<string, string>, quota: Option<Plans>)

  datatype Config = Config(
    accessToken: Option<string>, trusted: Option<Trusted>, registry: map<string, string>,
    maxScript: nat, maxContext: nat,
    buckets: nat, perPartition: nat, hash: string -> nat, usizeMax: nat,
    bulkhead: nat, eventsOn: bool)

  // -- How a request can end --------------------------------------------------

  datatype Denial =
    | Unauthorized | Anonymous | Suspended | TenantRequired | ActingScopeRequired
    | Malformed | EntitlementRequired | ScriptXorKey | ScriptNotFound
    | ScriptTooLarge | ContextTooLarge | OverQuota
    | SessionUnavailable | SessionUnresolved(code: string) | SessionProtocol
    | PartitionBusy | GlobalBusy

  datatype Outcome =
    Success | ScriptError | CapabilityError | Timeout | MemoryLimit | MalformedResponse | InternalError

  datatype Exit = Denied(denial: Denial) | Executed(outcome: Outcome)

  /** The error code of the response sent for a denial. */
  function ResponseCode(d: Denial): string {
    match d
    case Unauthorized => "UNAUTHORIZED"
    case Anonymous => "ANONYMOUS_FORBIDDEN"
    case Suspended => "SUSPENDED_FORBIDDEN"
    case TenantRequired => "TENANT_REQUIRED"
    case ActingScopeRequired => "ACTING_SCOPE_REQUIRED"
    case Malformed => "MALFORMED_REQUEST"
    case EntitlementRequired => "ENTITLEMENT_REQUIRED"
    case ScriptXorKey => "SCRIPT_XOR_KEY"
    case ScriptNotFound => "SCRIPT_NOT_FOUND"
    case ScriptTooLarge => "SCRIPT_TOO_LARGE"
    case ContextTooLarge => "CONTEXT_TOO_LARGE"
    case OverQuota => "QUOTA_EXCEEDED"
    case SessionUnavailable => "EGRESS_UNAVAILABLE"
    case SessionUnresolved(code) => code
    case SessionProtocol => "EGRESS_PROTOCOL"
    case PartitionBusy => "PARTITION_OVERLOADED"
    case GlobalBusy => "OVERLOADED"
  }

  /** The reason written to the audit event of a denial (none is written for a bad bearer token). */
  function AuditReason(d: Denial): string {
    match d
    case Unauthorized => ""
    case ScriptXorKey => "SCRIPT_NOT_FOUND"
    case ScriptTooLarge => "INPUT_TOO_LARGE"
    case ContextTooLarge => "INPUT_TOO_LARGE"
    case SessionUnavailable => "EGRESS_UNAVAILABLE"
    case SessionUnresolved(_) => "EGRESS_UNAVAILABLE"
    case SessionProtocol => "EGRESS_UNAVAILABLE"
    case PartitionBusy => "OVERLOADED"
    case _ => ResponseCode(d)
  }

  // -- The local gates --------------------------------------------------------

  function EgressKinds(): set<string> {
    {"db", "mongo", "mail", "redis", "amq", "auth"}
  }

  predicate NeedsEgress(body: Body) {
    exists k :: k in body.caps && k in EgressKinds()
  }

  predicate Entitled(t: Trusted, id: Identity, caps: seq<string>) {
    forall k :: k in caps ==> k in t.entitlements ==> t.entitlements[k] in id.grants
  }

  function IdentityGate(id: Identity): Option<Denial> {
    if id.anonymous then Some(Anonymous)
    else if id.suspended then Some(Suspended)
    else if id.tenant.None? then Some(TenantRequired)
    else if id.scope != Some("acting") then Some(ActingScopeRequired)
    else None
  }

  function ScriptGate(cfg: Config, b: Body): Option<Denial> {
    match (b.script, b.key)
    case (Some(source), None) => SizeGate(cfg, |source|, b.contextBytes)
    case (None, Some(key)) =>
      if key in cfg.registry then SizeGate(cfg, |cfg.registry[key]|, b.contextBytes) else Some(ScriptNotFound)
    case _ => Some(ScriptXorKey)
  }

  function SizeGate(cfg: Config, scriptBytes: nat, contextBytes: nat): Option<Denial> {
    if scriptBytes > cfg.maxScript then Some(ScriptTooLarge)
    else if contextBytes > cfg.maxContext then Some(ContextTooLarge)
    else None
  }

  /** The first gate before the quota that refuses the request, if any. */
  function Gates(cfg: Config, r: Request): Option<Denial> {
    if cfg.accessToken.Some? && r.token != cfg.accessToken then Some(Unauthorized)
    else if cfg.trusted.Some? && IdentityGate(r.identity).Some? then IdentityGate(r.identity)
    else if r.body.None? then Some(Malformed)
    else if cfg.trusted.Some? && !Entitled(cfg.trusted.value, r.identity, r.body.value.caps)
    then Some(EntitlementRequired)
    else ScriptGate(cfg, r.body.value)
  }

  /** The fairness key: the trusted tenant in trusted mode, else the caller's own claim. */
  function PartitionKey(cfg: Config, r: Request): Option<string> {
    if cfg.trusted.Some? then r.identity.tenant
    else if r.headerPartition.Some? then r.headerPartition
    else if r.body.Some? then r.body.value.partition
    else None
  }

  /** The number of partition semaphores; none when fairness is disabled. */
  function BucketCount(cfg: Config): nat {
    if cfg.perPartition == 0 then 0 else cfg.buckets
  }

  /** The semaphore a request must pass, if any. */
  function BucketFor(cfg: Config, r: Request): (b: Option<nat>)
    ensures b.Some? ==> b.value < BucketCount(cfg)
  {
    var key := PartitionKey(cfg, r);
    if BucketCount(cfg) == 0 || key.None? then None
    else Some(Partition.BucketOf(cfg.hash(key.value), cfg.usizeMax, BucketCount(cfg)))
  }

  /** The tenant a request is charged to, when quota is enforced. */
  function ChargedTenant(cfg: Config, r: Request): Option<string> {
    if cfg.trusted.Some? && cfg.trusted.value.quota.Some? then r.identity.tenant else None
  }

  // -- What remains to be done once the exit is decided -----------------------

  datatype Counter = Rejections | OverloadGlobal | OverloadPartition | OutcomeOf(outcome: Outcome)

  datatype Action =
    | Bump(counter: Counter) | ObserveLatency | EmitUsage(outcome: Outcome) | EmitAudit(reason: Option<string>)
    | DropGlobal | DropPartition | DropQuota

  /** The atomic actions of each exit path, in the order the code performs them. */
  function Script(e: Exit): seq<Action> {
    match e
    case Executed(o) =>
      [DropGlobal, DropPartition, ObserveLatency, EmitUsage(o), EmitAudit(None), Bump(OutcomeOf(o)), DropQuota]
    case Denied(d) =>
      var audit := EmitAudit(Some(AuditReason(d)));
      match d
      case Unauthorized => [Bump(Rejections)]
      case Anonymous | Suspended | TenantRequired | ActingScopeRequired | EntitlementRequired | OverQuota =>
        [audit, Bump(Rejections)]
      case Malformed | ScriptXorKey | ScriptNotFound | ScriptTooLarge | ContextTooLarge =>
        [Bump(Rejections), audit]
      case SessionUnavailable | SessionUnresolved(_) | SessionProtocol =>
        [Bump(Rejections), audit, DropQuota]
      case PartitionBusy => [Bump(OverloadPartition), audit, DropQuota]
      case GlobalBusy => [DropPartition, Bump(OverloadGlobal), audit, DropQuota]
  }

  // -- The machine ------------------------------------------------------------

  /** `Finishing` splits the exit script into the actions done and the actions still to do. */
  datatype Phase =
    | AtGates | AtQuota | AtSession | AtPartition | AtGlobal | Running
    | Finishing(exit: Exit, done: seq<Action>, todo: seq<Action>)

  /** One request in flight, and what it currently holds. */
  datatype Flight = Flight(
    request: Request, phase: Phase, quota: Option<string>, bucket: Option<nat>, global: bool)

  datatype Event = Usage(id: nat, outcome: Outcome) | Audit(id: nat, reason: Option<string>)

  datatype State = State(
    flights: map<nat, Flight>,
    inflight: map<string, nat>, bucketFree: seq<nat>, globalFree: nat,
    counters: multiset<Counter>, latencyCount: nat, log: seq<Event>)

  datatype SessionResult = Connected | Unavailable | Unresolved(code: string) | ProtocolSlip

  /** What the outside world answers at a step; a panicked task is `InternalError`. */
  datatype World = World(session: SessionResult, outcome: Outcome)

  datatype Step = Arrive(id: nat, request: Request) | Move(id: nat, world: World)

  function Init(cfg: Config): State {
    State(map[], map[], seq(BucketCount(cfg), _ => cfg.perPartition), cfg.bulkhead, multiset{}, 0, [])
  }

  function SessionDenial(r: SessionResult): Denial
    requires !r.Connected?
  {
    match r
    case Unavailable => SessionUnavailable
    case Unresolved(code) => SessionUnresolved(code)
    case ProtocolSlip => SessionProtocol
  }

  function Leave(f: Flight, e: Exit): Flight {
    f.(phase := Finishing(e, [], Script(e)))
  }

  predicate Finished(f: Flight) {
    f.phase.Finishing? && f.phase.todo == []
  }

  function Put(s: State, id: nat, f: Flight): State {
    s.(flights := s.flights[id := f])
  }

  /** The local gates: nothing shared is touched until the exit is decided. */
  function PassGates(cfg: Config, s: State, id: nat, f: Flight): State {
    var gate := Gates(cfg, f.request);
    Put(s, id, if gate.Some? then Leave(f, Denied(gate.value)) else f.(phase := AtQuota))
  }

  /** Quota admission: atomic under the in-flight lock. */
  ghost function TakeQuota(cfg: Config, s: State, id: nat, f: Flight): State {
    var tenant := ChargedTenant(cfg, f.request);
    if tenant.None? then Put(s, id, f.(phase := AtSession))
    else if Check(cfg.trusted.value.quota.value, f.request.identity.plan,
                  Quota.Usage(s.inflight, tenant.value)).Some?
    then Put(s, id, Leave(f, Denied(OverQuota)))
    else Put(s, id, f.(phase := AtSession, quota := tenant)).(inflight := Counted(s.inflight, tenant.value))
  }

  /** Opening the egress session: needed only when a driver capability is requested. */
  function OpenSession(s: State, id: nat, f: Flight, w: World): State {
    if f.request.body.Some? && NeedsEgress(f.request.body.value) && !w.session.Connected?
    then Put(s, id, Leave(f, Denied(SessionDenial(w.session))))
    else Put(s, id, f.(phase := AtPartition))
  }

  /** The per-partition permit, when the request has a bucket. */
  function TakePartition(cfg: Config, s: State, id: nat, f: Flight): State {
    var b := BucketFor(cfg, f.request);
    if b.None? then Put(s, id, f.(phase := AtGlobal))
    else if b.value >= |s.bucketFree| || s.bucketFree[b.value] == 0
    then Put(s, id, Leave(f, Denied(PartitionBusy)))
    else Put(s, id, f.(phase := AtGlobal, bucket := b))
      .(bucketFree := s.bucketFree[b.value := s.bucketFree[b.value] - 1])
  }

  /** The global bulkhead permit. */
  function TakeGlobal(s: State, id: nat, f: Flight): State {
    if s.globalFree == 0 then Put(s, id, Leave(f, Denied(GlobalBusy)))
    else Put(s, id, f.(phase := Running, global := true)).(globalFree := s.globalFree - 1)
  }

  /** One atomic action on the way out, performed by a flight that already ticked it off. */
  function Perform(cfg: Config, s: State, id: nat, f: Flight, a: Action): State {
    match a
    case Bump(c) => Put(s, id, f).(counters := s.counters + multiset{c})
    case ObserveLatency => Put(s, id, f).(latencyCount := s.latencyCount + 1)
    case EmitUsage(o) => Put(s, id, f).(log := if cfg.eventsOn then s.log + [Usage(id, o)] else s.log)
    case EmitAudit(reason) => Put(s, id, f).(log := if cfg.eventsOn then s.log + [Audit(id, reason)] else s.log)
    case DropGlobal =>
      if f.global then Put(s, id, f.(global := false)).(globalFree := s.globalFree + 1) else Put(s, id, f)
    case DropPartition =>
      if f.bucket.Some? && f.bucket.value < |s.bucketFree| then
        Put(s, id, f.(bucket := None))
          .(bucketFree := s.bucketFree[f.bucket.value := s.bucketFree[f.bucket.value] + 1])
      else Put(s, id, f)
    case DropQuota =>
      if f.quota.Some? then Put(s, id, f.(quota := None)).(inflight := Released(s.inflight, f.quota.value))
      else Put(s, id, f)
  }

  /** The flight with its next exit action moved from `todo` to `done`. */
  function Ticked(f: Flight): Flight
    requires f.phase.Finishing? && f.phase.todo != []
  {
    f.(phase := f.phase.(done := f.phase.done + [f.phase.todo[0]], todo := f.phase.todo[1..]))
  }

  /** One atomic move of request `id`. A finished request does not move. */
  ghost function Advance(cfg: Config, s: State, id: nat, w: World): State
    requires id in s.flights
  {
    var f := s.flights[id];
    match f.phase
    case AtGates => PassGates(cfg, s, id, f)
    case AtQuota => TakeQuota(cfg, s, id, f)
    case AtSession => OpenSession(s, id, f, w)
    case AtPartition => TakePartition(cfg, s, id, f)
    case AtGlobal => TakeGlobal(s, id, f)
    case Running => Put(s, id, Leave(f, Executed(w.outcome)))
    case Finishing(_, _, todo) => if todo == [] then s else Perform(cfg, s, id, Ticked(f), todo[0])
  }

  ghost function Apply(cfg: Config, s: State, step: Step): State {
    match step
    case Arrive(id, r) =>
      if id in s.flights then s else Put(s, id, Flight(r, AtGates, None, None, false))
    case Move(id, w) => if id in s.flights then Advance(cfg, s, id, w) else s
  }

  /** The state after any interleaving of arrivals and moves. */
  ghost function Run(cfg: Config, steps: seq<Step>): State {
    if steps == [] then Init(cfg)
    else Apply(cfg, Run(cfg, steps[..|steps| - 1]), steps[|steps| - 1])
  }
}
