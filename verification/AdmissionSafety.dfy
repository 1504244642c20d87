/** What every interleaving of the admission machine keeps, and what it adds up to. */
module AdmissionSafety {
  import opened Wrappers
  import opened Counting
  import opened Sequences
  import opened Quota
  import opened Admission

  // -- The invariant ----------------------------------------------------------

  /** What a request holds matches the point it has reached, and every exit still owes it back. */
  ghost predicate HoldingsOk(cfg: Config, f: Flight) {
    && (f.quota.Some? ==> f.quota == ChargedTenant(cfg, f.request))
    && (f.bucket.Some? ==> f.bucket == BucketFor(cfg, f.request))
    && match f.phase
       case AtGates | AtQuota => f.quota.None? && f.bucket.None? && !f.global
       case AtSession | AtPartition => f.quota == ChargedTenant(cfg, f.request) && f.bucket.None? && !f.global
       case AtGlobal =>
         f.quota == ChargedTenant(cfg, f.request) && f.bucket == BucketFor(cfg, f.request) && !f.global
       case Running =>
         f.quota == ChargedTenant(cfg, f.request) && f.bucket == BucketFor(cfg, f.request) && f.global
       case Finishing(_, _, todo) =>
         && (f.quota.Some? ==> DropQuota in todo)
         && (f.bucket.Some? ==> DropPartition in todo)
         && (f.global ==> DropGlobal in todo)
  }

  /** No action twice, and at most one counter bump. */
  ghost predicate WellFormed(acts: seq<Action>) {
    && (forall i, j :: 0 <= i < j < |acts| ==> acts[i] != acts[j])
    && (forall i, j :: 0 <= i < j < |acts| && acts[i].Bump? ==> !acts[j].Bump?)
  }

  /** A leaving request has split its exit's script, and the script is well formed. */
  ghost predicate ScriptOk(f: Flight) {
    f.phase.Finishing? ==>
      && f.phase.done + f.phase.todo == Script(f.phase.exit)
      && WellFormed(f.phase.done + f.phase.todo)
  }

  ghost predicate FlightsOk(cfg: Config, s: State) {
    && |s.bucketFree| == BucketCount(cfg)
    && forall id :: id in s.flights ==> HoldingsOk(cfg, s.flights[id])
  }

  ghost predicate ScriptsOk(s: State) {
    forall id :: id in s.flights ==> ScriptOk(s.flights[id])
  }

  ghost predicate HoldsGlobal(f: Flight) { f.global }

  ghost function HoldsBucket(b: nat): Flight -> bool { (f: Flight) => f.bucket == Some(b) }

  /** Free plus held equals capacity for the bulkhead. */
  ghost predicate GlobalConserved(cfg: Config, s: State) {
    s.globalFree + Tally(s.flights, HoldsGlobal) == cfg.bulkhead
  }

  /** Free plus held equals capacity for every partition semaphore. */
  ghost predicate BucketsConserved(cfg: Config, s: State) {
    && |s.bucketFree| == BucketCount(cfg)
    && forall b :: 0 <= b < |s.bucketFree| ==>
         s.bucketFree[b] + Tally(s.flights, HoldsBucket(b)) == cfg.perPartition
  }

  /** The quota guards the requests hold. */
  ghost function Guarded(flights: map<nat, Flight>): Guards {
    map id | id in flights && flights[id].quota.Some? :: flights[id].quota.value
  }

  ghost predicate QuotaConserved(cfg: Config, s: State) {
    && Accounted(s.inflight, Guarded(s.flights))
    && (cfg.trusted.Some? && cfg.trusted.value.quota.Some? ==> Capped(cfg.trusted.value.quota.value, s.inflight))
    && (!(cfg.trusted.Some? && cfg.trusted.value.quota.Some?) ==> s.inflight == map[])
  }

  /** The exit actions a request has already performed. */
  ghost function Performed(f: Flight): seq<Action> {
    if f.phase.Finishing? then f.phase.done else []
  }

  ghost function Bumped(c: Counter): Flight -> bool { (f: Flight) => Bump(c) in Performed(f) }

  ghost predicate Settled(f: Flight) { exists c :: Bump(c) in Performed(f) }

  ghost predicate SettledRun(f: Flight) { exists o :: Bump(OutcomeOf(o)) in Performed(f) }

  ghost predicate Timed(f: Flight) { ObserveLatency in Performed(f) }

  /** The sum of the seven execution-outcome counters. */
  ghost function OutcomeTotal(m: multiset<Counter>): nat {
    m[OutcomeOf(Success)] + m[OutcomeOf(ScriptError)] + m[OutcomeOf(CapabilityError)] + m[OutcomeOf(Timeout)]
    + m[OutcomeOf(MemoryLimit)] + m[OutcomeOf(MalformedResponse)] + m[OutcomeOf(InternalError)]
  }

  /** Each counter is the number of requests that performed its bump. */
  ghost predicate CountersExact(s: State) {
    && (forall c :: s.counters[c] == Tally(s.flights, Bumped(c)))
    && |s.counters| == Tally(s.flights, Settled)
    && OutcomeTotal(s.counters) == Tally(s.flights, SettledRun)
    && s.latencyCount == Tally(s.flights, Timed)
  }

  /** The events of one request, in log order. */
  ghost function EventsOf(log: seq<Event>, id: nat): seq<Event> {
    if log == [] then []
    else
      var rest, last := EventsOf(log[..|log| - 1], id), log[|log| - 1];
      if last.id == id then rest + [last] else rest
  }

  /** The events a list of actions emits for request `id`. */
  ghost function Emitted(id: nat, actions: seq<Action>): seq<Event> {
    if actions == [] then [] else EventOf(id, actions[0]) + Emitted(id, actions[1..])
  }

  /** The event one action emits, if any. */
  ghost function EventOf(id: nat, a: Action): seq<Event> {
    match a
    case EmitUsage(o) => [Usage(id, o)]
    case EmitAudit(reason) => [Audit(id, reason)]
    case _ => []
  }

  /** The log holds, per request, exactly the events of the actions it has performed. */
  ghost predicate Logged(cfg: Config, s: State) {
    forall id :: LoggedFor(cfg, s, id)
  }

  ghost predicate LoggedFor(cfg: Config, s: State, id: nat) {
    EventsOf(s.log, id) == if cfg.eventsOn && id in s.flights then Emitted(id, Performed(s.flights[id])) else []
  }

  ghost predicate Inv(cfg: Config, s: State) {
    && FlightsOk(cfg, s) && ScriptsOk(s) && GlobalConserved(cfg, s) && BucketsConserved(cfg, s)
    && QuotaConserved(cfg, s) && CountersExact(s) && Logged(cfg, s)
  }

  // -- One move at a time -----------------------------------------------------

  lemma ScriptFacts(e: Exit)
    ensures WellFormed(Script(e))
    ensures exists c :: Bump(c) in Script(e)
    ensures ObserveLatency in Script(e) <==> e.Executed?
  {
    if e.Executed? {
      assert Script(e)[5] == Bump(OutcomeOf(e.outcome)) && Script(e)[2] == ObserveLatency;
    } else {
      var i := if Script(e)[0].Bump? then 0 else 1;
      assert Script(e)[i] == Bump(Script(e)[i].counter);
    }
  }

  function Ind(b: bool): int { if b then 1 else 0 }

  /** The action a move performs, if the request is on its way out. */
  ghost function ActionOf(f: Flight): Option<Action> {
    if f.phase.Finishing? && f.phase.todo != [] then Some(f.phase.todo[0]) else None
  }

  ghost predicate PermitsMoved(s: State, t: State, f: Flight, f': Flight) {
    && t.globalFree + Ind(f'.global) == s.globalFree + Ind(f.global)
    && |t.bucketFree| == |s.bucketFree|
    && forall b :: 0 <= b < |s.bucketFree| ==>
         t.bucketFree[b] + Ind(f'.bucket == Some(b)) == s.bucketFree[b] + Ind(f.bucket == Some(b))
  }

  ghost predicate QuotaMoved(cfg: Config, s: State, t: State, f: Flight, f': Flight) {
    || (f'.quota == f.quota && t.inflight == s.inflight)
    || (f.quota.None? && f'.quota.Some? && f'.quota == ChargedTenant(cfg, f.request)
        && Quota.Usage(s.inflight, f'.quota.value) < LimitFor(cfg.trusted.value.quota.value, f.request.identity.plan)
        && t.inflight == Counted(s.inflight, f'.quota.value))
    || (f.quota.Some? && f'.quota.None? && t.inflight == Released(s.inflight, f.quota.value))
  }

  ghost predicate RecordsMoved(cfg: Config, s: State, t: State, id: nat, a: Option<Action>) {
    && t.counters == (if a.Some? && a.value.Bump? then s.counters + multiset{a.value.counter} else s.counters)
    && t.latencyCount == s.latencyCount + Ind(a == Some(ObserveLatency))
    && t.log == s.log + (if cfg.eventsOn && a.Some? then EventOf(id, a.value) else [])
  }

  /** Everything one move changes, without naming the step that made it. */
  ghost predicate Moved(cfg: Config, s: State, t: State, id: nat) {
    && id in s.flights && id in t.flights
    && var f, f' := s.flights[id], t.flights[id];
       && t.flights == s.flights[id := f'] && f'.request == f.request
       && PermitsMoved(s, t, f, f') && QuotaMoved(cfg, s, t, f, f')
       && RecordsMoved(cfg, s, t, id, ActionOf(f))
       && Performed(f') == Performed(f) + (if ActionOf(f).Some? then [ActionOf(f).value] else [])
  }

  /** The flight left behind by an exit action: the action is ticked off and its permit given up. */
  ghost function Dropped(f: Flight, a: Action): Flight {
    match a
    case DropGlobal => f.(global := false)
    case DropPartition => f.(bucket := None)
    case DropQuota => f.(quota := None)
    case _ => f
  }

  lemma PerformMoves(cfg: Config, s: State, id: nat, f: Flight, a: Action)
    requires id in s.flights && f == s.flights[id] && ActionOf(f) == Some(a)
    requires f.bucket.Some? ==> f.bucket.value < |s.bucketFree|
    ensures Moved(cfg, s, Perform(cfg, s, id, Ticked(f), a), id)
    ensures Perform(cfg, s, id, Ticked(f), a).flights[id] == Dropped(Ticked(f), a)
  {
    match a
    case DropGlobal => DropGlobalMoves(cfg, s, id, f);
    case DropPartition => DropPartitionMoves(cfg, s, id, f);
    case DropQuota => DropQuotaMoves(cfg, s, id, f);
    case _ => RecordMoves(cfg, s, id, f, a);
  }

  lemma TickPerforms(f: Flight)
    requires ActionOf(f).Some?
    ensures Performed(Ticked(f)) == Performed(f) + [f.phase.todo[0]] && Ticked(f).request == f.request
    ensures Ticked(f).global == f.global && Ticked(f).bucket == f.bucket && Ticked(f).quota == f.quota
  {
  }

  /** A counter, the latency or an event: nothing held changes. */
  lemma RecordMoves(cfg: Config, s: State, id: nat, f: Flight, a: Action)
    requires id in s.flights && f == s.flights[id] && ActionOf(f) == Some(a)
    requires !a.DropGlobal? && !a.DropPartition? && !a.DropQuota?
    ensures Moved(cfg, s, Perform(cfg, s, id, Ticked(f), a), id)
    ensures Perform(cfg, s, id, Ticked(f), a).flights[id] == Ticked(f)
  {
    TickPerforms(f);
    AppendNothing(s.log);
  }

  lemma DropGlobalMoves(cfg: Config, s: State, id: nat, f: Flight)
    requires id in s.flights && f == s.flights[id] && ActionOf(f) == Some(DropGlobal)
    ensures Moved(cfg, s, Perform(cfg, s, id, Ticked(f), DropGlobal), id)
    ensures Perform(cfg, s, id, Ticked(f), DropGlobal).flights[id] == Ticked(f).(global := false)
  {
    TickPerforms(f);
    AppendNothing(s.log);
  }

  lemma DropPartitionMoves(cfg: Config, s: State, id: nat, f: Flight)
    requires id in s.flights && f == s.flights[id] && ActionOf(f) == Some(DropPartition)
    requires f.bucket.Some? ==> f.bucket.value < |s.bucketFree|
    ensures Moved(cfg, s, Perform(cfg, s, id, Ticked(f), DropPartition), id)
    ensures Perform(cfg, s, id, Ticked(f), DropPartition).flights[id] == Ticked(f).(bucket := None)
  {
    TickPerforms(f);
    AppendNothing(s.log);
  }

  lemma DropQuotaMoves(cfg: Config, s: State, id: nat, f: Flight)
    requires id in s.flights && f == s.flights[id] && ActionOf(f) == Some(DropQuota)
    ensures Moved(cfg, s, Perform(cfg, s, id, Ticked(f), DropQuota), id)
    ensures Perform(cfg, s, id, Ticked(f), DropQuota).flights[id] == Ticked(f).(quota := None)
  {
    TickPerforms(f);
    AppendNothing(s.log);
  }

  lemma GatesMove(cfg: Config, s: State, id: nat, f: Flight)
    requires id in s.flights && f == s.flights[id] && f.phase == AtGates
    ensures Moved(cfg, s, PassGates(cfg, s, id, f), id)
    ensures HoldingsOk(cfg, f) ==> HoldingsOk(cfg, PassGates(cfg, s, id, f).flights[id])
    ensures ScriptOk(PassGates(cfg, s, id, f).flights[id])
  {
    var gate := Gates(cfg, f.request);
    if gate.Some? { LeaveScripted(f, Denied(gate.value)); }
  }

  lemma QuotaMoves(cfg: Config, s: State, id: nat, f: Flight)
    requires id in s.flights && f == s.flights[id] && f.phase == AtQuota && HoldingsOk(cfg, f)
    ensures Moved(cfg, s, TakeQuota(cfg, s, id, f), id)
    ensures HoldingsOk(cfg, TakeQuota(cfg, s, id, f).flights[id])
    ensures ScriptOk(TakeQuota(cfg, s, id, f).flights[id])
  {
    LeaveScripted(f, Denied(OverQuota));
  }

  lemma SessionMoves(cfg: Config, s: State, id: nat, f: Flight, w: World)
    requires id in s.flights && f == s.flights[id] && f.phase == AtSession
    ensures Moved(cfg, s, OpenSession(s, id, f, w), id)
    ensures HoldingsOk(cfg, f) ==> HoldingsOk(cfg, OpenSession(s, id, f, w).flights[id])
    ensures ScriptOk(OpenSession(s, id, f, w).flights[id])
  {
    if !w.session.Connected? { LeaveScripted(f, Denied(SessionDenial(w.session))); }
  }

  lemma PartitionMoves(cfg: Config, s: State, id: nat, f: Flight)
    requires id in s.flights && f == s.flights[id] && f.phase == AtPartition && HoldingsOk(cfg, f)
    requires |s.bucketFree| == BucketCount(cfg)
    ensures Moved(cfg, s, TakePartition(cfg, s, id, f), id)
    ensures HoldingsOk(cfg, TakePartition(cfg, s, id, f).flights[id])
    ensures ScriptOk(TakePartition(cfg, s, id, f).flights[id])
  {
    LeaveScripted(f, Denied(PartitionBusy));
  }

  lemma GlobalMoves(cfg: Config, s: State, id: nat, f: Flight)
    requires id in s.flights && f == s.flights[id] && f.phase == AtGlobal && HoldingsOk(cfg, f)
    ensures Moved(cfg, s, TakeGlobal(s, id, f), id)
    ensures HoldingsOk(cfg, TakeGlobal(s, id, f).flights[id])
    ensures ScriptOk(TakeGlobal(s, id, f).flights[id])
  {
    LeaveScripted(f, Denied(GlobalBusy));
  }

  lemma RunMoves(cfg: Config, s: State, id: nat, f: Flight, o: Outcome)
    requires id in s.flights && f == s.flights[id] && f.phase == Running && HoldingsOk(cfg, f)
    ensures Moved(cfg, s, Put(s, id, Leave(f, Executed(o))), id)
    ensures HoldingsOk(cfg, Leave(f, Executed(o)))
    ensures ScriptOk(Leave(f, Executed(o)))
  {
    LeaveMoves(cfg, s, id, f, Executed(o));
    LeaveScripted(f, Executed(o));
    RunOwesAll(cfg, f, o);
  }

  lemma LeaveMoves(cfg: Config, s: State, id: nat, f: Flight, e: Exit)
    requires id in s.flights && f == s.flights[id] && !f.phase.Finishing?
    ensures Moved(cfg, s, Put(s, id, Leave(f, e)), id)
  {
  }

  lemma RunOwesAll(cfg: Config, f: Flight, o: Outcome)
    requires f.phase == Running && HoldingsOk(cfg, f)
    ensures HoldingsOk(cfg, Leave(f, Executed(o)))
  {
    ExecutedOwesAll(o);
  }

  lemma ExecutedOwesAll(o: Outcome)
    ensures DropGlobal in Script(Executed(o)) && DropPartition in Script(Executed(o)) && DropQuota in Script(Executed(o))
  {
    assert Script(Executed(o))[0] == DropGlobal && Script(Executed(o))[1] == DropPartition
        && Script(Executed(o))[6] == DropQuota;
  }

  lemma LeaveScripted(f: Flight, e: Exit)
    ensures ScriptOk(Leave(f, e))
  {
    ScriptFacts(e);
    assert [] + Script(e) == Script(e);
  }

  lemma TickKeepsScript(f: Flight)
    requires ActionOf(f).Some? && ScriptOk(f)
    ensures ScriptOk(Dropped(Ticked(f), f.phase.todo[0]))
  {
    var g := Ticked(f);
    assert g.phase.done + g.phase.todo == f.phase.done + f.phase.todo;
  }

  lemma TickKeepsHoldings(cfg: Config, f: Flight)
    requires ActionOf(f).Some? && HoldingsOk(cfg, f)
    ensures HoldingsOk(cfg, Dropped(Ticked(f), f.phase.todo[0]))
  {
    assert f.phase.todo == [f.phase.todo[0]] + f.phase.todo[1..];
  }

  lemma ExitMoves(cfg: Config, s: State, id: nat, f: Flight)
    requires id in s.flights && f == s.flights[id] && ActionOf(f).Some?
    requires HoldingsOk(cfg, f) && ScriptOk(f)
    requires |s.bucketFree| == BucketCount(cfg)
    ensures var t := Perform(cfg, s, id, Ticked(f), f.phase.todo[0]);
            && Moved(cfg, s, t, id)
            && HoldingsOk(cfg, t.flights[id])
            && ScriptOk(t.flights[id])
  {
    PerformMoves(cfg, s, id, f, f.phase.todo[0]);
    TickKeepsScript(f);
    TickKeepsHoldings(cfg, f);
  }

  lemma GlobalKept(cfg: Config, s: State, t: State, id: nat)
    requires Moved(cfg, s, t, id) && GlobalConserved(cfg, s)
    ensures GlobalConserved(cfg, t)
  {
    TallyUpdate(s.flights, id, t.flights[id], HoldsGlobal);
  }

  lemma BucketsKept(cfg: Config, s: State, t: State, id: nat)
    requires Moved(cfg, s, t, id) && BucketsConserved(cfg, s)
    ensures BucketsConserved(cfg, t)
  {
    forall b | 0 <= b < |t.bucketFree|
      ensures t.bucketFree[b] + Tally(t.flights, HoldsBucket(b)) == cfg.perPartition
    {
      TallyUpdate(s.flights, id, t.flights[id], HoldsBucket(b));
      assert s.bucketFree[b] + Tally(s.flights, HoldsBucket(b)) == cfg.perPartition;
    }
  }

  lemma QuotaKept(cfg: Config, s: State, t: State, id: nat)
    requires Moved(cfg, s, t, id) && FlightsOk(cfg, s) && QuotaConserved(cfg, s)
    ensures QuotaConserved(cfg, t)
  {
    var f, f', live := s.flights[id], t.flights[id], Guarded(s.flights);
    GuardedFollows(s.flights, id, f');
    if f'.quota == f.quota && t.inflight == s.inflight {
    } else if f.quota.None? {
      CountedKeeps(s.inflight, live, id, f'.quota.value);
    } else {
      ReleasedKeeps(s.inflight, live, id);
      CappedAfterRelease(cfg.trusted.value.quota.value, s.inflight, f.quota.value);
    }
  }

  lemma GuardedFollows(flights: map<nat, Flight>, id: nat, f: Flight)
    requires id in flights
    ensures Guarded(flights[id := f]) ==
            (if f.quota.Some? then Guarded(flights)[id := f.quota.value] else Guarded(flights) - {id})
    ensures f.quota == flights[id].quota ==> Guarded(flights[id := f]) == Guarded(flights)
  {
  }

  /** An action about to be performed was not performed before, nor any bump if it is one. */
  lemma NotYet(f: Flight)
    requires f.phase.Finishing? && f.phase.todo != [] && WellFormed(f.phase.done + f.phase.todo)
    ensures f.phase.todo[0] !in f.phase.done
    ensures f.phase.todo[0].Bump? ==> !Settled(f)
  {
    var acts := f.phase.done + f.phase.todo;
    assert acts[|f.phase.done|] == f.phase.todo[0];
    forall i | 0 <= i < |f.phase.done| ensures f.phase.done[i] == acts[i] {}
  }

  ghost predicate Grown(f: Flight, f': Flight, a: Option<Action>) {
    && Performed(f') == Performed(f) + (if a.Some? then [a.value] else [])
    && (a.Some? ==> a.value !in Performed(f) && (a.value.Bump? ==> !Settled(f)))
  }

  lemma SettlingGrows(f: Flight, f': Flight, a: Option<Action>)
    requires Grown(f, f', a)
    ensures Ind(Settled(f')) == Ind(Settled(f)) + Ind(a.Some? && a.value.Bump?)
    ensures Ind(SettledRun(f')) == Ind(SettledRun(f)) + Ind(a.Some? && a.value.Bump? && a.value.counter.OutcomeOf?)
    ensures Ind(Timed(f')) == Ind(Timed(f)) + Ind(a == Some(ObserveLatency))
    ensures forall c :: Ind(Bumped(c)(f')) == Ind(Bumped(c)(f)) + Ind(a == Some(Bump(c)))
  {
    if a.Some? && a.value.Bump? {
      assert Bump(a.value.counter) in Performed(f');
      if a.value.counter.OutcomeOf? {
        assert Bump(OutcomeOf(a.value.counter.outcome)) in Performed(f');
      }
    }
    assert forall x :: x in Performed(f) ==> x in Performed(f');
  }

  lemma CountersKept(cfg: Config, s: State, t: State, id: nat)
    requires Moved(cfg, s, t, id) && CountersExact(s)
    requires s.flights[id].phase.Finishing? ==> WellFormed(s.flights[id].phase.done + s.flights[id].phase.todo)
    ensures CountersExact(t)
  {
    var f, f' := s.flights[id], t.flights[id];
    var a := ActionOf(f);
    if a.Some? {
      NotYet(f);
    }
    SettlingGrows(f, f', a);
    TalliesFollow(s, t, id, f', a);
  }

  lemma OutcomeTotalGrows(m: multiset<Counter>, c: Counter)
    ensures OutcomeTotal(m + multiset{c}) == OutcomeTotal(m) + Ind(c.OutcomeOf?)
    ensures |m + multiset{c}| == |m| + 1
  {
    assert forall o :: (m + multiset{c})[OutcomeOf(o)] == m[OutcomeOf(o)] + Ind(c == OutcomeOf(o));
    if c.OutcomeOf? {
      match c.outcome
      case Success =>
      case ScriptError =>
      case CapabilityError =>
      case Timeout =>
      case MemoryLimit =>
      case MalformedResponse =>
      case InternalError =>
    }
  }

  lemma TalliesFollow(s: State, t: State, id: nat, f': Flight, a: Option<Action>)
    requires CountersExact(s) && id in s.flights && t.flights == s.flights[id := f']
    requires Grown(s.flights[id], f', a)
    requires t.counters == if a.Some? && a.value.Bump? then s.counters + multiset{a.value.counter} else s.counters
    requires t.latencyCount == s.latencyCount + Ind(a == Some(ObserveLatency))
    ensures CountersExact(t)
  {
    SettlingGrows(s.flights[id], f', a);
    TallyUpdate(s.flights, id, f', Settled);
    TallyUpdate(s.flights, id, f', SettledRun);
    TallyUpdate(s.flights, id, f', Timed);
    if a.Some? && a.value.Bump? {
      OutcomeTotalGrows(s.counters, a.value.counter);
    }
    forall c ensures t.counters[c] == Tally(t.flights, Bumped(c)) {
      EachTallyFollows(s, id, f', a, c);
    }
  }

  lemma EachTallyFollows(s: State, id: nat, f': Flight, a: Option<Action>, c: Counter)
    requires s.counters[c] == Tally(s.flights, Bumped(c)) && id in s.flights
    requires Ind(Bumped(c)(f')) == Ind(Bumped(c)(s.flights[id])) + Ind(a == Some(Bump(c)))
    ensures (if a.Some? && a.value.Bump? then s.counters + multiset{a.value.counter} else s.counters)[c]
         == Tally(s.flights[id := f'], Bumped(c))
  {
    TallyUpdate(s.flights, id, f', Bumped(c));
  }

  lemma EventsAppend(log: seq<Event>, tail: seq<Event>, id: nat)
    requires |tail| <= 1
    ensures EventsOf(log + tail, id) == EventsOf(log, id) + (if tail != [] && tail[0].id == id then tail else [])
  {
    if tail != [] {
      assert (log + tail)[..|log|] == log;
      assert tail == [tail[0]];
    } else {
      assert log + tail == log;
    }
  }

  lemma EmittedCons(id: nat, a: Action, rest: seq<Action>)
    ensures Emitted(id, [a] + rest) == EventOf(id, a) + Emitted(id, rest)
  {
    assert ([a] + rest)[1..] == rest;
  }

  lemma {:induction false} EmittedAppend(id: nat, acts: seq<Action>, a: Action)
    ensures Emitted(id, acts + [a]) == Emitted(id, acts) + EventOf(id, a)
    decreases |acts|
  {
    if acts == [] {
      EmittedCons(id, a, []);
      assert acts + [a] == [a] + [];
    } else {
      EmittedAppend(id, acts[1..], a);
      assert acts + [a] == [acts[0]] + (acts[1..] + [a]);
      EmittedCons(id, acts[0], acts[1..] + [a]);
      Associative(EventOf(id, acts[0]), Emitted(id, acts[1..]), EventOf(id, a));
    }
  }

  /** One action's event enters the log of its own request only. */
  lemma LogGrows(log: seq<Event>, id: nat, a: Action, i: nat)
    ensures EventsOf(log + EventOf(id, a), i) == EventsOf(log, i) + if i == id then EventOf(id, a) else []
  {
    EventsAppend(log, EventOf(id, a), i);
  }

  lemma LogKept(cfg: Config, s: State, t: State, id: nat)
    requires Moved(cfg, s, t, id) && Logged(cfg, s)
    ensures Logged(cfg, t)
  {
    forall i ensures LoggedFor(cfg, t, i) {
      assert LoggedFor(cfg, s, i);
      LogFollows(cfg, s, t, id, s.flights[id], t.flights[id], i);
    }
  }

  lemma LogFollows(cfg: Config, s: State, t: State, id: nat, f: Flight, f': Flight, i: nat)
    requires LoggedFor(cfg, s, i) && id in s.flights && f == s.flights[id] && t.flights == s.flights[id := f']
    requires Performed(f') == Performed(f) + (if ActionOf(f).Some? then [ActionOf(f).value] else [])
    requires t.log == s.log + (if cfg.eventsOn && ActionOf(f).Some? then EventOf(id, ActionOf(f).value) else [])
    ensures LoggedFor(cfg, t, i)
  {
    AppendNothing(s.log);
    if ActionOf(f).Some? {
      LogGrows(s.log, id, ActionOf(f).value, i);
      EmittedAppend(id, Performed(f), ActionOf(f).value);
    } else {
      AppendNothing(Performed(f));
    }
    AppendNothing(EventsOf(s.log, i));
  }

  lemma ShapesKept(cfg: Config, s: State, t: State, id: nat)
    requires FlightsOk(cfg, s) && ScriptsOk(s)
    requires id in t.flights && t.flights == s.flights[id := t.flights[id]] && |t.bucketFree| == |s.bucketFree|
    requires HoldingsOk(cfg, t.flights[id]) && ScriptOk(t.flights[id])
    ensures FlightsOk(cfg, t) && ScriptsOk(t)
  {
    assert forall i :: i in t.flights && i != id ==> t.flights[i] == s.flights[i];
  }

  /** An arrival is a move of a fresh flight that holds nothing and has done nothing. */
  lemma ArrivalKeeps(cfg: Config, s: State, t: State, id: nat, f: Flight)
    requires GlobalConserved(cfg, s) && BucketsConserved(cfg, s) && CountersExact(s)
    requires id !in s.flights && !f.global && f.bucket.None? && Performed(f) == []
    requires t == Put(s, id, f)
    ensures GlobalConserved(cfg, t) && BucketsConserved(cfg, t) && CountersExact(t)
  {
    TallyUpdate(s.flights, id, f, HoldsGlobal);
    TallyUpdate(s.flights, id, f, Settled);
    TallyUpdate(s.flights, id, f, SettledRun);
    TallyUpdate(s.flights, id, f, Timed);
    forall b | 0 <= b < |t.bucketFree|
      ensures t.bucketFree[b] + Tally(t.flights, HoldsBucket(b)) == cfg.perPartition
    {
      TallyUpdate(s.flights, id, f, HoldsBucket(b));
    }
    forall c ensures t.counters[c] == Tally(t.flights, Bumped(c)) {
      TallyUpdate(s.flights, id, f, Bumped(c));
    }
  }

  lemma ArrivalKeepsBooks(cfg: Config, s: State, t: State, id: nat, f: Flight)
    requires QuotaConserved(cfg, s) && Logged(cfg, s)
    requires id !in s.flights && f.quota.None? && Performed(f) == []
    requires t == Put(s, id, f)
    ensures QuotaConserved(cfg, t) && Logged(cfg, t)
  {
    assert Guarded(t.flights) == Guarded(s.flights);
    forall i ensures LoggedFor(cfg, t, i) { assert LoggedFor(cfg, s, i); }
  }

  lemma InitHolds(cfg: Config)
    ensures Inv(cfg, Init(cfg))
  {
    var s := Init(cfg);
    TallyZero(s.flights, HoldsGlobal);
    TallyZero(s.flights, Settled);
    TallyZero(s.flights, SettledRun);
    TallyZero(s.flights, Timed);
    forall b: nat { TallyZero(s.flights, HoldsBucket(b)); }
    forall c { TallyZero(s.flights, Bumped(c)); }
    forall t ensures LiveOf(Guarded(s.flights), t) == 0 { TallyZero(Guarded(s.flights), IsTenant(t)); }
  }

  lemma AdvanceMoves(cfg: Config, s: State, id: nat, w: World)
    requires id in s.flights && FlightsOk(cfg, s) && ScriptsOk(s)
    ensures var t := Advance(cfg, s, id, w);
            && Moved(cfg, s, t, id)
            && HoldingsOk(cfg, t.flights[id])
            && ScriptOk(t.flights[id])
  {
    var f := s.flights[id];
    match f.phase
    case AtGates => GatesMove(cfg, s, id, f);
    case AtQuota => QuotaMoves(cfg, s, id, f);
    case AtSession => SessionMoves(cfg, s, id, f, w);
    case AtPartition => PartitionMoves(cfg, s, id, f);
    case AtGlobal => GlobalMoves(cfg, s, id, f);
    case Running => RunMoves(cfg, s, id, f, w.outcome);
    case Finishing(_, _, todo) =>
      if todo == [] {
        assert s.flights == s.flights[id := f];
      } else {
        ExitMoves(cfg, s, id, f);
      }
  }

  lemma MovedKeeps(cfg: Config, s: State, t: State, id: nat)
    requires Inv(cfg, s) && Moved(cfg, s, t, id)
    requires HoldingsOk(cfg, t.flights[id]) && ScriptOk(t.flights[id])
    ensures Inv(cfg, t)
  {
    ShapesKept(cfg, s, t, id);
    GlobalKept(cfg, s, t, id);
    BucketsKept(cfg, s, t, id);
    QuotaKept(cfg, s, t, id);
    CountersKept(cfg, s, t, id);
    LogKept(cfg, s, t, id);
  }

  lemma StepKeeps(cfg: Config, s: State, step: Step)
    requires Inv(cfg, s)
    ensures Inv(cfg, Apply(cfg, s, step))
  {
    match step
    case Arrive(id, r) =>
      if id !in s.flights {
        var f := Flight(r, AtGates, None, None, false);
        var t := Put(s, id, f);
        ShapesKept(cfg, s, t, id);
        ArrivalKeeps(cfg, s, t, id, f);
        ArrivalKeepsBooks(cfg, s, t, id, f);
      }
    case Move(id, w) =>
      if id in s.flights {
        AdvanceMoves(cfg, s, id, w);
        MovedKeeps(cfg, s, Advance(cfg, s, id, w), id);
      }
  }

  /** The invariant holds after every interleaving of any number of requests. */
  lemma {:induction false} InvAlways(cfg: Config, steps: seq<Step>)
    ensures Inv(cfg, Run(cfg, steps))
  {
    if steps == [] {
      InitHolds(cfg);
    } else {
      InvAlways(cfg, steps[..|steps| - 1]);
      StepKeeps(cfg, Run(cfg, steps[..|steps| - 1]), steps[|steps| - 1]);
    }
  }
}
