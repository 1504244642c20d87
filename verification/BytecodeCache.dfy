/**
 The compiled-bytecode cache (`crates/runlet-core/src/bytecode.rs`, `engine.rs`): concurrent
 executions look up, compile and insert, one atomic action at a time, while entries are evicted.
 */
module BytecodeCache {
  import opened Wrappers
  import opened Counting
  import opened LittleEndian

  type Module = nat

  /** The script engine and the hash, as functions. */
  datatype Engine = Engine(
    compile: bytes -> Option<Module>, write: Module -> Option<bytes>, load: bytes -> Option<Module>,
    hash: bytes -> nat)

  /** Loading undoes writing, and the hash has no collisions. */
  ghost predicate LawfulEngine(e: Engine) {
    && (forall m: Module, b :: e.write(m) == Some(b) ==> e.load(b) == Some(m))
    && (forall x, y :: e.hash(x) == e.hash(y) ==> x == y)
  }

  // -- Keys -------------------------------------------------------------------

  /** What is hashed: the namespace length in eight bytes, the namespace, the source. */
  function DigestInput(namespace: bytes, source: bytes): bytes {
    Le(if |namespace| <= U64_MAX then |namespace| else U64_MAX, 8) + namespace + source
  }

  /** The hashed bytes: the namespace's length in eight bytes, the lowest first, then the two texts. */
  lemma DigestLayout(namespace: bytes, source: bytes)
    requires |namespace| <= U64_MAX
    ensures var b := DigestInput(namespace, source);
            && |b| == 8 + |namespace| + |source| && b[8..] == namespace + source
            && |namespace| == Weigh(b[0], b[1], b[2], b[3]) + 0x1_0000_0000 * Weigh(b[4], b[5], b[6], b[7])
  {
    LeEight(|namespace|);
    assert DigestInput(namespace, source)[..8] == Le(|namespace|, 8);
  }

  lemma LengthsAgree(m: nat, n: nat)
    requires m <= U64_MAX && n <= U64_MAX && Le(m, 8) == Le(n, 8)
    ensures m == n
  {
    Pow256Values();
    LeRoundTrip(m, 8);
    LeRoundTrip(n, 8);
  }

  /** Different namespace and source splits never give the same input. */
  lemma DigestInputInjective(ns1: bytes, src1: bytes, ns2: bytes, src2: bytes)
    requires DigestInput(ns1, src1) == DigestInput(ns2, src2)
    requires |ns1| <= U64_MAX && |ns2| <= U64_MAX
    ensures ns1 == ns2 && src1 == src2
  {
    var a, b := DigestInput(ns1, src1), DigestInput(ns2, src2);
    assert a[..8] == Le(|ns1|, 8) && b[..8] == Le(|ns2|, 8);
    LengthsAgree(|ns1|, |ns2|);
    assert a[8..] == ns1 + src1 && b[8..] == ns2 + src2;
    assert ns1 == (ns1 + src1)[..|ns1|] && src1 == (ns1 + src1)[|ns1|..];
  }

  /** A script and the namespace it runs under; a namespace is a Rust string, so its length fits 64 bits. */
  datatype Unit = Unit(namespace: bytes, source: bytes) {
    predicate Valid() { |namespace| <= U64_MAX }
  }

  function Key(e: Engine, u: Unit): nat {
    e.hash(DigestInput(u.namespace, u.source))
  }

  lemma KeyInjective(e: Engine, u: Unit, v: Unit)
    requires LawfulEngine(e) && u.Valid() && v.Valid() && Key(e, u) == Key(e, v)
    ensures u == v
  {
    DigestInputInjective(u.namespace, u.source, v.namespace, v.source);
  }

  // -- The machine ------------------------------------------------------------

  /** Where an execution stands in `obtain_declared`. */
  datatype Pc =
    | Looking(u: Unit) | Found(u: Unit, code: bytes) | Loading(u: Unit, code: bytes)
    | NotFound(u: Unit) | Compiling(u: Unit) | Admitting(u: Unit, m: Module, code: bytes)
    | Inserting(u: Unit, m: Module, code: bytes) | Obtained(u: Unit, result: Option<Module>)

  /** `inserted` remembers every unit ever put into the cache. */
  datatype State = State(
    cache: map<nat, bytes>, hits: nat, misses: nat, stored: nat, lookups: nat,
    threads: map<nat, Pc>, inserted: set<Unit>)

  datatype Step = Begin(tid: nat, u: Unit) | Turn(tid: nat) | Evict(keys: set<nat>)

  function Init(): State { State(map[], 0, 0, 0, 0, map[], {}) }

  function Put(s: State, tid: nat, pc: Pc): State { s.(threads := s.threads[tid := pc]) }

  /** One atomic action: a cache access, a counter update, or a local compile or load. */
  function Advance(e: Engine, floor: nat, s: State, tid: nat): State
    requires tid in s.threads
  {
    match s.threads[tid]
    case Looking(u) =>
      var k := Key(e, u);
      Put(s, tid, if k in s.cache then Found(u, s.cache[k]) else NotFound(u)).(lookups := s.lookups + 1)
    case Found(u, code) => Put(s, tid, Loading(u, code)).(hits := s.hits + 1)
    case Loading(u, code) => Put(s, tid, Obtained(u, e.load(code)))
    case NotFound(u) => Put(s, tid, Compiling(u)).(misses := s.misses + 1)
    case Compiling(u) =>
      var m := e.compile(u.source);
      if m.None? then Put(s, tid, Obtained(u, None))
      else if |u.source| >= floor && e.write(m.value).Some?
      then Put(s, tid, Admitting(u, m.value, e.write(m.value).value))
      else Put(s, tid, Obtained(u, m))
    case Admitting(u, m, code) => Put(s, tid, Inserting(u, m, code)).(stored := s.stored + 1)
    case Inserting(u, m, code) =>
      Put(s, tid, Obtained(u, Some(m))).(cache := s.cache[Key(e, u) := code], inserted := s.inserted + {u})
    case Obtained(_, _) => s
  }

  function Apply(e: Engine, floor: nat, s: State, step: Step): State {
    match step
    case Begin(tid, u) => if tid in s.threads || !u.Valid() then s else Put(s, tid, Looking(u))
    case Turn(tid) => if tid in s.threads then Advance(e, floor, s, tid) else s
    case Evict(keys) => s.(cache := s.cache - keys)
  }

  function Run(e: Engine, floor: nat, steps: seq<Step>): State {
    if steps == [] then Init()
    else Apply(e, floor, Run(e, floor, steps[..|steps| - 1]), steps[|steps| - 1])
  }

  // -- The invariant ----------------------------------------------------------

  /** `code` is what writing the compiled source of `u` gives, and `u` is large enough to be cached. */
  ghost predicate CodeOf(e: Engine, floor: nat, u: Unit, code: bytes) {
    u.Valid() && |u.source| >= floor && e.compile(u.source).Some? && e.write(e.compile(u.source).value) == Some(code)
  }

  ghost predicate ResidentOk(e: Engine, floor: nat, s: State) {
    forall k :: k in s.cache ==> exists u :: u in s.inserted && Key(e, u) == k && CodeOf(e, floor, u, s.cache[k])
  }

  ghost predicate PcOk(e: Engine, floor: nat, s: State, pc: Pc) {
    && pc.u.Valid()
    && match pc
       case Looking(_) | NotFound(_) | Compiling(_) => true
       case Found(u, code) => u in s.inserted && CodeOf(e, floor, u, code)
       case Loading(u, code) => u in s.inserted && CodeOf(e, floor, u, code)
       case Admitting(u, m, code) => CodeOf(e, floor, u, code) && e.compile(u.source) == Some(m)
       case Inserting(u, m, code) => CodeOf(e, floor, u, code) && e.compile(u.source) == Some(m)
       case Obtained(u, result) => result == e.compile(u.source)
  }

  ghost predicate ThreadsOk(e: Engine, floor: nat, s: State) {
    forall t :: t in s.threads ==> PcOk(e, floor, s, s.threads[t])
  }

  /** A lookup whose hit or miss has not been counted yet. */
  ghost predicate Uncounted(pc: Pc) { pc.Found? || pc.NotFound? }

  ghost predicate CountersOk(s: State) {
    s.hits + s.misses + Tally(s.threads, Uncounted) == s.lookups && s.stored <= s.misses
  }

  /** Misses that may still store something; each stores at most once. */
  ghost predicate MayStore(pc: Pc) { pc.Compiling? || pc.Admitting? }

  ghost predicate StoresBounded(s: State) {
    s.stored + Tally(s.threads, MayStore) <= s.misses
  }

  lemma FoundIsOwn(e: Engine, floor: nat, s: State, u: Unit)
    requires LawfulEngine(e) && ResidentOk(e, floor, s) && u.Valid() && Key(e, u) in s.cache
    ensures u in s.inserted && CodeOf(e, floor, u, s.cache[Key(e, u)])
  {
    var k := Key(e, u);
    var v :| v in s.inserted && Key(e, v) == k && CodeOf(e, floor, v, s.cache[k]);
    KeyInjective(e, u, v);
  }

  lemma ThreadsKept(e: Engine, floor: nat, s: State, tid: nat)
    requires LawfulEngine(e) && tid in s.threads && ResidentOk(e, floor, s) && ThreadsOk(e, floor, s)
    ensures ThreadsOk(e, floor, Advance(e, floor, s, tid))
  {
    var t, pc := Advance(e, floor, s, tid), s.threads[tid];
    assert PcOk(e, floor, s, pc);
    if pc.Looking? && Key(e, pc.u) in s.cache { FoundIsOwn(e, floor, s, pc.u); }
    assert PcOk(e, floor, t, t.threads[tid]);
    forall i | i in t.threads && i != tid ensures PcOk(e, floor, t, t.threads[i]) {
      assert t.threads[i] == s.threads[i] && PcOk(e, floor, s, s.threads[i]);
    }
  }

  lemma ResidentKept(e: Engine, floor: nat, s: State, tid: nat)
    requires tid in s.threads && ResidentOk(e, floor, s) && PcOk(e, floor, s, s.threads[tid])
    ensures ResidentOk(e, floor, Advance(e, floor, s, tid))
  {
    var t, pc := Advance(e, floor, s, tid), s.threads[tid];
    forall k | k in t.cache
      ensures exists u :: u in t.inserted && Key(e, u) == k && CodeOf(e, floor, u, t.cache[k])
    {
      if pc.Inserting? && k == Key(e, pc.u) {
        assert pc.u in t.inserted;
      } else {
        var u :| u in s.inserted && Key(e, u) == k && CodeOf(e, floor, u, s.cache[k]);
        assert u in t.inserted;
      }
    }
  }

  lemma CountersKept(e: Engine, floor: nat, s: State, tid: nat)
    requires tid in s.threads && CountersOk(s) && StoresBounded(s)
    ensures CountersOk(Advance(e, floor, s, tid)) && StoresBounded(Advance(e, floor, s, tid))
  {
    var t := Advance(e, floor, s, tid);
    assert t.threads == s.threads[tid := t.threads[tid]];
    TallyUpdate(s.threads, tid, t.threads[tid], Uncounted);
    TallyUpdate(s.threads, tid, t.threads[tid], MayStore);
  }

  ghost predicate Inv(e: Engine, floor: nat, s: State) {
    ResidentOk(e, floor, s) && ThreadsOk(e, floor, s) && CountersOk(s) && StoresBounded(s)
  }

  lemma StepKeeps(e: Engine, floor: nat, s: State, step: Step)
    requires LawfulEngine(e) && Inv(e, floor, s)
    ensures Inv(e, floor, Apply(e, floor, s, step))
  {
    match step
    case Begin(tid, u) =>
      if tid !in s.threads && u.Valid() {
        TallyUpdate(s.threads, tid, Looking(u), Uncounted);
        TallyUpdate(s.threads, tid, Looking(u), MayStore);
        OthersKept(e, floor, s, Put(s, tid, Looking(u)), tid);
      }
    case Turn(tid) =>
      if tid in s.threads {
        ThreadsKept(e, floor, s, tid);
        ResidentKept(e, floor, s, tid);
        CountersKept(e, floor, s, tid);
      }
    case Evict(keys) => EvictKeeps(e, floor, s, keys);
  }

  lemma OthersKept(e: Engine, floor: nat, s: State, t: State, tid: nat)
    requires ThreadsOk(e, floor, s) && tid in t.threads && PcOk(e, floor, t, t.threads[tid])
    requires t.threads == s.threads[tid := t.threads[tid]] && t.inserted == s.inserted
    ensures ThreadsOk(e, floor, t)
  {
    forall i | i in t.threads && i != tid ensures PcOk(e, floor, t, t.threads[i]) {
      assert PcOk(e, floor, s, s.threads[i]);
    }
  }

  lemma EvictKeeps(e: Engine, floor: nat, s: State, keys: set<nat>)
    requires Inv(e, floor, s)
    ensures Inv(e, floor, s.(cache := s.cache - keys))
  {
    var t := s.(cache := s.cache - keys);
    forall i | i in t.threads ensures PcOk(e, floor, t, t.threads[i]) {
      assert PcOk(e, floor, s, s.threads[i]);
    }
  }

  lemma {:induction false} InvAlways(e: Engine, floor: nat, steps: seq<Step>)
    requires LawfulEngine(e)
    ensures Inv(e, floor, Run(e, floor, steps))
  {
    if steps == [] {
      TallyZero(Init().threads, Uncounted);
      TallyZero(Init().threads, MayStore);
    } else {
      InvAlways(e, floor, steps[..|steps| - 1]);
      StepKeeps(e, floor, Run(e, floor, steps[..|steps| - 1]), steps[|steps| - 1]);
    }
  }

  // -- The promises -----------------------------------------------------------

  /** Whatever is cached, evicted or raced, every execution obtains exactly a fresh compile. */
  lemma CacheTransparent(e: Engine, floor: nat, steps: seq<Step>, tid: nat)
    requires LawfulEngine(e)
    requires tid in Run(e, floor, steps).threads && Run(e, floor, steps).threads[tid].Obtained?
    ensures var pc := Run(e, floor, steps).threads[tid]; pc.result == e.compile(pc.u.source)
  {
    InvAlways(e, floor, steps);
    assert PcOk(e, floor, Run(e, floor, steps), Run(e, floor, steps).threads[tid]);
  }

  /** A hit serves only what was inserted earlier for the same source under the same namespace. */
  lemma HitsAreOwn(e: Engine, floor: nat, steps: seq<Step>, tid: nat)
    requires LawfulEngine(e)
    requires tid in Run(e, floor, steps).threads
    requires Run(e, floor, steps).threads[tid].Found? || Run(e, floor, steps).threads[tid].Loading?
    ensures var s := Run(e, floor, steps);
            s.threads[tid].u in s.inserted && |s.threads[tid].u.source| >= floor
  {
    InvAlways(e, floor, steps);
    assert PcOk(e, floor, Run(e, floor, steps), Run(e, floor, steps).threads[tid]);
  }

  /** Nothing below the size floor is ever resident. */
  lemma ResidentsAreLarge(e: Engine, floor: nat, steps: seq<Step>, u: Unit)
    requires LawfulEngine(e) && u.Valid() && Key(e, u) in Run(e, floor, steps).cache
    ensures |u.source| >= floor && u in Run(e, floor, steps).inserted
  {
    InvAlways(e, floor, steps);
    FoundIsOwn(e, floor, Run(e, floor, steps), u);
  }

  /** With no lookup between its read and its counter, hits plus misses are the lookups. */
  lemma LookupsCounted(e: Engine, floor: nat, steps: seq<Step>)
    requires LawfulEngine(e)
    requires forall t :: t in Run(e, floor, steps).threads ==> !Uncounted(Run(e, floor, steps).threads[t])
    ensures var s := Run(e, floor, steps); s.hits + s.misses == s.lookups && s.stored <= s.misses
  {
    InvAlways(e, floor, steps);
    TallyZero(Run(e, floor, steps).threads, Uncounted);
  }

  // -- What one execution does to the cache -----------------------------------

  /** A unit worth caching: large enough, it compiles, and the module can be written. */
  ghost predicate Cacheable(e: Engine, floor: nat, u: Unit) {
    |u.source| >= floor && e.compile(u.source).Some? && e.write(e.compile(u.source).value).Some?
  }

  /** The cache's entries and counters. */
  datatype Tables = Tables(entries: map<nat, bytes>, hits: nat, misses: nat, stored: nat)

  /** A resident unit is one hit; any other is one miss, and is stored exactly when it is worth caching. */
  ghost predicate Served(e: Engine, floor: nat, u: Unit, before: Tables, after: Tables) {
    if Key(e, u) in before.entries then after == before.(hits := before.hits + 1)
    else if Cacheable(e, floor, u) then
      after == Tables(before.entries[Key(e, u) := e.write(e.compile(u.source).value).value],
                      before.hits, before.misses + 1, before.stored + 1)
    else after == before.(misses := before.misses + 1)
  }

  ghost function TablesOf(s: State): Tables { Tables(s.cache, s.hits, s.misses, s.stored) }

  /** `n` turns of one thread, nothing else moving. */
  ghost function Turns(e: Engine, floor: nat, s: State, tid: nat, n: nat): State
    decreases n
  {
    if n == 0 then s else Turns(e, floor, Apply(e, floor, s, Turn(tid)), tid, n - 1)
  }

  lemma AloneHit(e: Engine, floor: nat, s: State, tid: nat, u: Unit)
    requires tid in s.threads && s.threads[tid] == Looking(u) && Key(e, u) in s.cache
    ensures var t := Turns(e, floor, s, tid, 5);
            && tid in t.threads && t.threads[tid] == Obtained(u, e.load(s.cache[Key(e, u)]))
            && Served(e, floor, u, TablesOf(s), TablesOf(t)) && t.lookups == s.lookups + 1
  {
    var s1 := Apply(e, floor, s, Turn(tid));
    var s2 := Apply(e, floor, s1, Turn(tid));
    var s3 := Apply(e, floor, s2, Turn(tid));
    assert s3.threads[tid].Obtained?;
    assert Turns(e, floor, s3, tid, 2) == s3 by { StaysObtained(e, floor, s3, tid, 2); }
    assert Turns(e, floor, s, tid, 5) == Turns(e, floor, s1, tid, 4) == Turns(e, floor, s2, tid, 3)
        == Turns(e, floor, s3, tid, 2);
  }

  lemma {:induction false} StaysObtained(e: Engine, floor: nat, s: State, tid: nat, n: nat)
    requires tid in s.threads && s.threads[tid].Obtained?
    ensures Turns(e, floor, s, tid, n) == s
  {
    if n > 0 { StaysObtained(e, floor, s, tid, n - 1); }
  }

  lemma TwoTurns(e: Engine, floor: nat, s: State, tid: nat, n: nat)
    requires 2 <= n
    ensures Turns(e, floor, s, tid, n) == Turns(e, floor, Apply(e, floor, Apply(e, floor, s, Turn(tid)), Turn(tid)), tid, n - 2)
  {
    assert Turns(e, floor, s, tid, n) == Turns(e, floor, Apply(e, floor, s, Turn(tid)), tid, n - 1);
  }

  /** The lookup misses and the miss is counted. */
  lemma AloneMisses(e: Engine, floor: nat, s: State, tid: nat, u: Unit, s2: State)
    requires tid in s.threads && s.threads[tid] == Looking(u) && Key(e, u) !in s.cache
    requires s2 == Apply(e, floor, Apply(e, floor, s, Turn(tid)), Turn(tid))
    ensures tid in s2.threads && s2.threads[tid] == Compiling(u) && s2.lookups == s.lookups + 1
    ensures TablesOf(s2) == TablesOf(s).(misses := s.misses + 1)
  {
  }

  /** Compiling ends the execution unless the unit is worth caching; then it is counted and inserted. */
  lemma AloneCompiles(e: Engine, floor: nat, s: State, tid: nat, u: Unit)
    requires tid in s.threads && s.threads[tid] == Compiling(u)
    ensures var t := Turns(e, floor, s, tid, 3);
            && tid in t.threads && t.threads[tid] == Obtained(u, e.compile(u.source)) && t.lookups == s.lookups
            && TablesOf(t) == if Cacheable(e, floor, u) then
                 TablesOf(s).(stored := s.stored + 1, entries := s.cache[Key(e, u) := e.write(e.compile(u.source).value).value])
               else TablesOf(s)
  {
    var next := Apply(e, floor, s, Turn(tid));
    if Cacheable(e, floor, u) {
      TwoTurns(e, floor, next, tid, 2);
    } else {
      StaysObtained(e, floor, next, tid, 2);
    }
  }

  lemma AloneMiss(e: Engine, floor: nat, s: State, tid: nat, u: Unit)
    requires tid in s.threads && s.threads[tid] == Looking(u) && Key(e, u) !in s.cache
    ensures var t := Turns(e, floor, s, tid, 5);
            && tid in t.threads && t.threads[tid] == Obtained(u, e.compile(u.source))
            && Served(e, floor, u, TablesOf(s), TablesOf(t)) && t.lookups == s.lookups + 1
  {
    var s2 := Apply(e, floor, Apply(e, floor, s, Turn(tid)), Turn(tid));
    TwoTurns(e, floor, s, tid, 5);
    AloneMisses(e, floor, s, tid, u, s2);
    AloneCompiles(e, floor, s2, tid, u);
  }

  /**
   From every reachable state an execution left to itself obtains a fresh compile's module, and moves
   entries and counters as `Served` says.
   */
  lemma AloneObtains(e: Engine, floor: nat, steps: seq<Step>, tid: nat, u: Unit)
    requires LawfulEngine(e) && u.Valid() && tid !in Run(e, floor, steps).threads
    ensures var s := Run(e, floor, steps);
            var t := Turns(e, floor, Apply(e, floor, s, Begin(tid, u)), tid, 5);
            && tid in t.threads && t.threads[tid] == Obtained(u, e.compile(u.source))
            && Served(e, floor, u, TablesOf(s), TablesOf(t)) && t.lookups == s.lookups + 1
  {
    InvAlways(e, floor, steps);
    var s := Run(e, floor, steps);
    var begun := Apply(e, floor, s, Begin(tid, u));
    if Key(e, u) in s.cache {
      FoundIsOwn(e, floor, s, u);
      AloneHit(e, floor, begun, tid, u);
    } else {
      AloneMiss(e, floor, begun, tid, u);
    }
  }

  // -- Compiled once ----------------------------------------------------------

  ghost predicate NeverEvicts(steps: seq<Step>, k: nat) {
    forall i :: 0 <= i < |steps| && steps[i].Evict? ==> k !in steps[i].keys
  }

  /** The thread has found the unit, or is done with it. */
  ghost predicate Has(pc: Pc, u: Unit) { pc.u == u && (pc.Found? || pc.Loading? || pc.Obtained?) }

  /** Once an execution has found or obtained the unit, it is resident. */
  ghost predicate ObtainedStays(e: Engine, s: State, u: Unit) {
    forall t :: t in s.threads && Has(s.threads[t], u) ==> Key(e, u) in s.cache
  }

  lemma TurnKeepsResident(e: Engine, floor: nat, s: State, tid: nat, u: Unit)
    requires Cacheable(e, floor, u) && tid in s.threads && (Has(s.threads[tid], u) ==> Key(e, u) in s.cache)
    ensures var t := Advance(e, floor, s, tid);
            && tid in t.threads && t.threads == s.threads[tid := t.threads[tid]]
            && (Has(t.threads[tid], u) ==> Key(e, u) in t.cache) && s.cache.Keys <= t.cache.Keys
  {
    var pc, t := s.threads[tid], Advance(e, floor, s, tid);
    assert t.cache == s.cache || (pc.Inserting? && t.cache == s.cache[Key(e, pc.u) := pc.code]);
  }

  lemma StepKeepsResident(e: Engine, floor: nat, s: State, step: Step, u: Unit)
    requires Cacheable(e, floor, u) && ObtainedStays(e, s, u)
    requires step.Evict? ==> Key(e, u) !in step.keys
    ensures ObtainedStays(e, Apply(e, floor, s, step), u)
  {
    if step.Turn? && step.tid in s.threads {
      TurnKeepsResident(e, floor, s, step.tid, u);
      OthersHave(e, s, Advance(e, floor, s, step.tid), step.tid, u);
    }
  }

  lemma OthersHave(e: Engine, s: State, t: State, tid: nat, u: Unit)
    requires ObtainedStays(e, s, u) && tid in t.threads && t.threads == s.threads[tid := t.threads[tid]]
    requires (Has(t.threads[tid], u) ==> Key(e, u) in t.cache) && s.cache.Keys <= t.cache.Keys
    ensures ObtainedStays(e, t, u)
  {
    forall i | i in t.threads && Has(t.threads[i], u) ensures Key(e, u) in t.cache {
      if i != tid { assert t.threads[i] == s.threads[i] && Key(e, u) in s.cache.Keys; }
    }
  }

  lemma {:induction false} ResidentAlways(e: Engine, floor: nat, steps: seq<Step>, u: Unit)
    requires Cacheable(e, floor, u) && NeverEvicts(steps, Key(e, u))
    ensures ObtainedStays(e, Run(e, floor, steps), u)
  {
    if steps != [] {
      var before := steps[..|steps| - 1];
      assert NeverEvicts(before, Key(e, u)) by { assert forall i :: 0 <= i < |before| ==> before[i] == steps[i]; }
      ResidentAlways(e, floor, before, u);
      StepKeepsResident(e, floor, Run(e, floor, before), steps[|steps| - 1], u);
    }
  }

  /**
   A unit worth caching and never evicted is compiled for no lookup after some execution has obtained
   it: every later lookup finds bytes that load as its module.
   */
  lemma LaterLookupsHit(e: Engine, floor: nat, steps: seq<Step>, done: nat, reader: nat, u: Unit)
    requires LawfulEngine(e) && Cacheable(e, floor, u) && NeverEvicts(steps, Key(e, u))
    requires var s := Run(e, floor, steps);
             && done in s.threads && s.threads[done].Obtained? && s.threads[done].u == u
             && reader in s.threads && s.threads[reader] == Looking(u)
    ensures var t := Apply(e, floor, Run(e, floor, steps), Turn(reader));
            && reader in t.threads && t.threads[reader].Found? && t.threads[reader].u == u
            && e.load(t.threads[reader].code) == e.compile(u.source)
  {
    var s := Run(e, floor, steps);
    ResidentAlways(e, floor, steps, u);
    InvAlways(e, floor, steps);
    assert PcOk(e, floor, s, s.threads[reader]);
    FoundIsOwn(e, floor, s, u);
  }

  // -- The cache object -------------------------------------------------------

  /** `BytecodeCache` and its use in `obtain_declared`, as one execution runs alone. */
  class Cache {
    const engine: Engine
    const floor: nat
    var entries: map<nat, bytes>
    var hits: nat
    var misses: nat
    var stored: nat
    ghost var inserted: set<Unit>

    ghost predicate Valid()
      reads this
    {
      LawfulEngine(engine) && ResidentOk(engine, floor, State(entries, hits, misses, stored, 0, map[], inserted))
    }

    constructor (engine: Engine, floor: nat)
      requires LawfulEngine(engine)
      ensures Valid() && this.engine == engine && this.floor == floor
      ensures entries == map[] && hits == misses == stored == 0
    {
      this.engine, this.floor := engine, floor;
      entries, hits, misses, stored, inserted := map[], 0, 0, 0, {};
    }

    method ObtainDeclared(u: Unit) returns (m: Option<Module>)
      requires Valid() && u.Valid()
      modifies this
      ensures Valid()
      ensures m == engine.compile(u.source)
      ensures Served(engine, floor, u, old(Tables(entries, hits, misses, stored)), Tables(entries, hits, misses, stored))
    {
      var key := Key(engine, u);
      ghost var s := State(entries, hits, misses, stored, 0, map[], inserted);
      if key in entries {
        hits := hits + 1;
        FoundIsOwn(engine, floor, s, u);
        return engine.load(entries[key]);
      }
      misses := misses + 1;
      m := engine.compile(u.source);
      if m.None? {
        return;
      }
      if |u.source| >= floor {
        var code := engine.write(m.value);
        if code.Some? {
          ghost var t := s.(threads := map[0 := Inserting(u, m.value, code.value)]);
          ResidentKept(engine, floor, t, 0);
          stored := stored + 1;
          entries, inserted := entries[key := code.value], inserted + {u};
        }
      }
    }
  }
}
