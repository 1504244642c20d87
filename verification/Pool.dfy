/**
 The runtime pool at atomic-step granularity (`crates/runlet-core/src/pool.rs`, `host.rs`):
 executions acquire and release runtimes while shutdowns drain the queue, in any interleaving.
 */
module Pool {
  import opened Wrappers
  import opened Counting

  const USIZE_MAX: nat := U64_MAX

  /** Where a thread stands in `LogicHost::run` or in `JsPool::shutdown`. */
  datatype Pc =
    | Ready | Looking | Acquiring | Popped(rt: nat) | Using(rt: nat)
    | Leaving(rt: nat) | Repooling(rt: nat) | Disposing(rt: nat) | Gone
    | Stopping | Draining | Stopped

  /** `created` numbers the next runtime, so every runtime ever made is told apart. */
  datatype State = State(
    size: nat, idle: seq<nat>, accepting: bool, inFlight: nat, created: nat, threads: map<nat, Pc>)

  /** `ok` is the outside answer at a step: the script key is found, a fresh runtime can be made. */
  datatype Step = Run(tid: nat) | Shutdown(tid: nat) | Turn(tid: nat, ok: bool)

  function Init(size: nat): State {
    State(size, seq(size, i => i), true, 0, size, map[])
  }

  /** `fetch_sub(1)` on a `usize`: it wraps at zero. */
  function FetchSub(x: nat): nat { if x == 0 then USIZE_MAX else x - 1 }

  function Put(s: State, tid: nat, pc: Pc): State { s.(threads := s.threads[tid := pc]) }

  /** One atomic action of a thread: one load, store, counter update, pop or push. */
  function Advance(s: State, tid: nat, ok: bool): State
    requires tid in s.threads
  {
    match s.threads[tid]
    case Ready => Put(s, tid, if s.accepting then Looking else Gone)
    case Looking => Put(s, tid, if ok then Acquiring else Gone)
    case Acquiring =>
      if s.idle != [] then Put(s, tid, Popped(s.idle[0])).(idle := s.idle[1..])
      else if ok then Put(s, tid, Popped(s.created)).(created := s.created + 1)
      else Put(s, tid, Gone)
    case Popped(rt) => Put(s, tid, Using(rt)).(inFlight := s.inFlight + 1)
    case Using(rt) => Put(s, tid, Leaving(rt)).(inFlight := FetchSub(s.inFlight))
    case Leaving(rt) => Put(s, tid, if s.accepting then Repooling(rt) else Disposing(rt))
    case Repooling(rt) => Put(s, tid, Gone).(idle := if |s.idle| < s.size then s.idle + [rt] else s.idle)
    case Disposing(_) => Put(s, tid, Gone)
    case Stopping => Put(s, tid, Draining).(accepting := false)
    case Draining => if s.idle == [] then Put(s, tid, Stopped) else s.(idle := s.idle[1..])
    case Gone | Stopped => s
  }

  function Apply(s: State, step: Step): State {
    match step
    case Run(tid) => if tid in s.threads then s else Put(s, tid, Ready)
    case Shutdown(tid) => if tid in s.threads then s else Put(s, tid, Stopping)
    case Turn(tid, ok) => if tid in s.threads then Advance(s, tid, ok) else s
  }

  /** The state after a sequence of steps from `s`. */
  function After(s: State, steps: seq<Step>): State
    decreases |steps|
  {
    if steps == [] then s else After(Apply(s, steps[0]), steps[1..])
  }

  // -- The counter, the bound and exclusive ownership -------------------------

  ghost predicate IsUsing(pc: Pc) { pc.Using? }

  /** A release that has read `accepting` as true and has not pushed yet. */
  ghost predicate IsRepooling(pc: Pc) { pc.Repooling? }

  ghost function Held(pc: Pc): Option<nat> {
    match pc
    case Popped(rt) => Some(rt)
    case Using(rt) => Some(rt)
    case Leaving(rt) => Some(rt)
    case Repooling(rt) => Some(rt)
    case Disposing(rt) => Some(rt)
    case _ => None
  }

  ghost predicate Distinct(q: seq<nat>) {
    forall i, j :: 0 <= i < j < |q| ==> q[i] != q[j]
  }

  /** Each runtime is in one place only: one queue slot or one thread's hands. */
  ghost predicate Exclusive(s: State) {
    && Distinct(s.idle)
    && (forall rt :: rt in s.idle ==> rt < s.created)
    && (forall t :: t in s.threads && Held(s.threads[t]).Some? ==>
          Held(s.threads[t]).value < s.created && Held(s.threads[t]).value !in s.idle)
    && (forall t, u :: t in s.threads && u in s.threads && t != u && Held(s.threads[t]).Some?
          ==> Held(s.threads[t]) != Held(s.threads[u]))
  }

  /** A shutdown past its store has switched `accepting` off for good. */
  ghost predicate StopSeen(s: State) {
    forall t :: t in s.threads && (s.threads[t].Draining? || s.threads[t].Stopped?) ==> !s.accepting
  }

  ghost predicate Inv(s: State) {
    s.inFlight == Tally(s.threads, IsUsing) && |s.idle| <= s.size && Exclusive(s) && StopSeen(s)
  }

  lemma GaugeKept(s: State, tid: nat, ok: bool)
    requires tid in s.threads && s.inFlight == Tally(s.threads, IsUsing)
    ensures var t := Advance(s, tid, ok); t.inFlight == Tally(t.threads, IsUsing)
    ensures s.threads[tid].Using? ==> 0 < s.inFlight
  {
    var t := Advance(s, tid, ok);
    TurnMovesOne(s, tid, ok);
    TallyUpdate(s.threads, tid, t.threads[tid], IsUsing);
    if s.threads[tid].Using? { TallyPositive(s.threads, tid, IsUsing); }
  }

  lemma TurnMovesOne(s: State, tid: nat, ok: bool)
    requires tid in s.threads
    ensures var t := Advance(s, tid, ok); tid in t.threads && t.threads == s.threads[tid := t.threads[tid]]
  {
  }

  /** Ownership survives when one thread changes its hold and the queue changes to match. */
  lemma OwnershipFollows(s: State, t: State, tid: nat, pc: Pc)
    requires tid in s.threads && Exclusive(s) && t.threads == s.threads[tid := pc]
    requires s.created <= t.created && Distinct(t.idle)
    requires forall rt :: rt in t.idle ==> rt in s.idle || (Held(s.threads[tid]) == Some(rt) && Held(pc).None?)
    requires Held(pc).Some? ==>
      || Held(pc) == Held(s.threads[tid])
      || (Held(pc).value in s.idle && Held(pc).value !in t.idle)
      || s.created <= Held(pc).value < t.created
    ensures Exclusive(t)
  {
    assert forall u :: u in s.threads && u != tid ==> t.threads[u] == s.threads[u];
  }

  /** How one turn changes the queue and the thread's hold. */
  lemma QueueMoves(s: State, tid: nat, ok: bool)
    requires tid in s.threads && Distinct(s.idle)
    requires Held(s.threads[tid]).Some? ==> Held(s.threads[tid]).value !in s.idle
    ensures var t, held := Advance(s, tid, ok), Held(s.threads[tid]);
            var held' := Held(t.threads[tid]);
            && t.threads == s.threads[tid := t.threads[tid]] && s.created <= t.created
            && Distinct(t.idle)
            && (forall rt :: rt in t.idle ==> rt in s.idle || (held == Some(rt) && held'.None?))
            && (held'.Some? ==> || held' == held
                                || (held'.value in s.idle && held'.value !in t.idle)
                                || s.created <= held'.value < t.created)
  {
    match s.threads[tid]
    case Acquiring => if s.idle != [] { DistinctPop(s.idle); }
    case Draining => if s.idle != [] { DistinctPop(s.idle); }
    case Repooling(rt) => DistinctPush(s.idle, rt);
    case _ =>
  }

  lemma DistinctPop(q: seq<nat>)
    requires Distinct(q) && q != []
    ensures Distinct(q[1..]) && q[0] !in q[1..] && forall x :: x in q[1..] ==> x in q
  {
  }

  lemma DistinctPush(q: seq<nat>, x: nat)
    requires Distinct(q) && x !in q
    ensures Distinct(q + [x])
  {
  }

  lemma OwnershipKept(s: State, tid: nat, ok: bool)
    requires tid in s.threads && Exclusive(s)
    ensures Exclusive(Advance(s, tid, ok))
  {
    QueueMoves(s, tid, ok);
    OwnershipFollows(s, Advance(s, tid, ok), tid, Advance(s, tid, ok).threads[tid]);
  }

  lemma StopSeenKept(s: State, tid: nat, ok: bool)
    requires tid in s.threads && StopSeen(s) && |s.idle| <= s.size
    ensures StopSeen(Advance(s, tid, ok)) && |Advance(s, tid, ok).idle| <= s.size
  {
    assert forall u :: u in s.threads && u != tid ==> Advance(s, tid, ok).threads[u] == s.threads[u];
  }

  lemma StartKeeps(s: State, tid: nat, pc: Pc)
    requires Inv(s) && tid !in s.threads && (pc == Ready || pc == Stopping)
    ensures Inv(Put(s, tid, pc))
  {
    TallyUpdate(s.threads, tid, pc, IsUsing);
  }

  lemma StepKeeps(s: State, step: Step)
    requires Inv(s)
    ensures Inv(Apply(s, step))
  {
    match step
    case Run(tid) => if tid !in s.threads { StartKeeps(s, tid, Ready); }
    case Shutdown(tid) => if tid !in s.threads { StartKeeps(s, tid, Stopping); }
    case Turn(tid, ok) =>
      if tid in s.threads {
        GaugeKept(s, tid, ok);
        OwnershipKept(s, tid, ok);
        StopSeenKept(s, tid, ok);
        assert Advance(s, tid, ok).size == s.size;
      }
  }

  lemma {:induction false} InvAfter(s: State, steps: seq<Step>)
    requires Inv(s)
    ensures Inv(After(s, steps))
    decreases |steps|
  {
    if steps != [] {
      StepKeeps(s, steps[0]);
      InvAfter(Apply(s, steps[0]), steps[1..]);
    }
  }

  /**
   In every interleaving: the gauge is the number of executions between the two counter updates
   (so its subtraction never wraps), the queue never outgrows the pool, and no runtime is ever
   in two hands or both idle and in use.
   */
  lemma PoolExact(size: nat, steps: seq<Step>)
    ensures Inv(After(Init(size), steps))
  {
    TallyZero(Init(size).threads, IsUsing);
    InvAfter(Init(size), steps);
  }

  // -- Draining ---------------------------------------------------------------

  /** What a drain can still find: idle runtimes plus releases that already read `accepting`. */
  ghost function Drainable(s: State): nat {
    |s.idle| + Tally(s.threads, IsRepooling)
  }

  /** A step that takes a runtime out of the queue on behalf of a shutdown. */
  ghost predicate DrainPop(s: State, step: Step) {
    step.Turn? && step.tid in s.threads && s.threads[step.tid].Draining? && s.idle != []
  }

  /** Once `accepting` is off it stays off, nothing new becomes drainable, and each pop uses one up. */
  lemma DrainStep(s: State, step: Step)
    requires !s.accepting
    ensures !Apply(s, step).accepting
    ensures Drainable(Apply(s, step)) + (if DrainPop(s, step) then 1 else 0) <= Drainable(s)
  {
    match step
    case Run(tid) => if tid !in s.threads { TallyUpdate(s.threads, tid, Ready, IsRepooling); }
    case Shutdown(tid) => if tid !in s.threads { TallyUpdate(s.threads, tid, Stopping, IsRepooling); }
    case Turn(tid, ok) =>
      if tid in s.threads {
        var t := Advance(s, tid, ok);
        assert t.threads == s.threads[tid := t.threads[tid]];
        TallyUpdate(s.threads, tid, t.threads[tid], IsRepooling);
      }
  }

  /** How many runtimes shutdowns pop in a sequence of steps. */
  ghost function DrainPops(s: State, steps: seq<Step>): nat
    decreases |steps|
  {
    if steps == [] then 0
    else (if DrainPop(s, steps[0]) then 1 else 0) + DrainPops(Apply(s, steps[0]), steps[1..])
  }

  /**
   The drain loop ends: from the moment `accepting` is off, all shutdowns together pop at most
   what was drainable then, in every continuation; what stays idle is bounded by the same figure.
   */
  lemma {:induction false} DrainTerminates(s: State, steps: seq<Step>)
    requires !s.accepting
    ensures !After(s, steps).accepting
    ensures DrainPops(s, steps) + Drainable(After(s, steps)) <= Drainable(s)
    decreases |steps|
  {
    if steps != [] {
      DrainStep(s, steps[0]);
      DrainTerminates(Apply(s, steps[0]), steps[1..]);
    }
  }

  /** After a drain has seen the queue empty, only releases that had already read `accepting` refill it. */
  lemma IdleAfterDrain(s: State, steps: seq<Step>)
    requires !s.accepting && s.idle == []
    ensures |After(s, steps).idle| <= Tally(s.threads, IsRepooling)
  {
    DrainTerminates(s, steps);
  }

  /**
   "The pool drains to empty" is not unconditional. It holds in every continuation exactly when,
   at the moment the drain ends, no release stands between its read of `accepting` and its push.
   */
  lemma DrainsToEmptyExactly(s: State)
    requires !s.accepting && s.idle == [] && 0 < s.size
    ensures (forall steps :: After(s, steps).idle == []) <==> (forall t :: t in s.threads ==> !s.threads[t].Repooling?)
  {
    if forall t :: t in s.threads ==> !s.threads[t].Repooling? {
      TallyZero(s.threads, IsRepooling);
      forall steps ensures After(s, steps).idle == [] { IdleAfterDrain(s, steps); }
    } else {
      var t :| t in s.threads && s.threads[t].Repooling?;
      var push := [Turn(t, true)];
      assert push[1..] == [];
      assert After(s, push) == Apply(s, Turn(t, true));
      assert After(s, push).idle == [s.threads[t].rt];
    }
  }

  ghost predicate Reaches(s: State, t: State) {
    exists steps :: After(s, steps) == t
  }

  lemma AfterAppend(s: State, steps: seq<Step>, step: Step)
    ensures After(s, steps + [step]) == Apply(After(s, steps), step)
    decreases |steps|
  {
    if steps == [] {
      assert ([] + [step])[1..] == [];
    } else {
      assert (steps + [step])[1..] == steps[1..] + [step];
      AfterAppend(Apply(s, steps[0]), steps[1..], step);
    }
  }

  lemma ReachesNext(s: State, t: State, step: Step, u: State)
    requires Reaches(s, t) && u == Apply(t, step)
    ensures Reaches(s, u)
  {
    var steps :| After(s, steps) == t;
    AfterAppend(s, steps, step);
  }

  lemma ExecutionReachesAcquiring()
    ensures Reaches(Init(1), State(1, [0], true, 0, 1, map[0 := Acquiring]))
  {
    var s := Init(1);
    assert s == State(1, [0], true, 0, 1, map[]);
    assert After(s, []) == s;
    ReachesNext(s, s, Run(0), State(1, [0], true, 0, 1, map[0 := Ready]));
    ReachesNext(s, State(1, [0], true, 0, 1, map[0 := Ready]), Turn(0, true),
                State(1, [0], true, 0, 1, map[0 := Looking]));
    ReachesNext(s, State(1, [0], true, 0, 1, map[0 := Looking]), Turn(0, true),
                State(1, [0], true, 0, 1, map[0 := Acquiring]));
  }

  lemma ExecutionReachesUsing()
    ensures Reaches(Init(1), State(1, [], true, 1, 1, map[0 := Using(0)]))
  {
    var s := Init(1);
    ExecutionReachesAcquiring();
    ReachesNext(s, State(1, [0], true, 0, 1, map[0 := Acquiring]), Turn(0, true),
                State(1, [], true, 0, 1, map[0 := Popped(0)]));
    ReachesNext(s, State(1, [], true, 0, 1, map[0 := Popped(0)]), Turn(0, true),
                State(1, [], true, 1, 1, map[0 := Using(0)]));
  }

  /** A lone execution on a pool of one, up to the point where it is about to push. */
  lemma ExecutionReachesRepooling()
    ensures Reaches(Init(1), State(1, [], true, 0, 1, map[0 := Repooling(0)]))
  {
    var s := Init(1);
    ExecutionReachesUsing();
    ReachesNext(s, State(1, [], true, 1, 1, map[0 := Using(0)]), Turn(0, true),
                State(1, [], true, 0, 1, map[0 := Leaving(0)]));
    ReachesNext(s, State(1, [], true, 0, 1, map[0 := Leaving(0)]), Turn(0, true),
                State(1, [], true, 0, 1, map[0 := Repooling(0)]));
  }

  lemma ShutdownStartsBesideRelease()
    ensures Reaches(Init(1), State(1, [], false, 0, 1, map[0 := Repooling(0), 1 := Draining]))
  {
    var s := Init(1);
    ExecutionReachesRepooling();
    ReachesNext(s, State(1, [], true, 0, 1, map[0 := Repooling(0)]), Shutdown(1),
                State(1, [], true, 0, 1, map[0 := Repooling(0), 1 := Stopping]));
    ReachesNext(s, State(1, [], true, 0, 1, map[0 := Repooling(0), 1 := Stopping]), Turn(1, true),
                State(1, [], false, 0, 1, map[0 := Repooling(0), 1 := Draining]));
  }

  /** A reachable race: the release reads `accepting`, the shutdown drains, the release pushes. */
  lemma StragglerSurvivesShutdown()
    ensures Reaches(Init(1), State(1, [0], false, 0, 1, map[0 := Gone, 1 := Stopped]))
  {
    var s := Init(1);
    ShutdownStartsBesideRelease();
    ReachesNext(s, State(1, [], false, 0, 1, map[0 := Repooling(0), 1 := Draining]), Turn(1, true),
                State(1, [], false, 0, 1, map[0 := Repooling(0), 1 := Stopped]));
    ReachesNext(s, State(1, [], false, 0, 1, map[0 := Repooling(0), 1 := Stopped]), Turn(0, true),
                State(1, [0], false, 0, 1, map[0 := Gone, 1 := Stopped]));
  }

  // -- One execution or one shutdown left to itself ---------------------------

  /** What an execution leaves behind: its runtime goes back to the end of the queue, if it got one. */
  ghost predicate LeavesBehind(s: State, t: State, found: bool, ok: bool) {
    if !s.accepting || !found || (s.idle == [] && !ok) then t == s
    else if s.idle != [] then t == s.(idle := s.idle[1..] + [s.idle[0]])
    else t == s.(idle := if s.size > 0 then [s.created] else [], created := s.created + 1)
  }

  /** An execution that reads `accepting`, looks its script up, acquires, runs and releases. */
  function Alone(tid: nat, found: bool, ok: bool): seq<Step> {
    [Run(tid), Turn(tid, true), Turn(tid, found), Turn(tid, ok)] + seq(4, i => Turn(tid, true))
  }

  lemma {:induction false} TurnsGone(s: State, tid: nat, steps: seq<Step>)
    requires tid in s.threads && s.threads[tid].Gone?
    requires forall i :: 0 <= i < |steps| ==> steps[i].Turn? && steps[i].tid == tid
    ensures After(s, steps) == s
    decreases |steps|
  {
    if steps != [] {
      assert Apply(s, steps[0]) == s by { assert s.threads[tid := Gone] == s.threads; }
      TurnsGone(s, tid, steps[1..]);
    }
  }

  lemma FourTurns(s: State, tid: nat, rt: nat)
    requires tid in s.threads && s.threads[tid] == Popped(rt)
    ensures After(s, seq(4, i => Turn(tid, true))) == Put(s, tid, Gone).(
              idle := if s.accepting && |s.idle| < s.size then s.idle + [rt] else s.idle)
  {
    var turn := Turn(tid, true);
    assert seq(4, i => turn) == [turn, turn, turn, turn] + [];
    AfterFour(s, turn, turn, turn, turn, []);
    RunAndRelease(s, tid, rt);
  }

  lemma RunAndRelease(s: State, tid: nat, rt: nat)
    requires tid in s.threads && s.threads[tid] == Popped(rt)
    ensures Fourth(s, Turn(tid, true), Turn(tid, true), Turn(tid, true), Turn(tid, true)) == Put(s, tid, Gone).(
              idle := if s.accepting && |s.idle| < s.size then s.idle + [rt] else s.idle)
  {
    var s2 := Apply(Apply(s, Turn(tid, true)), Turn(tid, true));
    PutTwice(s, tid, Using(rt), Leaving(rt));
    assert s2 == Put(s, tid, Leaving(rt));
    PutTwice(s, tid, Leaving(rt), Repooling(rt));
    PutTwice(s, tid, Leaving(rt), Disposing(rt));
    PutTwice(s, tid, Repooling(rt), Gone);
    PutTwice(s, tid, Disposing(rt), Gone);
  }

  lemma Unroll(s: State, step: Step, n: nat)
    requires 0 < n
    ensures After(s, seq(n, i => step)) == After(Apply(s, step), seq(n - 1, i => step))
  {
    assert seq(n, i => step)[1..] == seq(n - 1, i => step);
  }

  /** Left to itself an execution ends, and leaves the pool as `LeavesBehind` says. */
  lemma AloneExecutes(s: State, tid: nat, found: bool, ok: bool)
    requires tid !in s.threads && |s.idle| <= s.size
    ensures var t := After(s, Alone(tid, found, ok));
            && t.threads == s.threads[tid := Gone]
            && LeavesBehind(s, t.(threads := s.threads), found, ok)
  {
    var s4 := Fourth(s, Run(tid), Turn(tid, true), Turn(tid, found), Turn(tid, ok));
    var rest := seq(4, i => Turn(tid, true));
    AfterFour(s, Run(tid), Turn(tid, true), Turn(tid, found), Turn(tid, ok), rest);
    AloneAcquires(s, tid, found, ok);
    AloneEnds(s, s4, rest, tid, found, ok);
  }

  lemma AloneEnds(s: State, s4: State, rest: seq<Step>, tid: nat, found: bool, ok: bool)
    requires tid !in s.threads && |s.idle| <= s.size && rest == seq(4, i => Turn(tid, true))
    requires s4 == Acquired(s, tid, found, ok)
    ensures After(s4, rest).threads == s.threads[tid := Gone]
    ensures LeavesBehind(s, After(s4, rest).(threads := s.threads), found, ok)
  {
    if s4.threads[tid].Popped? {
      FourTurns(s4, tid, s4.threads[tid].rt);
      PutTwice(s, tid, s4.threads[tid], Gone);
    } else {
      TurnsGone(s4, tid, rest);
    }
  }

  /** Refused, or a runtime in hand. */
  ghost function Acquired(s: State, tid: nat, found: bool, ok: bool): State {
    if !s.accepting || !found || (s.idle == [] && !ok) then Put(s, tid, Gone)
    else if s.idle != [] then Put(s, tid, Popped(s.idle[0])).(idle := s.idle[1..])
    else Put(s, tid, Popped(s.created)).(created := s.created + 1)
  }

  ghost function Fourth(s: State, a: Step, b: Step, c: Step, d: Step): State {
    Apply(Apply(Apply(Apply(s, a), b), c), d)
  }

  lemma AfterFour(s: State, a: Step, b: Step, c: Step, d: Step, rest: seq<Step>)
    ensures After(s, [a, b, c, d] + rest) == After(Fourth(s, a, b, c, d), rest)
  {
    assert ([a, b, c, d] + rest)[1..] == [b, c, d] + rest && ([b, c, d] + rest)[1..] == [c, d] + rest;
    assert ([c, d] + rest)[1..] == [d] + rest && ([d] + rest)[1..] == rest;
    var s1 := Apply(s, a);
    var s2 := Apply(s1, b);
    assert After(s, [a, b, c, d] + rest) == After(s2, [c, d] + rest);
    assert After(s2, [c, d] + rest) == After(Apply(Apply(s2, c), d), rest);
  }

  lemma AloneAcquires(s: State, tid: nat, found: bool, ok: bool)
    requires tid !in s.threads
    ensures Fourth(s, Run(tid), Turn(tid, true), Turn(tid, found), Turn(tid, ok))
         == Acquired(s, tid, found, ok)
  {
    PutTwice(s, tid, Ready, Gone);
    PutTwice(s, tid, Ready, Looking);
    PutTwice(s, tid, Looking, Gone);
    PutTwice(s, tid, Looking, Acquiring);
    PutTwice(s, tid, Acquiring, Gone);
    PutTwice(s, tid, Acquiring, if s.idle != [] then Popped(s.idle[0]) else Popped(s.created));
  }

  lemma PutTwice(s: State, tid: nat, before: Pc, after: Pc)
    ensures Put(Put(s, tid, before), tid, after) == Put(s, tid, after)
  {
    assert s.threads[tid := before][tid := after] == s.threads[tid := after];
  }

  /** A shutdown left to itself empties the queue and ends: one turn a runtime and one more. */
  lemma {:induction false} AloneDrains(s: State, tid: nat)
    requires tid in s.threads && s.threads[tid].Draining?
    ensures After(s, seq(|s.idle| + 1, i => Turn(tid, true))) == Put(s, tid, Stopped).(idle := [])
    decreases |s.idle|
  {
    Unroll(s, Turn(tid, true), |s.idle| + 1);
    if s.idle != [] { AloneDrains(Apply(s, Turn(tid, true)), tid); }
  }

  /** The thread, if there is one, is not between its look-up and the end of its release. */
  ghost predicate Outside(s: State, tid: nat) {
    tid in s.threads ==> s.threads[tid].Ready? || s.threads[tid].Gone? || s.threads[tid].Stopping?
                         || s.threads[tid].Draining? || s.threads[tid].Stopped?
  }

  /** An execution that starts once `accepting` is off never holds a runtime, whatever the others do. */
  lemma {:induction false} LateExecutionsRefused(s: State, steps: seq<Step>, tid: nat)
    requires !s.accepting && Outside(s, tid)
    ensures !After(s, steps).accepting && Outside(After(s, steps), tid)
    decreases |steps|
  {
    if steps != [] { LateExecutionsRefused(Apply(s, steps[0]), steps[1..], tid); }
  }

  // -- The pool object, as one thread drives it -------------------------------

  datatype RunResult = ShuttingDown | NotFound | NoRuntime | Ran(rt: nat)

  /** `JsPool` with `LogicHost::run` on top; between calls it is the machine with no thread inside. */
  class JsPool {
    const size: nat
    var idle: seq<nat>
    var accepting: bool
    var inFlight: nat
    var created: nat

    constructor (size: nat)
      ensures this.size == size && View(map[]) == Init(size)
    {
      this.size := size;
      idle, accepting, inFlight, created := seq(size, i => i), true, 0, size;
    }

    ghost function View(threads: map<nat, Pc>): State
      reads this
    {
      State(size, idle, accepting, inFlight, created, threads)
    }

    /** Pops a warm runtime or makes one; only then is it counted as in flight. */
    method Acquire(ok: bool) returns (rt: Option<nat>)
      modifies `idle, `created, `inFlight
      ensures rt.None? <==> old(idle) == [] && !ok
      ensures rt.None? ==> View(map[]) == old(View(map[]))
      ensures rt.Some? && old(idle) != [] ==> rt.value == old(idle)[0] && idle == old(idle)[1..] && created == old(created)
      ensures rt.Some? && old(idle) == [] ==> rt.value == old(created) && idle == [] && created == old(created) + 1
      ensures rt.Some? ==> inFlight == old(inFlight) + 1
    {
      if idle != [] {
        rt := Some(idle[0]);
        idle := idle[1..];
      } else if ok {
        rt := Some(created);
        created := created + 1;
      } else {
        return None;
      }
      inFlight := inFlight + 1;
    }

    /** Counts the runtime out, then re-pools it unless the pool is full or shutting down. */
    method Release(rt: nat)
      requires 0 < inFlight
      modifies `idle, `inFlight
      ensures inFlight == old(inFlight) - 1
      ensures idle == if accepting && |old(idle)| < size then old(idle) + [rt] else old(idle)
    {
      inFlight := FetchSub(inFlight);
      if accepting {
        if |idle| < size {
          idle := idle + [rt];
        }
      }
    }

    /** Stops accepting and disposes what is idle. */
    method Close()
      modifies `idle, `accepting
      ensures !accepting && idle == []
    {
      accepting := false;
      while idle != []
        invariant !accepting
        decreases |idle|
      {
        idle := idle[1..];
      }
    }

    /** One execution: refused after shutdown, and every acquired runtime is released. */
    method Execute(found: bool, ok: bool) returns (r: RunResult)
      requires |idle| <= size
      modifies `idle, `created, `inFlight
      ensures inFlight == old(inFlight) && |idle| <= size
      ensures r.ShuttingDown? <==> !accepting
      ensures r.NotFound? <==> accepting && !found
      ensures r.NoRuntime? <==> accepting && found && old(idle) == [] && !ok
      ensures r.Ran? ==> r.rt == if old(idle) != [] then old(idle)[0] else old(created)
      ensures LeavesBehind(old(View(map[])), View(map[]), found, ok)
    {
      if !accepting {
        return ShuttingDown;
      }
      if !found {
        return NotFound;
      }
      var rt := Acquire(ok);
      if rt.None? {
        return NoRuntime;
      }
      Release(rt.value);
      return Ran(rt.value);
    }
  }
}
