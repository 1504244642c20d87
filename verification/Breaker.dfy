/** The per-target circuit breaker (`crates/fabric-wire/src/breaker.rs`). */
module Breaker {
  import opened Wrappers

  /** `threshold` consecutive connect failures trip the breaker; `cooldown` is in clock ticks. */
  datatype Config = Config(threshold: nat, cooldown: nat) {
    predicate Valid() { 0 < threshold <= U32_MAX }
  }

  datatype TargetState = TargetState(failures: nat, openUntil: Option<nat>)

  datatype State = State(targets: map<string, TargetState>, trips: nat)

  const CLOSED := TargetState(0, None)

  function Lookup(s: State, target: string): TargetState {
    if target in s.targets then s.targets[target] else CLOSED
  }

  /** The answer of `allow` for a clock value sampled before the lock was taken. */
  predicate Grants(st: TargetState, now: nat) {
    st.openUntil.None? || now >= st.openUntil.value
  }

  /** A granted call on an open target re-arms its window; nothing else changes. */
  function AfterAllow(cfg: Config, s: State, target: string, now: nat): State {
    if target in s.targets && s.targets[target].openUntil.Some? && Grants(s.targets[target], now)
    then s.(targets := s.targets[target := s.targets[target].(openUntil := Some(now + cfg.cooldown))])
    else s
  }

  function AfterRecord(cfg: Config, s: State, target: string, success: bool, now: nat): State {
    var st := Lookup(s, target);
    if success then s.(targets := s.targets[target := CLOSED])
    else
      var failures := if st.failures >= U32_MAX then U32_MAX else st.failures + 1;
      if failures >= cfg.threshold then
        State(s.targets[target := TargetState(failures, Some(now + cfg.cooldown))],
              if st.openUntil.None? then Wrap64(s.trips + 1) else s.trips)
      else s.(targets := s.targets[target := st.(failures := failures)])
  }

  /** The shared breaker; each method body is one critical section. */
  class CircuitBreaker {
    const cfg: Config
    var targets: map<string, TargetState>
    var trips: nat

    constructor (cfg: Config)
      requires cfg.Valid()
      ensures this.cfg == cfg && View() == State(map[], 0)
    {
      this.cfg := cfg;
      targets, trips := map[], 0;
    }

    ghost function View(): State
      reads this
    {
      State(targets, trips)
    }

    method Allow(target: string, now: nat) returns (granted: bool)
      modifies this
      ensures granted == Grants(Lookup(old(View()), target), now)
      ensures View() == AfterAllow(cfg, old(View()), target, now)
    {
      if target !in targets {
        return true;
      }
      var st := targets[target];
      match st.openUntil
      case Some(until) =>
        if now < until {
          return false;
        }
        targets := targets[target := st.(openUntil := Some(now + cfg.cooldown))];
        return true;
      case None =>
        return true;
    }

    method Record(target: string, success: bool, now: nat)
      modifies this
      ensures View() == AfterRecord(cfg, old(View()), target, success, now)
    {
      if target !in targets {
        targets := targets[target := TargetState(0, None)];
      }
      var st := targets[target];
      if success {
        st := TargetState(0, None);
      } else {
        st := st.(failures := if st.failures >= U32_MAX then U32_MAX else st.failures + 1);
        if st.failures >= cfg.threshold {
          if st.openUntil.None? {
            trips := Wrap64(trips + 1);
          }
          st := st.(openUntil := Some(now + cfg.cooldown));
        }
      }
      targets := targets[target := st];
    }
  }

  /** `CircuitBreaker::new`: disabled (`None`) at threshold zero. */
  method NewBreaker(threshold: nat, cooldown: nat) returns (breaker: Option<CircuitBreaker>)
    requires threshold <= U32_MAX
    ensures breaker.Some? <==> threshold != 0
    ensures breaker.Some? ==> fresh(breaker.value) && breaker.value.cfg == Config(threshold, cooldown)
    ensures breaker.Some? ==> breaker.value.View() == State(map[], 0)
  {
    if threshold == 0 {
      return None;
    }
    var built := new CircuitBreaker(Config(threshold, cooldown));
    return Some(built);
  }

  // -- Histories --------------------------------------------------------------

  /** The calls in the order they took the lock, each with the clock value it used. */
  datatype Call = Allow(target: string, now: nat) | Record(target: string, success: bool, now: nat)

  /** A call and, for `allow`, what it answered. */
  datatype Event = Asked(target: string, now: nat, granted: bool) | Told(target: string, success: bool, now: nat)

  datatype Trace = Trace(state: State, history: seq<Event>)

  ghost function Run(cfg: Config, calls: seq<Call>): Trace {
    if calls == [] then Trace(State(map[], 0), [])
    else
      var t := Run(cfg, calls[..|calls| - 1]);
      match calls[|calls| - 1]
      case Allow(target, now) =>
        Trace(AfterAllow(cfg, t.state, target, now),
              t.history + [Asked(target, now, Grants(Lookup(t.state, target), now))])
      case Record(target, success, now) =>
        Trace(AfterRecord(cfg, t.state, target, success, now), t.history + [Told(target, success, now)])
  }

  /**
   A monotone clock: `record` reads it under the lock, so no earlier call can carry a later value.
   Values of `allow` are sampled before the lock and may be stale in any order among themselves.
   */
  ghost predicate Timely(calls: seq<Call>) {
    forall i, j :: 0 <= i < j < |calls| && calls[j].Record? ==> calls[i].now <= calls[j].now
  }

  // -- The specification, from the history alone ------------------------------

  /** The length of the target's current run of failures. */
  ghost function FailureRun(h: seq<Event>, target: string): nat {
    if h == [] then 0
    else
      var before, last := FailureRun(h[..|h| - 1], target), h[|h| - 1];
      if last.Told? && last.target == target then (if last.success then 0 else before + 1) else before
  }

  ghost predicate IsOpen(cfg: Config, h: seq<Event>, target: string) {
    FailureRun(h, target) >= cfg.threshold
  }

  /** The times at which the open window was armed since the last success: trips and granted probes. */
  ghost function Arms(cfg: Config, h: seq<Event>, target: string): seq<nat> {
    if h == [] then []
    else
      var before, last := Arms(cfg, h[..|h| - 1], target), h[|h| - 1];
      if last.target != target then before
      else match last
        case Told(_, success, now) =>
          if success then [] else if IsOpen(cfg, h, target) then before + [now] else before
        case Asked(_, now, granted) =>
          if granted && IsOpen(cfg, h[..|h| - 1], target) then before + [now] else before
  }

  /** A call is allowed iff the target is closed or every arming lies a whole cool-down back. */
  ghost predicate MayCall(cfg: Config, h: seq<Event>, target: string, now: nat) {
    IsOpen(cfg, h, target) ==> forall i :: 0 <= i < |Arms(cfg, h, target)| ==> now >= Arms(cfg, h, target)[i] + cfg.cooldown
  }

  /** The stored record of a target is exactly what the history says. */
  ghost predicate Reflects(cfg: Config, st: TargetState, h: seq<Event>, target: string) {
    var run, arms := FailureRun(h, target), Arms(cfg, h, target);
    && st.failures == (if run > U32_MAX then U32_MAX else run)
    && (st.openUntil.Some? <==> IsOpen(cfg, h, target))
    && (IsOpen(cfg, h, target) <==> arms != [])
    && (arms != [] ==> st.openUntil == Some(arms[|arms| - 1] + cfg.cooldown))
    && (forall i :: 0 <= i < |arms| ==> arms[i] <= arms[|arms| - 1])
  }

  ghost predicate Within(arms: seq<nat>, now: nat) {
    forall i :: 0 <= i < |arms| ==> arms[i] <= now
  }

  lemma ReflectsAllow(cfg: Config, s: State, h: seq<Event>, asked: string, now: nat, target: string)
    requires cfg.Valid() && Reflects(cfg, Lookup(s, target), h, target)
    ensures Reflects(cfg, Lookup(AfterAllow(cfg, s, asked, now), target),
                     h + [Asked(asked, now, Grants(Lookup(s, asked), now))], target)
  {
    var h' := h + [Asked(asked, now, Grants(Lookup(s, asked), now))];
    assert h'[..|h|] == h;
  }

  lemma ReflectsRecord(cfg: Config, s: State, h: seq<Event>, told: string, success: bool, now: nat, target: string)
    requires cfg.Valid() && Reflects(cfg, Lookup(s, target), h, target)
    requires Within(Arms(cfg, h, target), now)
    ensures Reflects(cfg, Lookup(AfterRecord(cfg, s, told, success, now), target),
                     h + [Told(told, success, now)], target)
  {
    var h' := h + [Told(told, success, now)];
    assert h'[..|h|] == h;
  }

  lemma {:induction false} HistoryShape(cfg: Config, calls: seq<Call>)
    ensures var h := Run(cfg, calls).history;
            && |h| == |calls|
            && forall i :: 0 <= i < |calls| ==>
                 h[i].target == calls[i].target && h[i].now == calls[i].now && (h[i].Told? <==> calls[i].Record?)
  {
    if calls != [] { HistoryShape(cfg, calls[..|calls| - 1]); }
  }

  /** Every arming carries the clock value of some call of the history. */
  lemma {:induction false} ArmsAreCalls(cfg: Config, h: seq<Event>, target: string, now: nat)
    requires forall i :: 0 <= i < |h| ==> h[i].now <= now
    ensures Within(Arms(cfg, h, target), now)
  {
    if h != [] {
      ArmsAreCalls(cfg, h[..|h| - 1], target, now);
      assert h[|h| - 1].now <= now;
    }
  }

  /** After any history the state of every target is the one the history determines. */
  lemma {:induction false} StateReflectsHistory(cfg: Config, calls: seq<Call>, target: string)
    requires cfg.Valid() && Timely(calls)
    ensures Reflects(cfg, Lookup(Run(cfg, calls).state, target), Run(cfg, calls).history, target)
  {
    if calls != [] {
      var before, last := calls[..|calls| - 1], calls[|calls| - 1];
      var t := Run(cfg, before);
      StateReflectsHistory(cfg, before, target);
      match last
      case Allow(asked, now) => ReflectsAllow(cfg, t.state, t.history, asked, now, target);
      case Record(told, success, now) =>
        HistoryShape(cfg, before);
        ArmsAreCalls(cfg, t.history, target, now);
        ReflectsRecord(cfg, t.state, t.history, told, success, now, target);
    }
  }

  /** Every answer ever given is the one the specification computes from the history before it. */
  lemma {:induction false} AnswersFollowHistory(cfg: Config, calls: seq<Call>, k: nat)
    requires cfg.Valid() && Timely(calls) && k < |calls| && calls[k].Allow?
    ensures |Run(cfg, calls).history| == |calls| && Run(cfg, calls).history[k].Asked?
    ensures var h := Run(cfg, calls).history;
            h[k].granted <==> MayCall(cfg, h[..k], calls[k].target, calls[k].now)
    decreases |calls|
  {
    var before, last := calls[..|calls| - 1], calls[|calls| - 1];
    var t := Run(cfg, before);
    HistoryShape(cfg, calls);
    HistoryShape(cfg, before);
    var h := Run(cfg, calls).history;
    assert h[..|before|] == t.history;
    if k < |before| {
      AnswersFollowHistory(cfg, before, k);
      assert h[..k] == t.history[..k];
    } else {
      StateReflectsHistory(cfg, before, last.target);
      assert h[..k] == t.history;
    }
  }

  // -- Probe spacing ----------------------------------------------------------

  /** `h[k]` is a half-open probe: a granted call on an open target. */
  ghost predicate IsProbe(cfg: Config, h: seq<Event>, k: int, target: string) {
    0 <= k < |h| && h[k].Asked? && h[k].target == target && h[k].granted && IsOpen(cfg, h[..k], target)
  }

  /** No success of the target is recorded in `h[from..to]`. */
  ghost predicate NoSuccess(h: seq<Event>, from: int, to: int, target: string) {
    forall i :: 0 <= from <= i < to <= |h| ==> !(h[i].Told? && h[i].target == target && h[i].success)
  }

  lemma {:induction false} ArmPersists(cfg: Config, h: seq<Event>, i: nat, j: nat, target: string)
    requires IsProbe(cfg, h, i, target) && i < j <= |h| && NoSuccess(h, i, j, target)
    ensures IsOpen(cfg, h[..j], target)
    ensures h[i].now in Arms(cfg, h[..j], target)
    decreases j
  {
    assert h[..j][..j - 1] == h[..j - 1] && h[..j][j - 1] == h[j - 1];
    if i + 1 < j {
      ArmPersists(cfg, h, i, j - 1, target);
    } else {
      var arms := Arms(cfg, h[..j], target);
      assert arms[|arms| - 1] == h[i].now;
    }
  }

  /**
   However stale the sampled clocks are, two probes of a target with no success between them
   carry timestamps at least one cool-down apart.
   */
  lemma ProbesSpaced(cfg: Config, calls: seq<Call>, i: nat, j: nat, target: string)
    requires cfg.Valid() && Timely(calls) && i < j
    requires IsProbe(cfg, Run(cfg, calls).history, i, target) && IsProbe(cfg, Run(cfg, calls).history, j, target)
    requires NoSuccess(Run(cfg, calls).history, i, j, target)
    ensures Run(cfg, calls).history[j].now >= Run(cfg, calls).history[i].now + cfg.cooldown
  {
    var h := Run(cfg, calls).history;
    HistoryShape(cfg, calls);
    ArmPersists(cfg, h, i, j, target);
    AnswersFollowHistory(cfg, calls, j);
  }

  ghost predicate NotEarlier(before: TargetState, after: TargetState) {
    before.openUntil.Some? && after.openUntil.Some? ==> before.openUntil.value <= after.openUntil.value
  }

  lemma RecordMovesForward(cfg: Config, s: State, h: seq<Event>, told: string, success: bool, now: nat, target: string)
    requires Reflects(cfg, Lookup(s, target), h, target) && Within(Arms(cfg, h, target), now)
    ensures NotEarlier(Lookup(s, target), Lookup(AfterRecord(cfg, s, told, success, now), target))
  {
  }

  /** While a target stays open its window never moves backwards. */
  lemma WindowNeverMovesBack(cfg: Config, calls: seq<Call>, target: string)
    requires cfg.Valid() && Timely(calls) && calls != []
    ensures NotEarlier(Lookup(Run(cfg, calls[..|calls| - 1]).state, target), Lookup(Run(cfg, calls).state, target))
  {
    var prefix, last := calls[..|calls| - 1], calls[|calls| - 1];
    var t := Run(cfg, prefix);
    match last
    case Allow(_, _) =>
    case Record(told, success, now) =>
      StateReflectsHistory(cfg, prefix, target);
      HistoryShape(cfg, prefix);
      ArmsAreCalls(cfg, t.history, target, now);
      RecordMovesForward(cfg, t.state, t.history, told, success, now, target);
  }

  /** Nothing about the target is recorded or granted strictly between `i` and `j`. */
  ghost predicate Unresolved(h: seq<Event>, i: int, j: int, target: string) {
    forall k :: 0 <= i < k < j <= |h| && h[k].target == target ==> h[k].Asked? && !h[k].granted
  }

  lemma {:induction false} ArmsFrozen(cfg: Config, h: seq<Event>, i: nat, j: nat, target: string)
    requires IsProbe(cfg, h, i, target) && i < j <= |h| && Unresolved(h, i, j, target)
    ensures Arms(cfg, h[..j], target) == Arms(cfg, h[..i], target) + [h[i].now]
    ensures FailureRun(h[..j], target) == FailureRun(h[..i], target)
    decreases j
  {
    assert h[..j][..j - 1] == h[..j - 1] && h[..j][j - 1] == h[j - 1];
    if i + 1 < j {
      ArmsFrozen(cfg, h, i, j - 1, target);
    }
  }

  /**
   "Others keep fast-failing until the probe resolves" is exact only inside one cool-down: while
   a probe is unresolved, the next call is granted iff its clock has reached probe plus cool-down.
   */
  lemma SecondProbeExactly(cfg: Config, calls: seq<Call>, i: nat, j: nat, target: string)
    requires cfg.Valid() && Timely(calls) && i < j < |calls|
    requires calls[j] == Allow(target, calls[j].now)
    requires |Run(cfg, calls).history| == |calls| && IsProbe(cfg, Run(cfg, calls).history, i, target)
    requires Unresolved(Run(cfg, calls).history, i, j, target)
    ensures Run(cfg, calls).history[j].Asked?
    ensures Run(cfg, calls).history[j].granted <==> calls[j].now >= calls[i].now + cfg.cooldown
  {
    var h := Run(cfg, calls).history;
    HistoryShape(cfg, calls);
    AnswersFollowHistory(cfg, calls, j);
    AnswersFollowHistory(cfg, calls, i);
    ArmsFrozen(cfg, h, i, j, target);
    var earlier, arms := Arms(cfg, h[..i], target), Arms(cfg, h[..j], target);
    assert arms[|arms| - 1] == h[i].now;
    assert forall k :: 0 <= k < |earlier| ==> arms[k] == earlier[k];
  }

  /** Two probes can be out at once: the first has not resolved when the second is granted. */
  lemma TwoProbesAtOnce()
    ensures var cfg := Config(1, 5);
            var h := Run(cfg, [Record("db", false, 0), Allow("db", 5), Allow("db", 10)]).history;
            IsProbe(cfg, h, 1, "db") && IsProbe(cfg, h, 2, "db") && Unresolved(h, 1, 2, "db")
  {
    var cfg := Config(1, 5);
    var c3 := [Record("db", false, 0), Allow("db", 5), Allow("db", 10)];
    var c2, c1 := c3[..2], c3[..1];
    assert c2[..1] == c1 && c1[..0] == [];
    var t1, t2, t3 := Run(cfg, c1), Run(cfg, c2), Run(cfg, c3);
    assert Run(cfg, c1[..0]) == Trace(State(map[], 0), []);
    assert c1[0] == Record("db", false, 0);
    assert t1.state == AfterRecord(cfg, State(map[], 0), "db", false, 0);
    assert t1 == Trace(State(map["db" := TargetState(1, Some(5))], 1), [Told("db", false, 0)]);
    assert t2 == Trace(State(map["db" := TargetState(1, Some(10))], 1), t1.history + [Asked("db", 5, true)]);
    assert t3.history == t2.history + [Asked("db", 10, true)];
    var h := t3.history;
    assert h[..1] == t1.history && h[..2] == t2.history;
    assert h[..1][..0] == [] && h[..2][..1] == h[..1];
    assert FailureRun(h[..1], "db") == 1;
    assert FailureRun(h[..2], "db") == 1;
  }

  // -- Trips ------------------------------------------------------------------

  /** The lengths of the target's maximal failure runs, the current one last. */
  ghost function FailureRuns(h: seq<Event>, target: string): (runs: seq<nat>)
    ensures runs != [] && runs[|runs| - 1] == FailureRun(h, target)
  {
    if h == [] then [0]
    else
      var before, last := FailureRuns(h[..|h| - 1], target), h[|h| - 1];
      if last.Told? && last.target == target then
        (if last.success then before + [0] else before[|before| - 1 := before[|before| - 1] + 1])
      else before
  }

  ghost function Reaching(runs: seq<nat>, threshold: nat): nat {
    if runs == [] then 0
    else Reaching(runs[..|runs| - 1], threshold) + if runs[|runs| - 1] >= threshold then 1 else 0
  }

  ghost function TripsOf(cfg: Config, h: seq<Event>, target: string): nat {
    Reaching(FailureRuns(h, target), cfg.threshold)
  }

  /** Tripped runs summed over a set of targets. */
  ghost function TripsOver(cfg: Config, h: seq<Event>, targets: set<string>): nat {
    if targets == {} then 0
    else var t :| t in targets; TripsOf(cfg, h, t) + TripsOver(cfg, h, targets - {t})
  }

  ghost function TargetsOf(h: seq<Event>): set<string> {
    set i | 0 <= i < |h| :: h[i].target
  }

  lemma {:induction false} TripsOverSplit(cfg: Config, h: seq<Event>, targets: set<string>, t: string)
    requires t in targets
    ensures TripsOver(cfg, h, targets) == TripsOf(cfg, h, t) + TripsOver(cfg, h, targets - {t})
    decreases targets
  {
    var u :| u in targets && TripsOver(cfg, h, targets) == TripsOf(cfg, h, u) + TripsOver(cfg, h, targets - {u});
    if u != t {
      TripsOverSplit(cfg, h, targets - {u}, t);
      TripsOverSplit(cfg, h, targets - {t}, u);
      assert targets - {u} - {t} == targets - {t} - {u};
    }
  }

  lemma {:induction false} TripsOverSame(cfg: Config, h: seq<Event>, h': seq<Event>, targets: set<string>)
    requires forall t :: t in targets ==> TripsOf(cfg, h', t) == TripsOf(cfg, h, t)
    ensures TripsOver(cfg, h', targets) == TripsOver(cfg, h, targets)
    decreases targets
  {
    if targets != {} {
      var t :| t in targets;
      TripsOverSplit(cfg, h, targets, t);
      TripsOverSplit(cfg, h', targets, t);
      TripsOverSame(cfg, h, h', targets - {t});
    }
  }

  lemma UntouchedTrips(cfg: Config, h: seq<Event>, target: string)
    requires cfg.Valid() && target !in TargetsOf(h)
    ensures TripsOf(cfg, h, target) == 0
  {
    UntouchedRuns(h, target);
    var runs := FailureRuns(h, target);
    assert |runs| == 1 && runs[0] == 0;
    assert Reaching(runs[..0], cfg.threshold) == 0;
  }

  lemma {:induction false} UntouchedRuns(h: seq<Event>, target: string)
    requires target !in TargetsOf(h)
    ensures FailureRuns(h, target) == [0]
  {
    if h != [] {
      assert h[|h| - 1].target in TargetsOf(h);
      assert forall t :: t in TargetsOf(h[..|h| - 1]) ==> t in TargetsOf(h);
      UntouchedRuns(h[..|h| - 1], target);
    }
  }

  /** One event adds a trip to its own target iff it is the failure that reaches the threshold. */
  lemma TripsGrow(cfg: Config, h: seq<Event>, e: Event, target: string)
    requires cfg.Valid()
    ensures TripsOf(cfg, h + [e], target)
         == TripsOf(cfg, h, target)
            + if e.Told? && e.target == target && !e.success && FailureRun(h, target) + 1 == cfg.threshold then 1 else 0
  {
    assert (h + [e])[..|h|] == h;
    var runs := FailureRuns(h, target);
    if e.Told? && e.target == target {
      if e.success {
        assert (runs + [0])[..|runs|] == runs;
      } else {
        var grown := runs[|runs| - 1 := runs[|runs| - 1] + 1];
        assert grown[..|runs| - 1] == runs[..|runs| - 1];
      }
    }
  }

  /** Summed over the targets seen, one event adds at most its own target's trip. */
  lemma TotalGrows(cfg: Config, h: seq<Event>, e: Event)
    requires cfg.Valid()
    ensures TripsOver(cfg, h + [e], TargetsOf(h + [e]))
         == TripsOver(cfg, h, TargetsOf(h))
            + if e.Told? && !e.success && FailureRun(h, e.target) + 1 == cfg.threshold then 1 else 0
  {
    var all, x := TargetsOf(h + [e]), e.target;
    assert all == TargetsOf(h) + {x} by {
      assert (h + [e])[|h|].target in all;
      forall t | t in TargetsOf(h) ensures t in all {
        var i :| 0 <= i < |h| && h[i].target == t;
        assert (h + [e])[i].target == t;
      }
    }
    TripsOverSplit(cfg, h + [e], all, x);
    forall t | t in all - {x} ensures TripsOf(cfg, h + [e], t) == TripsOf(cfg, h, t) { TripsGrow(cfg, h, e, t); }
    TripsOverSame(cfg, h, h + [e], all - {x});
    TripsGrow(cfg, h, e, x);
    if x in TargetsOf(h) {
      TripsOverSplit(cfg, h, TargetsOf(h), x);
      assert all - {x} == TargetsOf(h) - {x};
    } else {
      UntouchedTrips(cfg, h, x);
      assert all - {x} == TargetsOf(h);
    }
  }

  /** `record` counts a trip exactly on the failure that reaches the threshold. */
  lemma RecordTrips(cfg: Config, s: State, h: seq<Event>, target: string, success: bool, now: nat)
    requires cfg.Valid() && Reflects(cfg, Lookup(s, target), h, target)
    ensures AfterRecord(cfg, s, target, success, now).trips
         == if !success && FailureRun(h, target) + 1 == cfg.threshold then Wrap64(s.trips + 1) else s.trips
  {
  }

  ghost function AllTrips(cfg: Config, h: seq<Event>): nat {
    TripsOver(cfg, h, TargetsOf(h))
  }

  lemma AllowKeepsCount(cfg: Config, s: State, h: seq<Event>, target: string, now: nat, granted: bool)
    requires cfg.Valid() && s.trips == Wrap64(AllTrips(cfg, h))
    ensures AfterAllow(cfg, s, target, now).trips == Wrap64(AllTrips(cfg, h + [Asked(target, now, granted)]))
  {
    assert AfterAllow(cfg, s, target, now).trips == s.trips;
    assert AllTrips(cfg, h + [Asked(target, now, granted)]) == AllTrips(cfg, h) by {
      TotalGrows(cfg, h, Asked(target, now, granted));
    }
  }

  lemma TotalAfter(cfg: Config, h: seq<Event>, target: string, success: bool, now: nat)
    requires cfg.Valid()
    ensures AllTrips(cfg, h + [Told(target, success, now)])
         == AllTrips(cfg, h) + if !success && FailureRun(h, target) + 1 == cfg.threshold then 1 else 0
  {
    TotalGrows(cfg, h, Told(target, success, now));
  }

  lemma RecordKeepsCount(cfg: Config, s: State, h: seq<Event>, target: string, success: bool, now: nat)
    requires cfg.Valid() && s.trips == Wrap64(AllTrips(cfg, h))
    requires Reflects(cfg, Lookup(s, target), h, target)
    ensures AfterRecord(cfg, s, target, success, now).trips == Wrap64(AllTrips(cfg, h + [Told(target, success, now)]))
  {
    TotalAfter(cfg, h, target, success, now);
    RecordTrips(cfg, s, h, target, success, now);
    WrapUp(s.trips, AllTrips(cfg, h), 1);
  }

  /**
   The trip counter is the number, summed over all targets, of maximal failure runs that reached
   the threshold (modulo the counter's 64 bits).
   */
  lemma {:induction false} TripsCounted(cfg: Config, calls: seq<Call>)
    requires cfg.Valid() && Timely(calls)
    ensures Run(cfg, calls).state.trips == Wrap64(AllTrips(cfg, Run(cfg, calls).history))
  {
    if calls == [] {
      assert TargetsOf(Run(cfg, calls).history) == {};
    } else {
      var before, last := calls[..|calls| - 1], calls[|calls| - 1];
      var t := Run(cfg, before);
      TripsCounted(cfg, before);
      match last
      case Allow(target, now) =>
        AllowKeepsCount(cfg, t.state, t.history, target, now, Grants(Lookup(t.state, target), now));
      case Record(target, success, now) =>
        StateReflectsHistory(cfg, before, target);
        RecordKeepsCount(cfg, t.state, t.history, target, success, now);
    }
  }

  // -- Independence -----------------------------------------------------------

  ghost function CallsOf(calls: seq<Call>, target: string): seq<Call> {
    if calls == [] then []
    else
      var before, last := CallsOf(calls[..|calls| - 1], target), calls[|calls| - 1];
      if last.target == target then before + [last] else before
  }

  ghost function EventsOf(h: seq<Event>, target: string): seq<Event> {
    if h == [] then []
    else
      var before, last := EventsOf(h[..|h| - 1], target), h[|h| - 1];
      if last.target == target then before + [last] else before
  }

  lemma EventsOfRun(cfg: Config, calls: seq<Call>, target: string)
    requires calls != []
    ensures var before, h := Run(cfg, calls[..|calls| - 1]).history, Run(cfg, calls).history;
            && h != [] && h[..|h| - 1] == before
            && EventsOf(h, target) == EventsOf(before, target) + if calls[|calls| - 1].target == target then [h[|h| - 1]] else []
  {
    var h := Run(cfg, calls).history;
    assert h[..|h| - 1] == Run(cfg, calls[..|calls| - 1]).history;
  }

  /** One more call of the target has the same effect with and without the other targets' calls. */
  lemma OwnCallFollows(cfg: Config, before: seq<Call>, last: Call, own: seq<Call>)
    requires Lookup(Run(cfg, own).state, last.target) == Lookup(Run(cfg, before).state, last.target)
    ensures var all, alone := Run(cfg, before + [last]), Run(cfg, own + [last]);
            && all.history != [] && alone.history == Run(cfg, own).history + [all.history[|all.history| - 1]]
            && Lookup(alone.state, last.target) == Lookup(all.state, last.target)
  {
    assert (before + [last])[..|before|] == before && (own + [last])[..|own|] == own;
    SameEntry(cfg, Run(cfg, before).state, Run(cfg, own).state, last);
  }

  /** A call reads and writes its own target's entry only. */
  lemma SameEntry(cfg: Config, s: State, t: State, c: Call)
    requires Lookup(s, c.target) == Lookup(t, c.target)
    ensures c.Allow? ==>
              Lookup(AfterAllow(cfg, s, c.target, c.now), c.target) == Lookup(AfterAllow(cfg, t, c.target, c.now), c.target)
    ensures c.Record? ==>
              Lookup(AfterRecord(cfg, s, c.target, c.success, c.now), c.target)
              == Lookup(AfterRecord(cfg, t, c.target, c.success, c.now), c.target)
  {
  }

  /** Deleting all other targets' calls changes neither a target's answers nor its state. */
  lemma {:induction false} TargetsIndependent(cfg: Config, calls: seq<Call>, target: string)
    ensures Run(cfg, CallsOf(calls, target)).history == EventsOf(Run(cfg, calls).history, target)
    ensures Lookup(Run(cfg, CallsOf(calls, target)).state, target) == Lookup(Run(cfg, calls).state, target)
  {
    if calls != [] {
      var before, last := calls[..|calls| - 1], calls[|calls| - 1];
      TargetsIndependent(cfg, before, target);
      EventsOfRun(cfg, calls, target);
      if last.target == target { OwnCallFollows(cfg, before, last, CallsOf(before, target)); }
    }
  }
}
