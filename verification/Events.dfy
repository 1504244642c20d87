/** The lossy event channel, its writer and its shutdown (`crates/runlet/src/events.rs`). */
module Events {
  import opened Wrappers
  import opened Sequences

  // -- One recorder at a time -------------------------------------------------

  /** The lines of the events that serialize; the others are only warned about. */
  function Lines<E>(serialize: E -> Option<string>, events: seq<E>): seq<string> {
    if events == [] then []
    else
      var last := serialize(events[|events| - 1]);
      Lines(serialize, events[..|events| - 1]) + if last.Some? then [last.value] else []
  }

  lemma {:induction false} LinesJoin<E>(serialize: E -> Option<string>, a: seq<E>, b: seq<E>)
    ensures Lines(serialize, a + b) == Lines(serialize, a) + Lines(serialize, b)
    decreases |b|
  {
    if b == [] {
      assert a + b == a;
    } else {
      assert (a + b)[..|a + b| - 1] == a + b[..|b| - 1];
      LinesJoin(serialize, a, b[..|b| - 1]);
    }
  }

  ghost function LineOf(line: Option<string>): seq<string> {
    match line
    case Some(text) => [text]
    case None => []
  }

  lemma LinesOne<E>(serialize: E -> Option<string>, e: E)
    ensures Lines(serialize, [e]) == LineOf(serialize(e))
  {
    assert [e][..0] == [];
  }

  lemma LinesAround<E>(serialize: E -> Option<string>, a: seq<E>, e: E, b: seq<E>)
    ensures Lines(serialize, a + [e] + b) == Lines(serialize, a) + LineOf(serialize(e)) + Lines(serialize, b)
  {
    LinesJoin(serialize, a + [e], b);
    LinesJoin(serialize, a, [e]);
    LinesOne(serialize, e);
  }

  /** Every event in turn gives its own line, or none when it does not serialize. */
  lemma LinesSpelled<E>(serialize: E -> Option<string>, events: seq<E>, i: nat)
    requires i < |events|
    ensures Lines(serialize, events)
         == Lines(serialize, events[..i]) + LineOf(serialize(events[i])) + Lines(serialize, events[i + 1..])
  {
    Around(events, i);
    LinesAround(serialize, events[..i], events[i], events[i + 1..]);
  }

  class EventPipeline<E> {
    const bound: nat
    const serialize: E -> Option<string>
    var queue: seq<E>
    var dropped: nat
    var output: seq<string>

    ghost predicate Valid()
      reads this
    {
      0 < bound && |queue| <= bound
    }

    /** The channel holds at least one event whatever bound is asked for. */
    constructor (capacity: nat, serialize: E -> Option<string>)
      ensures Valid() && queue == [] && dropped == 0 && output == []
      ensures capacity <= bound && (0 < capacity ==> bound == capacity) && (capacity == 0 ==> bound == 1) && this.serialize == serialize
    {
      bound := if capacity == 0 then 1 else capacity;
      this.serialize := serialize;
      queue, dropped, output := [], 0, [];
    }

    /** Hands an event over without waiting: either it is queued or the drop is counted. */
    method Record(event: E)
      requires Valid()
      modifies this
      ensures Valid() && output == old(output)
      ensures old(|queue|) < bound ==> queue == old(queue) + [event] && dropped == old(dropped)
      ensures old(|queue|) == bound ==> queue == old(queue) && dropped == Wrap64(old(dropped) + 1)
    {
      if |queue| < bound {
        queue := queue + [event];
      } else {
        dropped := Wrap64(dropped + 1);
      }
    }

    /** With every sender gone the writer empties the queue, in order, before it returns. */
    method WriterLoop()
      requires Valid()
      modifies this
      ensures Valid() && queue == [] && dropped == old(dropped)
      ensures output == old(output) + Lines(serialize, old(queue))
    {
      ghost var done: seq<E> := [];
      while queue != []
        invariant Valid() && dropped == old(dropped)
        invariant done + queue == old(queue)
        invariant output == old(output) + Lines(serialize, done)
        decreases |queue|
      {
        var event := queue[0];
        assert (done + [event])[..|done|] == done;
        queue := queue[1..];
        done := done + [event];
        match serialize(event) {
          case Some(line) => output := output + [line];
          case None =>
        }
      }
      assert done == old(queue);
    }
  }

  // -- Recorders, writer and shutdown interleaved -----------------------------

  datatype Writer = Running | Finished | Crashed

  /**
   `log` lists every `try_send` with its answer, `uncounted` the refused sends whose drop is still to
   be counted, `taken` what the writer received, `lost` what a crash of the writer left in the queue.
   */
  datatype State<E> = State(
    bound: nat, queue: seq<E>, senders: nat, dropped: nat, writer: Writer,
    log: seq<(E, bool)>, uncounted: nat, taken: seq<E>, lost: seq<E>)

  datatype Step<E> =
    | TrySend(event: E)
    | CountDrop
    | CloneSender
    | DropSender
    | Take
    | Finish
    | Crash

  function Spawn<E>(capacity: nat): State<E> {
    State(if capacity == 0 then 1 else capacity, [], 1, 0, Running, [], 0, [], [])
  }

  /**
   Steps that cannot happen leave the state alone: only a live sender records or is cloned, the last
   one outlives every `record` in progress, and the writer finishes on a closed, empty channel only.
   */
  function Apply<E>(s: State<E>, step: Step<E>): State<E> {
    match step
    case TrySend(event) =>
      if s.senders == 0 then s
      else if s.writer.Running? && |s.queue| < s.bound then
        s.(queue := s.queue + [event], log := s.log + [(event, true)])
      else s.(log := s.log + [(event, false)], uncounted := s.uncounted + 1)
    case CountDrop =>
      if s.uncounted == 0 then s
      else s.(uncounted := s.uncounted - 1, dropped := Wrap64(s.dropped + 1))
    case CloneSender => if s.senders == 0 then s else s.(senders := s.senders + 1)
    case DropSender =>
      if s.senders > 1 || (s.senders == 1 && s.uncounted == 0) then s.(senders := s.senders - 1) else s
    case Take =>
      if s.writer.Running? && s.queue != [] then s.(queue := s.queue[1..], taken := s.taken + [s.queue[0]]) else s
    case Finish =>
      if s.writer.Running? && s.queue == [] && s.senders == 0 then s.(writer := Finished) else s
    case Crash =>
      if s.writer.Running? then s.(writer := Crashed, queue := [], lost := s.queue) else s
  }

  function Run<E>(s: State<E>, steps: seq<Step<E>>): State<E>
    decreases |steps|
  {
    if steps == [] then s else Run(Apply(s, steps[0]), steps[1..])
  }

  // -- What was accepted and what was refused ---------------------------------

  function Recorded<E>(log: seq<(E, bool)>): (r: seq<E>)
    ensures |r| == |log|
  {
    if log == [] then [] else Recorded(log[..|log| - 1]) + [log[|log| - 1].0]
  }

  function Accepted<E>(log: seq<(E, bool)>): (r: seq<E>)
    ensures |r| <= |log|
  {
    if log == [] then []
    else Accepted(log[..|log| - 1]) + if log[|log| - 1].1 then [log[|log| - 1].0] else []
  }

  function Refused<E>(log: seq<(E, bool)>): nat { |log| - |Accepted(log)| }

  lemma LogSnoc<E>(log: seq<(E, bool)>, event: E, ok: bool)
    ensures Accepted(log + [(event, ok)]) == Accepted(log) + if ok then [event] else []
    ensures Recorded(log + [(event, ok)]) == Recorded(log) + [event]
    ensures Refused(log + [(event, ok)]) == Refused(log) + if ok then 0 else 1
  {
    assert (log + [(event, ok)])[..|log|] == log;
  }

  /** `sub` arises from `whole` by leaving elements out. */
  ghost predicate Subsequence<E>(sub: seq<E>, whole: seq<E>) {
    if sub == [] then true
    else if whole == [] then false
    else
      var rest := whole[..|whole| - 1];
      Subsequence(sub, rest)
      || (sub[|sub| - 1] == whole[|whole| - 1] && Subsequence(sub[..|sub| - 1], rest))
  }

  lemma {:induction false} AcceptedIsSubsequence<E>(log: seq<(E, bool)>)
    ensures Subsequence(Accepted(log), Recorded(log))
    decreases |log|
  {
    if log != [] {
      var init := log[..|log| - 1];
      AcceptedIsSubsequence(init);
      assert Recorded(log)[..|log| - 1] == Recorded(init);
      if log[|log| - 1].1 {
        assert Accepted(log)[..|Accepted(log)| - 1] == Accepted(init);
      } else {
        assert Accepted(log) == Accepted(init);
      }
    }
  }

  lemma {:induction false} PrefixIsSubsequence<E>(sub: seq<E>, whole: seq<E>, n: nat)
    requires Subsequence(sub, whole) && n <= |sub|
    ensures Subsequence(sub[..n], whole)
    decreases |whole|, |sub|
  {
    if n == |sub| {
      assert sub[..n] == sub;
    } else {
      var rest := whole[..|whole| - 1];
      if Subsequence(sub, rest) {
        PrefixIsSubsequence(sub, rest, n);
      } else {
        PrefixIsSubsequence(sub[..|sub| - 1], rest, n);
        assert sub[..|sub| - 1][..n] == sub[..n];
      }
    }
  }

  // -- The invariant ----------------------------------------------------------

  ghost predicate Inv<E>(s: State<E>) {
    && 0 < s.bound && |s.queue| <= s.bound
    && Accepted(s.log) == s.taken + s.queue + s.lost
    && s.uncounted <= Refused(s.log) && s.dropped == Wrap64(Refused(s.log) - s.uncounted)
    && (s.senders == 0 ==> s.uncounted == 0)
    && (s.writer.Finished? ==> s.queue == [] && s.senders == 0)
    && (s.writer.Crashed? ==> s.queue == [])
    && (!s.writer.Crashed? ==> s.lost == [])
    && (!s.writer.Crashed? && Refused(s.log) > 0 ==> |Accepted(s.log)| >= s.bound)
  }

  lemma SendKeeps<E>(s: State<E>, event: E)
    requires Inv(s)
    ensures Inv(Apply(s, TrySend(event)))
  {
    if s.senders > 0 { LogSnoc(s.log, event, s.writer.Running? && |s.queue| < s.bound); }
  }

  lemma StepKeeps<E>(s: State<E>, step: Step<E>)
    requires Inv(s)
    ensures Inv(Apply(s, step)) && Apply(s, step).bound == s.bound
  {
    match step {
      case TrySend(event) => SendKeeps(s, event);
      case CountDrop => if s.uncounted > 0 { WrapAdd(Refused(s.log) - s.uncounted, 1); }
      case Take =>
        if s.queue != [] { assert s.taken + s.queue == s.taken + [s.queue[0]] + s.queue[1..]; }
      case _ =>
    }
  }

  lemma {:induction false} RunKeeps<E>(s: State<E>, steps: seq<Step<E>>)
    requires Inv(s)
    ensures Inv(Run(s, steps)) && Run(s, steps).bound == s.bound
    decreases |steps|
  {
    if steps != [] {
      StepKeeps(s, steps[0]);
      RunKeeps(Apply(s, steps[0]), steps[1..]);
    }
  }

  lemma InvAlways<E>(capacity: nat, steps: seq<Step<E>>)
    ensures Inv(Run(Spawn(capacity), steps))
    ensures Run(Spawn(capacity), steps).bound == if capacity == 0 then 1 else capacity
  {
    RunKeeps(Spawn(capacity), steps);
  }

  // -- Theorems ---------------------------------------------------------------

  /**
   In every interleaving, every event recorded is taken by the writer, queued, lost with a crashed
   writer, counted as dropped or about to be counted; the queue stays within its bound.
   */
  lemma Conservation<E>(capacity: nat, steps: seq<Step<E>>)
    ensures var s := Run(Spawn(capacity), steps);
            && |s.queue| <= s.bound
            && (|s.log| <= U64_MAX ==> |s.log| == |s.taken| + |s.queue| + |s.lost| + s.dropped + s.uncounted)
            && (!s.writer.Crashed? ==> s.lost == [])
  {
    InvAlways(capacity, steps);
  }

  /** The writer sees accepted events in the order they were accepted, a subsequence of those recorded. */
  lemma WriterKeepsOrder<E>(capacity: nat, steps: seq<Step<E>>)
    ensures var s := Run(Spawn(capacity), steps);
            s.taken <= Accepted(s.log) && Subsequence(s.taken, Recorded(s.log))
  {
    InvAlways(capacity, steps);
    var s := Run(Spawn(capacity), steps);
    AcceptedIsSubsequence(s.log);
    PrefixIsSubsequence(Accepted(s.log), Recorded(s.log), |s.taken|);
    assert Accepted(s.log)[..|s.taken|] == s.taken;
  }

  /** When the writer has finished, everything accepted was taken and every other event is counted as dropped. */
  lemma ShutdownFlushes<E>(capacity: nat, steps: seq<Step<E>>)
    requires Run(Spawn(capacity), steps).writer.Finished?
    ensures var s := Run(Spawn(capacity), steps);
            s.taken == Accepted(s.log) && s.dropped == Wrap64(Refused(s.log)) && s.senders == 0
  {
    InvAlways(capacity, steps);
  }

  /** A writer that never crashes drops nothing until more events were recorded than the channel holds. */
  lemma NothingDroppedWithinBound<E>(capacity: nat, steps: seq<Step<E>>)
    ensures var s := Run(Spawn(capacity), steps);
            !s.writer.Crashed? && |s.log| <= s.bound ==> Accepted(s.log) == Recorded(s.log) && s.dropped == 0
  {
    InvAlways(capacity, steps);
    var s := Run(Spawn(capacity), steps);
    if Refused(s.log) == 0 { AllAccepted(s.log); }
  }

  lemma {:induction false} AllAccepted<E>(log: seq<(E, bool)>)
    requires Refused(log) == 0
    ensures Accepted(log) == Recorded(log)
    decreases |log|
  {
    if log != [] { AllAccepted(log[..|log| - 1]); }
  }

  function Takes<E>(n: nat): (steps: seq<Step<E>>)
    ensures |steps| == n + 1
  {
    if n == 0 then [Finish] else [Take] + Takes(n - 1)
  }

  /** Once every sender is gone, the writer left to itself reaches its end: one turn an event and one more. */
  lemma {:induction false} WriterFinishes<E>(s: State<E>)
    requires Inv(s) && s.writer.Running? && s.senders == 0
    ensures Run(s, Takes(|s.queue|)) == s.(writer := Finished, queue := [], taken := s.taken + s.queue)
    decreases |s.queue|
  {
    var steps := Takes<E>(|s.queue|);
    if s.queue == [] {
      assert steps[1..] == [] && s.taken + s.queue == s.taken;
    } else {
      assert steps[0] == Take && steps[1..] == Takes<E>(|s.queue| - 1);
      var next := Apply(s, Take);
      StepKeeps(s, Take);
      WriterFinishes(next);
      assert next.taken + next.queue == s.taken + s.queue;
    }
  }

  lemma {:induction false} RunAppend<E>(s: State<E>, a: seq<Step<E>>, b: seq<Step<E>>)
    ensures Run(s, a + b) == Run(Run(s, a), b)
    decreases |a|
  {
    if a == [] {
      assert a + b == b;
    } else {
      assert (a + b)[1..] == a[1..] + b;
      RunAppend(Apply(s, a[0]), a[1..], b);
    }
  }

  function Repeat<E>(step: Step<E>, n: nat): seq<Step<E>> {
    if n == 0 then [] else [step] + Repeat(step, n - 1)
  }

  lemma RepeatOnce<E>(s: State<E>, step: Step<E>, n: nat)
    requires 0 < n
    ensures Run(s, Repeat(step, n)) == Run(Apply(s, step), Repeat(step, n - 1))
  {
    assert Repeat(step, n)[0] == step && Repeat(step, n)[1..] == Repeat(step, n - 1);
  }

  /** The recorders that were refused count their drops. */
  lemma {:induction false} DropsCounted<E>(s: State<E>)
    requires Inv(s)
    ensures Run(s, Repeat(CountDrop, s.uncounted)) == s.(uncounted := 0, dropped := Wrap64(Refused(s.log)))
    decreases s.uncounted
  {
    if s.uncounted > 0 {
      RepeatOnce(s, CountDrop, s.uncounted);
      StepKeeps(s, CountDrop);
      DropsCounted(Apply(s, CountDrop));
    }
  }

  lemma {:induction false} SendersDropped<E>(s: State<E>)
    requires s.uncounted == 0
    ensures Run(s, Repeat(DropSender, s.senders)) == s.(senders := 0)
    decreases s.senders
  {
    if s.senders > 0 {
      RepeatOnce(s, DropSender, s.senders);
      SendersDropped(Apply(s, DropSender));
    }
  }

  /** Every shutdown in order: drops counted, senders dropped, the queue written out. */
  function Shutdown<E>(s: State<E>): seq<Step<E>> {
    Repeat(CountDrop, s.uncounted) + Repeat(DropSender, s.senders) + Takes(|s.queue|)
  }

  /**
   From every reachable state with a running writer an orderly shutdown finishes it: the writer has
   taken exactly what was accepted, and the drop counter stands at what was refused.
   */
  lemma ShutdownCompletes<E>(capacity: nat, steps: seq<Step<E>>)
    requires Run(Spawn(capacity), steps).writer.Running?
    ensures var s := Run(Spawn(capacity), steps);
            var t := Run(s, Shutdown(s));
            && t.writer.Finished? && t.log == s.log
            && t.taken == Accepted(s.log) && t.dropped == Wrap64(Refused(s.log))
  {
    var s := Run(Spawn(capacity), steps);
    InvAlways(capacity, steps);
    var counted := s.(uncounted := 0, dropped := Wrap64(Refused(s.log)));
    RunAppend(s, Repeat(CountDrop, s.uncounted) + Repeat(DropSender, s.senders), Takes(|s.queue|));
    RunAppend(s, Repeat(CountDrop, s.uncounted), Repeat(DropSender, s.senders));
    DropsCounted(s);
    SendersDropped(counted);
    WriterFinishes(counted.(senders := 0));
  }

  /** A live sender's event is accepted exactly when the writer lives and the channel has room, and only then queued. */
  lemma SendExactly<E>(capacity: nat, steps: seq<Step<E>>, event: E)
    requires Run(Spawn(capacity), steps).senders > 0
    ensures var s, t := Run(Spawn(capacity), steps), Run(Spawn(capacity), steps + [TrySend(event)]);
            var room := s.writer.Running? && |s.queue| < (if capacity == 0 then 1 else capacity);
            && Accepted(t.log) == Accepted(s.log) + (if room then [event] else [])
            && t.queue == s.queue + (if room then [event] else [])
            && Recorded(t.log) == Recorded(s.log) + [event]
            && t.taken == s.taken && t.dropped == s.dropped && t.senders == s.senders
  {
    var s: State<E> := Run(Spawn(capacity), steps);
    InvAlways(capacity, steps);
    RunAppend(Spawn(capacity), steps, [TrySend(event)]);
    LogSnoc(s.log, event, s.writer.Running? && |s.queue| < s.bound);
  }

  /** Nothing changes a finished pipeline. */
  lemma {:induction false} FinishedForGood<E>(s: State<E>, steps: seq<Step<E>>)
    requires Inv(s) && s.writer.Finished?
    ensures Run(s, steps) == s
    decreases |steps|
  {
    if steps != [] { FinishedForGood(s, steps[1..]); }
  }
}
