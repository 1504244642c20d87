/**
 The box and the daemon joined by two FIFO channels (`crates/runlet/src/sidecar.rs`,
 `crates/fabricd/src/main.rs`): the box sends one request at a time and waits; the daemon serves
 at its own pace; a round trip may be abandoned when the execution's deadline passes.
 */
module Session {
  import opened Wrappers
  import opened Sequences
  import opened Resources
  import opened Daemon
  import opened DaemonSafety

  /** What the box gets for a round trip: a frame, or the end of a connection that failed or was closed. */
  datatype Heard = Frame(response: WireResponse) | Eof

  /**
   `sent` and `heard` are the box's view: `heard[k]` is what it took as the answer to `sent[k]`,
   `None` when that round trip was abandoned. The box waits iff one answer is missing. `requests`
   and `responses` are the frames in flight in either direction.
   */
  datatype State = State(
    sent: seq<WireRequest>, heard: seq<Option<Heard>>,
    requests: seq<WireRequest>, responses: seq<WireResponse>, daemon: Trace)

  datatype Step = Send(request: WireRequest) | DaemonTurn | Receive | Abandon

  function Start(): State {
    State([], [], [], [], Fresh())
  }

  predicate Waiting(s: State) { |s.heard| < |s.sent| }

  /**
   One step of either side. A step that is not enabled changes nothing: a request that exceeds the
   frame cap is never sent, and a closed daemon reads nothing.
   */
  function Apply(sh: Shared, d: Drivers, s: State, step: Step): State {
    match step
    case Send(request) =>
      if Waiting(s) || !Sendable(d, request) then s
      else s.(sent := s.sent + [request], requests := s.requests + [request])
    case DaemonTurn =>
      if s.requests == [] || s.daemon.session.Closed? then s
      else Turned(s, Next(sh, d, s.daemon, s.requests[0]))
    case Receive =>
      if !Waiting(s) then s
      else if s.responses != [] then s.(heard := s.heard + [Some(Frame(s.responses[0]))], responses := s.responses[1..])
      else if s.daemon.session.Closed? then s.(heard := s.heard + [Some(Eof)])
      else s
    case Abandon =>
      if !Waiting(s) then s else s.(heard := s.heard + [None])
  }

  /** The daemon has read a frame; what it wrote, if anything, is on its way. */
  function Turned(s: State, after: Trace): State
    requires s.requests != []
  {
    s.(requests := s.requests[1..], daemon := after,
       responses := s.responses + if |s.daemon.responses| < |after.responses| then after.responses[|s.daemon.responses|..] else [])
  }

  function Run(sh: Shared, d: Drivers, steps: seq<Step>): State {
    if steps == [] then Start() else Apply(sh, d, Run(sh, d, steps[..|steps| - 1]), steps[|steps| - 1])
  }

  // -- Who answers what -------------------------------------------------------

  /** The frames the box has taken off the connection, in order. */
  ghost function Taken(heard: seq<Option<Heard>>): seq<WireResponse> {
    if heard == [] then []
    else
      var before, last := Taken(heard[..|heard| - 1]), heard[|heard| - 1];
      if last.Some? && last.value.Frame? then before + [last.value.response] else before
  }

  ghost function Abandoned(heard: seq<Option<Heard>>): nat {
    if heard == [] then 0
    else Abandoned(heard[..|heard| - 1]) + if heard[|heard| - 1].None? then 1 else 0
  }

  /** Both channels are FIFO between the box and a daemon that serves what it was sent. */
  ghost predicate Inv(sh: Shared, d: Drivers, s: State) {
    && |s.sent| - 1 <= |s.heard| <= |s.sent|
    && |s.requests| <= |s.sent| && s.requests == s.sent[|s.sent| - |s.requests|..]
    && s.daemon == Serve(sh, d, s.sent[..|s.sent| - |s.requests|])
    && s.daemon.responses == Taken(s.heard) + s.responses
    && (EndHeard(s.heard) ==> s.daemon.session.Closed? && s.responses == [])
    && Aligned(s.heard)
  }

  ghost predicate EndHeard(heard: seq<Option<Heard>>) {
    exists k :: 0 <= k < |heard| && heard[k] == Some(Eof)
  }

  ghost predicate IsFrame(x: Option<Heard>) { x.Some? && x.value.Frame? }

  /** No frame follows the end of the connection, and each frame's place in the stream is its own less the abandoned. */
  ghost predicate Aligned(heard: seq<Option<Heard>>) {
    forall k :: 0 <= k < |heard| && IsFrame(heard[k]) ==>
      && (forall i :: 0 <= i < k ==> heard[i] != Some(Eof))
      && |Taken(heard[..k])| == k - Abandoned(heard[..k])
  }

  lemma AlignedFollows(heard: seq<Option<Heard>>, x: Option<Heard>)
    requires Aligned(heard) && (IsFrame(x) ==> forall i :: 0 <= i < |heard| ==> heard[i] != Some(Eof))
    ensures Aligned(heard + [x])
  {
    var more := heard + [x];
    forall k | 0 <= k < |more| && IsFrame(more[k])
      ensures (forall i :: 0 <= i < k ==> more[i] != Some(Eof)) && |Taken(more[..k])| == k - Abandoned(more[..k])
    {
      assert more[..k] == heard[..k];
      assert forall i :: 0 <= i < k ==> more[i] == heard[i];
      if k == |heard| {
        assert heard[..k] == heard;
        TakenCount(heard);
      }
    }
  }

  lemma NextExtends(sh: Shared, d: Drivers, t: Trace, request: WireRequest)
    ensures t.responses <= Next(sh, d, t, request).responses
  {
  }

  lemma NextWrites(sh: Shared, d: Drivers, t: Trace, request: WireRequest)
    ensures var after := Next(sh, d, t, request); after.session.Closed? || |after.responses| > |t.responses|
  {
  }

  lemma DaemonTurnKeeps(sh: Shared, d: Drivers, s: State)
    requires Inv(sh, d, s)
    ensures Inv(sh, d, Apply(sh, d, s, DaemonTurn))
  {
    if s.requests != [] && !s.daemon.session.Closed? {
      var n := |s.sent| - |s.requests|;
      NextExtends(sh, d, s.daemon, s.requests[0]);
      ServeNext(sh, d, s.sent, n);
      TurnKeeps(sh, d, s, Next(sh, d, s.daemon, s.requests[0]));
    }
  }

  lemma TurnKeeps(sh: Shared, d: Drivers, s: State, after: Trace)
    requires Inv(sh, d, s) && s.requests != [] && !s.daemon.session.Closed?
    requires after == Serve(sh, d, s.sent[..|s.sent| - |s.requests| + 1]) && s.daemon.responses <= after.responses
    ensures Inv(sh, d, Turned(s, after))
  {
    WrittenFollows(Taken(s.heard), s.responses, s.daemon.responses, after.responses);
    assert s.requests[1..] == s.sent[|s.sent| - |s.requests| + 1..];
  }

  /** What the daemon adds to its responses is what is added to the connection. */
  lemma WrittenFollows(taken: seq<WireResponse>, waiting: seq<WireResponse>, before: seq<WireResponse>, after: seq<WireResponse>)
    requires before == taken + waiting && before <= after
    ensures after == taken + (waiting + if |before| < |after| then after[|before|..] else [])
  {
    assert after == before + after[|before|..];
    Associative(taken, waiting, after[|before|..]);
    AppendNothing(waiting);
  }

  lemma {:induction false} TakenCount(heard: seq<Option<Heard>>)
    requires forall i :: 0 <= i < |heard| ==> heard[i] != Some(Eof)
    ensures |Taken(heard)| == |heard| - Abandoned(heard)
  {
    if heard != [] { TakenCount(heard[..|heard| - 1]); }
  }

  lemma HearKeeps(sh: Shared, d: Drivers, s: State, t: State, x: Option<Heard>)
    requires Inv(sh, d, s) && Waiting(s)
    requires t.heard == s.heard + [x] && t.sent == s.sent && t.requests == s.requests && t.daemon == s.daemon
    requires if IsFrame(x) then s.responses == [x.value.response] + t.responses else t.responses == s.responses
    requires x == Some(Eof) ==> s.daemon.session.Closed? && s.responses == []
    ensures Inv(sh, d, t)
  {
    TakenMoves(s.heard, x, s.responses, t.responses);
    AlignedFollows(s.heard, x);
    EofFollows(s.heard, x);
  }

  /** A frame taken leaves the connection; anything else heard leaves it as it was. */
  lemma TakenMoves(heard: seq<Option<Heard>>, x: Option<Heard>, before: seq<WireResponse>, after: seq<WireResponse>)
    requires if IsFrame(x) then before == [x.value.response] + after else after == before
    ensures Taken(heard + [x]) + after == Taken(heard) + before
  {
    assert (heard + [x])[..|heard|] == heard;
    if IsFrame(x) { Associative(Taken(heard), [x.value.response], after); }
  }

  lemma EofFollows(heard: seq<Option<Heard>>, x: Option<Heard>)
    ensures EndHeard(heard + [x]) ==> x == Some(Eof) || EndHeard(heard)
  {
    if EndHeard(heard + [x]) {
      var k :| 0 <= k < |heard + [x]| && (heard + [x])[k] == Some(Eof);
      if k < |heard| { assert heard[k] == Some(Eof); }
    }
  }

  lemma SendKeeps(sh: Shared, d: Drivers, s: State, request: WireRequest)
    requires Inv(sh, d, s)
    ensures Inv(sh, d, Apply(sh, d, s, Send(request)))
  {
    if !Waiting(s) && Sendable(d, request) {
      var t, n := Apply(sh, d, s, Send(request)), |s.sent| - |s.requests|;
      assert t.sent[..n] == s.sent[..n];
      assert t.requests == t.sent[n..];
    }
  }

  lemma StepKeeps(sh: Shared, d: Drivers, s: State, step: Step)
    requires Inv(sh, d, s)
    ensures Inv(sh, d, Apply(sh, d, s, step))
  {
    var t := Apply(sh, d, s, step);
    match step
    case Send(request) => SendKeeps(sh, d, s, request);
    case DaemonTurn => DaemonTurnKeeps(sh, d, s);
    case Receive =>
      if Waiting(s) {
        if s.responses != [] {
          assert s.responses == [s.responses[0]] + s.responses[1..];
          HearKeeps(sh, d, s, t, Some(Frame(s.responses[0])));
        } else if s.daemon.session.Closed? {
          HearKeeps(sh, d, s, t, Some(Eof));
        }
      }
    case Abandon =>
      if Waiting(s) { HearKeeps(sh, d, s, t, None); }
  }

  lemma {:induction false} InvAlways(sh: Shared, d: Drivers, steps: seq<Step>)
    ensures Inv(sh, d, Run(sh, d, steps))
  {
    if steps == [] {
      StartHolds(sh, d);
    } else {
      var before := steps[..|steps| - 1];
      InvAlways(sh, d, before);
      RunKeeps(sh, d, steps, Run(sh, d, before));
    }
  }

  lemma StartHolds(sh: Shared, d: Drivers)
    ensures Inv(sh, d, Start())
  {
  }

  lemma RunKeeps(sh: Shared, d: Drivers, steps: seq<Step>, s: State)
    requires steps != [] && s == Run(sh, d, steps[..|steps| - 1]) && Inv(sh, d, s)
    ensures Inv(sh, d, Run(sh, d, steps))
  {
    StepKeeps(sh, d, s, steps[|steps| - 1]);
  }

  /**
   Frames in flight on an open session, both ways together: one for the answer awaited and one for
   every round trip abandoned so far. So at most one is in flight exactly while none was abandoned,
   or one was and nothing is awaited.
   */
  lemma FramesInFlight(sh: Shared, d: Drivers, steps: seq<Step>, s: State)
    requires s == Run(sh, d, steps) && !s.daemon.session.Closed?
    ensures |s.requests| + |s.responses| == |s.sent| - |s.heard| + Abandoned(s.heard)
    ensures |s.requests| + |s.responses| <= 1 <==> Abandoned(s.heard) == 0 || (Abandoned(s.heard) == 1 && !Waiting(s))
  {
    InvAlways(sh, d, steps);
    InFlightIn(sh, d, s);
  }

  lemma InFlightIn(sh: Shared, d: Drivers, s: State)
    requires Inv(sh, d, s) && !s.daemon.session.Closed?
    ensures |s.requests| + |s.responses| == |s.sent| - |s.heard| + Abandoned(s.heard)
    ensures |s.sent| - 1 <= |s.heard| <= |s.sent|
  {
    OpenReadsAll(sh, d, s.sent[..|s.sent| - |s.requests|]);
    TakenCount(s.heard);
  }

  lemma HeardWithinSent(sh: Shared, d: Drivers, steps: seq<Step>, s: State)
    requires s == Run(sh, d, steps)
    ensures |s.sent| - 1 <= |s.heard| <= |s.sent|
  {
    InvAlways(sh, d, steps);
  }

  /**
   Provenance, for every run: the frame the box takes as the answer to its k-th request is the
   daemon's answer to request k minus the round trips abandoned before it.
   */
  lemma AnswersAreShifted(sh: Shared, d: Drivers, steps: seq<Step>, s: State, k: nat)
    requires s == Run(sh, d, steps) && k < |s.heard| && IsFrame(s.heard[k])
    ensures var origin := k - Abandoned(s.heard[..k]);
            && 0 <= origin <= k && origin < |Serve(sh, d, s.sent).responses|
            && s.heard[k].value.response == Serve(sh, d, s.sent).responses[origin]
  {
    InvAlways(sh, d, steps);
    ShiftedIn(sh, d, s, k);
  }

  lemma ShiftedIn(sh: Shared, d: Drivers, s: State, k: nat)
    requires Inv(sh, d, s) && k < |s.heard| && IsFrame(s.heard[k])
    ensures var origin := k - Abandoned(s.heard[..k]);
            && 0 <= origin <= k && origin < |Serve(sh, d, s.sent).responses|
            && s.heard[k].value.response == Serve(sh, d, s.sent).responses[origin]
  {
    var taken := |Taken(s.heard[..k])|;
    assert taken == k - Abandoned(s.heard[..k]);
    TakenPrefix(s.heard, k);
    assert s.daemon.responses[taken] == Taken(s.heard)[taken];
    ServedPrefix(sh, d, s, taken);
  }

  /** What the daemon has answered so far stays its answer to the whole request sequence. */
  lemma ServedPrefix(sh: Shared, d: Drivers, s: State, i: nat)
    requires |s.requests| <= |s.sent| && s.daemon == Serve(sh, d, s.sent[..|s.sent| - |s.requests|])
    requires i < |s.daemon.responses|
    ensures i < |Serve(sh, d, s.sent).responses| && Serve(sh, d, s.sent).responses[i] == s.daemon.responses[i]
  {
    ResponsesArePrefix(sh, d, s.sent, |s.sent| - |s.requests|);
  }

  lemma {:induction false} TakenPrefix(heard: seq<Option<Heard>>, k: nat)
    requires k < |heard| && IsFrame(heard[k])
    ensures |Taken(heard[..k])| < |Taken(heard)|
    ensures Taken(heard)[|Taken(heard[..k])|] == heard[k].value.response
    decreases |heard|
  {
    var before := heard[..|heard| - 1];
    if k < |before| {
      TakenPrefix(before, k);
      assert before[..k] == heard[..k];
    } else {
      assert heard[..k] == before;
    }
  }

  lemma {:induction false} TakenBound(heard: seq<Option<Heard>>, k: nat)
    requires forall j :: k <= j < |heard| ==> !IsFrame(heard[j])
    ensures |Taken(heard)| <= k
    decreases |heard|
  {
    if heard != [] {
      if |heard| <= k {
        TakenBound(heard[..|heard| - 1], k - 1);
      } else {
        TakenBound(heard[..|heard| - 1], k);
      }
    }
  }

  /**
   The end of the connection is heard only where the daemon has no answer left: the session was not
   opened, or the response to the last frame it read exceeded the cap.
   */
  lemma EofMeansNoAnswer(sh: Shared, d: Drivers, steps: seq<Step>, s: State, k: nat)
    requires s == Run(sh, d, steps) && k < |s.heard| && s.heard[k] == Some(Eof)
    ensures var t := Serve(sh, d, s.sent);
            && |t.responses| <= k && t.session.Closed? && s.sent != []
            && (!Opens(sh, s.sent[0]) || |t.responses| == t.read - 1)
  {
    InvAlways(sh, d, steps);
    EndedIn(sh, d, s, k);
    OneResponsePerFrame(sh, d, s.sent);
  }

  lemma TakenBeforeEnd(heard: seq<Option<Heard>>, k: nat)
    requires Aligned(heard) && k < |heard| && heard[k] == Some(Eof)
    ensures EndHeard(heard) && |Taken(heard)| <= k
  {
    assert forall j :: k <= j < |heard| ==> !IsFrame(heard[j]);
    TakenBound(heard, k);
  }

  lemma EndedIn(sh: Shared, d: Drivers, s: State, k: nat)
    requires Inv(sh, d, s) && k < |s.heard| && s.heard[k] == Some(Eof)
    ensures |Serve(sh, d, s.sent).responses| <= k && Serve(sh, d, s.sent).session.Closed?
  {
    TakenBeforeEnd(s.heard, k);
    assert |s.daemon.responses| <= k && s.daemon.session.Closed?;
    ClosedForGood(sh, d, s.sent, |s.sent| - |s.requests|);
  }

  /**
   When no round trip has been abandoned, the k-th answer is the daemon's answer to the k-th
   request.
   */
  lemma AnswersMatchRequests(sh: Shared, d: Drivers, steps: seq<Step>, k: nat)
    requires k < |Run(sh, d, steps).heard| && Abandoned(Run(sh, d, steps).heard[..k]) == 0
    ensures var s := Run(sh, d, steps); IsFrame(s.heard[k]) ==>
              && k < |Serve(sh, d, s.sent).responses|
              && s.heard[k].value.response == Serve(sh, d, s.sent).responses[k]
  {
    var s := Run(sh, d, steps);
    if IsFrame(s.heard[k]) {
      AnswersAreShifted(sh, d, steps, s, k);
    }
  }

  // -- What the box makes of it -----------------------------------------------

  datatype SessionError = Unavailable | Unresolved(code: string) | Protocol

  /** `handshake`: how the answer to Init is interpreted. */
  function Handshake(h: Heard): Option<SessionError> {
    match h
    case Eof => Some(Unavailable)
    case Frame(Ack) => None
    case Frame(InitError(code, _)) => Some(Unresolved(code))
    case Frame(_) => Some(Protocol)
  }

  datatype CallOutcome = Replied(result: Result<string, EgressError>) | IoProtocol | IoTransport | IoTimeout

  /** `SidecarEgress::call`: how the answer to a call is interpreted. */
  function CallResult(h: Option<Heard>): CallOutcome {
    match h
    case None => IoTimeout
    case Some(Eof) => IoTransport
    case Some(Frame(Reply(result))) => Replied(result)
    case Some(Frame(_)) => IoProtocol
  }

  /** What a call's caller is told, by what was heard: the daemon's result, or which way the exchange failed. */
  ghost predicate ReadsAs(h: Option<Heard>, outcome: CallOutcome) {
    match outcome
    case Replied(result) => h == Some(Frame(Reply(result)))
    case IoProtocol => IsFrame(h) && !h.value.response.Reply?
    case IoTransport => h == Some(Eof)
    case IoTimeout => h.None?
  }

  /** The caller is told the daemon's own answer to request k. */
  ghost predicate TellsTheAnswer(responses: seq<WireResponse>, k: nat, outcome: CallOutcome) {
    match outcome
    case Replied(result) => k < |responses| && responses[k] == Reply(result)
    case IoProtocol => k < |responses| && !responses[k].Reply?
    case IoTransport => |responses| <= k
    case IoTimeout => false
  }

  /**
   In step and in time, a call returns a result exactly when the daemon's answer to that request is that
   result, a protocol error exactly when its answer is of another kind, and a transport error exactly
   when it has none.
   */
  lemma CallTellsTheAnswer(sh: Shared, d: Drivers, steps: seq<Step>, s: State, k: nat, outcome: CallOutcome)
    requires s == Run(sh, d, steps) && k < |s.heard| && s.heard[k].Some? && Abandoned(s.heard[..k]) == 0
    requires ReadsAs(s.heard[k], outcome)
    ensures TellsTheAnswer(Serve(sh, d, s.sent).responses, k, outcome)
  {
    if IsFrame(s.heard[k]) {
      AnswersAreShifted(sh, d, steps, s, k);
    } else {
      EofMeansNoAnswer(sh, d, steps, s, k);
    }
  }

  /** `drain_metrics`: anything but a metrics frame yields empty lists. */
  function DrainResult(h: Option<Heard>): seq<seq<string>> {
    match h
    case Some(Frame(Metrics(lists))) => lists
    case _ => seq(|ORDER|, _ => [])
  }

  /** The daemon's response to Init. */
  ghost function Greeting(sh: Shared, init: WireInit): WireResponse {
    var rejected := sh.reject(init.token);
    if rejected.Some? then InitError(rejected.value.code, rejected.value.message)
    else match Resolve(sh.table, init)
      case Ok(_) => Ack
      case Err(e) => ResolveFailure(e)
  }

  lemma FirstReply(sh: Shared, d: Drivers, requests: seq<WireRequest>)
    requires requests != [] && requests[0].Init?
    ensures ReplyTo(sh, d, requests, 0) == Greeting(sh, requests[0].init)
    ensures Greeting(sh, requests[0].init).Ack? <==> Opens(sh, requests[0])
    ensures !Greeting(sh, requests[0].init).Ack? ==> Greeting(sh, requests[0].init).InitError?
  {
    assert requests[..0] == [];
  }

  /**
   The handshake tells the truth: unavailable iff the daemon's response exceeds the cap, otherwise
   success iff the token was accepted and every name resolved, and the daemon's own code if not.
   */
  lemma HandshakeExact(sh: Shared, d: Drivers, steps: seq<Step>, s: State)
    requires s == Run(sh, d, steps) && s.sent != [] && s.sent[0].Init? && s.heard != [] && s.heard[0].Some?
    ensures var outcome, greeting := Handshake(s.heard[0].value), Greeting(sh, s.sent[0].init);
            && (outcome == Some(Unavailable) <==> !Writable(d, greeting))
            && (Writable(d, greeting) ==> (outcome.None? <==> Opens(sh, s.sent[0])))
            && (Writable(d, greeting) && !Opens(sh, s.sent[0]) ==> outcome == Some(Unresolved(greeting.code)))
  {
    FirstReply(sh, d, s.sent);
    FrameAnsweredExactly(sh, d, s.sent, 0);
    FirstHeard(sh, d, steps, s);
  }

  lemma FirstHeard(sh: Shared, d: Drivers, steps: seq<Step>, s: State)
    requires s == Run(sh, d, steps) && s.sent != [] && s.heard != [] && s.heard[0].Some?
    ensures var responses := Serve(sh, d, s.sent).responses;
            s.heard[0].value == if responses == [] then Eof else Frame(responses[0])
    ensures Serve(sh, d, s.sent).responses != [] ==> Serve(sh, d, s.sent).responses[0] == ReplyTo(sh, d, s.sent, 0)
  {
    FirstWritten(sh, d, s.sent);
    if IsFrame(s.heard[0]) {
      FirstFrameHeard(sh, d, steps, s);
    } else {
      EofMeansNoAnswer(sh, d, steps, s, 0);
    }
  }

  lemma FirstWritten(sh: Shared, d: Drivers, requests: seq<WireRequest>)
    requires requests != []
    ensures Serve(sh, d, requests).responses != [] ==> Serve(sh, d, requests).responses[0] == ReplyTo(sh, d, requests, 0)
  {
    RepliesExact(sh, d, requests);
  }

  lemma FirstFrameHeard(sh: Shared, d: Drivers, steps: seq<Step>, s: State)
    requires s == Run(sh, d, steps) && s.heard != [] && IsFrame(s.heard[0])
    ensures Serve(sh, d, s.sent).responses != [] && s.heard[0].value.response == Serve(sh, d, s.sent).responses[0]
  {
    AnswersAreShifted(sh, d, steps, s, 0);
    NoneAbandoned(s.heard);
  }

  lemma NoneAbandoned(heard: seq<Option<Heard>>)
    ensures Abandoned(heard[..0]) == 0
  {
  }

  /** The kind of response a request of a serving session can get. */
  predicate Fits(request: WireRequest, r: WireResponse) {
    match request
    case Call(_) => r.Reply? || r.ProtocolError?
    case Drain => r.Metrics?
    case Init(_) => r.ProtocolError?
  }

  /** What a serving session answers. */
  ghost predicate AnswersFrom(d: Drivers, b: Backends, request: WireRequest, k: nat, r: WireResponse) {
    match request
    case Call(call) => r == CallBackend(d, b, call, k).1
    case Drain => r == Metrics(MetricsOf(b))
    case Init(_) => r.ProtocolError?
  }

  lemma CallAnswers(d: Drivers, b: Backends, call: WireCall, now: nat)
    ensures Fits(Call(call), CallBackend(d, b, call, now).1)
  {
  }

  /** After the first frame, a call is answered by its backend's result and a drain by the session's metrics. */
  lemma AnswerKinds(sh: Shared, d: Drivers, requests: seq<WireRequest>, k: nat)
    requires 0 < k < |Serve(sh, d, requests).responses|
    ensures k < |requests| && Serve(sh, d, requests[..k]).session.Serving?
    ensures var b, r := Serve(sh, d, requests[..k]).session.backends, Serve(sh, d, requests).responses[k];
            AnswersFrom(d, b, requests[k], k, r) && Fits(requests[k], r)
  {
    AnsweredWhileServing(sh, d, requests, k);
    if requests[k].Call? { CallAnswers(d, Serve(sh, d, requests[..k]).session.backends, requests[k].call, k); }
  }

  /**
   In step, every frame the box reads is the daemon's answer to that very request: a call gets its
   own backend's result, and a drain the metrics of the session as it stood then.
   */
  lemma InStepAnswersFit(sh: Shared, d: Drivers, steps: seq<Step>, s: State, k: nat)
    requires s == Run(sh, d, steps) && 0 < k < |s.heard| && Abandoned(s.heard[..k]) == 0 && IsFrame(s.heard[k])
    ensures k < |s.sent| && Serve(sh, d, s.sent[..k]).session.Serving?
    ensures var b, r := Serve(sh, d, s.sent[..k]).session.backends, s.heard[k].value.response;
            && AnswersFrom(d, b, s.sent[k], k, r) && Fits(s.sent[k], r)
            && (s.sent[k].Drain? ==> DrainResult(s.heard[k]) == MetricsOf(b))
  {
    AnswersAreShifted(sh, d, steps, s, k);
    AnswerKinds(sh, d, s.sent, k);
    DrainReads(d, Serve(sh, d, s.sent[..k]).session.backends, s.sent[k], k, s.heard[k]);
  }

  lemma DrainReads(d: Drivers, b: Backends, request: WireRequest, k: nat, h: Option<Heard>)
    requires IsFrame(h) && AnswersFrom(d, b, request, k, h.value.response)
    ensures request.Drain? ==> DrainResult(h) == MetricsOf(b)
  {
  }

  // -- What an abandoned round trip does --------------------------------------

  ghost predicate GotMetrics(h: Option<Heard>) { IsFrame(h) && h.value.response.Metrics? }

  /** The box's own use of a session: an Init, then calls, then a drain as request k. */
  ghost predicate DrainsAt(sent: seq<WireRequest>, k: nat) {
    0 < k < |sent| && sent[0].Init? && (forall j :: 1 <= j < k ==> sent[j].Call?) && sent[k].Drain?
  }

  /** Only the drain's own answer carries metrics. */
  lemma MetricsOnlyAt(sh: Shared, d: Drivers, sent: seq<WireRequest>, k: nat, i: nat)
    requires DrainsAt(sent, k) && i <= k && i < |Serve(sh, d, sent).responses|
    ensures Serve(sh, d, sent).responses[i].Metrics? <==> i == k
  {
    if i == 0 {
      RepliesExact(sh, d, sent);
      FirstReply(sh, d, sent);
    } else {
      AnswerKinds(sh, d, sent, i);
    }
  }

  lemma DrainHears(sh: Shared, d: Drivers, steps: seq<Step>, s: State, k: nat)
    requires s == Run(sh, d, steps) && k < |s.heard| && s.heard[k].Some? && DrainsAt(s.sent, k)
    ensures GotMetrics(s.heard[k]) <==> Abandoned(s.heard[..k]) == 0 && k < |Serve(sh, d, s.sent).responses|
  {
    if IsFrame(s.heard[k]) {
      AnswersAreShifted(sh, d, steps, s, k);
      MetricsOnlyAt(sh, d, s.sent, k, k - Abandoned(s.heard[..k]));
    } else {
      EofMeansNoAnswer(sh, d, steps, s, k);
    }
  }

  /**
   A drain after any number of calls brings the session's metrics if and only if no round trip before
   it was abandoned, the session was opened, and the responses up to the drain's own fit a frame; then
   they are exactly the metrics of the session at that point, and otherwise all lists are empty.
   */
  lemma DrainExactly(sh: Shared, d: Drivers, steps: seq<Step>, s: State, k: nat)
    requires s == Run(sh, d, steps) && k < |s.heard| && s.heard[k].Some? && DrainsAt(s.sent, k)
    ensures GotMetrics(s.heard[k]) <==>
              && Abandoned(s.heard[..k]) == 0 && Opens(sh, s.sent[0])
              && forall j :: 0 <= j <= k ==> Writable(d, ReplyTo(sh, d, s.sent, j))
    ensures GotMetrics(s.heard[k]) ==>
              && Serve(sh, d, s.sent[..k]).session.Serving?
              && DrainResult(s.heard[k]) == MetricsOf(Serve(sh, d, s.sent[..k]).session.backends)
    ensures !GotMetrics(s.heard[k]) ==> DrainResult(s.heard[k]) == seq(|ORDER|, _ => [])
  {
    DrainHears(sh, d, steps, s, k);
    FrameAnsweredExactly(sh, d, s.sent, k);
    if GotMetrics(s.heard[k]) { InStepAnswersFit(sh, d, steps, s, k); }
  }

  lemma RunThen(sh: Shared, d: Drivers, steps: seq<Step>, step: Step)
    ensures Run(sh, d, steps + [step]) == Apply(sh, d, Run(sh, d, steps), step)
  {
    assert (steps + [step])[..|steps|] == steps;
  }

  ghost predicate Reachable(sh: Shared, d: Drivers, s: State) {
    exists steps :: Run(sh, d, steps) == s
  }

  lemma ReachesNext(sh: Shared, d: Drivers, s: State, step: Step, t: State)
    requires Reachable(sh, d, s) && t == Apply(sh, d, s, step)
    ensures Reachable(sh, d, t)
  {
    var steps :| Run(sh, d, steps) == s;
    RunThen(sh, d, steps, step);
  }

  lemma StartReachable(sh: Shared, d: Drivers)
    ensures Reachable(sh, d, Start())
  {
    assert Run(sh, d, []) == Start();
  }

  /** The connection of a session that has just been opened. */
  ghost function JustOpened(sh: Shared, init: WireInit): State
    requires Opens(sh, Init(init))
  {
    State([Init(init)], [Some(Frame(Ack))], [], [], OpenTrace(sh, init))
  }

  ghost function OpenTrace(sh: Shared, init: WireInit): Trace
    requires Opens(sh, Init(init))
  {
    Trace(Serving(FromConfigs(Configured(sh, init))), 1, [Ack], [Authenticated, NamesResolved])
  }

  lemma OpeningTurn(sh: Shared, d: Drivers, init: WireInit)
    requires Opens(sh, Init(init)) && Writable(d, Ack)
    ensures Next(sh, d, Fresh(), Init(init)) == OpenTrace(sh, init)
  {
  }

  lemma TurnedInit(sh: Shared, init: WireInit)
    requires Opens(sh, Init(init))
    ensures Turned(State([Init(init)], [], [Init(init)], [], Fresh()), OpenTrace(sh, init))
         == State([Init(init)], [], [], [Ack], OpenTrace(sh, init))
  {
  }

  lemma OpenedIsReachable(sh: Shared, d: Drivers, init: WireInit)
    requires Opens(sh, Init(init)) && Writable(d, Ack) && Sendable(d, Init(init))
    ensures Reachable(sh, d, JustOpened(sh, init))
  {
    var asked := State([Init(init)], [], [Init(init)], [], Fresh());
    var answered := State([Init(init)], [], [], [Ack], OpenTrace(sh, init));
    StartReachable(sh, d);
    ReachesNext(sh, d, Start(), Send(Init(init)), asked);
    OpeningTurn(sh, d, init);
    TurnedInit(sh, init);
    ReachesNext(sh, d, asked, DaemonTurn, answered);
    ReachesNext(sh, d, answered, Receive, JustOpened(sh, init));
  }

  /** A session whose first call was abandoned after it was sent. */
  ghost function CallAbandoned(sh: Shared, init: WireInit, call: WireCall): State
    requires Opens(sh, Init(init))
  {
    State([Init(init), Call(call)], [Some(Frame(Ack)), None], [Call(call)], [], OpenTrace(sh, init))
  }

  lemma AbandonedIsReachable(sh: Shared, d: Drivers, init: WireInit, call: WireCall)
    requires Opens(sh, Init(init)) && Writable(d, Ack) && Sendable(d, Init(init)) && Sendable(d, Call(call))
    ensures Reachable(sh, d, CallAbandoned(sh, init, call))
  {
    var called := State([Init(init), Call(call)], [Some(Frame(Ack))], [Call(call)], [], OpenTrace(sh, init));
    OpenedIsReachable(sh, d, init);
    ReachesNext(sh, d, JustOpened(sh, init), Send(Call(call)), called);
    ReachesNext(sh, d, called, Abandon, CallAbandoned(sh, init, call));
  }

  /** After one abandoned call, a second puts two requests in flight at once. */
  lemma TwoInFlight(sh: Shared, d: Drivers, init: WireInit, one: WireCall, two: WireCall)
    requires Opens(sh, Init(init)) && Writable(d, Ack) && Sendable(d, Init(init))
    requires Sendable(d, Call(one)) && Sendable(d, Call(two))
    ensures exists steps :: Run(sh, d, steps).requests == [Call(one), Call(two)]
  {
    var s := CallAbandoned(sh, init, one);
    var t := s.(sent := s.sent + [Call(two)], requests := [Call(one), Call(two)]);
    AbandonedIsReachable(sh, d, init, one);
    ReachesNext(sh, d, s, Send(Call(two)), t);
    var steps :| Run(sh, d, steps) == t;
    assert Run(sh, d, steps).requests == [Call(one), Call(two)];
  }

  /** The trace once the daemon has answered the abandoned call. */
  ghost function LateTrace(sh: Shared, d: Drivers, init: WireInit, call: WireCall): Trace
    requires Opens(sh, Init(init))
  {
    Next(sh, d, OpenTrace(sh, init), Call(call))
  }

  lemma LateAnswer(sh: Shared, d: Drivers, init: WireInit, call: WireCall, reply: WireResponse)
    requires Opens(sh, Init(init)) && Writable(d, reply)
    requires reply == CallBackend(d, FromConfigs(Configured(sh, init)), call, 1).1
    ensures LateTrace(sh, d, init, call).responses == [Ack, reply]
    ensures Turned(CallAbandoned(sh, init, call), LateTrace(sh, d, init, call)).responses == [reply]
    ensures Turned(CallAbandoned(sh, init, call), LateTrace(sh, d, init, call)).requests == []
  {
  }

  /**
   The loss is reachable on every opened session and for every call whose request and reply fit a
   frame: the drain that follows its abandonment reads its late answer, and the metrics are lost.
   */
  lemma AbandonedCallSpoilsDrain(sh: Shared, d: Drivers, init: WireInit, call: WireCall, reply: WireResponse)
    requires Opens(sh, Init(init)) && Writable(d, Ack) && Writable(d, reply)
    requires Sendable(d, Init(init)) && Sendable(d, Call(call)) && Sendable(d, Drain)
    requires reply == CallBackend(d, FromConfigs(Configured(sh, init)), call, 1).1
    ensures exists s :: Reachable(sh, d, s) && s.sent == [Init(init), Call(call), Drain]
                     && s.heard == [Some(Frame(Ack)), None, Some(Frame(reply))]
    ensures DrainResult(Some(Frame(reply))) == seq(|ORDER|, _ => [])
  {
    var late := Turned(CallAbandoned(sh, init, call), LateTrace(sh, d, init, call));
    LateAnswer(sh, d, init, call, reply);
    AbandonedIsReachable(sh, d, init, call);
    ReachesNext(sh, d, CallAbandoned(sh, init, call), DaemonTurn, late);
    CallAnswers(d, FromConfigs(Configured(sh, init)), call, 1);
    DrainReadsLate(sh, d, late, init, call, reply);
  }

  lemma DrainReadsLate(sh: Shared, d: Drivers, s: State, init: WireInit, call: WireCall, reply: WireResponse)
    requires Reachable(sh, d, s) && Sendable(d, Drain)
    requires s.sent == [Init(init), Call(call)] && s.heard == [Some(Frame(Ack)), None]
    requires s.requests == [] && s.responses == [reply]
    ensures exists t :: Reachable(sh, d, t) && t.sent == [Init(init), Call(call), Drain]
                     && t.heard == [Some(Frame(Ack)), None, Some(Frame(reply))]
  {
    var asked := s.(sent := s.sent + [Drain], requests := [Drain]);
    var t := asked.(heard := s.heard + [Some(Frame(reply))], responses := []);
    ReachesNext(sh, d, s, Send(Drain), asked);
    ReachesNext(sh, d, asked, Receive, t);
    assert t.sent == [Init(init), Call(call), Drain];
  }

  // -- The box's egress object ------------------------------------------------

  /** One handshaked session connection, driven a round trip at a time under its lock. */
  class SidecarEgress {
    const sh: Shared
    const d: Drivers
    var link: State
    ghost var steps: seq<Step>

    ghost predicate Valid()
      reads this
    {
      link == Run(sh, d, steps) && !Waiting(link)
    }

    constructor (sh: Shared, d: Drivers)
      ensures Valid() && this.sh == sh && this.d == d && link == Start()
    {
      this.sh, this.d := sh, d;
      link, steps := Start(), [];
    }

    method Do(step: Step)
      requires link == Run(sh, d, steps)
      modifies this
      ensures link == Run(sh, d, steps) && link == Apply(sh, d, old(link), step)
    {
      RunThen(sh, d, steps, step);
      link, steps := Apply(sh, d, link, step), steps + [step];
    }

    /**
     Writes the request, then waits for a frame; past the deadline the exchange is dropped. A request
     over the frame cap fails like a broken connection, leaving the connection as it was.
     */
    method RoundTrip(request: WireRequest, inTime: bool) returns (heard: Option<Heard>)
      requires Valid()
      modifies this
      ensures Valid()
      ensures !Sendable(d, request) ==> heard == Some(Eof) && link == old(link)
      ensures Sendable(d, request) ==>
                link.sent == old(link.sent) + [request] && link.heard == old(link.heard) + [heard] && (heard.None? <==> !inTime)
    {
      if !Sendable(d, request) {
        return Some(Eof);
      }
      HeardWithinSent(sh, d, steps, link);
      Do(Send(request));
      if !inTime {
        Do(Abandon);
        return None;
      }
      Await();
      Do(Receive);
      heard := link.heard[|link.heard| - 1];
    }

    /** The daemon takes turns until there is a frame to read or it has closed. */
    method Await()
      requires link == Run(sh, d, steps) && link.requests != []
      modifies this
      ensures link == Run(sh, d, steps) && link.sent == old(link.sent) && link.heard == old(link.heard)
      ensures link.responses != [] || link.daemon.session.Closed?
    {
      while link.responses == [] && !link.daemon.session.Closed?
        invariant link == Run(sh, d, steps)
        invariant link.sent == old(link.sent) && link.heard == old(link.heard)
        invariant link.responses != [] || link.daemon.session.Closed? || link.requests != []
        decreases |link.requests|
      {
        NextWrites(sh, d, link.daemon, link.requests[0]);
        Do(DaemonTurn);
      }
    }

    method Call(call: WireCall, inTime: bool) returns (outcome: CallOutcome)
      requires Valid()
      modifies this
      ensures Valid()
      ensures !Sendable(d, WireRequest.Call(call)) ==> outcome == IoTransport && link == old(link)
      ensures Sendable(d, WireRequest.Call(call)) ==>
                && |link.heard| == |old(link.heard)| + 1 && link.sent == old(link.sent) + [WireRequest.Call(call)]
                && ReadsAs(link.heard[|old(link.heard)|], outcome) && (outcome.IoTimeout? <==> !inTime)
      ensures Sendable(d, WireRequest.Call(call)) && inTime && Abandoned(old(link.heard)) == 0 ==>
                TellsTheAnswer(Serve(sh, d, link.sent).responses, |old(link.heard)|, outcome)
    {
      var heard := RoundTrip(WireRequest.Call(call), inTime);
      outcome := CallResult(heard);
      if Sendable(d, WireRequest.Call(call)) && inTime && Abandoned(old(link.heard)) == 0 {
        assert link.heard[..|old(link.heard)|] == old(link.heard);
        CallTellsTheAnswer(sh, d, steps, link, |old(link.heard)|, outcome);
      }
    }

    method DrainMetrics() returns (lists: seq<seq<string>>)
      requires Valid()
      modifies this
      ensures Valid()
      ensures Sendable(d, Drain) ==> |link.heard| == |old(link.heard)| + 1 && lists == DrainResult(link.heard[|old(link.heard)|])
      ensures !Sendable(d, Drain) ==> lists == seq(|ORDER|, _ => []) && link == old(link)
    {
      var heard := RoundTrip(Drain, true);
      lists := DrainResult(heard);
    }
  }
}
