/** What a daemon session guarantees on every sequence of request frames. */
module DaemonSafety {
  import opened Wrappers
  import opened Resources
  import opened Daemon
  import Framing

  /** The session that `init` opens: accepted by the authenticator, and every name resolved. */
  ghost predicate Opens(sh: Shared, request: WireRequest) {
    request.Init? && sh.reject(request.init.token).None? && Resolve(sh.table, request.init).Ok?
  }

  ghost function Configured(sh: Shared, init: WireInit): Resolved
    requires Resolve(sh.table, init).Ok?
  {
    ClampStatementTimeout(Resolve(sh.table, init).value, sh.ceilingMs)
  }

  ghost function Connections(effects: seq<Effect>, k: Kind): nat {
    if effects == [] then 0
    else Connections(effects[..|effects| - 1], k) + if effects[|effects| - 1] == Connects(k) then 1 else 0
  }

  /** Every dispatch of a slot-backed kind went to the one backend its slot holds. */
  ghost predicate SameBackend(b: Backends, effects: seq<Effect>) {
    forall i :: 0 <= i < |effects| && effects[i].Dispatches? && effects[i].kind != Amq ==>
      && effects[i].kind in b
      && b[effects[i].kind].cell == Some(Ok(effects[i].handle))
  }

  /** Everything a serving session maintains, relative to the Init that opened it. */
  ghost predicate ServingOk(sh: Shared, init: WireInit, b: Backends, effects: seq<Effect>) {
    && Opens(sh, Init(init))
    && b.Keys == init.names.Keys
    && (forall k :: k in b ==> k in Configured(sh, init) && b[k].binding == Configured(sh, init)[k])
    && |effects| >= 2 && effects[0] == Authenticated && effects[1] == NamesResolved
    && (forall i :: 0 <= i < |effects| ==> OwnBinding(b, effects[i]))
    && (forall k :: Connections(effects, k) == if k in b && k != Amq && b[k].cell.Some? then 1 else 0)
    && SameBackend(b, effects)
  }

  /** What an opened session has done, whichever backends it held at the end. */
  ghost predicate Served(sh: Shared, init: WireInit, effects: seq<Effect>) {
    exists b :: ServingOk(sh, init, b, effects)
  }

  ghost predicate TraceOk(sh: Shared, requests: seq<WireRequest>, t: Trace) {
    match t.session
    case AwaitInit => requests == [] && t == Fresh()
    case Serving(b) =>
      && requests != [] && requests[0].Init? && |t.responses| == t.read == |requests|
      && ServingOk(sh, requests[0].init, b, t.effects)
    case Closed =>
      && requests != [] && 1 <= t.read <= |requests| && t.read - 1 <= |t.responses| <= t.read
      && (Opens(sh, requests[0]) ==> |t.responses| == t.read - 1 && Served(sh, requests[0].init, t.effects))
      && (!Opens(sh, requests[0]) ==> t.read == 1 && (t.effects == [] || t.effects == [Authenticated]))
  }

  lemma {:induction false} ConnectionsAppend(a: seq<Effect>, b: seq<Effect>, k: Kind)
    ensures Connections(a + b, k) == Connections(a, k) + Connections(b, k)
  {
    if b == [] {
      assert a + b == a;
    } else {
      assert (a + b)[..|a + b| - 1] == a + b[..|b| - 1];
      ConnectionsAppend(a, b[..|b| - 1], k);
    }
  }

  /** What one call does to the slots: bindings and cells are kept, metrics grow. */
  lemma CallSlots(d: Drivers, b: Backends, call: WireCall, now: nat)
    ensures var (b', response, effects) := CallBackend(d, b, call, now);
            && b'.Keys == b.Keys
            && (forall k :: k in b ==> b'[k].binding == b[k].binding && b[k].metrics <= b'[k].metrics)
            && (forall k :: k in b && b[k].cell.Some? ==> b'[k].cell == b[k].cell)
            && (response.Reply? || response.ProtocolError?)
  {
    var (b', _, _) := CallBackend(d, b, call, now);
    var kind := KindNamed(call.name);
    if kind.Some? && kind.value in b {
      assert forall k :: k in b && k != kind.value ==> b'[k] == b[k];
    }
  }

  /** At most one connection, made before anything is dispatched. */
  lemma OpeningConnects(effects: seq<Effect>, opens: bool, k: Kind, j: Kind)
    requires opens ==> effects != [] && effects[0] == Connects(k)
    requires forall i :: 0 <= i < |effects| && (i > 0 || !opens) ==> effects[i].Dispatches?
    ensures Connections(effects, j) == if opens && j == k then 1 else 0
  {
    if opens {
      var one, tail := [Connects(k)], effects[1..];
      assert effects == one + tail && one[..0] == [];
      ConnectionsAppend(one, tail, j);
      DispatchesConnectNothing(tail, j);
    } else {
      DispatchesConnectNothing(effects, j);
    }
  }

  /** The connections one call makes: one exactly when it fills an empty cell. */
  lemma CallConnects(d: Drivers, b: Backends, call: WireCall, now: nat, j: Kind)
    ensures var (b', _, effects) := CallBackend(d, b, call, now);
            && b'.Keys == b.Keys
            && Connections(effects, j) == if j in b && j != Amq && b[j].cell.None? && b'[j].cell.Some? then 1 else 0
  {
    var (b', _, effects) := CallBackend(d, b, call, now);
    var kind := KindNamed(call.name);
    if kind.Some? && kind.value in b {
      var k := kind.value;
      CallOpens(d, b, call, now, k);
      OpeningConnects(effects, k != Amq && b[k].cell.None?, k, j);
      CallElsewhere(d, b, call, now, j);
    }
  }

  /** A call touches its own kind's slot only. */
  lemma CallElsewhere(d: Drivers, b: Backends, call: WireCall, now: nat, j: Kind)
    ensures j in b && KindNamed(call.name) != Some(j) ==>
              j in CallBackend(d, b, call, now).0 && CallBackend(d, b, call, now).0[j] == b[j]
  {
  }

  /** The dispatches one call makes go to the slot's own binding and connected backend. */
  lemma CallDispatches(d: Drivers, b: Backends, call: WireCall, now: nat)
    ensures var (b', _, effects) := CallBackend(d, b, call, now);
            && b'.Keys == b.Keys
            && forall i :: 0 <= i < |effects| && effects[i].Dispatches? ==>
                 && OwnBinding(b, effects[i])
                 && (effects[i].kind != Amq ==> b'[effects[i].kind].cell == Some(Ok(effects[i].handle)))
  {
  }

  lemma {:induction false} DispatchesConnectNothing(effects: seq<Effect>, k: Kind)
    requires forall i :: 0 <= i < |effects| ==> effects[i].Dispatches?
    ensures Connections(effects, k) == 0
  {
    if effects != [] { DispatchesConnectNothing(effects[..|effects| - 1], k); }
  }

  lemma CallOpens(d: Drivers, b: Backends, call: WireCall, now: nat, k: Kind)
    requires KindNamed(call.name) == Some(k) && k in b
    ensures var (b', response, effects) := CallBackend(d, b, call, now);
            var opens := k != Amq && b[k].cell.None?;
            && (opens ==> |effects| > 0 && effects[0] == Connects(k) && b'[k].cell.Some?)
            && (forall i :: 0 <= i < |effects| && (i > 0 || !opens) ==> effects[i].Dispatches?)
            && |effects| <= 2
            && (k == Amq || b[k].cell.Some? ==> b'[k].cell == b[k].cell)
  {
  }

  ghost predicate OwnBinding(b: Backends, e: Effect) {
    e.Dispatches? ==> e.kind in b && e.binding == b[e.kind].binding
  }

  /** Old and new dispatches go to their slots' bindings and backends when cells, once filled, stay. */
  lemma DispatchesFollow(b: Backends, b': Backends, effects: seq<Effect>, more: seq<Effect>)
    requires b'.Keys == b.Keys && forall k :: k in b ==> b'[k].binding == b[k].binding
    requires forall k :: k in b && b[k].cell.Some? ==> b'[k].cell == b[k].cell
    requires SameBackend(b, effects) && forall i :: 0 <= i < |effects| ==> OwnBinding(b, effects[i])
    requires SameBackend(b', more) && forall i :: 0 <= i < |more| ==> OwnBinding(b, more[i])
    ensures SameBackend(b', effects + more)
    ensures forall i :: 0 <= i < |effects + more| ==> OwnBinding(b', (effects + more)[i])
  {
    forall i | 0 <= i < |effects + more| ensures OwnBinding(b', (effects + more)[i]) {
      if i < |effects| {
        assert OwnBinding(b, effects[i]);
      } else {
        assert OwnBinding(b, more[i - |effects|]);
      }
    }
    forall i | 0 <= i < |effects + more| && (effects + more)[i].Dispatches? && (effects + more)[i].kind != Amq
      ensures (effects + more)[i].kind in b' && b'[(effects + more)[i].kind].cell == Some(Ok((effects + more)[i].handle))
    {
      if i < |effects| {
        assert effects[i].Dispatches?;
      } else {
        assert more[i - |effects|].Dispatches?;
      }
    }
  }

  lemma CallKeeps(sh: Shared, d: Drivers, init: WireInit, b: Backends, effects: seq<Effect>, call: WireCall, now: nat)
    requires ServingOk(sh, init, b, effects)
    ensures var (b', _, more) := CallBackend(d, b, call, now);
            ServingOk(sh, init, b', effects + more)
  {
    var (b', _, more) := CallBackend(d, b, call, now);
    CallSlots(d, b, call, now);
    CallDispatches(d, b, call, now);
    DispatchesFollow(b, b', effects, more);
    forall k ensures Connections(effects + more, k) == if k in b' && k != Amq && b'[k].cell.Some? then 1 else 0 {
      CallConnects(d, b, call, now, k);
      ConnectionsAppend(effects, more, k);
    }
  }

  lemma OpeningOk(sh: Shared, init: WireInit)
    requires Opens(sh, Init(init))
    ensures ServingOk(sh, init, FromConfigs(Configured(sh, init)), [Authenticated, NamesResolved])
  {
    ResolveExactly(sh.table, init);
    var effects := [Authenticated, NamesResolved];
    assert effects[..1] == [Authenticated] && effects[..1][..0] == [];
    forall k ensures Connections(effects, k) == 0 { assert Connections(effects[..1], k) == 0; }
  }

  lemma InitKeeps(sh: Shared, d: Drivers, request: WireRequest)
    ensures TraceOk(sh, [request], Next(sh, d, Fresh(), request))
  {
    if Opens(sh, request) {
      OpeningOk(sh, request.init);
      var t := Next(sh, d, Fresh(), request);
      assert t.effects == [Authenticated, NamesResolved];
    }
  }

  lemma ServingKeeps(sh: Shared, d: Drivers, init: WireInit, t: Trace, request: WireRequest)
    requires t.session.Serving? && ServingOk(sh, init, t.session.backends, t.effects)
    ensures var after := Next(sh, d, t, request);
            && Served(sh, init, after.effects)
            && (after.session.Serving? ==> ServingOk(sh, init, after.session.backends, after.effects))
  {
    var b := t.session.backends;
    match request
    case Call(call) => CallKeeps(sh, d, init, b, t.effects, call, t.read);
    case Drain => assert t.effects + [] == t.effects;
    case Init(_) => assert t.effects + [] == t.effects;
  }

  /** The invariant of a session, for every sequence of frames. */
  lemma {:induction false} SessionOk(sh: Shared, d: Drivers, requests: seq<WireRequest>)
    ensures TraceOk(sh, requests, Serve(sh, d, requests))
  {
    if requests != [] {
      var before, last := requests[..|requests| - 1], requests[|requests| - 1];
      SessionOk(sh, d, before);
      var t := Serve(sh, d, before);
      match t.session
      case AwaitInit =>
        InitKeeps(sh, d, last);
        assert requests == [last];
      case Serving(b) =>
        assert before[0] == requests[0];
        ServingKeeps(sh, d, before[0].init, t, last);
      case Closed =>
        assert before[0] == requests[0];
    }
  }

  // -- The promises -----------------------------------------------------------

  /** The response the daemon computes for frame `k`, whether or not it can be written. */
  ghost function ReplyTo(sh: Shared, d: Drivers, requests: seq<WireRequest>, k: nat): WireResponse
    requires k < |requests|
  {
    Handle(sh, d, Serve(sh, d, requests[..k]).session, requests[k], k).1
  }

  ghost function Replies(sh: Shared, d: Drivers, requests: seq<WireRequest>): (r: seq<WireResponse>)
    ensures |r| == |requests| && forall k :: 0 <= k < |r| ==> r[k] == ReplyTo(sh, d, requests, k)
  {
    seq(|requests|, k requires 0 <= k < |requests| => ReplyTo(sh, d, requests, k))
  }

  lemma RepliesSnoc(sh: Shared, d: Drivers, requests: seq<WireRequest>)
    requires requests != []
    ensures var n := |requests| - 1;
            Replies(sh, d, requests) == Replies(sh, d, requests[..n]) + [ReplyTo(sh, d, requests, n)]
  {
    var n := |requests| - 1;
    forall k | 0 <= k < n ensures Replies(sh, d, requests)[k] == Replies(sh, d, requests[..n])[k] {
      assert requests[..n][..k] == requests[..k];
    }
  }

  /** Frame k's response is the one computed for it, and only the last frame read can go unanswered. */
  ghost predicate Replied(d: Drivers, replies: seq<WireResponse>, t: Trace) {
    && |t.responses| <= t.read <= |replies|
    && t.responses == replies[..|t.responses|]
    && (forall k :: 0 <= k < |t.responses| ==> Writable(d, replies[k]))
    && (|t.responses| < t.read ==> !Writable(d, replies[t.read - 1]))
  }

  lemma OpenReadsAll(sh: Shared, d: Drivers, requests: seq<WireRequest>)
    ensures var t := Serve(sh, d, requests); !t.session.Closed? ==> |t.responses| == t.read == |requests|
  {
    SessionOk(sh, d, requests);
  }

  lemma {:induction false} RepliesExact(sh: Shared, d: Drivers, requests: seq<WireRequest>)
    ensures Replied(d, Replies(sh, d, requests), Serve(sh, d, requests))
    decreases |requests|
  {
    if requests != [] {
      var n := |requests| - 1;
      var t := Serve(sh, d, requests[..n]);
      RepliesExact(sh, d, requests[..n]);
      OpenReadsAll(sh, d, requests[..n]);
      RepliesSnoc(sh, d, requests);
      var reply := ReplyTo(sh, d, requests, n);
      LastReply(sh, d, t, requests[n], reply);
      RepliedNext(d, Replies(sh, d, requests[..n]), t, reply, Serve(sh, d, requests));
    }
  }

  lemma RepliedNext(d: Drivers, replies: seq<WireResponse>, t: Trace, reply: WireResponse, after: Trace)
    requires Replied(d, replies, t) && (!t.session.Closed? ==> |t.responses| == t.read == |replies|)
    requires t.session.Closed? ==> after == t
    requires !t.session.Closed? ==> after.read == t.read + 1
    requires !t.session.Closed? ==> after.responses == if Writable(d, reply) then t.responses + [reply] else t.responses
    ensures Replied(d, replies + [reply], after)
  {
    var more := replies + [reply];
    assert more[..|t.responses|] == t.responses;
  }

  lemma LastReply(sh: Shared, d: Drivers, t: Trace, request: WireRequest, reply: WireResponse)
    requires !t.session.Closed? ==> reply == Handle(sh, d, t.session, request, t.read).1
    ensures var after := Next(sh, d, t, request);
            if t.session.Closed? then after == t
            else after.read == t.read + 1 && after.responses == if Writable(d, reply) then t.responses + [reply] else t.responses
  {
  }

  /**
   Each frame read is answered exactly once, by the response computed for it, if and only if every
   response so far fits a frame; the first that does not ends the session with its frame unanswered.
   Frames are read until the client closes, the first frame opens no session, or that happens.
   */
  lemma OneResponsePerFrame(sh: Shared, d: Drivers, requests: seq<WireRequest>)
    ensures var t := Serve(sh, d, requests);
            && t.read <= |requests| && (t.read < |requests| ==> t.session.Closed?)
            && (|t.responses| == t.read <==> forall k :: 0 <= k < t.read ==> Writable(d, ReplyTo(sh, d, requests, k)))
            && (|t.responses| != t.read ==> |t.responses| == t.read - 1 && t.session.Closed?)
            && (forall k :: 0 <= k < |t.responses| ==> t.responses[k] == ReplyTo(sh, d, requests, k))
    ensures var t := Serve(sh, d, requests);
            && (t.session.Closed? <==> requests != [] && (!Opens(sh, requests[0]) || |t.responses| != t.read))
            && (requests != [] && !Opens(sh, requests[0]) ==> t.read == 1)
  {
    SessionOk(sh, d, requests);
    RepliesExact(sh, d, requests);
  }

  /**
   Frame k is answered if and only if the session was opened (or it is the first frame) and the
   responses to it and to every frame before it fit a frame.
   */
  lemma FrameAnsweredExactly(sh: Shared, d: Drivers, requests: seq<WireRequest>, k: nat)
    requires k < |requests|
    ensures k < |Serve(sh, d, requests).responses|
       <==> (k == 0 || Opens(sh, requests[0])) && forall j :: 0 <= j <= k ==> Writable(d, ReplyTo(sh, d, requests, j))
  {
    TraceEnds(sh, d, requests);
    RepliesExact(sh, d, requests);
    AnsweredIn(d, Replies(sh, d, requests), Serve(sh, d, requests), Opens(sh, requests[0]), k);
  }

  lemma TraceEnds(sh: Shared, d: Drivers, requests: seq<WireRequest>)
    requires requests != []
    ensures Ends(Serve(sh, d, requests), |requests|, Opens(sh, requests[0]))
  {
    SessionOk(sh, d, requests);
  }

  /** How many frames a session has read and answered, by the way it stands. */
  ghost predicate Ends(t: Trace, frames: nat, opens: bool) {
    && (!t.session.Closed? ==> opens && |t.responses| == t.read == frames)
    && (t.session.Closed? && opens ==> |t.responses| == t.read - 1)
    && (!opens ==> t.read == 1)
  }

  lemma AnsweredIn(d: Drivers, replies: seq<WireResponse>, t: Trace, opens: bool, k: nat)
    requires Replied(d, replies, t) && Ends(t, |replies|, opens) && k < |replies|
    ensures k < |t.responses| <==> (k == 0 || opens) && forall j :: 0 <= j <= k ==> Writable(d, replies[j])
  {
    if |t.responses| <= k && t.read > |t.responses| { assert !Writable(d, replies[t.read - 1]); }
  }

  /**
   The promise fails on every open session for every request whose reply exceeds the cap: the reply
   is not written and nothing after it is read, although what the request asked for was done.
   */
  lemma OverCapUnanswered(sh: Shared, d: Drivers, requests: seq<WireRequest>, request: WireRequest, more: seq<WireRequest>)
    requires Serve(sh, d, requests).session.Serving?
    requires !Writable(d, Handle(sh, d, Serve(sh, d, requests).session, request, |requests|).1)
    ensures var before, after := Serve(sh, d, requests), Serve(sh, d, requests + [request] + more);
            && after.session.Closed? && after.read == |requests| + 1 && after.responses == before.responses
            && after.effects == before.effects + Handle(sh, d, before.session, request, |requests|).2
  {
    SessionOk(sh, d, requests);
    var at, all := requests + [request], requests + [request] + more;
    assert at[..|requests|] == requests && all[..|at|] == at;
    ClosedForGood(sh, d, all, |at|);
  }

  /**
   Such a session exists for every store that holds a large value: a redis read of it is performed,
   and the box gets no answer to it.
   */
  lemma LargeValueUnanswered(sh: Shared, d: Drivers, init: WireInit, call: WireCall, handle: nat, args: string,
                             value: string, metric: string)
    requires Opens(sh, Init(init)) && Writable(d, Ack) && Redis in Configured(sh, init) && call.name == "redis"
    requires var binding := Configured(sh, init)[Redis];
             && d.connect(Redis, binding, 1) == Ok(handle) && d.unpack(Redis, call.payload) == Ok(args)
             && d.perform(Redis, binding, handle, call.action, args, 1) == Done(Ok(value), metric)
    requires |d.encode(Reply(Ok(value)))| > Framing.MAX_FRAME_BYTES
    ensures var t := Serve(sh, d, [Init(init), Call(call)]);
            && t.responses == [Ack] && t.session.Closed? && t.read == 2
            && t.effects != [] && t.effects[|t.effects| - 1] == Dispatches(Redis, handle, Configured(sh, init)[Redis])
  {
    var start := Serve(sh, d, [Init(init)]);
    OpenedBy(sh, d, init);
    var reply := Handle(sh, d, start.session, Call(call), 1);
    assert reply.1 == Reply(Ok(value));
    OverCapUnanswered(sh, d, [Init(init)], Call(call), []);
    assert [Init(init)] + [Call(call)] + [] == [Init(init), Call(call)];
  }

  /** The trace of a session that has just been opened. */
  lemma OpenedBy(sh: Shared, d: Drivers, init: WireInit)
    requires Opens(sh, Init(init)) && Writable(d, Ack)
    ensures Serve(sh, d, [Init(init)])
         == Trace(Serving(FromConfigs(Configured(sh, init))), 1, [Ack], [Authenticated, NamesResolved])
    ensures Configured(sh, init).Keys == init.names.Keys
  {
    ResolveExactly(sh.table, init);
    var first := [Init(init)];
    assert first[..0] == [];
  }

  lemma ReachedWhenOpen(sh: Shared, requests: seq<WireRequest>, t: Trace, i: nat)
    requires TraceOk(sh, requests, t) && i < |t.effects| && (t.effects[i].Dispatches? || t.effects[i].Connects?)
    ensures i >= 2 && t.effects[..2] == [Authenticated, NamesResolved]
    ensures requests != [] && Opens(sh, requests[0]) && Served(sh, requests[0].init, t.effects)
  {
  }

  lemma DispatchBinding(sh: Shared, init: WireInit, effects: seq<Effect>, i: nat)
    requires Served(sh, init, effects) && i < |effects| && effects[i].Dispatches?
    ensures var e := effects[i];
            && e.kind in init.names && init.names[e.kind] in sh.table
            && sh.table[init.names[e.kind]].tenant == init.tenant
            && e.binding.settings == sh.table[init.names[e.kind]].binding.settings
            && e.binding.kind == e.kind
  {
    ResolveExactly(sh.table, init);
    var b :| ServingOk(sh, init, b, effects);
    assert OwnBinding(b, effects[i]);
    assert effects[i].binding == Configured(sh, init)[effects[i].kind];
  }

  /**
   A backend is reached only after the token was accepted and every name resolved, and only the
   backend its own tenant's binding names (with the statement timeout clamped).
   */
  lemma DispatchOnlyWhenAuthorised(sh: Shared, d: Drivers, requests: seq<WireRequest>, i: nat)
    requires i < |Serve(sh, d, requests).effects|
    requires Serve(sh, d, requests).effects[i].Dispatches? || Serve(sh, d, requests).effects[i].Connects?
    ensures i >= 2 && Serve(sh, d, requests).effects[..2] == [Authenticated, NamesResolved]
    ensures requests != [] && Opens(sh, requests[0])
    ensures Serve(sh, d, requests).effects[i].Dispatches? ==>
              var e, init := Serve(sh, d, requests).effects[i], requests[0].init;
              && e.kind in init.names && init.names[e.kind] in sh.table
              && sh.table[init.names[e.kind]].tenant == init.tenant
              && e.binding.settings == sh.table[init.names[e.kind]].binding.settings
              && e.binding.kind == e.kind
  {
    SessionOk(sh, d, requests);
    var t := Serve(sh, d, requests);
    ReachedWhenOpen(sh, requests, t, i);
    if t.effects[i].Dispatches? { DispatchBinding(sh, requests[0].init, t.effects, i); }
  }

  lemma TraceConnects(sh: Shared, requests: seq<WireRequest>, t: Trace, k: Kind)
    requires TraceOk(sh, requests, t) && k != Amq
    ensures Connections(t.effects, k) <= 1 && OneHandle(t.effects, k)
  {
    if requests != [] && Opens(sh, requests[0]) {
      var b :| ServingOk(sh, requests[0].init, b, t.effects);
      ServingConnects(sh, requests[0].init, b, t.effects, k);
    } else {
      NothingConnects(t.effects, k);
    }
  }

  lemma NothingConnects(effects: seq<Effect>, k: Kind)
    requires effects == [] || effects == [Authenticated]
    ensures Connections(effects, k) == 0
  {
    if effects != [] { assert effects[..0] == []; }
  }

  lemma ServingConnects(sh: Shared, init: WireInit, b: Backends, effects: seq<Effect>, k: Kind)
    requires ServingOk(sh, init, b, effects) && k != Amq
    ensures Connections(effects, k) <= 1 && OneHandle(effects, k)
  {
    CellIsHandle(b, effects, k);
  }

  lemma CellIsHandle(b: Backends, effects: seq<Effect>, k: Kind)
    requires SameBackend(b, effects) && k != Amq
    ensures OneHandle(effects, k)
  {
  }

  /** All dispatches of a kind go to one backend. */
  ghost predicate OneHandle(effects: seq<Effect>, k: Kind) {
    forall i, j :: 0 <= i < |effects| && 0 <= j < |effects| && Reaches(effects[i], k) && Reaches(effects[j], k) ==>
      effects[i].handle == effects[j].handle
  }

  ghost predicate Reaches(e: Effect, k: Kind) { e.Dispatches? && e.kind == k }

  /**
   Each slot-backed kind connects at most once per session, and all its dispatches reach the same
   backend: the one connection's.
   */
  lemma ConnectOnce(sh: Shared, d: Drivers, requests: seq<WireRequest>, k: Kind)
    ensures k != Amq ==> Connections(Serve(sh, d, requests).effects, k) <= 1
    ensures k != Amq ==> OneHandle(Serve(sh, d, requests).effects, k)
  {
    SessionOk(sh, d, requests);
    if k != Amq { TraceConnects(sh, requests, Serve(sh, d, requests), k); }
  }

  /** The session holds a failed connect of kind `k`. */
  ghost predicate HoldsError(s: Session, k: Kind, e: EgressError) {
    s.Serving? && k in s.backends && s.backends[k].cell == Some(Err(e))
  }

  lemma ErrorKept(sh: Shared, d: Drivers, t: Trace, request: WireRequest, k: Kind, e: EgressError)
    requires t.session.Closed? || HoldsError(t.session, k, e)
    ensures var s := Next(sh, d, t, request).session; s.Closed? || HoldsError(s, k, e)
  {
    if t.session.Serving? && request.Call? { CallSlots(d, t.session.backends, request.call, t.read); }
  }

  /** A failed connect is remembered for as long as the session is open, whatever is asked of it. */
  lemma {:induction false} ConnectErrorIsFinal(sh: Shared, d: Drivers, requests: seq<WireRequest>, more: seq<WireRequest>,
                                               k: Kind, e: EgressError)
    requires HoldsError(Serve(sh, d, requests).session, k, e)
    ensures var s := Serve(sh, d, requests + more).session; s.Closed? || HoldsError(s, k, e)
    decreases |more|
  {
    if more == [] {
      assert requests + more == requests;
    } else {
      var before, last := more[..|more| - 1], more[|more| - 1];
      ConnectErrorIsFinal(sh, d, requests, before, k, e);
      assert requests + more == requests + before + [last];
      ServeSnoc(sh, d, requests + before, last);
      ErrorKept(sh, d, Serve(sh, d, requests + before), last, k, e);
    }
  }

  /** Every call of that kind is then answered with that same error and reaches nothing. */
  lemma CachedErrorAnswers(sh: Shared, d: Drivers, s: Session, k: Kind, e: EgressError, call: WireCall, now: nat)
    requires HoldsError(s, k, e) && KindNamed(call.name) == Some(k) && k != Amq
    ensures Handle(sh, d, s, Call(call), now) == (s, Reply(Err(e)), [])
  {
    assert s.backends == s.backends[k := s.backends[k]];
  }

  /** Metric lists only grow: `later` extends each of `earlier`'s lists. */
  ghost predicate Extends(earlier: seq<seq<string>>, later: seq<seq<string>>) {
    |earlier| == |later| && forall i :: 0 <= i < |earlier| ==> earlier[i] <= later[i]
  }

  /** While a session is open its metric lists extend every earlier drain. */
  lemma {:induction false} DrainsExtend(sh: Shared, d: Drivers, requests: seq<WireRequest>, i: nat)
    requires i < |Serve(sh, d, requests).responses| && Serve(sh, d, requests).responses[i].Metrics?
    ensures var s := Serve(sh, d, requests).session;
            s.Serving? ==> Extends(Serve(sh, d, requests).responses[i].lists, MetricsOf(s.backends))
  {
    var before, last := requests[..|requests| - 1], requests[|requests| - 1];
    var t := Serve(sh, d, before);
    if i < |t.responses| {
      DrainsExtend(sh, d, before, i);
      Started(sh, d, before);
      ListsGrow(sh, d, t, last, t.responses[i].lists);
    } else {
      DrainAnswers(sh, d, t, last);
    }
  }

  /** Whatever its first frame is, a session does not wait for another first frame. */
  lemma Started(sh: Shared, d: Drivers, requests: seq<WireRequest>)
    requires requests != []
    ensures !Serve(sh, d, requests).session.AwaitInit?
  {
    SessionOk(sh, d, requests);
  }

  lemma ListsGrow(sh: Shared, d: Drivers, t: Trace, request: WireRequest, lists: seq<seq<string>>)
    requires !t.session.AwaitInit? && (t.session.Serving? ==> Extends(lists, MetricsOf(t.session.backends)))
    ensures var s := Next(sh, d, t, request).session; s.Serving? ==> Extends(lists, MetricsOf(s.backends))
  {
    if t.session.Serving? && request.Call? { CallSlots(d, t.session.backends, request.call, t.read); }
  }

  /** The only answer that carries metrics is a drain's, and it carries the session's own. */
  lemma DrainAnswers(sh: Shared, d: Drivers, t: Trace, request: WireRequest)
    ensures var after := Next(sh, d, t, request);
            |after.responses| > |t.responses| && after.responses[|t.responses|].Metrics? ==>
              after.session.Serving? && after.responses[|t.responses|].lists == MetricsOf(after.session.backends)
  {
    if t.session.Serving? && request.Call? { CallSlots(d, t.session.backends, request.call, t.read); }
  }

  lemma {:induction false} ResponsesArePrefix(sh: Shared, d: Drivers, requests: seq<WireRequest>, n: nat)
    requires n <= |requests|
    ensures Serve(sh, d, requests[..n]).responses <= Serve(sh, d, requests).responses
  {
    if n < |requests| {
      var before := requests[..|requests| - 1];
      ResponsesArePrefix(sh, d, before, n);
      assert before[..n] == requests[..n];
    } else {
      assert requests[..n] == requests;
    }
  }

  /** Every drain's lists are prefixes of any later drain's. */
  lemma LaterDrainsExtend(sh: Shared, d: Drivers, requests: seq<WireRequest>, i: nat, j: nat)
    requires i < j < |Serve(sh, d, requests).responses|
    requires Serve(sh, d, requests).responses[i].Metrics? && Serve(sh, d, requests).responses[j].Metrics?
    ensures Extends(Serve(sh, d, requests).responses[i].lists, Serve(sh, d, requests).responses[j].lists)
  {
    AnsweredWhileServing(sh, d, requests, j);
    var upTo := requests[..j];
    ResponsesArePrefix(sh, d, requests, j);
    DrainsExtend(sh, d, upTo, i);
    var t := Serve(sh, d, upTo);
    if requests[j].Call? { CallSlots(d, t.session.backends, requests[j].call, j); }
  }

  /** A frame after the first is answered only by a session that is still open. */
  lemma AnsweredWhileServing(sh: Shared, d: Drivers, requests: seq<WireRequest>, j: nat)
    requires 0 < j < |Serve(sh, d, requests).responses|
    ensures j < |requests| && Serve(sh, d, requests).responses[j] == ReplyTo(sh, d, requests, j)
    ensures Serve(sh, d, requests[..j]).session.Serving?
    ensures |Serve(sh, d, requests[..j]).responses| == Serve(sh, d, requests[..j]).read == j
  {
    RepliesExact(sh, d, requests);
    var upTo := requests[..j];
    SessionOk(sh, d, upTo);
    if Serve(sh, d, upTo).session.Closed? {
      RepliesExact(sh, d, upTo);
      ClosedForGood(sh, d, requests, j);
    }
  }

  /** Two frame sequences that differ at most in the contents of Inits after the first frame. */
  ghost predicate SameButLaterInits(a: seq<WireRequest>, b: seq<WireRequest>) {
    && |a| == |b|
    && (forall i :: 0 <= i < |a| ==> a[i] == b[i] || (i > 0 && a[i].Init? && b[i].Init?))
  }

  lemma SameNext(sh: Shared, d: Drivers, t: Trace, x: WireRequest, y: WireRequest)
    requires x == y || (!t.session.AwaitInit? && x.Init? && y.Init?)
    ensures Next(sh, d, t, x) == Next(sh, d, t, y)
  {
  }

  /** A later Init's content is ignored: it changes no response, no effect and no state. */
  lemma {:induction false} LaterInitIgnored(sh: Shared, d: Drivers, a: seq<WireRequest>, b: seq<WireRequest>)
    requires SameButLaterInits(a, b)
    ensures Serve(sh, d, a) == Serve(sh, d, b)
  {
    if a != [] {
      var n := |a| - 1;
      LaterInitIgnored(sh, d, a[..n], b[..n]);
      if n > 0 { Started(sh, d, a[..n]); }
      SameNext(sh, d, Serve(sh, d, a[..n]), a[n], b[n]);
    }
  }

  /**
   Non-interference: two daemons whose tables agree on a tenant's own bindings give that tenant's
   sessions identical responses and effects, errors included.
   */
  lemma {:induction false} TenantsDoNotInterfere(one: Shared, other: Shared, d: Drivers, requests: seq<WireRequest>)
    requires one.ceilingMs == other.ceilingMs && one.reject == other.reject
    requires requests != [] && requests[0].Init? ==>
               Restrict(one.table, requests[0].init.tenant) == Restrict(other.table, requests[0].init.tenant)
    ensures Serve(one, d, requests) == Serve(other, d, requests)
  {
    if requests != [] {
      var before, last := requests[..|requests| - 1], requests[|requests| - 1];
      if before != [] {
        assert before[0] == requests[0];
        Started(one, d, before);
      }
      TenantsDoNotInterfere(one, other, d, before);
      SameDaemon(one, other, d, Serve(one, d, before), last);
    }
  }

  lemma SameDaemon(one: Shared, other: Shared, d: Drivers, t: Trace, request: WireRequest)
    requires one.ceilingMs == other.ceilingMs && one.reject == other.reject
    requires t.session.AwaitInit? && request.Init? ==>
               Restrict(one.table, request.init.tenant) == Restrict(other.table, request.init.tenant)
    ensures Next(one, d, t, request) == Next(other, d, t, request)
  {
    if t.session.AwaitInit? && request.Init? { ResolveScoped(one.table, other.table, request.init); }
  }
}
