/** Where a call goes, by the name it carries, on every session (`crates/fabric-backends/src/backendset.rs`). */
module DaemonRouting {
  import opened Wrappers
  import opened Resources
  import opened Daemon
  import opened DaemonSafety

  /** The name a capability kind is called by. */
  ghost predicate Spells(name: string, k: Kind) {
    match k
    case Db => name == "db"
    case Mongo => name == "mongo"
    case Mail => name == "mail"
    case Redis => name == "redis"
    case Amq => name == "amq"
    case Auth => name == "auth"
  }

  ghost predicate IsKindName(name: string) {
    name == "db" || name == "mongo" || name == "mail" || name == "redis" || name == "amq" || name == "auth"
  }

  lemma NamesSpelled(name: string, k: Kind)
    ensures KindNamed(name) == Some(k) <==> Spells(name, k)
    ensures KindNamed(name).None? <==> !IsKindName(name)
  {
    assert "db"[0] == 'd' && "mongo"[1] == 'o' && "mail"[1] == 'a' && "redis"[0] == 'r' && "amq"[1] == 'm' && "auth"[1] == 'u';
    assert |"db"| == 2 && |"mongo"| == 5 && |"mail"| == 4 && |"redis"| == 5 && |"amq"| == 3 && |"auth"| == 4;
  }

  /** An open session, and what one more call makes of it. */
  ghost predicate Calls(sh: Shared, d: Drivers, requests: seq<WireRequest>, b: Backends, call: WireCall, after: Trace) {
    Serve(sh, d, requests).session == Serving(b) && after == Serve(sh, d, requests + [Call(call)])
  }

  ghost function ReplyOf(sh: Shared, d: Drivers, requests: seq<WireRequest>, call: WireCall): WireResponse {
    ReplyTo(sh, d, requests + [Call(call)], |requests|)
  }

  ghost function NewEffects(sh: Shared, d: Drivers, requests: seq<WireRequest>, after: Trace): seq<Effect> {
    var before := Serve(sh, d, requests).effects;
    if |before| <= |after.effects| then after.effects[|before|..] else []
  }

  /** A call on an open session, reduced to the backends. */
  lemma CallServed(sh: Shared, d: Drivers, requests: seq<WireRequest>, b: Backends, call: WireCall, after: Trace)
    requires Calls(sh, d, requests, b, call, after)
    ensures var (b', response, effects) := CallBackend(d, b, call, |requests|);
            && ReplyOf(sh, d, requests, call) == response
            && NewEffects(sh, d, requests, after) == effects
            && after.session == if Writable(d, response) then Serving(b') else Closed
  {
    var all := requests + [Call(call)];
    assert all[..|requests|] == requests && all[|requests|] == Call(call);
    ServeSnoc(sh, d, requests, Call(call));
    OpenReadsAll(sh, d, requests);
  }

  lemma EffectsSpelled(d: Drivers, b: Backends, call: WireCall, now: nat, i: nat)
    requires i < |CallBackend(d, b, call, now).2|
    ensures var e := CallBackend(d, b, call, now).2[i];
            (e.Connects? || e.Dispatches?) && KindNamed(call.name) == Some(e.kind)
  {
  }

  /** Whatever a call connects or reaches is of the kind its name spells. */
  lemma EffectsFollowName(sh: Shared, d: Drivers, requests: seq<WireRequest>, b: Backends, call: WireCall, after: Trace, i: nat)
    requires Calls(sh, d, requests, b, call, after) && i < |NewEffects(sh, d, requests, after)|
    ensures var e := NewEffects(sh, d, requests, after)[i];
            (e.Connects? || e.Dispatches?) && Spells(call.name, e.kind)
  {
    CallServed(sh, d, requests, b, call, after);
    EffectsSpelled(d, b, call, |requests|, i);
    NamesSpelled(call.name, NewEffects(sh, d, requests, after)[i].kind);
  }

  /** A name that spells no kind reaches nothing and is answered as unknown. */
  lemma UnknownNameReachesNothing(sh: Shared, d: Drivers, requests: seq<WireRequest>, b: Backends, call: WireCall, after: Trace)
    requires Calls(sh, d, requests, b, call, after) && !IsKindName(call.name)
    ensures NewEffects(sh, d, requests, after) == []
    ensures var reply := ReplyOf(sh, d, requests, call);
            reply.Reply? && reply.result.Err? && reply.result.error.source == "engine" && reply.result.error.code == "IO_UNKNOWN"
  {
    CallServed(sh, d, requests, b, call, after);
    NamesSpelled(call.name, Db);
  }

  ghost predicate NotConfiguredIs(k: Kind, code: string) {
    match k
    case Db => code == "DB_NOT_CONFIGURED"
    case Mongo => code == "MONGO_NOT_CONFIGURED"
    case Mail => code == "MAIL_NOT_CONFIGURED"
    case Redis => code == "REDIS_NOT_CONFIGURED"
    case Amq => code == "AMQ_NOT_CONFIGURED"
    case Auth => code == "AUTH_NOT_CONFIGURED"
  }

  /** A kind the session did not open reaches nothing, and the error names the kind. */
  lemma UnconfiguredReachesNothing(sh: Shared, d: Drivers, requests: seq<WireRequest>, b: Backends, call: WireCall, after: Trace,
                                   k: Kind)
    requires Calls(sh, d, requests, b, call, after) && Spells(call.name, k) && k !in b
    ensures NewEffects(sh, d, requests, after) == []
    ensures var reply := ReplyOf(sh, d, requests, call);
            && reply.Reply? && reply.result.Err? && reply.result.error.source == call.name
            && NotConfiguredIs(k, reply.result.error.code)
  {
    CallServed(sh, d, requests, b, call, after);
    NamesSpelled(call.name, k);
  }

  /** The backend a slot would hand out now: the one it holds, or the connection it makes. */
  ghost function HandleOf(d: Drivers, k: Kind, slot: Slot, now: nat): Result<nat, EgressError> {
    if k == Amq then Ok(0)
    else if slot.cell.Some? then slot.cell.value
    else d.connect(k, slot.binding, now)
  }

  ghost function FirstUse(k: Kind, slot: Slot): seq<Effect> {
    if k != Amq && slot.cell.None? then [Connects(k)] else []
  }

  /** A backend that cannot be had is reported with its own error. */
  lemma ConnectFailureAnswered(sh: Shared, d: Drivers, requests: seq<WireRequest>, b: Backends, call: WireCall, after: Trace,
                               k: Kind, e: EgressError)
    requires Calls(sh, d, requests, b, call, after) && Spells(call.name, k) && k in b
    requires HandleOf(d, k, b[k], |requests|) == Err(e)
    ensures ReplyOf(sh, d, requests, call) == Reply(Err(e))
    ensures NewEffects(sh, d, requests, after) == FirstUse(k, b[k])
  {
    CallServed(sh, d, requests, b, call, after);
    NamesSpelled(call.name, k);
  }

  lemma BadPayloadAnswered(sh: Shared, d: Drivers, requests: seq<WireRequest>, b: Backends, call: WireCall, after: Trace,
                           k: Kind, handle: nat, e: EgressError)
    requires Calls(sh, d, requests, b, call, after) && Spells(call.name, k) && k in b
    requires HandleOf(d, k, b[k], |requests|) == Ok(handle) && d.unpack(k, call.payload) == Err(e)
    ensures ReplyOf(sh, d, requests, call) == Reply(Err(e))
    ensures NewEffects(sh, d, requests, after) == FirstUse(k, b[k])
  {
    CallServed(sh, d, requests, b, call, after);
    NamesSpelled(call.name, k);
    assert FirstUse(k, b[k]) + [] == FirstUse(k, b[k]);
  }

  /** The mail sub-cap leaves no send over. */
  ghost predicate MailSpent(k: Kind, slot: Slot) {
    k == Mail && slot.binding.maxSends > 0 && |slot.metrics| >= slot.binding.maxSends
  }

  lemma SpentMailAnswered(sh: Shared, d: Drivers, requests: seq<WireRequest>, b: Backends, call: WireCall, after: Trace,
                          handle: nat, args: string)
    requires Calls(sh, d, requests, b, call, after) && Spells(call.name, Mail) && Mail in b && MailSpent(Mail, b[Mail])
    requires HandleOf(d, Mail, b[Mail], |requests|) == Ok(handle) && d.unpack(Mail, call.payload) == Ok(args)
    ensures NewEffects(sh, d, requests, after) == FirstUse(Mail, b[Mail])
    ensures var reply := ReplyOf(sh, d, requests, call);
            reply.Reply? && reply.result.Err? && reply.result.error.code == "MAIL_OP_LIMIT"
  {
    CallServed(sh, d, requests, b, call, after);
    NamesSpelled(call.name, Mail);
    assert FirstUse(Mail, b[Mail]) + [] == FirstUse(Mail, b[Mail]);
  }

  /**
   A call by a kind's name on a session with that kind open reaches that kind's backend, once, with the
   call's action and unpacked payload; its result is the answer, and its metric joins that kind's list
   and no other. A panic is answered as a protocol error and records nothing.
   */
  lemma CallReachesItsKind(sh: Shared, d: Drivers, requests: seq<WireRequest>, b: Backends, call: WireCall, after: Trace,
                           k: Kind, handle: nat, args: string)
    requires Calls(sh, d, requests, b, call, after) && Spells(call.name, k) && k in b && !MailSpent(k, b[k])
    requires HandleOf(d, k, b[k], |requests|) == Ok(handle) && d.unpack(k, call.payload) == Ok(args)
    ensures NewEffects(sh, d, requests, after) == FirstUse(k, b[k]) + [Dispatches(k, handle, b[k].binding)]
    ensures var performed := d.perform(k, b[k].binding, handle, call.action, args, |requests|);
            var reply := ReplyOf(sh, d, requests, call);
            if performed.Panicked? then reply.ProtocolError? else reply == Reply(performed.result)
    ensures var performed := d.perform(k, b[k].binding, handle, call.action, args, |requests|);
            after.session.Serving? ==>
              && after.session.backends.Keys == b.Keys
              && after.session.backends[k].metrics == b[k].metrics + (if performed.Done? then [performed.metric] else [])
              && forall j :: j in b && j != k ==> after.session.backends[j] == b[j]
  {
    CallServed(sh, d, requests, b, call, after);
    NamesSpelled(call.name, k);
  }

  // -- The mail sub-cap over a session ----------------------------------------

  ghost predicate MailWithin(b: Backends) {
    Mail in b && b[Mail].binding.maxSends > 0 ==> |b[Mail].metrics| <= b[Mail].binding.maxSends
  }

  lemma CallKeepsMail(d: Drivers, b: Backends, call: WireCall, now: nat)
    requires MailWithin(b)
    ensures MailWithin(CallBackend(d, b, call, now).0)
  {
  }

  lemma NextKeepsMail(sh: Shared, d: Drivers, t: Trace, request: WireRequest)
    requires t.session.Serving? ==> MailWithin(t.session.backends)
    ensures var s := Next(sh, d, t, request).session; s.Serving? ==> MailWithin(s.backends)
  {
    if t.session.Serving? && request.Call? { CallKeepsMail(d, t.session.backends, request.call, t.read); }
  }

  /** No session ever records more sends than its mail binding allows. */
  lemma {:induction false} MailNeverOverspent(sh: Shared, d: Drivers, requests: seq<WireRequest>)
    ensures var s := Serve(sh, d, requests).session; s.Serving? ==> MailWithin(s.backends)
  {
    if requests != [] {
      var n := |requests| - 1;
      MailNeverOverspent(sh, d, requests[..n]);
      NextKeepsMail(sh, d, Serve(sh, d, requests[..n]), requests[n]);
    }
  }

  // -- The first frame --------------------------------------------------------

  /**
   What the first frame is answered with, from the frame, the authenticator and the table: a protocol
   error for anything but an Init, the authenticator's own rejection, the resolution failure, or an Ack.
   */
  lemma FirstFrameAnswered(sh: Shared, d: Drivers, request: WireRequest)
    ensures var reply := ReplyTo(sh, d, [request], 0);
            && (!request.Init? ==> reply.ProtocolError?)
            && (request.Init? ==>
                var rejected := sh.reject(request.init.token);
                && (rejected.Some? ==> reply == InitError(rejected.value.code, rejected.value.message))
                && (rejected.None? && (forall k :: Granted(sh.table, request.init, k)) ==> reply == Ack)
                && (rejected.None? && !(forall k :: Granted(sh.table, request.init, k)) ==>
                    reply.InitError? && exists i: nat :: FirstFailing(sh.table, request.init, i) && FailureCode(sh.table, request.init, i, reply.code)))
  {
    assert [request][..0] == [];
    if request.Init? {
      ResolveExactly(sh.table, request.init);
      if Resolve(sh.table, request.init).Err? { FailureAnswered(sh.table, request.init); }
    }
  }

  /** The clamped statement timeout: within a ceiling, and as asked when there is none or it fits. */
  ghost predicate ClampedTo(asked: nat, ceiling: nat, got: nat) {
    if ceiling == 0 || 0 < asked <= ceiling then got == asked else got == ceiling
  }

  /** An unused slot bound to the resource the Init names for its kind; db alone has its timeout clamped. */
  ghost predicate OpensAs(sh: Shared, init: WireInit, k: Kind, slot: Slot) {
    && slot.cell.None? && slot.metrics == [] && k in init.names && init.names[k] in sh.table
    && var asked, got := sh.table[init.names[k]].binding, slot.binding;
       && got.kind == asked.kind == k && got.settings == asked.settings && got.maxSends == asked.maxSends
       && ClampedTo(asked.statementTimeoutMs, if k == Db then sh.ceilingMs else 0, got.statementTimeoutMs)
  }

  /**
   The session an accepted Init opens: one unused slot for each kind it names and no other, bound to
   the resource of that name.
   */
  lemma OpenedSlots(sh: Shared, d: Drivers, init: WireInit)
    requires sh.reject(init.token).None? && (forall k :: Granted(sh.table, init, k)) && Writable(d, Ack)
    ensures var s := Serve(sh, d, [Init(init)]).session;
            && s.Serving? && s.backends.Keys == init.names.Keys
            && forall k :: k in init.names ==> OpensAs(sh, init, k, s.backends[k])
  {
    assert forall k :: k in init.names ==> Granted(sh.table, init, k);
    ResolveExactly(sh.table, init);
    assert [Init(init)][..0] == [];
  }

  ghost function ListOf(b: Backends, k: Kind): seq<string> { if k in b then b[k].metrics else [] }

  /** A drain is answered with every kind's list, in the order db, mongo, mail, redis, amq, auth, and takes nothing away. */
  lemma DrainAnswered(sh: Shared, d: Drivers, requests: seq<WireRequest>, b: Backends)
    requires Serve(sh, d, requests).session == Serving(b)
    ensures ReplyTo(sh, d, requests + [Drain], |requests|)
         == Metrics([ListOf(b, Db), ListOf(b, Mongo), ListOf(b, Mail), ListOf(b, Redis), ListOf(b, Amq), ListOf(b, Auth)])
    ensures var s := Serve(sh, d, requests + [Drain]).session; s.Serving? ==> s.backends == b
    ensures Serve(sh, d, requests + [Drain]).effects == Serve(sh, d, requests).effects
  {
    var all := requests + [Drain];
    assert all[..|requests|] == requests && all[|requests|] == Drain;
    ServeSnoc(sh, d, requests, Drain);
    assert MetricsOf(b) == [ListOf(b, Db), ListOf(b, Mongo), ListOf(b, Mail), ListOf(b, Redis), ListOf(b, Amq), ListOf(b, Auth)];
  }

  /** The code of a failed resolution, by what is wrong with the first failing name. */
  ghost predicate FailureCode(table: Table, init: WireInit, i: nat, code: string)
    requires i < |ORDER|
  {
    code == if Unseen(table, init, ORDER[i]) then "RESOURCE_NOT_FOUND" else "RESOURCE_KIND_MISMATCH"
  }

  lemma FailureAnswered(table: Table, init: WireInit)
    requires Resolve(table, init).Err?
    ensures ResolveFailure(Resolve(table, init).error).InitError?
    ensures exists i: nat :: FirstFailing(table, init, i) && FailureCode(table, init, i, ResolveFailure(Resolve(table, init).error).code)
  {
    ResolveErrorExactly(table, init);
    var i: nat :| FirstFailing(table, init, i) && ORDER[i] in init.names
             && Resolve(table, init).error
                == if Unseen(table, init, ORDER[i]) then NotFound(init.names[ORDER[i]])
                   else KindMismatch(init.names[ORDER[i]], ORDER[i]);
    assert FailureCode(table, init, i, ResolveFailure(Resolve(table, init).error).code);
  }
}
