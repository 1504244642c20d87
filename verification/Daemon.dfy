/** The daemon side of a session (`crates/fabricd/src/main.rs`, `crates/fabric-backends/src/backendset.rs`). */
module Daemon {
  import opened Wrappers
  import opened Resources
  import opened LittleEndian
  import opened Decimals
  import opened Sequences
  import Framing

  datatype EgressError = EgressError(source: string, code: string, message: string)

  datatype WireCall = WireCall(name: string, action: string, payload: string)

  datatype WireRequest = Init(init: WireInit) | Call(call: WireCall) | Drain

  /** `lists` are the six per-kind metric lists in `ORDER`. */
  datatype WireResponse =
    | Ack | InitError(code: string, message: string) | Reply(result: Result<string, EgressError>)
    | Metrics(lists: seq<seq<string>>) | ProtocolError(message: string)

  /** What a driver does with one call; a refused or panicked call records no metric. */
  datatype Performed = Done(result: Result<string, EgressError>, metric: string) | Panicked(message: string)

  /**
   The code outside the model: the drivers, as functions of everything they are given and of the
   point in the session, and the JSON encodings of both kinds of message.
   */
  datatype Drivers = Drivers(
    connect: (Kind, Binding, nat) -> Result<nat, EgressError>,
    unpack: (Kind, string) -> Result<string, EgressError>,
    perform: (Kind, Binding, nat, string, string, nat) -> Performed,
    encode: WireResponse -> bytes,
    encodeRequest: WireRequest -> bytes,
    decodeRequest: bytes -> Option<WireRequest>)

  /** `write_frame` refuses a message whose encoding exceeds the frame cap, having written nothing. */
  predicate Writable(d: Drivers, response: WireResponse) { Framing.InCap(d.encode(response)) }

  predicate Sendable(d: Drivers, request: WireRequest) { Framing.InCap(d.encodeRequest(request)) }

  datatype Rejection = Rejection(code: string, message: string)

  /** Operator state: the table, the statement-timeout ceiling, and the authenticator's verdict. */
  datatype Shared = Shared(table: Table, ceilingMs: nat, reject: Option<string> -> Option<Rejection>)

  /** A connect-once slot: empty until first use, then the backend or the error, for good. */
  datatype Slot = Slot(binding: Binding, cell: Option<Result<nat, EgressError>>, metrics: seq<string>)

  type Backends = map<Kind, Slot>

  /** What the session does to the outside, in order. `amq` opens its connections inside each dispatch. */
  datatype Effect = Authenticated | NamesResolved | Connects(kind: Kind) | Dispatches(kind: Kind, handle: nat, binding: Binding)

  function KindNamed(name: string): Option<Kind> {
    if name == "db" then Some(Db) else if name == "mongo" then Some(Mongo) else if name == "mail" then Some(Mail)
    else if name == "redis" then Some(Redis) else if name == "amq" then Some(Amq)
    else if name == "auth" then Some(Auth) else None
  }

  function KindName(k: Kind): string {
    match k
    case Db => "db"
    case Mongo => "mongo"
    case Mail => "mail"
    case Redis => "redis"
    case Amq => "amq"
    case Auth => "auth"
  }

  function NotConfiguredCode(k: Kind): string {
    match k
    case Db => "DB_NOT_CONFIGURED"
    case Mongo => "MONGO_NOT_CONFIGURED"
    case Mail => "MAIL_NOT_CONFIGURED"
    case Redis => "REDIS_NOT_CONFIGURED"
    case Amq => "AMQ_NOT_CONFIGURED"
    case Auth => "AUTH_NOT_CONFIGURED"
  }

  function NotConfigured(k: Kind): EgressError {
    EgressError(KindName(k), NotConfiguredCode(k), KindName(k) + " egress is not configured")
  }

  function FromConfigs(r: Resolved): Backends {
    map k | k in r :: Slot(r[k], None, [])
  }

  /** The metric lists of a drain: kind by kind in `ORDER`, empty for a kind that is not configured. */
  function MetricsOf(b: Backends): seq<seq<string>> {
    seq(|ORDER|, i requires 0 <= i < |ORDER| => if ORDER[i] in b then b[ORDER[i]].metrics else [])
  }

  /** The slot with its backend available: `amq` connects per call, the others on first use only. */
  function Opened(d: Drivers, k: Kind, slot: Slot, now: nat): Slot {
    if k == Amq || slot.cell.Some? then slot else slot.(cell := Some(d.connect(k, slot.binding, now)))
  }

  function MailLimit(limit: nat): EgressError {
    EgressError("mail", "MAIL_OP_LIMIT", "too many mail.send calls: limit is " + Decimal(limit))
  }

  /** One driver call on an open slot. */
  function Performs(d: Drivers, k: Kind, slot: Slot, handle: nat, call: WireCall, now: nat): (Slot, WireResponse, seq<Effect>) {
    match d.unpack(k, call.payload)
    case Err(e) => (slot, Reply(Err(e)), [])
    case Ok(args) =>
      if k == Mail && slot.binding.maxSends != 0 && |slot.metrics| >= slot.binding.maxSends
      then (slot, Reply(Err(MailLimit(slot.binding.maxSends))), [])
      else
        match d.perform(k, slot.binding, handle, call.action, args, now)
        case Panicked(message) =>
          (slot, ProtocolError("backend task failed: " + message), [Dispatches(k, handle, slot.binding)])
        case Done(result, metric) =>
          (slot.(metrics := slot.metrics + [metric]), Reply(result), [Dispatches(k, handle, slot.binding)])
  }

  function UnknownEgress(name: string): EgressError {
    EgressError("engine", "IO_UNKNOWN", "unknown egress '" + name + "'")
  }

  /** `BackendSet::call` through `dispatch`: route by kind, connect once, unpack, perform. */
  function CallBackend(d: Drivers, b: Backends, call: WireCall, now: nat): (Backends, WireResponse, seq<Effect>) {
    match KindNamed(call.name)
    case None => (b, Reply(Err(UnknownEgress(call.name))), [])
    case Some(k) =>
      if k !in b then (b, Reply(Err(NotConfigured(k))), [])
      else
        var slot := Opened(d, k, b[k], now);
        var connects := if k != Amq && b[k].cell.None? then [Connects(k)] else [];
        if slot.cell.Some? && slot.cell.value.Err? && k != Amq
        then (b[k := slot], Reply(Err(slot.cell.value.error)), connects)
        else
          var handle := if k == Amq || slot.cell.None? || slot.cell.value.Err? then 0 else slot.cell.value.value;
          var (slot', response, effects) := Performs(d, k, slot, handle, call, now);
          (b[k := slot'], response, connects + effects)
  }

  datatype Session = AwaitInit | Serving(backends: Backends) | Closed

  /** The answer to a session whose names do not resolve. */
  function ResolveFailure(e: ResolveError): WireResponse {
    match e
    case NotFound(name) => InitError("RESOURCE_NOT_FOUND", "no operator resource named `" + name + "`")
    case KindMismatch(name, kind) =>
      InitError("RESOURCE_KIND_MISMATCH", "resource `" + name + "` is not a " + KindName(kind) + " resource")
  }

  /** One frame read by the session: its next phase, the response it computes, and its effects. */
  function Handle(sh: Shared, d: Drivers, s: Session, request: WireRequest, now: nat): (Session, WireResponse, seq<Effect>) {
    match s
    case AwaitInit =>
      if !request.Init? then (Closed, ProtocolError("expected Init as the first frame"), [])
      else
        var rejected := sh.reject(request.init.token);
        if rejected.Some? then (Closed, InitError(rejected.value.code, rejected.value.message), [])
        else
          (match Resolve(sh.table, request.init)
           case Err(e) => (Closed, ResolveFailure(e), [Authenticated])
           case Ok(r) =>
             (Serving(FromConfigs(ClampStatementTimeout(r, sh.ceilingMs))), Ack, [Authenticated, NamesResolved]))
    case Serving(b) =>
      (match request
       case Call(call) => var (b', response, effects) := CallBackend(d, b, call, now); (Serving(b'), response, effects)
       case Drain => (s, Metrics(MetricsOf(b)), [])
       case Init(_) => (s, ProtocolError("Init already received for this session"), []))
    case Closed => (s, ProtocolError(""), [])
  }

  /** A session so far: `read` counts the frames it has read. A closed session reads no more. */
  datatype Trace = Trace(session: Session, read: nat, responses: seq<WireResponse>, effects: seq<Effect>)

  function Fresh(): Trace { Trace(AwaitInit, 0, [], []) }

  /** One frame read and served; a response that cannot be written ends the session unanswered. */
  function Next(sh: Shared, d: Drivers, t: Trace, request: WireRequest): Trace {
    if t.session.Closed? then t
    else
      var (s, response, effects) := Handle(sh, d, t.session, request, t.read);
      if Writable(d, response) then Trace(s, t.read + 1, t.responses + [response], t.effects + effects)
      else Trace(Closed, t.read + 1, t.responses, t.effects + effects)
  }

  /** The whole session on a sequence of request frames. */
  function Serve(sh: Shared, d: Drivers, requests: seq<WireRequest>): Trace {
    if requests == [] then Fresh()
    else Next(sh, d, Serve(sh, d, requests[..|requests| - 1]), requests[|requests| - 1])
  }

  // -- The session as the daemon runs it --------------------------------------

  /** The per-session backends: connect-once cells and metric collectors, filled in place. */
  class BackendSet {
    var slots: Backends
    ghost var effects: seq<Effect>

    constructor (configs: Resolved)
      ensures slots == FromConfigs(configs) && effects == []
    {
      slots, effects := FromConfigs(configs), [];
    }

    /** `OnceLock::get_or_init`: connect on first use, then hand out the same result. */
    method Open(d: Drivers, k: Kind, now: nat) returns (backend: Result<nat, EgressError>)
      requires k in slots && k != Amq
      modifies this
      ensures slots == old(slots)[k := Opened(d, k, old(slots)[k], now)]
      ensures slots[k].cell == Some(backend)
      ensures old(slots)[k].cell.Some? ==> Some(backend) == old(slots)[k].cell && effects == old(effects)
      ensures old(slots)[k].cell.None? ==> effects == old(effects) + [Connects(k)]
    {
      var slot := slots[k];
      if slot.cell.None? {
        slot := slot.(cell := Some(d.connect(k, slot.binding, now)));
        effects := effects + [Connects(k)];
      }
      slots := slots[k := slot];
      backend := slot.cell.value;
    }

    method CallKind(d: Drivers, call: WireCall, now: nat) returns (response: WireResponse)
      modifies this
      ensures slots == CallBackend(d, old(slots), call, now).0
      ensures response == CallBackend(d, old(slots), call, now).1
      ensures effects == old(effects) + CallBackend(d, old(slots), call, now).2
    {
      assert effects + [] == effects;
      var kind := KindNamed(call.name);
      if kind.None? {
        return Reply(Err(UnknownEgress(call.name)));
      }
      var k := kind.value;
      if k !in slots {
        return Reply(Err(NotConfigured(k)));
      }
      var handle := 0;
      if k != Amq {
        var backend := Open(d, k, now);
        if backend.Err? {
          return Reply(Err(backend.error));
        }
        handle := backend.value;
      }
      ghost var connects := if k != Amq && old(slots)[k].cell.None? then [Connects(k)] else [];
      var (slot, answer, more) := Performs(d, k, slots[k], handle, call, now);
      slots := slots[k := slot];
      assert old(effects) + connects + more == old(effects) + (connects + more);
      effects := effects + more;
      return answer;
    }

    /** Each capability's metrics, collected kind by kind. */
    method AllMetrics() returns (lists: seq<seq<string>>)
      ensures |lists| == |ORDER|
      ensures forall i :: 0 <= i < |ORDER| && ORDER[i] in slots ==> lists[i] == slots[ORDER[i]].metrics
      ensures forall i :: 0 <= i < |ORDER| && ORDER[i] !in slots ==> lists[i] == []
    {
      lists := [MetricsFor(Db), MetricsFor(Mongo), MetricsFor(Mail), MetricsFor(Redis), MetricsFor(Amq), MetricsFor(Auth)];
    }

    function MetricsFor(k: Kind): seq<string>
      reads this
    {
      if k in slots then slots[k].metrics else []
    }
  }

  /** The encodings of the responses, in order. */
  function Encodings(d: Drivers, responses: seq<WireResponse>): (r: seq<bytes>)
    ensures |r| == |responses| && forall i :: 0 <= i < |r| ==> r[i] == d.encode(responses[i])
  {
    seq(|responses|, i requires 0 <= i < |responses| => d.encode(responses[i]))
  }

  /** What has been put on the wire for these responses, none of which was refused. */
  ghost predicate OnWire(d: Drivers, responses: seq<WireResponse>, out: bytes) {
    Framing.AllInCap(Encodings(d, responses)) && out == Framing.Wire(Encodings(d, responses))
  }

  lemma OnWireSnoc(d: Drivers, responses: seq<WireResponse>, out: bytes, response: WireResponse)
    requires OnWire(d, responses, out) && Writable(d, response)
    ensures OnWire(d, responses + [response], out + Framing.Frame(d.encode(response)))
  {
    assert Encodings(d, responses + [response]) == Encodings(d, responses) + [d.encode(response)];
    Framing.WireSnoc(Encodings(d, responses), d.encode(response));
  }

  /** The box's side reads back exactly those encodings, and then the end. */
  lemma ResponsesReadBack(d: Drivers, responses: seq<WireResponse>, out: bytes)
    requires OnWire(d, responses, out)
    ensures Framing.ReadAll(out) == (Encodings(d, responses), None)
  {
    Framing.WholeStream(Encodings(d, responses));
  }

  /** The requests a byte stream holds up to its end, or up to the first frame that cannot be read or parsed. */
  ghost function ReadRequests(d: Drivers, input: bytes): (seq<WireRequest>, Option<Framing.Fault>) {
    Framing.ReadValues(Framing.Codec(d.encodeRequest, d.decodeRequest), input)
  }

  /** `read_frame::<WireRequest>`: one request, an end, or a frame that is cut, too long or no request. */
  method ReadRequest(d: Drivers, input: Framing.Pipe) returns (request: Option<WireRequest>, fault: Option<Framing.Fault>)
    modifies input
    ensures request.None? ==> ReadRequests(d, old(input.unread)) == ([], fault)
    ensures request.Some? ==>
              var rest := ReadRequests(d, input.unread);
              ReadRequests(d, old(input.unread)) == ([request.value] + rest.0, rest.1) && |input.unread| < |old(input.unread)|
  {
    var payload;
    payload, fault := input.ReadOne();
    if payload.None? {
      return None, fault;
    }
    request := d.decodeRequest(payload.value);
    if request.None? {
      fault := Some(Framing.BadPayload);
    }
  }

  /**
   A session on raw bytes: reads the Init, authenticates, resolves, then answers frame by frame until
   the client closes, a frame cannot be read, or a response cannot be written. It answers exactly the
   requests before the first unreadable frame, and what is on the wire is exactly the framed responses.
   It ends in error iff a response was refused or an open session met an unreadable frame.
   */
  method ServeSession(sh: Shared, d: Drivers, input: Framing.Pipe, out: Framing.Pipe)
    returns (failed: bool, authFailures: nat, ghost t: Trace)
    requires input != out && out.unread == []
    modifies input, out
    ensures t == Serve(sh, d, ReadRequests(d, old(input.unread)).0) && OnWire(d, t.responses, out.unread)
    ensures failed <==> |t.responses| < t.read || (!t.session.Closed? && ReadRequests(d, old(input.unread)).1.Some?)
    ensures var requests := ReadRequests(d, old(input.unread)).0;
            authFailures == if requests != [] && requests[0].Init? && sh.reject(requests[0].init.token).Some? then 1 else 0
  {
    ghost var all := ReadRequests(d, input.unread);
    var first, fault := ReadRequest(d, input);
    if first.None? {
      return fault.Some?, 0, Fresh();
    }
    FirstFrame(sh, d, all.0);
    var backends, written;
    backends, written, authFailures, t := Greet(sh, d, first.value, out);
    if backends == null {
      failed := !written;
    } else {
      assert all.0[..1] == [first.value];
      failed, t := ServeRest(sh, d, all.0[..1], backends, input, out, t);
    }
  }

  /** The dispatch loop of an open session that has already served the requests `done`. */
  method ServeRest(sh: Shared, d: Drivers, ghost done: seq<WireRequest>, backends: BackendSet,
                   input: Framing.Pipe, out: Framing.Pipe, ghost first: Trace)
    returns (failed: bool, ghost t: Trace)
    requires input != out && first == Serve(sh, d, done)
    requires first.session == Serving(backends.slots) && |first.responses| == first.read == |done| == 1
    requires OnWire(d, first.responses, out.unread)
    modifies backends, input, out
    ensures t == Serve(sh, d, done + ReadRequests(d, old(input.unread)).0) && OnWire(d, t.responses, out.unread)
    ensures failed <==> |t.responses| < t.read || (!t.session.Closed? && ReadRequests(d, old(input.unread)).1.Some?)
  {
    ghost var all := done + ReadRequests(d, input.unread).0;
    ghost var served := done;
    var n := 1;
    t := first;
    var request, fault := ReadRequest(d, input);
    while request.Some?
      invariant all == served + (if request.Some? then [request.value] + ReadRequests(d, input.unread).0 else [])
      invariant ReadRequests(d, old(input.unread)).1 == if request.Some? then ReadRequests(d, input.unread).1 else fault
      invariant t == Serve(sh, d, served) && t.session == Serving(backends.slots)
      invariant |t.responses| == t.read == |served| == n && OnWire(d, t.responses, out.unread)
      decreases request.Some?, |input.unread|
    {
      var open;
      ServeSnoc(sh, d, served, request.value);
      open, t := ServeOne(sh, d, backends, request.value, n, out, t);
      Associative(served, [request.value], ReadRequests(d, input.unread).0);
      served, n := served + [request.value], n + 1;
      if !open {
        assert all[..|served|] == served;
        ClosedForGood(sh, d, all, |served|);
        return true, t;
      }
      request, fault := ReadRequest(d, input);
    }
    assert all == served;
    failed := fault.Some?;
  }

  /** The first frame: no backends, and no more frames read, unless it opens the session. */
  method Greet(sh: Shared, d: Drivers, frame: WireRequest, out: Framing.Pipe)
    returns (backends: BackendSet?, written: bool, authFailures: nat, ghost t: Trace)
    requires out.unread == []
    modifies out
    ensures t == Next(sh, d, Fresh(), frame) && OnWire(d, t.responses, out.unread)
    ensures authFailures == if frame.Init? && sh.reject(frame.init.token).Some? then 1 else 0
    ensures t.read == 1 && |t.responses| == if written then 1 else 0
    ensures backends == null ==> t.session.Closed?
    ensures backends != null ==> fresh(backends) && written && t.session == Serving(backends.slots)
  {
    backends, authFailures, t := null, 0, Next(sh, d, Fresh(), frame);
    if !frame.Init? {
      written := Respond(d, out, [], ProtocolError("expected Init as the first frame"));
      return;
    }
    var rejected := sh.reject(frame.init.token);
    if rejected.Some? {
      authFailures := 1;
      written := Respond(d, out, [], InitError(rejected.value.code, rejected.value.message));
      return;
    }
    var resolved := Resolve(sh.table, frame.init);
    if resolved.Err? {
      written := Respond(d, out, [], ResolveFailure(resolved.error));
      return;
    }
    var built := new BackendSet(ClampStatementTimeout(resolved.value, sh.ceilingMs));
    written := Respond(d, out, [], Ack);
    if written {
      backends := built;
    }
  }

  /** One frame of an open session: dispatched or drained, then answered if the answer can be written. */
  method ServeOne(sh: Shared, d: Drivers, backends: BackendSet, frame: WireRequest, n: nat, out: Framing.Pipe, ghost t: Trace)
    returns (open: bool, ghost t': Trace)
    requires t.session == Serving(backends.slots) && |t.responses| == t.read == n && OnWire(d, t.responses, out.unread)
    modifies backends, out
    ensures t' == Next(sh, d, t, frame) && OnWire(d, t'.responses, out.unread) && t'.read == t.read + 1
    ensures open ==> t'.session == Serving(backends.slots) && |t'.responses| == t'.read
    ensures !open ==> t'.session.Closed? && |t'.responses| < t'.read
  {
    t' := Next(sh, d, t, frame);
    var response;
    match frame {
      case Call(call) => response := backends.CallKind(d, call, n);
      case Drain =>
        var lists := backends.AllMetrics();
        assert lists == MetricsOf(backends.slots);
        response := Metrics(lists);
      case Init(_) => response := ProtocolError("Init already received for this session");
    }
    open := Respond(d, out, t.responses, response);
  }

  /** Writes one response, unless its encoding exceeds the cap. */
  method Respond(d: Drivers, out: Framing.Pipe, ghost before: seq<WireResponse>, response: WireResponse) returns (ok: bool)
    requires OnWire(d, before, out.unread)
    modifies out
    ensures ok == Writable(d, response)
    ensures OnWire(d, if Writable(d, response) then before + [response] else before, out.unread)
  {
    ok := out.WriteFrame(d.encode(response));
    if ok { OnWireSnoc(d, before, old(out.unread), response); }
  }

  lemma ServeSnoc(sh: Shared, d: Drivers, requests: seq<WireRequest>, last: WireRequest)
    ensures Serve(sh, d, requests + [last]) == Next(sh, d, Serve(sh, d, requests), last)
  {
    assert (requests + [last])[..|requests|] == requests;
  }

  lemma ServeNext(sh: Shared, d: Drivers, frames: seq<WireRequest>, i: nat)
    requires i < |frames|
    ensures Serve(sh, d, frames[..i + 1]) == Next(sh, d, Serve(sh, d, frames[..i]), frames[i])
  {
    assert frames[..i + 1][..i] == frames[..i];
  }

  /** The first frame decides: an Init that opens no session, or another frame, is the last one read. */
  lemma FirstFrame(sh: Shared, d: Drivers, frames: seq<WireRequest>)
    requires frames != []
    ensures Serve(sh, d, frames[..1]) == Next(sh, d, Fresh(), frames[0])
    ensures Next(sh, d, Fresh(), frames[0]).session.Closed? ==> Serve(sh, d, frames) == Next(sh, d, Fresh(), frames[0])
  {
    assert frames[..0] == [];
    ServeNext(sh, d, frames, 0);
    if Next(sh, d, Fresh(), frames[0]).session.Closed? { ClosedForGood(sh, d, frames, 1); }
  }

  /** A closed session reads and answers nothing more. */
  lemma {:induction false} ClosedForGood(sh: Shared, d: Drivers, frames: seq<WireRequest>, n: nat)
    requires n <= |frames| && Serve(sh, d, frames[..n]).session.Closed?
    ensures Serve(sh, d, frames) == Serve(sh, d, frames[..n])
    decreases |frames|
  {
    if n == |frames| {
      assert frames[..n] == frames;
    } else {
      var before := frames[..|frames| - 1];
      assert before[..n] == frames[..n];
      ClosedForGood(sh, d, before, n);
    }
  }
}
