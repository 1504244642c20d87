/** Length-prefixed framing of the box to `fabricd` session (`crates/fabric-wire/src/wire.rs`). */
module Framing {
  import opened Wrappers
  import opened LittleEndian
  import opened Sequences

  const MAX_FRAME_BYTES: nat := 64 * 1024 * 1024

  lemma HeaderRoundTrip(n: nat)
    requires n <= U32_MAX
    ensures FromLe(Le(n, 4)) == n
  {
    Pow256Values();
    LeRoundTrip(n, 4);
  }

  function Frame(payload: bytes): (b: bytes)
    requires |payload| <= MAX_FRAME_BYTES
    ensures |b| == 4 + |payload|
  {
    Le(|payload|, 4) + payload
  }

  datatype Fault = OverCap | Truncated | BadPayload

  datatype Read<T> = End | Failed(fault: Fault) | Got(value: T, rest: bytes)

  /** One read: a header that cannot be completed is an end of stream, an incomplete body is not. */
  function ReadFrame(stream: bytes): (r: Read<bytes>)
    ensures r.Got? ==> |r.rest| < |stream|
  {
    if |stream| < 4 then End
    else
      var len := FromLe(stream[..4]);
      if len > MAX_FRAME_BYTES then Failed(OverCap)
      else if |stream| - 4 < len then Failed(Truncated)
      else
        Got(stream[4..4 + len], stream[4 + len..])
  }

  /** What a read accepts was framed within the cap, and it consumes exactly that frame; a longer header is refused. */
  lemma ReadFrameExact(stream: bytes)
    ensures var r := ReadFrame(stream);
            && (r.Got? ==> |r.value| <= MAX_FRAME_BYTES && stream == Frame(r.value) + r.rest)
            && (r == Failed(OverCap) <==> |stream| >= 4 && FromLe(stream[..4]) > MAX_FRAME_BYTES)
  {
    if ReadFrame(stream).Got? {
      var len := FromLe(stream[..4]);
      LeUnique(stream[..4]);
      assert stream == Le(len, 4) + stream[4..4 + len] + stream[4 + len..];
    }
  }

  /** The number in a stream's first four bytes, the lowest first. */
  ghost function Announced(stream: bytes): nat
    requires |stream| >= 4
  {
    Weigh(stream[0], stream[1], stream[2], stream[3])
  }

  /** A frame on the wire: the payload's length in four bytes, the lowest first, then the payload. */
  lemma FrameLayout(payload: bytes)
    requires |payload| <= MAX_FRAME_BYTES
    ensures Announced(Frame(payload)) == |payload| && Frame(payload)[4..] == payload
  {
    LeFour(|payload|);
  }

  /** What a read makes of a stream, from its bytes alone: 67108864 is the cap. */
  lemma ReadFrameSpelled(stream: bytes)
    ensures var r := ReadFrame(stream);
            if |stream| < 4 then r == End
            else if Announced(stream) > 67_108_864 then r == Failed(OverCap)
            else if |stream| < 4 + Announced(stream) then r == Failed(Truncated)
            else r == Got(stream[4..4 + Announced(stream)], stream[4 + Announced(stream)..])
  {
    if |stream| >= 4 { FourWeighed(stream[..4]); }
  }

  /** Reads until the stream ends or fails: the values read and how it ended. */
  function ReadAll(stream: bytes): (seq<bytes>, Option<Fault>)
    decreases |stream|
  {
    match ReadFrame(stream)
    case End => ([], None)
    case Failed(fault) => ([], Some(fault))
    case Got(value, rest) => var (values, end) := ReadAll(rest); ([value] + values, end)
  }

  predicate InCap(payload: bytes) { |payload| <= MAX_FRAME_BYTES }

  predicate AllInCap(payloads: seq<bytes>) {
    forall i :: 0 <= i < |payloads| ==> InCap(payloads[i])
  }

  /** The bytes on the wire after writing these payloads. */
  function Wire(payloads: seq<bytes>): bytes
    requires AllInCap(payloads)
  {
    if payloads == [] then [] else Frame(payloads[0]) + Wire(payloads[1..])
  }

  lemma {:induction false} WireSnoc(payloads: seq<bytes>, last: bytes)
    requires AllInCap(payloads) && InCap(last)
    ensures AllInCap(payloads + [last]) && Wire(payloads + [last]) == Wire(payloads) + Frame(last)
    decreases |payloads|
  {
    if payloads == [] {
      WireCons(last, []);
      assert payloads + [last] == [last] + [];
      AppendNothing(Frame(last));
    } else {
      var first, rest := payloads[0], payloads[1..];
      WireSnoc(rest, last);
      WireCons(first, rest + [last]);
      assert payloads + [last] == [first] + (rest + [last]);
      Associative(Frame(first), Wire(rest), Frame(last));
    }
  }

  lemma WireCons(first: bytes, rest: seq<bytes>)
    requires InCap(first) && AllInCap(rest)
    ensures AllInCap([first] + rest) && Wire([first] + rest) == Frame(first) + Wire(rest)
  {
    assert ([first] + rest)[1..] == rest;
  }

  lemma ReadFirst(payload: bytes, rest: bytes)
    requires InCap(payload)
    ensures ReadFrame(Frame(payload) + rest) == Got(payload, rest)
  {
    var stream := Frame(payload) + rest;
    assert stream[..4] == Le(|payload|, 4);
    HeaderRoundTrip(|payload|);
    assert stream[4..4 + |payload|] == payload && stream[4 + |payload|..] == rest;
  }

  /** The number of whole frames in the first `cut` bytes. */
  function WholeFrames(payloads: seq<bytes>, cut: nat): (n: nat)
    ensures n <= |payloads|
  {
    if payloads == [] || cut < 4 + |payloads[0]| then 0
    else 1 + WholeFrames(payloads[1..], cut - 4 - |payloads[0]|)
  }

  /** Bytes of an unfinished frame left over by a cut. */
  function Leftover(payloads: seq<bytes>, cut: nat): nat {
    if payloads == [] || cut < 4 + |payloads[0]| then cut
    else Leftover(payloads[1..], cut - 4 - |payloads[0]|)
  }

  /** `WholeFrames` is the largest number of frames that fit, and `Leftover` what is cut off after them. */
  lemma {:induction false} WholeFramesMaximal(payloads: seq<bytes>, cut: nat)
    requires AllInCap(payloads)
    requires cut <= |Wire(payloads)|
    ensures var n := WholeFrames(payloads, cut);
            && |Wire(payloads[..n])| + Leftover(payloads, cut) == cut
            && (n < |payloads| ==> Leftover(payloads, cut) < 4 + |payloads[n]|)
            && (n == |payloads| ==> Leftover(payloads, cut) == 0)
  {
    if payloads != [] && cut >= 4 + |payloads[0]| {
      WholeFramesMaximal(payloads[1..], cut - 4 - |payloads[0]|);
      var n := WholeFrames(payloads, cut);
      assert payloads[..n][1..] == payloads[1..][..n - 1];
    } else {
      assert payloads[..0] == [];
    }
  }

  /** How a stream ends that leaves this many bytes of a frame: in silence when not even the header is whole. */
  function Ending(left: nat): Option<Fault> { if left < 4 then None else Some(Truncated) }

  lemma NothingRead(stream: bytes)
    requires |stream| < 4
    ensures ReadAll(stream) == ([], None)
  {
  }

  lemma ReadAllEnds(stream: bytes)
    requires !ReadFrame(stream).Got?
    ensures ReadAll(stream).0 == []
    ensures ReadAll(stream).1 == if ReadFrame(stream).End? then None else Some(ReadFrame(stream).fault)
  {
  }

  lemma ReadAllStep(stream: bytes, value: bytes, rest: bytes)
    requires ReadFrame(stream) == Got(value, rest)
    ensures ReadAll(stream) == ([value] + ReadAll(rest).0, ReadAll(rest).1)
  {
  }

  lemma CutAfter(first: bytes, rest: bytes, cut: nat)
    requires InCap(first) && 4 + |first| <= cut <= 4 + |first| + |rest|
    ensures var tail := ReadAll(rest[..cut - 4 - |first|]);
            ReadAll((Frame(first) + rest)[..cut]) == ([first] + tail.0, tail.1)
  {
    var stream, tail := (Frame(first) + rest)[..cut], rest[..cut - 4 - |first|];
    assert stream == Frame(first) + tail;
    ReadFirst(first, tail);
    ReadAllStep(stream, first, tail);
  }

  lemma CutInside(first: bytes, rest: bytes, cut: nat)
    requires InCap(first) && cut < 4 + |first|
    ensures ReadAll((Frame(first) + rest)[..cut]) == ([], Ending(cut))
  {
    var stream := (Frame(first) + rest)[..cut];
    if cut >= 4 {
      assert stream[..4] == Le(|first|, 4);
      HeaderRoundTrip(|first|);
    }
  }

  /**
   Cutting the wire anywhere yields exactly the maximal prefix of whole frames; then a clean end
   when at most a partial header is left, and an error when the cut falls inside a body.
   */
  lemma {:induction false} CutStream(payloads: seq<bytes>, cut: nat)
    requires AllInCap(payloads)
    requires cut <= |Wire(payloads)|
    ensures ReadAll(Wire(payloads)[..cut])
         == (payloads[..WholeFrames(payloads, cut)],
             Ending(Leftover(payloads, cut)))
    decreases |payloads|
  {
    if payloads == [] {
      NothingRead(Wire(payloads)[..cut]);
    } else if cut >= 4 + |payloads[0]| {
      var tail, left := payloads[1..], cut - 4 - |payloads[0]|;
      CutStream(tail, left);
      CutBehindFirst(payloads, cut, WholeFrames(tail, left), Ending(Leftover(tail, left)));
    } else {
      CutInside(payloads[0], Wire(payloads[1..]), cut);
    }
  }

  lemma CutBehindFirst(payloads: seq<bytes>, cut: nat, n: nat, end: Option<Fault>)
    requires AllInCap(payloads) && payloads != [] && 4 + |payloads[0]| <= cut <= |Wire(payloads)| && n < |payloads|
    requires ReadAll(Wire(payloads[1..])[..cut - 4 - |payloads[0]|]) == (payloads[1..][..n], end)
    ensures ReadAll(Wire(payloads)[..cut]) == (payloads[..n + 1], end)
  {
    CutAfter(payloads[0], Wire(payloads[1..]), cut);
    PrefixOfCons(payloads, n);
  }

  /** Reading an uncut wire gives back the payloads and then a clean end. */
  lemma WholeStream(payloads: seq<bytes>)
    requires AllInCap(payloads)
    ensures ReadAll(Wire(payloads)) == (payloads, None)
  {
    var wire := Wire(payloads);
    CutStream(payloads, |wire|);
    WholeFramesMaximal(payloads, |wire|);
    var n := WholeFrames(payloads, |wire|);
    WirePrefix(payloads, n);
    assert wire[..|wire|] == wire;
    assert payloads[..|payloads|] == payloads;
  }

  lemma {:induction false} WirePrefix(payloads: seq<bytes>, n: nat)
    requires AllInCap(payloads)
    requires n <= |payloads|
    ensures |Wire(payloads[..n])| + |Wire(payloads[n..])| == |Wire(payloads)|
    ensures n < |payloads| ==> |Wire(payloads[n..])| >= 4 + |payloads[n]|
  {
    if n == 0 {
      assert payloads[..0] == [] && payloads[0..] == payloads;
    } else {
      WirePrefix(payloads[1..], n - 1);
      assert payloads[..n][1..] == payloads[1..][..n - 1];
      assert payloads[1..][n - 1..] == payloads[n..];
    }
  }

  /**
   The documentation promises an error for a truncated frame; the code keeps that promise exactly
   when the cut leaves at least the four header bytes of the unfinished frame.
   */
  lemma TruncationReportedExactly(payloads: seq<bytes>, cut: nat)
    requires AllInCap(payloads)
    requires cut <= |Wire(payloads)|
    ensures ReadAll(Wire(payloads)[..cut]).1.Some? <==> Leftover(payloads, cut) >= 4
  {
    CutStream(payloads, cut);
  }

  /** A stream cut inside its first length header: nothing was read, and nothing is reported. */
  lemma HeaderCutUnreported(payload: bytes, cut: nat)
    requires InCap(payload) && 0 < cut < 4
    ensures AllInCap([payload]) && cut < |Wire([payload])|
    ensures ReadAll(Wire([payload])[..cut]) == ([], None)
  {
    WireCons(payload, []);
    assert [payload] + [] == [payload];
    NothingRead(Wire([payload])[..cut]);
  }

  // -- Typed frames -----------------------------------------------------------

  /** Serialisation and parsing of one message type. */
  datatype Codec<!T> = Codec(enc: T -> bytes, dec: bytes -> Option<T>)

  ghost predicate Lawful<T(!new)>(c: Codec<T>) {
    forall v :: c.dec(c.enc(v)) == Some(v)
  }

  /** What reaches the wire: an oversized value is refused before any byte is written. */
  ghost function Written<T>(c: Codec<T>, values: seq<T>): seq<bytes> {
    if values == [] then []
    else (if InCap(c.enc(values[0])) then [c.enc(values[0])] else []) + Written(c, values[1..])
  }

  ghost function Accepted<T>(c: Codec<T>, values: seq<T>): seq<T> {
    if values == [] then []
    else (if InCap(c.enc(values[0])) then [values[0]] else []) + Accepted(c, values[1..])
  }

  /** Reads typed values until the stream ends or fails. */
  ghost function ReadValues<T>(c: Codec<T>, stream: bytes): (seq<T>, Option<Fault>)
    decreases |stream|
  {
    match ReadFrame(stream)
    case End => ([], None)
    case Failed(fault) => ([], Some(fault))
    case Got(payload, rest) =>
      match c.dec(payload)
      case None => ([], Some(BadPayload))
      case Some(v) => var (values, end) := ReadValues(c, rest); ([v] + values, end)
  }

  lemma {:induction false} WrittenInCap<T>(c: Codec<T>, values: seq<T>)
    ensures AllInCap(Written(c, values))
  {
    if values != [] { WrittenInCap(c, values[1..]); }
  }

  lemma ValuesStep<T>(c: Codec<T>, v: T, rest: bytes)
    requires InCap(c.enc(v)) && c.dec(c.enc(v)) == Some(v)
    ensures var tail := ReadValues(c, rest);
            ReadValues(c, Frame(c.enc(v)) + rest) == ([v] + tail.0, tail.1)
  {
    ReadFirst(c.enc(v), rest);
  }

  /**
   The reader gets exactly the values whose write succeeded, in order, and then what follows them on
   the stream: its values, its end, or the fault of its first unreadable frame.
   */
  lemma {:induction false} TypedThen<T(!new)>(c: Codec<T>, values: seq<T>, more: bytes)
    requires Lawful(c)
    ensures AllInCap(Written(c, values))
    ensures var tail := ReadValues(c, more);
            ReadValues(c, Wire(Written(c, values)) + more) == (Accepted(c, values) + tail.0, tail.1)
    decreases |values|
  {
    WrittenInCap(c, values);
    var tail := ReadValues(c, more);
    if values == [] {
      AppendNothing(more);
      AppendNothing(tail.0);
    } else {
      var v, rest := values[0], Written(c, values[1..]);
      WrittenInCap(c, values[1..]);
      TypedThen(c, values[1..], more);
      if InCap(c.enc(v)) {
        WireCons(c.enc(v), rest);
        Associative(Frame(c.enc(v)), Wire(rest), more);
        ValuesStep(c, v, Wire(rest) + more);
        Associative([v], Accepted(c, values[1..]), tail.0);
      } else {
        AppendNothing(rest);
        AppendNothing(Accepted(c, values[1..]));
      }
    }
  }

  /** With nothing after them the stream ends cleanly. */
  lemma TypedStream<T(!new)>(c: Codec<T>, values: seq<T>)
    requires Lawful(c)
    ensures AllInCap(Written(c, values))
    ensures ReadValues(c, Wire(Written(c, values))) == (Accepted(c, values), None)
  {
    TypedThen(c, values, []);
    AppendNothing(Wire(Written(c, values)));
    AppendNothing(Accepted(c, values));
    assert ReadValues(c, []) == ([], None);
  }

  // -- The stream object ------------------------------------------------------

  /** A read's two-part answer, and the bytes it leaves. */
  predicate Answers(r: Read<bytes>, payload: Option<bytes>, fault: Option<Fault>, unread: bytes) {
    match r
    case End => payload == None && fault == None
    case Failed(f) => payload == None && fault == Some(f)
    case Got(p, rest) => payload == Some(p) && fault == None && unread == rest
  }

  /** One direction of a connection whose peer has closed it: `unread` is what is still to come. */
  class Pipe {
    var unread: bytes

    constructor ()
      ensures unread == []
    {
      unread := [];
    }

    /** Refuses an oversized payload before writing anything. */
    method WriteFrame(payload: bytes) returns (ok: bool)
      modifies this
      ensures ok == InCap(payload)
      ensures unread == old(unread) + if InCap(payload) then Frame(payload) else []
    {
      if |payload| > U32_MAX || |payload| > MAX_FRAME_BYTES {
        return false;
      }
      unread := unread + Le(|payload|, 4);
      unread := unread + payload;
      assert unread == old(unread) + Frame(payload);
      return true;
    }

    /** Fills a buffer of `n` bytes, or reports an unexpected end having consumed what there was. */
    method ReadExact(n: nat) returns (buf: Option<bytes>)
      modifies this
      ensures |old(unread)| >= n ==> buf == Some(old(unread)[..n]) && unread == old(unread)[n..]
      ensures |old(unread)| < n ==> buf == None && unread == []
    {
      if |unread| < n {
        unread := [];
        return None;
      }
      buf := Some(unread[..n]);
      unread := unread[n..];
    }

    method ReadOne() returns (payload: Option<bytes>, fault: Option<Fault>)
      modifies this
      ensures Answers(ReadFrame(old(unread)), payload, fault, unread)
    {
      var header := ReadExact(4);
      if header.None? {
        return None, None;
      }
      var len := FromLe(header.value);
      if len > MAX_FRAME_BYTES {
        return None, Some(OverCap);
      }
      var body := ReadExact(len);
      if body.None? {
        return None, Some(Truncated);
      }
      assert old(unread)[4..][..len] == old(unread)[4..4 + len];
      assert old(unread)[4..][len..] == old(unread)[4 + len..];
      return body, None;
    }

    /** The session loop's view of the stream: frames until it ends or fails. */
    method Drain() returns (payloads: seq<bytes>, fault: Option<Fault>)
      modifies this
      ensures (payloads, fault) == ReadAll(old(unread))
    {
      payloads, fault := [], None;
      ghost var all := ReadAll(unread);
      assert payloads + all.0 == all.0;
      var going := true;
      while going
        invariant going ==> all == (payloads + ReadAll(unread).0, ReadAll(unread).1)
        invariant !going ==> all == (payloads, fault)
        decreases going, |unread|
      {
        ghost var before := unread;
        var payload, failure := ReadOne();
        if payload.None? {
          ReadAllEnds(before);
          AppendNothing(payloads);
          fault := failure;
          going := false;
        } else {
          ReadAllStep(before, payload.value, unread);
          Associative(payloads, [payload.value], ReadAll(unread).0);
          payloads := payloads + [payload.value];
        }
      }
    }
  }
}
