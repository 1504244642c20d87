/**
 Reads abandoned at any byte (`crates/runlet/src/sidecar.rs`, `crates/fabric-wire/src/wire.rs`): the deadline
 can drop a read that has consumed part of a frame, and the next read starts where it stopped.
 */
module Misread {
  import opened Wrappers
  import opened LittleEndian
  import opened Sequences
  import opened Framing

  /** JSON text as the encoder writes it: no control byte, and never shorter than the shortest message. */
  predicate Printable(text: bytes) { |text| >= 4 && forall i :: 0 <= i < |text| ==> text[i] >= 32 }

  /** A JSON parser: no text with a control byte other than white space is accepted. */
  ghost predicate RejectsControl<T(!new)>(dec: bytes -> Option<T>) {
    forall text, i :: 0 <= i < |text| && text[i] < 9 ==> dec(text).None?
  }

  ghost predicate Texts(payloads: seq<bytes>) {
    AllInCap(payloads) && forall i :: 0 <= i < |payloads| ==> Printable(payloads[i])
  }

  // -- Headers read from the wrong place --------------------------------------

  lemma FourBytes(h: bytes)
    requires |h| == 4
    ensures FromLe(h) == h[0] + 256 * (h[1] as int) + 65536 * (h[2] as int) + 16777216 * (h[3] as int)
  {
    assert h[1..][1..] == h[2..] && h[2..][1..] == h[3..] && h[3..][1..] == [];
    assert FromLe(h[3..]) == h[3];
    assert FromLe(h[2..]) == h[2] + 256 * (h[3] as int);
    assert FromLe(h[1..]) == h[1] + 256 * FromLe(h[2..]);
  }

  /** The cap is two to the 26th: a length with a positive low byte exceeds it iff its top byte is at least four. */
  lemma AboveCap(h: bytes)
    requires |h| == 4 && h[0] > 0
    ensures FromLe(h) > MAX_FRAME_BYTES <==> h[3] >= 4
    ensures FromLe(h) >= h[0]
  {
    FourBytes(h);
  }

  /** The top byte of the length of a frame within the cap. */
  lemma TopByte(n: nat)
    requires n <= MAX_FRAME_BYTES
    ensures Le(n, 4)[3] <= 4
  {
    HeaderRoundTrip(n);
    FourBytes(Le(n, 4));
  }

  /** Byte `i` of what is left of a frame after `p` bytes of it. */
  lemma LeftOfFrame(f: bytes, p: nat, rest: bytes, i: nat)
    requires InCap(f) && p + i < 4 + |f|
    ensures i < |Frame(f)[p..] + rest| && (Frame(f)[p..] + rest)[i] == Frame(f)[p + i]
    ensures p + i >= 4 ==> Frame(f)[p + i] == f[p + i - 4]
  {
  }

  /** With at least four bytes of the frame left, the next read takes text for a length and refuses it. */
  lemma MisreadWithin(f: bytes, p: nat, rest: bytes)
    requires InCap(f) && Printable(f) && 0 < p <= |f|
    ensures ReadFrame(Frame(f)[p..] + rest) == Failed(OverCap)
  {
    var s := Frame(f)[p..] + rest;
    LeftOfFrame(f, p, rest, 3);
    assert s[..4][3] == s[3];
    FourBytes(s[..4]);
  }

  /**
   With one to three bytes left, the length is made of them and of the next frame's header. The read
   refuses it iff the header byte that became its top byte is at least four; otherwise the text it
   reads holds the top byte of the next frame's own length, a control byte, and does not parse.
   */
  lemma MisreadAcross<T(!new)>(dec: bytes -> Option<T>, f: bytes, p: nat, g: bytes, rest: bytes)
    requires RejectsControl(dec) && InCap(f) && Printable(f) && InCap(g) && |f| < p < 4 + |f|
    ensures var r := ReadFrame(Frame(f)[p..] + (Frame(g) + rest));
            && (r == Failed(OverCap) <==> Le(|g|, 4)[p - |f| - 1] >= 4)
            && (r.Got? ==> dec(r.value).None?)
  {
    AcrossBytes(f, p, g, rest);
    TopByte(|g|);
    Spoilt(dec, Frame(f)[p..] + (Frame(g) + rest), 7 + |f| - p);
  }

  /** A read whose length starts with text and whose first bytes hold a control byte. */
  lemma Spoilt<T(!new)>(dec: bytes -> Option<T>, s: bytes, at: nat)
    requires RejectsControl(dec) && 4 <= at < 7 && at < |s| && s[0] >= 32 && s[at] < 9
    ensures ReadFrame(s) == Failed(OverCap) <==> s[3] >= 4
    ensures ReadFrame(s).Got? ==> dec(ReadFrame(s).value).None?
  {
    AboveCap(s[..4]);
    BodyOf(s, at);
  }

  lemma BodyOf(s: bytes, at: nat)
    requires 4 <= at < |s| && at < 4 + FromLe(s[..4])
    ensures ReadFrame(s).Got? ==> at - 4 < |ReadFrame(s).value| && ReadFrame(s).value[at - 4] == s[at]
  {
  }

  lemma AcrossBytes(f: bytes, p: nat, g: bytes, rest: bytes)
    requires InCap(f) && Printable(f) && InCap(g) && |f| < p < 4 + |f|
    ensures var s, left := Frame(f)[p..] + (Frame(g) + rest), 4 + |f| - p;
            && |s| >= left + 4 && s[0] >= 32
            && s[3] == Le(|g|, 4)[p - |f| - 1] && s[left + 3] == Le(|g|, 4)[3]
  {
    var tail := Frame(g) + rest;
    LeftOfFrame(f, p, tail, 0);
    assert |Frame(f)[p..]| == 4 + |f| - p;
  }

  // -- Any position in a stream -----------------------------------------------

  lemma WireFrom(payloads: seq<bytes>, pos: nat)
    requires AllInCap(payloads) && payloads != [] && pos <= |Wire(payloads)|
    ensures pos < 4 + |payloads[0]| ==> Wire(payloads)[pos..] == Frame(payloads[0])[pos..] + Wire(payloads[1..])
    ensures pos >= 4 + |payloads[0]| ==> Wire(payloads)[pos..] == Wire(payloads[1..])[pos - 4 - |payloads[0]|..]
  {
  }

  /**
   Whatever position a read starts from, it yields a value only at the start of a frame, and then that
   frame's; from inside a frame it yields nothing.
   */
  lemma {:induction false} ReadsWholeFrames<T(!new)>(dec: bytes -> Option<T>, payloads: seq<bytes>, pos: nat)
    requires RejectsControl(dec) && Texts(payloads) && pos <= |Wire(payloads)|
    ensures var r, n := ReadFrame(Wire(payloads)[pos..]), WholeFrames(payloads, pos);
            r.Got? && dec(r.value).Some? ==>
              && Leftover(payloads, pos) == 0 && n < |payloads| && r.value == payloads[n]
              && |r.rest| == |Wire(payloads)| - pos - 4 - |payloads[n]|
    decreases |payloads|
  {
    if payloads != [] {
      var f, tail, size := payloads[0], payloads[1..], 4 + |payloads[0]|;
      WireFrom(payloads, pos);
      if pos == 0 {
        ReadFirst(f, Wire(tail));
        assert Frame(f)[0..] == Frame(f);
      } else if pos >= size {
        ReadsWholeFrames(dec, tail, pos - size);
      } else if pos <= |f| {
        MisreadWithin(f, pos, Wire(tail));
      } else if tail != [] {
        WireFrom(tail, 0);
        assert Frame(tail[0])[0..] == Frame(tail[0]) && Wire(tail)[0..] == Wire(tail);
        MisreadAcross(dec, f, pos, tail[0], Wire(tail[1..]));
      }
    }
  }

  // -- Reads and losses in any order ------------------------------------------

  /** A read carried to its end, or one dropped by the deadline after it had consumed some bytes. */
  datatype Act = Read | Lose(bytes: nat)

  /** Where the stream stands after a read: past the frame, past a refused header, or at the end. */
  function PositionAfter(stream: bytes, pos: nat): (after: nat)
    requires pos <= |stream|
    ensures pos <= after <= |stream|
  {
    match ReadFrame(stream[pos..])
    case End => |stream|
    case Failed(fault) => if fault == OverCap && pos + 4 <= |stream| then pos + 4 else |stream|
    case Got(_, rest) => if |rest| <= |stream| - pos then |stream| - |rest| else |stream|
  }

  function PositionOf(stream: bytes, pos: nat, act: Act): (after: nat)
    requires pos <= |stream|
    ensures pos <= after <= |stream|
  {
    if act.Read? then PositionAfter(stream, pos)
    else if pos + act.bytes <= |stream| then pos + act.bytes else |stream|
  }

  /** What a read at this position yields. */
  ghost function Yield<T>(dec: bytes -> Option<T>, stream: bytes, pos: nat): Option<T>
    requires pos <= |stream|
  {
    var r := ReadFrame(stream[pos..]);
    if r.Got? then dec(r.value) else None
  }

  /** The values the reads yield, each with the number of whole frames before the position it was read at. */
  ghost function Yields<T>(dec: bytes -> Option<T>, payloads: seq<bytes>, pos: nat, acts: seq<Act>): seq<(nat, T)>
    requires AllInCap(payloads) && pos <= |Wire(payloads)|
    decreases |acts|
  {
    if acts == [] then []
    else
      var rest := Yields(dec, payloads, PositionOf(Wire(payloads), pos, acts[0]), acts[1..]);
      var v := Yield(dec, Wire(payloads), pos);
      if acts[0].Read? && v.Some? then [(WholeFrames(payloads, pos), v.value)] + rest else rest
  }

  lemma {:induction false} WholeFramesGrow(payloads: seq<bytes>, a: nat, b: nat)
    requires a <= b
    ensures WholeFrames(payloads, a) <= WholeFrames(payloads, b)
    decreases |payloads|
  {
    if payloads != [] && a >= 4 + |payloads[0]| {
      WholeFramesGrow(payloads[1..], a - 4 - |payloads[0]|, b - 4 - |payloads[0]|);
    }
  }

  lemma {:induction false} WholeFramesPast(payloads: seq<bytes>, pos: nat)
    requires Leftover(payloads, pos) == 0 && WholeFrames(payloads, pos) < |payloads|
    ensures WholeFrames(payloads, pos + 4 + |payloads[WholeFrames(payloads, pos)]|) > WholeFrames(payloads, pos)
    decreases |payloads|
  {
    if pos >= 4 + |payloads[0]| {
      WholeFramesPast(payloads[1..], pos - 4 - |payloads[0]|);
    }
  }

  /** A successful read yields its own frame and leaves that frame behind. */
  lemma YieldMoves<T(!new)>(dec: bytes -> Option<T>, payloads: seq<bytes>, pos: nat)
    requires RejectsControl(dec) && Texts(payloads) && pos <= |Wire(payloads)| && Yield(dec, Wire(payloads), pos).Some?
    ensures var n := WholeFrames(payloads, pos);
            && n < |payloads| && Leftover(payloads, pos) == 0 && dec(payloads[n]) == Yield(dec, Wire(payloads), pos)
            && WholeFrames(payloads, PositionAfter(Wire(payloads), pos)) > n
  {
    ReadsWholeFrames(dec, payloads, pos);
    WholeFramesPast(payloads, pos);
  }

  ghost predicate InOrder<T(!new)>(dec: bytes -> Option<T>, payloads: seq<bytes>, from: nat, values: seq<(nat, T)>) {
    && (forall i :: 0 <= i < |values| ==>
          from <= values[i].0 < |payloads| && dec(payloads[values[i].0]) == Some(values[i].1))
    && (forall i, j :: 0 <= i < j < |values| ==> values[i].0 < values[j].0)
  }

  lemma InOrderCons<T(!new)>(dec: bytes -> Option<T>, payloads: seq<bytes>, from: nat, n: nat, v: T, rest: seq<(nat, T)>)
    requires from <= n < |payloads| && dec(payloads[n]) == Some(v) && InOrder(dec, payloads, n + 1, rest)
    ensures InOrder(dec, payloads, from, [(n, v)] + rest)
  {
  }

  lemma InOrderFrom<T(!new)>(dec: bytes -> Option<T>, payloads: seq<bytes>, from: nat, less: nat, values: seq<(nat, T)>)
    requires InOrder(dec, payloads, from, values) && less <= from
    ensures InOrder(dec, payloads, less, values)
  {
  }

  /**
   However many reads are dropped and wherever in a frame they stop, every value the box reads is one
   the daemon wrote, whole, none of them twice and all in the order they were written.
   */
  lemma {:induction false} OnlyWrittenFrames<T(!new)>(dec: bytes -> Option<T>, payloads: seq<bytes>, pos: nat, acts: seq<Act>)
    requires RejectsControl(dec) && Texts(payloads) && pos <= |Wire(payloads)|
    ensures InOrder(dec, payloads, WholeFrames(payloads, pos), Yields(dec, payloads, pos, acts))
    decreases |acts|
  {
    if acts != [] {
      var n, after := WholeFrames(payloads, pos), PositionOf(Wire(payloads), pos, acts[0]);
      var rest := Yields(dec, payloads, after, acts[1..]);
      var v := Yield(dec, Wire(payloads), pos);
      OnlyWrittenFrames(dec, payloads, after, acts[1..]);
      WholeFramesGrow(payloads, pos, after);
      if acts[0].Read? && v.Some? {
        YieldMoves(dec, payloads, pos);
        InOrderFrom(dec, payloads, WholeFrames(payloads, after), n + 1, rest);
        InOrderCons(dec, payloads, n, n, v.value, rest);
      } else {
        InOrderFrom(dec, payloads, WholeFrames(payloads, after), n, rest);
      }
    }
  }

  /** A read that follows one dropped inside a frame yields nothing: a drain then returns empty lists. */
  lemma NothingAfterPartialRead<T(!new)>(dec: bytes -> Option<T>, payloads: seq<bytes>, pos: nat)
    requires RejectsControl(dec) && Texts(payloads) && pos <= |Wire(payloads)| && Leftover(payloads, pos) > 0
    ensures Yield(dec, Wire(payloads), pos) == None
  {
    ReadsWholeFrames(dec, payloads, pos);
  }
}
