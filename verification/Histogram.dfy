/** The latency histogram and its rendering (`crates/runlet-core/src/metrics.rs`). */
module Histogram {
  import opened Wrappers
  import opened Sequences
  import opened Decimals
  import opened Splitting
  import opened S3Usage

  /** Inclusive upper bounds in microseconds. */
  const BOUNDS: seq<nat> := [1_000, 5_000, 10_000, 25_000, 50_000, 100_000, 250_000, 500_000,
                             1_000_000, 2_500_000, 5_000_000, 10_000_000]

  const BUCKETS := 12

  predicate Increasing(bounds: seq<nat>) { forall i, j :: 0 <= i < j < |bounds| ==> bounds[i] < bounds[j] }

  lemma BoundsIncrease()
    ensures |BOUNDS| == BUCKETS && Increasing(BOUNDS)
  {
  }

  /** In increasing bounds, the first that admits a value is at most `i` iff bound `i` admits it. */
  lemma FirstAdmitting(bounds: seq<nat>, micros: nat, b: nat, i: nat)
    requires Increasing(bounds) && b <= |bounds| && i < |bounds|
    requires forall j :: 0 <= j < b ==> bounds[j] < micros
    requires b < |bounds| ==> micros <= bounds[b]
    ensures b < i + 1 <==> micros <= bounds[i]
  {
  }

  // -- Buckets ----------------------------------------------------------------

  /** The first bucket at or after `i` whose bound admits the value; 12 when none does. */
  function BucketFrom(micros: nat, i: nat): (b: nat)
    requires i <= BUCKETS
    ensures i <= b <= BUCKETS
    ensures forall j :: i <= j < b ==> BOUNDS[j] < micros
    ensures b < BUCKETS ==> micros <= BOUNDS[b]
    decreases BUCKETS - i
  {
    if i == BUCKETS then i else if micros <= BOUNDS[i] then i else BucketFrom(micros, i + 1)
  }

  function Bump(buckets: seq<nat>, micros: nat): (r: seq<nat>)
    requires |buckets| == BUCKETS
    ensures |r| == BUCKETS
  {
    var b := BucketFrom(micros, 0);
    if b == BUCKETS then buckets else buckets[b := Wrap64(buckets[b] + 1)]
  }

  /** The running total of the first `n` buckets, saturating. */
  function Cumulative(buckets: seq<nat>, n: nat): nat
    requires n <= |buckets|
  {
    if n == 0 then 0
    else
      var sum := Cumulative(buckets, n - 1) + buckets[n - 1];
      if sum > U64_MAX then U64_MAX else sum
  }

  // -- Observations counted from the history ----------------------------------

  function Below(values: seq<nat>, bound: nat): (n: nat)
    ensures n <= |values|
  {
    if values == [] then 0
    else Below(values[..|values| - 1], bound) + if values[|values| - 1] <= bound then 1 else 0
  }

  function InFirst(values: seq<nat>, n: nat): (k: nat)
    ensures k <= |values|
  {
    if values == [] then 0
    else InFirst(values[..|values| - 1], n) + if BucketFrom(values[|values| - 1], 0) < n then 1 else 0
  }

  function InBucket(values: seq<nat>, b: nat): (k: nat)
    ensures k <= |values|
  {
    if values == [] then 0
    else InBucket(values[..|values| - 1], b) + if BucketFrom(values[|values| - 1], 0) == b then 1 else 0
  }

  function Sum(values: seq<nat>): nat {
    if values == [] then 0 else Sum(values[..|values| - 1]) + values[|values| - 1]
  }

  lemma BucketAdmits(micros: nat, i: nat)
    requires i < BUCKETS
    ensures BucketFrom(micros, 0) < i + 1 <==> micros <= BOUNDS[i]
  {
    BoundsIncrease();
    FirstAdmitting(BOUNDS, micros, BucketFrom(micros, 0), i);
  }

  lemma {:induction false} FirstAreBelow(values: seq<nat>, i: nat)
    requires i < BUCKETS
    ensures InFirst(values, i + 1) == Below(values, BOUNDS[i])
    decreases |values|
  {
    if values != [] {
      FirstAreBelow(values[..|values| - 1], i);
      BucketAdmits(values[|values| - 1], i);
    }
  }

  lemma {:induction false} FirstAdd(values: seq<nat>, n: nat)
    ensures InFirst(values, n + 1) == InFirst(values, n) + InBucket(values, n)
    ensures InFirst(values, 0) == 0
    decreases |values|
  {
    if values != [] { FirstAdd(values[..|values| - 1], n); }
  }

  /** Buckets hold the history: each counter is the number of its observations, modulo 2^64. */
  predicate Holds(buckets: seq<nat>, values: seq<nat>) {
    |buckets| == BUCKETS && forall b :: 0 <= b < BUCKETS ==> buckets[b] == Wrap64(InBucket(values, b))
  }

  lemma {:induction false} CumulativeIsFirst(buckets: seq<nat>, values: seq<nat>, n: nat)
    requires Holds(buckets, values) && |values| <= U64_MAX && n <= BUCKETS
    ensures Cumulative(buckets, n) == InFirst(values, n)
    decreases n
  {
    if n == 0 {
      FirstAdd(values, 0);
    } else {
      CumulativeIsFirst(buckets, values, n - 1);
      FirstAdd(values, n - 1);
      assert buckets[n - 1] == InBucket(values, n - 1);
    }
  }

  /** A rendered bucket is exactly the number of observations at or below its bound. */
  lemma CumulativeExact(buckets: seq<nat>, values: seq<nat>, i: nat)
    requires Holds(buckets, values) && |values| <= U64_MAX && i < BUCKETS
    ensures Cumulative(buckets, i + 1) == Below(values, BOUNDS[i])
  {
    CumulativeIsFirst(buckets, values, i + 1);
    FirstAreBelow(values, i);
  }

  lemma BumpHolds(buckets: seq<nat>, values: seq<nat>, micros: nat)
    requires Holds(buckets, values)
    ensures Holds(Bump(buckets, micros), values + [micros])
  {
    var more, r := values + [micros], Bump(buckets, micros);
    assert more[..|values|] == values;
    forall b | 0 <= b < BUCKETS ensures r[b] == Wrap64(InBucket(more, b)) {
      if b == BucketFrom(micros, 0) { WrapAdd(InBucket(values, b), 1); }
    }
  }

  // -- Seconds as text --------------------------------------------------------

  function Missing(digits: string, width: nat): nat { if |digits| < width then width - |digits| else 0 }

  /** At least `width` digits, padded with zeros on the left. */
  function Padded(n: nat, width: nat): string { Zeros(Missing(Decimal(n), width)) + Decimal(n) }

  const POINT: string := "."

  /** Whole seconds, a point, and a six-digit fraction. */
  function Seconds(micros: nat): string {
    Decimal(micros / 1_000_000) + POINT + Padded(micros % 1_000_000, 6)
  }

  function Pow10(n: nat): nat { if n == 0 then 1 else 10 * Pow10(n - 1) }

  /** Reads seconds with six decimal places as microseconds, given how digits denote a number. */
  function ReadSeconds(value: string -> nat, text: string): Option<nat> {
    FromParts(value, SplitBy(text, POINT))
  }

  function FromParts(value: string -> nat, parts: seq<string>): Option<nat> {
    if |parts| == 2 && |parts[1]| == 6 then Some(value(parts[0]) * 1_000_000 + value(parts[1])) else None
  }

  function Micros(text: string): Option<nat> { ReadSeconds(Value, text) }

  lemma DigitsLackPoint(digits: string)
    requires AllDigits(digits)
    ensures Lacks(digits, POINT)
  {
    forall i | 0 <= i <= |digits| ensures !At(digits, i, POINT) {
      if i < |digits| {
        assert IsDigit(digits[i]);
        Mismatch(digits, i, POINT, 0);
      }
    }
  }

  lemma SplitAtPoint(whole: string, frac: string)
    requires AllDigits(whole) && AllDigits(frac)
    ensures SplitBy(whole + POINT + frac, POINT) == [whole, frac]
  {
    var s := whole + POINT + frac;
    assert s[|whole|..|whole| + 1] == POINT;
    forall i | 0 <= i < |whole| ensures !At(s, i, POINT) {
      assert s[i] == whole[i] && IsDigit(whole[i]);
      Mismatch(s, i, POINT, 0);
    }
    FindIs(s, POINT, |whole|);
    SplitAtFirst(whole, POINT, frac);
    DigitsLackPoint(frac);
    NoSplit(frac, POINT);
  }

  lemma ReadAtPoint(value: string -> nat, whole: string, frac: string)
    requires AllDigits(whole) && AllDigits(frac) && |frac| == 6
    ensures ReadSeconds(value, whole + POINT + frac) == Some(value(whole) * 1_000_000 + value(frac))
  {
    SplitAtPoint(whole, frac);
  }

  lemma {:induction false} DecimalLength(n: nat, k: nat)
    requires n < Pow10(k) && k > 0
    ensures |Decimal(n)| <= k
    decreases k
  {
    if n >= 10 {
      assert k > 1;
      DecimalLength(n / 10, k - 1);
    }
  }

  lemma Million()
    ensures Pow10(6) == 1_000_000
  {
    assert Pow10(2) == 100;
    assert Pow10(4) == 10_000;
  }

  lemma PaddedDigits(n: nat)
    requires n < 1_000_000
    ensures |Padded(n, 6)| == 6 && AllDigits(Padded(n, 6))
  {
    Million();
    DecimalLength(n, 6);
    DecimalDigits(n);
  }

  lemma PaddedValue(n: nat, width: nat)
    ensures Value(Padded(n, width)) == n
  {
    DecimalValue(n);
    ZerosValue(Missing(Decimal(n), width));
    AppendZeros(Zeros(Missing(Decimal(n), width)), Decimal(n));
  }

  lemma ReadParts(value: string -> nat, micros: nat, whole: nat, frac: nat)
    requires micros == whole * 1_000_000 + frac && frac < 1_000_000
    requires value(Decimal(whole)) == whole && value(Padded(frac, 6)) == frac
    ensures ReadSeconds(value, Decimal(whole) + POINT + Padded(frac, 6)) == Some(micros)
  {
    DecimalDigits(whole);
    PaddedDigits(frac);
    ReadAtPoint(value, Decimal(whole), Padded(frac, 6));
  }

  /** The printed seconds read back as the exact number of microseconds. */
  lemma SecondsReadBack(micros: nat)
    ensures Micros(Seconds(micros)) == Some(micros)
  {
    DecimalValue(micros / 1_000_000);
    PaddedValue(micros % 1_000_000, 6);
    ReadParts(Value, micros, micros / 1_000_000, micros % 1_000_000);
  }

  // -- What the labels say ----------------------------------------------------

  /** The same bounds in seconds, as they are labelled. */
  const LABELS: seq<string> := ["0.001", "0.005", "0.01", "0.025", "0.05", "0.1", "0.25", "0.5", "1", "2.5", "5", "10"]

  /** Decimal seconds: a whole number, or one with a point and up to six places. */
  function SecondsText(whole: nat, frac: string): string {
    if frac == "" then Decimal(whole) else Decimal(whole) + "." + frac
  }

  /** The text is a number of seconds that comes to this many microseconds. */
  ghost predicate Denotes(text: string, micros: nat) {
    exists whole: nat, frac ::
      AllDigits(frac) && |frac| <= 6 && text == SecondsText(whole, frac)
      && micros == whole * 1_000_000 + Value(frac + Zeros(6 - |frac|))
  }

  lemma DenotesBy(text: string, whole: nat, frac: string, micros: nat)
    requires AllDigits(frac) && |frac| <= 6 && text == SecondsText(whole, frac)
    requires micros == whole * 1_000_000 + Value(frac + Zeros(6 - |frac|))
    ensures Denotes(text, micros)
  {
  }

  lemma SecondsDenote(micros: nat)
    ensures Denotes(Seconds(micros), micros)
  {
    var frac := Padded(micros % 1_000_000, 6);
    PaddedDigits(micros % 1_000_000);
    PaddedValue(micros % 1_000_000, 6);
    AppendNothing(frac);
    DenotesBy(Seconds(micros), micros / 1_000_000, frac, micros);
  }

  lemma FracValue(frac: string, zeros: nat)
    ensures Value(frac + Zeros(zeros + 1)) == 10 * Value(frac + Zeros(zeros))
  {
    Associative(frac, Zeros(zeros), ['0']);
    ValueSnoc(frac + Zeros(zeros), '0');
  }

  lemma OnePlace(a: char)
    requires IsDigit(a)
    ensures Value([a] + Zeros(5)) == 100_000 * DigitValue(a)
  {
    ValueSnoc("", a);
    assert "" + [a] == [a] + Zeros(0);
    FracValue([a], 0);
    FracValue([a], 1);
    FracValue([a], 2);
    FracValue([a], 3);
    FracValue([a], 4);
  }

  lemma TwoPlaces(a: char, b: char)
    requires IsDigit(a) && IsDigit(b)
    ensures Value([a, b] + Zeros(4)) == 100_000 * DigitValue(a) + 10_000 * DigitValue(b)
  {
    ValueSnoc("", a);
    ValueSnoc([a], b);
    assert "" + [a] == [a] && [a] + [b] == [a, b] + Zeros(0);
    FracValue([a, b], 0);
    FracValue([a, b], 1);
    FracValue([a, b], 2);
    FracValue([a, b], 3);
  }

  lemma ThreePlaces(a: char, b: char, c: char)
    requires IsDigit(a) && IsDigit(b) && IsDigit(c)
    ensures Value([a, b, c] + Zeros(3)) == 100_000 * DigitValue(a) + 10_000 * DigitValue(b) + 1_000 * DigitValue(c)
  {
    ValueSnoc("", a);
    ValueSnoc([a], b);
    ValueSnoc([a, b], c);
    assert "" + [a] == [a] && [a] + [b] == [a, b] && [a, b] + [c] == [a, b, c] + Zeros(0);
    FracValue([a, b, c], 0);
    FracValue([a, b, c], 1);
    FracValue([a, b, c], 2);
  }

  lemma TenthLabel(text: string, whole: nat, a: char)
    requires IsDigit(a) && text == SecondsText(whole, [a])
    ensures Denotes(text, whole * 1_000_000 + 100_000 * DigitValue(a))
  {
    OnePlace(a);
    DenotesBy(text, whole, [a], whole * 1_000_000 + 100_000 * DigitValue(a));
  }

  lemma HundredthLabel(text: string, whole: nat, a: char, b: char)
    requires IsDigit(a) && IsDigit(b) && text == SecondsText(whole, [a, b])
    ensures Denotes(text, whole * 1_000_000 + 100_000 * DigitValue(a) + 10_000 * DigitValue(b))
  {
    TwoPlaces(a, b);
    DenotesBy(text, whole, [a, b], whole * 1_000_000 + 100_000 * DigitValue(a) + 10_000 * DigitValue(b));
  }

  lemma ThousandthLabel(text: string, whole: nat, a: char, b: char, c: char)
    requires IsDigit(a) && IsDigit(b) && IsDigit(c) && text == SecondsText(whole, [a, b, c])
    ensures Denotes(text, whole * 1_000_000 + 100_000 * DigitValue(a) + 10_000 * DigitValue(b) + 1_000 * DigitValue(c))
  {
    ThreePlaces(a, b, c);
    DenotesBy(text, whole, [a, b, c],
              whole * 1_000_000 + 100_000 * DigitValue(a) + 10_000 * DigitValue(b) + 1_000 * DigitValue(c));
  }

  lemma WholeLabel(text: string, whole: nat)
    requires text == SecondsText(whole, "")
    ensures Denotes(text, whole * 1_000_000)
  {
    ZerosValue(6);
    AppendNothing(Zeros(6));
    DenotesBy(text, whole, "", whole * 1_000_000);
  }

  lemma Label0()
    ensures Denotes(LABELS[0], BOUNDS[0])
  {
    ThousandthLabel(LABELS[0], 0, '0', '0', '1');
  }

  lemma Label1()
    ensures Denotes(LABELS[1], BOUNDS[1])
  {
    ThousandthLabel(LABELS[1], 0, '0', '0', '5');
  }

  lemma Label2()
    ensures Denotes(LABELS[2], BOUNDS[2])
  {
    HundredthLabel(LABELS[2], 0, '0', '1');
  }

  lemma Label3()
    ensures Denotes(LABELS[3], BOUNDS[3])
  {
    ThousandthLabel(LABELS[3], 0, '0', '2', '5');
  }

  lemma Label4()
    ensures Denotes(LABELS[4], BOUNDS[4])
  {
    HundredthLabel(LABELS[4], 0, '0', '5');
  }

  lemma Label5()
    ensures Denotes(LABELS[5], BOUNDS[5])
  {
    TenthLabel(LABELS[5], 0, '1');
  }

  lemma Label6()
    ensures Denotes(LABELS[6], BOUNDS[6])
  {
    HundredthLabel(LABELS[6], 0, '2', '5');
  }

  lemma Label7()
    ensures Denotes(LABELS[7], BOUNDS[7])
  {
    TenthLabel(LABELS[7], 0, '5');
  }

  lemma Label8()
    ensures Denotes(LABELS[8], BOUNDS[8])
  {
    WholeLabel(LABELS[8], 1);
  }

  lemma Label9()
    ensures Denotes(LABELS[9], BOUNDS[9])
  {
    TenthLabel(LABELS[9], 2, '5');
  }

  lemma Label10()
    ensures Denotes(LABELS[10], BOUNDS[10])
  {
    WholeLabel(LABELS[10], 5);
  }

  lemma Label11()
    ensures Denotes(LABELS[11], BOUNDS[11])
  {
    WholeLabel(LABELS[11], 10);
  }

  lemma EachIndex(ok: nat -> bool, i: nat)
    requires ok(0) && ok(1) && ok(2) && ok(3) && ok(4) && ok(5) && ok(6) && ok(7) && ok(8) && ok(9) && ok(10) && ok(11)
    requires i < BUCKETS
    ensures ok(i)
  {
  }

  /** Every label says, in seconds, exactly the bound its bucket counts up to. */
  lemma LabelsDenoteBounds(i: nat)
    requires i < BUCKETS
    ensures |LABELS| == BUCKETS && Denotes(LABELS[i], BOUNDS[i])
  {
    Label0();
    Label1();
    Label2();
    Label3();
    Label4();
    Label5();
    Label6();
    Label7();
    Label8();
    Label9();
    Label10();
    Label11();
    EachIndex(LabelRight, i);
  }

  ghost predicate LabelRight(i: nat) { i < BUCKETS ==> Denotes(LABELS[i], BOUNDS[i]) }

  // -- The histogram ----------------------------------------------------------

  /** One scrape: a label and a cumulative count per bound, the `+Inf` count, the sum's text. */
  datatype Series = Series(labels: seq<string>, cumulative: seq<nat>, total: nat, sum: string)

  /**
   What a scrape shows of a history of complete observations: beside each label the number of them at
   or below what the label says, and their number; its sum is a number of seconds that reads as the
   true sum exactly when that fits 64 bits.
   */
  ghost predicate Shows(read: string -> Option<nat>, series: Series, seen: seq<nat>) {
    && |series.cumulative| == |series.labels| == BUCKETS
    && (forall i :: 0 <= i < BUCKETS ==> Denotes(series.labels[i], BOUNDS[i]))
    && Denotes(series.sum, Wrap64(Sum(seen)))
    && (|seen| <= U64_MAX ==> series.total == |seen|)
    && (|seen| <= U64_MAX ==> forall i :: 0 <= i < BUCKETS ==> series.cumulative[i] == Below(seen, BOUNDS[i]))
    && (read(series.sum) == Some(Sum(seen)) <==> Sum(seen) <= U64_MAX)
  }

  lemma RenderedShows(read: string -> Option<nat>, buckets: seq<nat>, seen: seq<nat>, series: Series)
    requires Holds(buckets, seen) && |series.cumulative| == BUCKETS && series.labels == LABELS
    requires Denotes(series.sum, Wrap64(Sum(seen)))
    requires forall i :: 0 <= i < BUCKETS ==> series.cumulative[i] == Cumulative(buckets, i + 1)
    requires series.total == Wrap64(|seen|) && read(series.sum) == Some(Wrap64(Sum(seen)))
    ensures Shows(read, series, seen)
  {
    forall i | 0 <= i < BUCKETS ensures |series.labels| == BUCKETS && Denotes(series.labels[i], BOUNDS[i]) {
      LabelsDenoteBounds(i);
    }
    if |seen| <= U64_MAX {
      forall i | 0 <= i < BUCKETS ensures series.cumulative[i] == Below(seen, BOUNDS[i]) {
        CumulativeExact(buckets, seen, i);
      }
    }
  }

  lemma CountersFollow(seen: seq<nat>, micros: nat)
    ensures Wrap64(Wrap64(|seen|) + 1) == Wrap64(|seen + [micros]|)
    ensures Wrap64(Wrap64(Sum(seen)) + micros) == Wrap64(Sum(seen + [micros]))
  {
    assert (seen + [micros])[..|seen|] == seen;
    WrapAdd(|seen|, 1);
    WrapAdd(Sum(seen), micros);
  }

  class LatencyHistogram {
    const buckets: array<nat>
    var sumUs: nat
    var count: nat
    ghost var seen: seq<nat>

    ghost predicate Valid()
      reads this, buckets
    {
      && buckets.Length == BUCKETS && Holds(buckets[..], seen)
      && count == Wrap64(|seen|) && sumUs == Wrap64(Sum(seen))
    }

    constructor ()
      ensures Valid() && seen == [] && fresh(buckets)
    {
      buckets := new nat[12](_ => 0);
      sumUs, count, seen := 0, 0, [];
    }

    /** One observation: the first bucket that admits it, then the count, then the sum. */
    method Observe(micros: nat)
      requires Valid()
      modifies this, buckets
      ensures Valid() && seen == old(seen) + [micros]
    {
      AddToBucket(micros);
      ghost var values := seen + [micros];
      CountersFollow(seen, micros);
      count := Wrap64(count + 1);
      sumUs := Wrap64(sumUs + micros);
      seen := values;
    }

    /** The loop over the bounds, left at the first that admits the value. */
    method AddToBucket(micros: nat)
      requires buckets.Length == BUCKETS && Holds(buckets[..], seen)
      modifies buckets
      ensures Holds(buckets[..], seen + [micros])
    {
      ghost var was := buckets[..];
      BumpHolds(was, seen, micros);
      var i := 0;
      while i < 12
        invariant 0 <= i <= 12
        invariant buckets[..] == was && BucketFrom(micros, 0) == BucketFrom(micros, i)
      {
        if micros <= BOUNDS[i] {
          buckets[i] := Wrap64(buckets[i] + 1);
          assert buckets[..] == Bump(was, micros);
          return;
        }
        i := i + 1;
      }
    }

    method RenderSeries() returns (series: Series)
      requires Valid()
      ensures Shows(Micros, series, seen)
    {
      var total := count;
      var labels, lines := RenderBuckets();
      series := Series(labels, lines, total, Decimal(sumUs / 1_000_000) + "." + Padded(sumUs % 1_000_000, 6));
      SecondsReadBack(sumUs);
      SecondsDenote(sumUs);
      RenderedShows(Micros, buckets[..], seen, series);
    }

    /** The loop over labels and counters, accumulating. */
    method RenderBuckets() returns (labels: seq<string>, lines: seq<nat>)
      requires buckets.Length == BUCKETS
      ensures labels == LABELS && |lines| == BUCKETS
      ensures forall i :: 0 <= i < BUCKETS ==> lines[i] == Cumulative(buckets[..], i + 1)
    {
      var cumulative: nat, i := 0, 0;
      labels, lines := [], [];
      while i < 12
        invariant 0 <= i <= 12 && |lines| == i && labels == LABELS[..i]
        invariant cumulative == Cumulative(buckets[..], i)
        invariant forall j :: 0 <= j < i ==> lines[j] == Cumulative(buckets[..], j + 1)
      {
        cumulative := if cumulative + buckets[i] > U64_MAX then U64_MAX else cumulative + buckets[i];
        labels, lines := labels + [LABELS[i]], lines + [cumulative];
        i := i + 1;
      }
      assert LABELS[..12] == LABELS;
    }
  }

  // -- Observations and scrapes at the grain of single loads and increments ---

  /** `bumped` is the history of bucket increments; the other two lists hold the increments still to come. */
  datatype State = State(buckets: seq<nat>, count: nat, sumUs: nat, bumped: seq<nat>, toCount: seq<nat>, toSum: seq<nat>)

  /** Any observer still to count or to sum may go next. */
  datatype Step = Bumps(micros: nat) | Counts(i: nat) | Sums(i: nat)

  function Start(): State {
    State([0, 0, 0, 0, 0, 0, 0, 0, 0, 0, 0, 0], 0, 0, [], [], [])
  }

  function Without(s: seq<nat>, i: nat): seq<nat>
    requires i < |s|
  {
    s[..i] + s[i + 1..]
  }

  function Apply(s: State, step: Step): State
    requires |s.buckets| == BUCKETS
  {
    match step
    case Bumps(micros) =>
      s.(buckets := Bump(s.buckets, micros), bumped := s.bumped + [micros], toCount := s.toCount + [micros])
    case Counts(i) =>
      if i >= |s.toCount| then s
      else s.(count := Wrap64(s.count + 1), toCount := Without(s.toCount, i), toSum := s.toSum + [s.toCount[i]])
    case Sums(i) =>
      if i >= |s.toSum| then s
      else s.(sumUs := Wrap64(s.sumUs + s.toSum[i]), toSum := Without(s.toSum, i))
  }

  function Run(s: State, steps: seq<Step>): (r: State)
    requires |s.buckets| == BUCKETS
    ensures |r.buckets| == BUCKETS
    decreases |steps|
  {
    if steps == [] then s else Run(Apply(s, steps[0]), steps[1..])
  }

  /** The microseconds still to be added to the sum. */
  function Owed(s: State): nat { Sum(s.toCount) + Sum(s.toSum) }

  predicate CountOk(s: State) { |s.toCount| <= |s.bumped| && s.count == Wrap64(|s.bumped| - |s.toCount|) }

  predicate SumOk(s: State) { Owed(s) <= Sum(s.bumped) && s.sumUs == Wrap64(Sum(s.bumped) - Owed(s)) }

  predicate Inv(s: State) { Holds(s.buckets, s.bumped) && CountOk(s) && SumOk(s) }

  lemma SumSnoc(s: seq<nat>, x: nat)
    ensures Sum(s + [x]) == Sum(s) + x
  {
    assert (s + [x])[..|s|] == s;
  }

  lemma {:induction false} SumWithout(s: seq<nat>, i: nat)
    requires i < |s|
    ensures Sum(Without(s, i)) == Sum(s) - s[i]
    decreases |s|
  {
    var n := |s| - 1;
    if i == n {
      assert Without(s, i) == s[..n];
    } else {
      SumWithout(s[..n], i);
      assert Without(s, i) == Without(s[..n], i) + [s[n]];
      SumSnoc(Without(s[..n], i), s[n]);
    }
  }

  lemma BumpKeeps(s: State, micros: nat)
    requires Inv(s)
    ensures Inv(Apply(s, Bumps(micros)))
  {
    BumpHolds(s.buckets, s.bumped, micros);
    SumSnoc(s.bumped, micros);
    SumSnoc(s.toCount, micros);
    SumOkSame(s, Apply(s, Bumps(micros)));
  }

  /** The sum stays in step when nothing is added to it and the total less the owed is unchanged. */
  lemma SumOkSame(s: State, t: State)
    requires SumOk(s) && t.sumUs == s.sumUs && Sum(t.bumped) - Owed(t) == Sum(s.bumped) - Owed(s)
    ensures SumOk(t)
  {
  }

  lemma SumOkUp(s: State, t: State, x: nat)
    requires SumOk(s) && t.sumUs == Wrap64(s.sumUs + x) && t.bumped == s.bumped && Owed(t) == Owed(s) - x
    ensures SumOk(t)
  {
    WrapUp(s.sumUs, Sum(s.bumped) - Owed(s), x);
  }

  lemma CountOkUp(s: State, t: State)
    requires CountOk(s) && t.count == Wrap64(s.count + 1) && t.bumped == s.bumped && |t.toCount| == |s.toCount| - 1
    ensures CountOk(t)
  {
    WrapUp(s.count, |s.bumped| - |s.toCount|, 1);
  }

  /** Moving one value from the first list to the second keeps their sum. */
  lemma MoveAcross(from: seq<nat>, to: seq<nat>, i: nat)
    requires i < |from|
    ensures |Without(from, i)| == |from| - 1
    ensures Sum(Without(from, i)) + Sum(to + [from[i]]) == Sum(from) + Sum(to)
  {
    SumWithout(from, i);
    SumSnoc(to, from[i]);
  }

  lemma CountedOwesTheSame(s: State, i: nat)
    requires |s.buckets| == BUCKETS && i < |s.toCount|
    ensures var t := Apply(s, Counts(i)); Owed(t) == Owed(s) && |t.toCount| == |s.toCount| - 1
  {
    MoveAcross(s.toCount, s.toSum, i);
  }

  lemma CountKeeps(s: State, i: nat)
    requires Inv(s) && i < |s.toCount|
    ensures Inv(Apply(s, Counts(i)))
  {
    CountedOwesTheSame(s, i);
    CountOkUp(s, Apply(s, Counts(i)));
    SumOkSame(s, Apply(s, Counts(i)));
  }

  lemma SumKeeps(s: State, i: nat)
    requires Inv(s) && i < |s.toSum|
    ensures Inv(Apply(s, Sums(i)))
  {
    SumWithout(s.toSum, i);
    SumOkUp(s, Apply(s, Sums(i)), s.toSum[i]);
  }

  lemma StepKeeps(s: State, step: Step)
    requires Inv(s)
    ensures Inv(Apply(s, step))
  {
    match step {
      case Bumps(micros) => BumpKeeps(s, micros);
      case Counts(i) => if i < |s.toCount| { CountKeeps(s, i); }
      case Sums(i) => if i < |s.toSum| { SumKeeps(s, i); }
    }
  }

  /** Every interleaving keeps the counters in step with the history. */
  lemma {:induction false} RunKeeps(s: State, steps: seq<Step>)
    requires Inv(s)
    ensures Inv(Run(s, steps))
    decreases |steps|
  {
    if steps != [] {
      StepKeeps(s, steps[0]);
      RunKeeps(Apply(s, steps[0]), steps[1..]);
    }
  }

  lemma {:induction false} RunGrows(s: State, steps: seq<Step>)
    requires |s.buckets| == BUCKETS
    ensures s.bumped <= Run(s, steps).bumped
    decreases |steps|
  {
    if steps != [] {
      assert s.bumped <= Apply(s, steps[0]).bumped;
      RunGrows(Apply(s, steps[0]), steps[1..]);
    }
  }

  /** The state in which a scrape loads bucket `k`: anything may happen between two of its loads. */
  function Seen(s: State, gaps: seq<seq<Step>>, k: nat): (r: State)
    requires |s.buckets| == BUCKETS && k < |gaps|
    ensures |r.buckets| == BUCKETS
  {
    Run(if k == 0 then s else Seen(s, gaps, k - 1), gaps[k])
  }

  function Loaded(s: State, gaps: seq<seq<Step>>): (r: seq<nat>)
    requires |s.buckets| == BUCKETS && |gaps| == BUCKETS + 1
    ensures |r| == BUCKETS
  {
    seq(BUCKETS, k requires 0 <= k < BUCKETS => Seen(s, gaps, k).buckets[k])
  }

  /** The count is loaded first, then the buckets in order, then the sum. */
  function Scrape(s: State, gaps: seq<seq<Step>>): (r: Series)
    requires |s.buckets| == BUCKETS && |gaps| == BUCKETS + 1
    ensures |r.cumulative| == BUCKETS && r.labels == LABELS
  {
    Series(LABELS, seq(BUCKETS, i requires 0 <= i < BUCKETS => Cumulative(Loaded(s, gaps), i + 1)),
           s.count, Seconds(Seen(s, gaps, BUCKETS).sumUs))
  }

  lemma {:induction false} SeenKeeps(s: State, gaps: seq<seq<Step>>, k: nat)
    requires Inv(s) && k < |gaps|
    ensures Inv(Seen(s, gaps, k))
  {
    if k == 0 {
      RunKeeps(s, gaps[0]);
    } else {
      SeenKeeps(s, gaps, k - 1);
      RunKeeps(Seen(s, gaps, k - 1), gaps[k]);
    }
  }

  lemma SeenGrows(s: State, gaps: seq<seq<Step>>, k: nat)
    requires |s.buckets| == BUCKETS && k < |gaps|
    ensures (if k == 0 then s else Seen(s, gaps, k - 1)).bumped <= Seen(s, gaps, k).bumped
  {
    RunGrows(if k == 0 then s else Seen(s, gaps, k - 1), gaps[k]);
  }

  lemma {:induction false} SeenInOrder(s: State, gaps: seq<seq<Step>>, j: nat, k: nat)
    requires |s.buckets| == BUCKETS && j <= k < |gaps|
    ensures s.bumped <= Seen(s, gaps, j).bumped <= Seen(s, gaps, k).bumped
    decreases k
  {
    SeenGrows(s, gaps, k);
    var last := Seen(s, gaps, k).bumped;
    if k > 0 {
      var i := if j < k then j else k - 1;
      SeenInOrder(s, gaps, i, k - 1);
      PrefixTransitive(Seen(s, gaps, i).bumped, Seen(s, gaps, k - 1).bumped, last);
      PrefixTransitive(s.bumped, Seen(s, gaps, k - 1).bumped, last);
    }
  }

  lemma LoadedIs(s: State, gaps: seq<seq<Step>>, k: nat)
    requires Inv(s) && |gaps| == BUCKETS + 1 && k < BUCKETS
    ensures Loaded(s, gaps)[k] == Wrap64(InBucket(Seen(s, gaps, k).bumped, k))
  {
    SeenKeeps(s, gaps, k);
  }

  lemma {:induction false} InBucketGrows(a: seq<nat>, b: seq<nat>, n: nat)
    requires a <= b
    ensures InBucket(a, n) <= InBucket(b, n)
    decreases |b|
  {
    if a != b { InBucketGrows(a, b[..|b| - 1], n); }
  }

  lemma {:induction false} CumulativeMonotone(a: seq<nat>, b: seq<nat>, n: nat)
    requires |a| == |b| && n <= |a| && forall i :: 0 <= i < |a| ==> a[i] <= b[i]
    ensures Cumulative(a, n) <= Cumulative(b, n)
    decreases n
  {
    if n > 0 { CumulativeMonotone(a, b, n - 1); }
  }

  function BucketCounts(values: seq<nat>): (r: seq<nat>)
    ensures |r| == BUCKETS && forall b :: 0 <= b < BUCKETS ==> r[b] == Wrap64(InBucket(values, b))
  {
    seq(BUCKETS, b requires 0 <= b < BUCKETS => Wrap64(InBucket(values, b)))
  }

  lemma LoadedBetween(s: State, gaps: seq<seq<Step>>, k: nat)
    requires Inv(s) && |gaps| == BUCKETS + 1 && k < BUCKETS
    requires |Seen(s, gaps, BUCKETS).bumped| <= U64_MAX
    ensures BucketCounts(s.bumped)[k] <= Loaded(s, gaps)[k] <= BucketCounts(Seen(s, gaps, BUCKETS).bumped)[k]
  {
    LoadedIs(s, gaps, k);
    SeenInOrder(s, gaps, k, BUCKETS);
    var at, end := Seen(s, gaps, k).bumped, Seen(s, gaps, BUCKETS).bumped;
    InBucketGrows(s.bumped, at, k);
    InBucketGrows(at, end, k);
  }

  /**
   A scrape among concurrent observers: every cumulative value lies between the exact counts at the
   scrape's first and last load.
   */
  lemma ScrapeBetween(s: State, gaps: seq<seq<Step>>, i: nat)
    requires Inv(s) && |gaps| == BUCKETS + 1 && i < BUCKETS
    requires |Seen(s, gaps, BUCKETS).bumped| <= U64_MAX
    ensures Below(s.bumped, BOUNDS[i]) <= Scrape(s, gaps).cumulative[i] <= Below(Seen(s, gaps, BUCKETS).bumped, BOUNDS[i])
  {
    var end := Seen(s, gaps, BUCKETS).bumped;
    SeenInOrder(s, gaps, BUCKETS, BUCKETS);
    var low, mid, high := BucketCounts(s.bumped), Loaded(s, gaps), BucketCounts(end);
    forall k | 0 <= k < BUCKETS ensures low[k] <= mid[k] <= high[k] { LoadedBetween(s, gaps, k); }
    ScrapeAt(s, gaps, i);
    CumulativeMonotone(low, mid, i + 1);
    CumulativeMonotone(mid, high, i + 1);
    CumulativeExact(low, s.bumped, i);
    CumulativeExact(high, end, i);
  }

  lemma {:induction false} CumulativeGrows(buckets: seq<nat>, i: nat, j: nat)
    requires i <= j <= |buckets|
    ensures Cumulative(buckets, i) <= Cumulative(buckets, j)
    decreases j
  {
    if i < j {
      CumulativeGrows(buckets, i, j - 1);
      CumulativeFits(buckets, j - 1);
    }
  }

  lemma CumulativeFits(buckets: seq<nat>, n: nat)
    requires n <= |buckets|
    ensures Cumulative(buckets, n) <= U64_MAX
  {
  }

  lemma ScrapeAt(s: State, gaps: seq<seq<Step>>, i: nat)
    requires |s.buckets| == BUCKETS && |gaps| == BUCKETS + 1 && i < BUCKETS
    ensures Scrape(s, gaps).cumulative[i] == Cumulative(Loaded(s, gaps), i + 1)
  {
  }

  /** The cumulative values of one scrape never decrease, whatever happens between its loads. */
  lemma ScrapeMonotone(s: State, gaps: seq<seq<Step>>, i: nat, j: nat)
    requires |s.buckets| == BUCKETS && |gaps| == BUCKETS + 1 && i <= j < BUCKETS
    ensures Scrape(s, gaps).cumulative[i] <= Scrape(s, gaps).cumulative[j]
  {
    ScrapeAt(s, gaps, i);
    ScrapeAt(s, gaps, j);
    CumulativeGrows(Loaded(s, gaps), i + 1, j + 1);
  }

  predicate Quiet(gaps: seq<seq<Step>>) { |gaps| == BUCKETS + 1 && forall k :: 0 <= k < |gaps| ==> gaps[k] == [] }

  lemma {:induction false} SeenQuietly(s: State, gaps: seq<seq<Step>>, k: nat)
    requires |s.buckets| == BUCKETS && Quiet(gaps) && k < |gaps|
    ensures Seen(s, gaps, k) == s
  {
    if k > 0 { SeenQuietly(s, gaps, k - 1); }
  }

  lemma QuietScrape(s: State, gaps: seq<seq<Step>>)
    requires |s.buckets| == BUCKETS && Quiet(gaps)
    ensures Scrape(s, gaps).total == s.count && Scrape(s, gaps).sum == Seconds(s.sumUs)
    ensures forall i :: 0 <= i < BUCKETS ==> Scrape(s, gaps).cumulative[i] == Cumulative(s.buckets, i + 1)
  {
    forall k | 0 <= k <= BUCKETS ensures Seen(s, gaps, k) == s { SeenQuietly(s, gaps, k); }
    assert Loaded(s, gaps) == s.buckets;
  }

  /** With no observation in progress, a scrape shows the history exactly. */
  lemma QuietScrapeShows(s: State, gaps: seq<seq<Step>>)
    requires Inv(s) && Quiet(gaps) && s.toCount == [] && s.toSum == []
    ensures Shows(Micros, Scrape(s, gaps), s.bumped)
  {
    NothingOwed(s);
    SettledShows(s, gaps);
  }

  lemma NothingOwed(s: State)
    requires Inv(s) && s.toCount == [] && s.toSum == []
    ensures Holds(s.buckets, s.bumped) && s.count == Wrap64(|s.bumped|) && s.sumUs == Wrap64(Sum(s.bumped))
  {
    assert Owed(s) == 0;
  }

  lemma SettledShows(s: State, gaps: seq<seq<Step>>)
    requires Holds(s.buckets, s.bumped) && s.count == Wrap64(|s.bumped|) && s.sumUs == Wrap64(Sum(s.bumped)) && Quiet(gaps)
    ensures Shows(Micros, Scrape(s, gaps), s.bumped)
  {
    QuietScrape(s, gaps);
    SecondsReadBack(s.sumUs);
    SecondsDenote(s.sumUs);
    RenderedShows(Micros, s.buckets, s.bumped, Scrape(s, gaps));
  }

  // -- Exactly what a scrape shows --------------------------------------------

  /** The bucket increments between two states of a run. */
  function Since(s: State, t: State): seq<nat> {
    if |s.bumped| <= |t.bumped| then t.bumped[|s.bumped|..] else []
  }

  /** Per bucket: the observations that reached it after the count was loaded, before it was itself. */
  function Arrivals(s: State, gaps: seq<seq<Step>>): (r: seq<nat>)
    requires |s.buckets| == BUCKETS && |gaps| == BUCKETS + 1
    ensures |r| == BUCKETS
  {
    seq(BUCKETS, k requires 0 <= k < BUCKETS => InBucket(Since(s, Seen(s, gaps, k)), k))
  }

  /** Those of the first `n` buckets together. */
  function Late(s: State, gaps: seq<seq<Step>>, n: nat): nat
    requires |s.buckets| == BUCKETS && |gaps| == BUCKETS + 1 && n <= BUCKETS
  {
    Sum(Arrivals(s, gaps)[..n])
  }

  lemma {:induction false} InBucketSplits(a: seq<nat>, b: seq<nat>, n: nat)
    requires a <= b
    ensures InBucket(b, n) == InBucket(a, n) + InBucket(b[|a|..], n)
    decreases |b|
  {
    if a != b {
      var init, tail := b[..|b| - 1], b[|a|..];
      InBucketSplits(a, init, n);
      assert tail[..|tail| - 1] == init[|a|..];
    }
  }

  lemma LoadedSplits(s: State, gaps: seq<seq<Step>>, k: nat)
    requires Inv(s) && |gaps| == BUCKETS + 1 && k < BUCKETS
    requires |Seen(s, gaps, BUCKETS).bumped| <= U64_MAX
    ensures Loaded(s, gaps)[k] == InBucket(s.bumped, k) + Arrivals(s, gaps)[k]
    ensures Loaded(s, gaps)[k] <= InBucket(Seen(s, gaps, BUCKETS).bumped, k)
  {
    LoadedIs(s, gaps, k);
    SeenInOrder(s, gaps, k, BUCKETS);
    InBucketSplits(s.bumped, Seen(s, gaps, k).bumped, k);
    InBucketGrows(Seen(s, gaps, k).bumped, Seen(s, gaps, BUCKETS).bumped, k);
  }

  lemma SumPrefix(v: seq<nat>, n: nat)
    requires 0 < n <= |v|
    ensures Sum(v[..n]) == Sum(v[..n - 1]) + v[n - 1]
  {
    assert v[..n][..n - 1] == v[..n - 1];
  }

  lemma {:induction false} CumulativeSplits(loaded: seq<nat>, base: seq<nat>, late: seq<nat>, end: seq<nat>, n: nat)
    requires |loaded| == |late| == BUCKETS && n <= BUCKETS && |end| <= U64_MAX
    requires forall k :: 0 <= k < BUCKETS ==> loaded[k] == InBucket(base, k) + late[k] && loaded[k] <= InBucket(end, k)
    ensures Cumulative(loaded, n) == InFirst(base, n) + Sum(late[..n])
    ensures Cumulative(loaded, n) <= InFirst(end, n)
    decreases n
  {
    if n == 0 {
      FirstAdd(base, 0);
      FirstAdd(end, 0);
    } else {
      CumulativeSplits(loaded, base, late, end, n - 1);
      FirstAdd(base, n - 1);
      FirstAdd(end, n - 1);
      SumPrefix(late, n);
      AddLoaded(loaded, n, InFirst(base, n - 1) + Sum(late[..n - 1]));
    }
  }

  lemma AddLoaded(loaded: seq<nat>, n: nat, before: nat)
    requires 0 < n <= |loaded| && Cumulative(loaded, n - 1) == before && before + loaded[n - 1] <= U64_MAX
    ensures Cumulative(loaded, n) == before + loaded[n - 1]
  {
  }

  /**
   What a scrape shows for a bound, exactly: the observations at or below it when the count was
   loaded, and those that slipped into its buckets before each was loaded.
   */
  lemma ScrapeExact(s: State, gaps: seq<seq<Step>>, i: nat)
    requires Inv(s) && |gaps| == BUCKETS + 1 && i < BUCKETS
    requires |Seen(s, gaps, BUCKETS).bumped| <= U64_MAX
    ensures Scrape(s, gaps).cumulative[i] == Below(s.bumped, BOUNDS[i]) + Late(s, gaps, i + 1)
  {
    ScrapeAt(s, gaps, i);
    var end := Seen(s, gaps, BUCKETS).bumped;
    forall k | 0 <= k < BUCKETS
      ensures Loaded(s, gaps)[k] == InBucket(s.bumped, k) + Arrivals(s, gaps)[k] && Loaded(s, gaps)[k] <= InBucket(end, k)
    {
      LoadedSplits(s, gaps, k);
    }
    CumulativeSplits(Loaded(s, gaps), s.bumped, Arrivals(s, gaps), end, i + 1);
    FirstAreBelow(s.bumped, i);
  }

  /**
   Whatever happens between the loads, the last bound's value is at most the `+Inf` value exactly
   when the observations not yet counted, with those that slipped in after the count was loaded, are
   no more than those above the last bound.
   */
  lemma InfIsLargestExactly(s: State, gaps: seq<seq<Step>>)
    requires Inv(s) && |gaps| == BUCKETS + 1 && |Seen(s, gaps, BUCKETS).bumped| <= U64_MAX
    ensures Scrape(s, gaps).cumulative[11] <= Scrape(s, gaps).total <==>
            |s.toCount| + Late(s, gaps, BUCKETS) <= |s.bumped| - Below(s.bumped, BOUNDS[11])
  {
    ScrapeExact(s, gaps, 11);
    SeenInOrder(s, gaps, BUCKETS, BUCKETS);
    TotalIs(s, gaps);
  }

  lemma TotalIs(s: State, gaps: seq<seq<Step>>)
    requires Inv(s) && |gaps| == BUCKETS + 1 && |s.bumped| <= U64_MAX
    ensures Scrape(s, gaps).total == |s.bumped| - |s.toCount|
  {
  }

  lemma StartBuckets()
    ensures Holds(Start().buckets, [])
  {
    forall b | 0 <= b < BUCKETS ensures Start().buckets[b] == Wrap64(InBucket([], b)) {
      assert InBucket([], b) == 0;
    }
  }

  lemma StartHolds()
    ensures Inv(Start())
  {
    StartBuckets();
    UnusedHolds(Start());
  }

  lemma UnusedHolds(s: State)
    requires Holds(s.buckets, []) && s.bumped == [] && s.toCount == [] && s.toSum == [] && s.count == 0 && s.sumUs == 0
    ensures Inv(s)
  {
    assert Sum([]) == 0;
  }

  lemma OneBump(micros: nat)
    ensures Run(Start(), [Bumps(micros)]) == Apply(Start(), Bumps(micros))
    ensures Apply(Start(), Bumps(micros)).bumped == [micros] == Apply(Start(), Bumps(micros)).toCount
    ensures Below([micros], BOUNDS[11]) == if micros <= BOUNDS[11] then 1 else 0
  {
    var steps := [Bumps(micros)];
    assert steps[1..] == [];
    assert [micros][..0] == [];
  }

  /** An observation between its first two increments: a bucket already exceeds `+Inf`. */
  lemma InfBelowBucket(micros: nat, gaps: seq<seq<Step>>)
    requires micros <= BOUNDS[11] && |gaps| == BUCKETS + 1
    requires |Seen(Run(Start(), [Bumps(micros)]), gaps, BUCKETS).bumped| <= U64_MAX
    ensures Scrape(Run(Start(), [Bumps(micros)]), gaps).cumulative[11] > Scrape(Run(Start(), [Bumps(micros)]), gaps).total
  {
    StartHolds();
    OneBump(micros);
    RunKeeps(Start(), [Bumps(micros)]);
    InfIsLargestExactly(Run(Start(), [Bumps(micros)]), gaps);
  }

  /** One whole observation after the count was loaded and before the first bucket. */
  predicate OneWholeObservation(gaps: seq<seq<Step>>, micros: nat) {
    && |gaps| == BUCKETS + 1 && gaps[0] == [Bumps(micros), Counts(0), Sums(0)]
    && forall k :: 1 <= k < |gaps| ==> gaps[k] == []
  }

  lemma WholeObservation(micros: nat)
    ensures var t := Run(Start(), [Bumps(micros), Counts(0), Sums(0)]);
            t.bumped == [micros] && t.toCount == [] && t.toSum == []
  {
    var steps := [Bumps(micros), Counts(0), Sums(0)];
    var s1 := Apply(Start(), Bumps(micros));
    var s2 := Apply(s1, Counts(0));
    assert s1.toCount == [micros] && s1.bumped == [micros];
    assert s2.toSum == [micros] && s2.toCount == [];
    assert steps[1..] == [Counts(0), Sums(0)] && steps[1..][1..] == [Sums(0)] && steps[1..][1..][1..] == [];
    assert Run(Start(), steps) == Run(s1, [Counts(0), Sums(0)]) == Run(s2, [Sums(0)]) == Run(Apply(s2, Sums(0)), []);
  }

  lemma {:induction false} SeenAfterFirst(s: State, gaps: seq<seq<Step>>, k: nat)
    requires |s.buckets| == BUCKETS && k < |gaps| && forall j :: 1 <= j < |gaps| ==> gaps[j] == []
    ensures Seen(s, gaps, k) == Run(s, gaps[0])
  {
    if k > 0 { SeenAfterFirst(s, gaps, k - 1); }
  }

  lemma {:induction false} SumIncludes(v: seq<nat>, k: nat, n: nat)
    requires k < n <= |v|
    ensures v[k] <= Sum(v[..n])
    decreases n
  {
    SumPrefix(v, n);
    if k < n - 1 { SumIncludes(v, k, n - 1); }
  }

  lemma OneInBucket(micros: nat)
    ensures InBucket([micros], BucketFrom(micros, 0)) == 1
  {
    assert [micros][..0] == [];
  }

  /**
   With no observation in progress when the scrape starts or ends, a whole one between two loads also
   lifts a bucket above `+Inf`.
   */
  lemma InfBelowBucketWhole(micros: nat, gaps: seq<seq<Step>>)
    requires micros <= BOUNDS[11] && OneWholeObservation(gaps, micros)
    ensures var end := Seen(Start(), gaps, BUCKETS);
            Start().toCount == [] && Start().toSum == [] && end.toCount == [] && end.toSum == []
    ensures Scrape(Start(), gaps).cumulative[11] > Scrape(Start(), gaps).total
  {
    StartHolds();
    WholeSeen(micros, gaps, BUCKETS);
    BucketAdmits(micros, 11);
    var b := BucketFrom(micros, 0);
    ArrivesIn(micros, gaps, b);
    LateLiftsBucket(Start(), gaps, b);
  }

  lemma WholeSeen(micros: nat, gaps: seq<seq<Step>>, k: nat)
    requires OneWholeObservation(gaps, micros) && k < |gaps|
    ensures var t := Seen(Start(), gaps, k); t.bumped == [micros] && t.toCount == [] && t.toSum == []
  {
    WholeObservation(micros);
    SeenAfterFirst(Start(), gaps, k);
  }

  lemma ArrivesIn(micros: nat, gaps: seq<seq<Step>>, b: nat)
    requires OneWholeObservation(gaps, micros) && b == BucketFrom(micros, 0) < BUCKETS
    ensures Arrivals(Start(), gaps)[b] == 1
  {
    WholeSeen(micros, gaps, b);
    assert Since(Start(), Seen(Start(), gaps, b)) == [micros];
    OneInBucket(micros);
  }

  /** From a history with nothing above the last bound, any observation that slips in is one too many. */
  lemma LateLiftsBucket(s: State, gaps: seq<seq<Step>>, k: nat)
    requires Inv(s) && |gaps| == BUCKETS + 1 && k < BUCKETS && |Seen(s, gaps, BUCKETS).bumped| <= U64_MAX
    requires Below(s.bumped, BOUNDS[11]) == |s.bumped| && Arrivals(s, gaps)[k] > 0
    ensures Scrape(s, gaps).cumulative[11] > Scrape(s, gaps).total
  {
    var v := Arrivals(s, gaps);
    SumIncludes(v, k, BUCKETS);
    InfIsLargestExactly(s, gaps);
  }
}
