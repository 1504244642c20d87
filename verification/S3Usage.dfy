/** Folder usage by bounded listing (`crates/runlet-core/src/s3.rs`, `crates/fabric-wire/src/metrics.rs`). */
module S3Usage {
  import opened Wrappers
  import opened Splitting
  import opened Decimals

  // -- sum_sizes --------------------------------------------------------------

  const OPEN: string := "<Size>"
  const CLOSE: string := "</Size>"

  datatype SumError = MalformedSize | SizeOverflow | CountOverflow

  /** The value of one segment: the text up to the closing tag, trimmed and parsed. */
  function SegmentValue(segment: string): Option<nat> {
    ParseU64(Trim(SplitBy(segment, CLOSE)[0]))
  }

  function Values(segments: seq<string>): (values: seq<Option<nat>>)
    ensures |values| == |segments|
  {
    if segments == [] then [] else [SegmentValue(segments[0])] + Values(segments[1..])
  }

  /** Checked addition of the sizes in order; the first one that does not parse or fit decides. */
  function SumFrom(values: seq<Option<nat>>, total: nat, count: nat): Result<(nat, nat), SumError> {
    if values == [] then Ok((total, count))
    else if values[0].None? then Err(MalformedSize)
    else if total + values[0].value > U64_MAX then Err(SizeOverflow)
    else if count + 1 > U64_MAX then Err(CountOverflow)
    else SumFrom(values[1..], total + values[0].value, count + 1)
  }

  function SumSizes(xml: string): Result<(nat, nat), SumError> {
    SumFrom(Values(SplitBy(xml, OPEN)[1..]), 0, 0)
  }

  lemma ValuesFrom(segments: seq<string>, i: nat)
    requires i < |segments|
    ensures Values(segments[i..]) == [SegmentValue(segments[i])] + Values(segments[i + 1..])
  {
    assert segments[i..][1..] == segments[i + 1..];
  }

  lemma SumFromCons(value: Option<nat>, rest: seq<Option<nat>>, total: nat, count: nat)
    ensures SumFrom([value] + rest, total, count) ==
            if value.None? then Err(MalformedSize)
            else if total + value.value > U64_MAX then Err(SizeOverflow)
            else if count + 1 > U64_MAX then Err(CountOverflow)
            else SumFrom(rest, total + value.value, count + 1)
  {
    assert ([value] + rest)[1..] == rest;
  }

  /** The loop over the segments after the first. */
  method SumSegments(segments: seq<string>) returns (r: Result<(nat, nat), SumError>)
    ensures r == SumFrom(Values(segments), 0, 0)
  {
    var total: nat, count: nat, i := 0, 0, 0;
    assert segments[0..] == segments;
    while i < |segments|
      invariant 0 <= i <= |segments|
      invariant SumFrom(Values(segments), 0, 0) == SumFrom(Values(segments[i..]), total, count)
    {
      var value := SegmentValue(segments[i]);
      ValuesFrom(segments, i);
      SumFromCons(value, Values(segments[i + 1..]), total, count);
      if value.None? {
        return Err(MalformedSize);
      }
      if total + value.value > U64_MAX {
        return Err(SizeOverflow);
      }
      total := total + value.value;
      if count + 1 > U64_MAX {
        return Err(CountOverflow);
      }
      count := count + 1;
      i := i + 1;
    }
    return Ok((total, count));
  }

  // -- A rendered list of sizes -----------------------------------------------

  /** One object's size element: the size, the text that writes it, and the text that follows. */
  datatype Item = Item(size: nat, text: string, after: string)

  function Segment(item: Item): string { item.text + "</Size>" + item.after }

  function Render(items: seq<Item>): string {
    if items == [] then "" else "<Size>" + Segment(items[0]) + Render(items[1..])
  }

  function Total(items: seq<Item>): nat {
    if items == [] then 0 else items[0].size + Total(items[1..])
  }

  predicate PlainText(items: seq<Item>) {
    forall i :: 0 <= i < |items| ==> NoMarkup(items[i].text) && Lacks(items[i].after, OPEN)
  }

  /** Every element's text writes its size. */
  ghost predicate SizesWritten(items: seq<Item>) {
    forall i :: 0 <= i < |items| ==> Writes(items[i].text, items[i].size)
  }

  function Segments(items: seq<Item>): (r: seq<string>)
    ensures |r| == |items|
  {
    if items == [] then [] else [Segment(items[0])] + Segments(items[1..])
  }

  // -- Tags in text -----------------------------------------------------------

  /** A tag begins with `<` and holds no other. */
  predicate Tag(sep: string) {
    |sep| >= 2 && sep[0] == '<' && forall d :: 1 <= d < |sep| ==> sep[d] != '<'
  }

  predicate NoMarkup(s: string) { forall i :: 0 <= i < |s| ==> s[i] != '<' }

  lemma SizeTags()
    ensures Tag(OPEN) && Tag(CLOSE) && OPEN[1] == 'S' && CLOSE[1] == '/' && |CLOSE| == 7
  {
  }

  lemma AtPrefix(head: string, tail: string, i: nat, sep: string)
    requires i + |sep| <= |head|
    ensures At(head + tail, i, sep) <==> At(head, i, sep)
  {
    assert (head + tail)[i..i + |sep|] == head[i..i + |sep|];
  }

  lemma AtSuffix(head: string, tail: string, i: nat, sep: string)
    requires |head| <= i
    ensures At(head + tail, i, sep) <==> At(tail, i - |head|, sep)
  {
    if i + |sep| <= |head + tail| {
      assert (head + tail)[i..i + |sep|] == tail[i - |head|..i - |head| + |sep|];
    }
  }

  lemma NoMarkupLacks(s: string, sep: string)
    requires NoMarkup(s) && Tag(sep)
    ensures Lacks(s, sep)
  {
    forall i | 0 <= i <= |s| ensures !At(s, i, sep) {
      if i < |s| { Mismatch(s, i, sep, 0); }
    }
  }

  /** Text without the tag, followed by the tag: the split is where the tag was put. */
  lemma SplitAtTag(head: string, sep: string, rest: string)
    requires Tag(sep) && Lacks(head, sep)
    ensures SplitBy(head + sep + rest, sep) == [head] + SplitBy(rest, sep)
  {
    var s := head + sep + rest;
    assert s == head + (sep + rest);
    assert s[|head|..|head| + |sep|] == sep;
    forall i | 0 <= i < |head| ensures !At(s, i, sep) {
      if i + |sep| <= |head| {
        AtPrefix(head, sep + rest, i, sep);
      } else {
        assert s[|head|] == sep[0];
        Mismatch(s, i, sep, |head| - i);
      }
    }
    FindIs(s, sep, |head|);
    SplitAtFirst(head, sep, rest);
  }

  /** Text without the tag's opening character up to a closing tag that differs from it. */
  lemma ClosedLacks(digits: string, after: string)
    requires NoMarkup(digits) && Lacks(after, OPEN)
    ensures Lacks(digits + CLOSE + after, OPEN)
  {
    var s := digits + CLOSE + after;
    SizeTags();
    forall i | 0 <= i <= |s| ensures !At(s, i, OPEN) {
      if i < |digits| {
        assert s[i] == digits[i];
        Mismatch(s, i, OPEN, 0);
      } else if i == |digits| {
        assert s[i + 1] == CLOSE[1];
        Mismatch(s, i, OPEN, 1);
      } else if i < |digits| + 7 {
        assert s[i] == CLOSE[i - |digits|];
        Mismatch(s, i, OPEN, 0);
      } else {
        AtSuffix(digits + CLOSE, after, i, OPEN);
      }
    }
  }

  // -- Reading a rendered list of sizes ---------------------------------------

  /** A segment is read as the text before its closing tag. */
  lemma SegmentReads(item: Item)
    requires NoMarkup(item.text)
    ensures SegmentValue(Segment(item)) == ParseU64(Trim(item.text))
  {
    SizeTags();
    NoMarkupLacks(item.text, CLOSE);
    SplitAtTag(item.text, CLOSE, item.after);
  }

  lemma SegmentLacks(item: Item)
    requires NoMarkup(item.text) && Lacks(item.after, OPEN)
    ensures Lacks(Segment(item), OPEN)
  {
    ClosedLacks(item.text, item.after);
  }

  lemma SplitNext(head: string, text: string, first: string, rest: string, pieces: seq<string>)
    requires Lacks(head, OPEN) && text == OPEN + first + rest
    requires SplitBy(first + rest, OPEN) == pieces
    ensures SplitBy(head + text, OPEN) == [head] + pieces
  {
    SizeTags();
    assert head + text == head + OPEN + (first + rest);
    SplitAtTag(head, OPEN, first + rest);
  }

  lemma {:induction false} SplitRendered(head: string, items: seq<Item>)
    requires Lacks(head, OPEN) && PlainText(items)
    ensures SplitBy(head + Render(items), OPEN) == [head] + Segments(items)
    decreases |items|
  {
    if items == [] {
      assert head + Render(items) == head;
      NoSplit(head, OPEN);
    } else {
      var first := Segment(items[0]);
      SegmentLacks(items[0]);
      SplitRendered(first, items[1..]);
      SplitNext(head, Render(items), first, Render(items[1..]), [first] + Segments(items[1..]));
    }
  }

  /** What each element's text is read as. */
  function Read(items: seq<Item>): (values: seq<Option<nat>>)
    ensures |values| == |items| && forall i :: 0 <= i < |items| ==> values[i] == ParseU64(Trim(items[i].text))
  {
    seq(|items|, i requires 0 <= i < |items| => ParseU64(Trim(items[i].text)))
  }

  lemma ReadCons(items: seq<Item>)
    requires items != []
    ensures Read(items) == [ParseU64(Trim(items[0].text))] + Read(items[1..])
  {
  }

  lemma ValuesCons(first: string, rest: seq<string>)
    ensures Values([first] + rest) == [SegmentValue(first)] + Values(rest)
  {
    assert ([first] + rest)[1..] == rest;
  }

  lemma {:induction false} RenderedValues(items: seq<Item>)
    requires PlainText(items)
    ensures Values(Segments(items)) == Read(items)
    decreases |items|
  {
    if items != [] {
      SegmentReads(items[0]);
      ValuesCons(Segment(items[0]), Segments(items[1..]));
      RenderedValues(items[1..]);
      ReadCons(items);
    }
  }

  function TotalOf(values: seq<Option<nat>>): nat {
    if values == [] then 0 else (if values[0].Some? then values[0].value else 0) + TotalOf(values[1..])
  }

  /** Checked addition succeeds exactly when every value is there and both totals fit, and is then exact. */
  lemma {:induction false} SumFromExactly(values: seq<Option<nat>>, total: nat, count: nat)
    requires total <= U64_MAX && count <= U64_MAX
    ensures SumFrom(values, total, count).Ok? <==>
              && (forall i :: 0 <= i < |values| ==> values[i].Some?)
              && total + TotalOf(values) <= U64_MAX && count + |values| <= U64_MAX
    ensures SumFrom(values, total, count).Ok? ==>
              SumFrom(values, total, count).value == (total + TotalOf(values), count + |values|)
    decreases |values|
  {
    if values != [] {
      var v, rest := values[0], values[1..];
      if v.Some? && total + v.value <= U64_MAX && count + 1 <= U64_MAX {
        SumFromExactly(rest, total + v.value, count + 1);
        AllSomeCons(values);
      }
    }
  }

  lemma AllSomeCons(values: seq<Option<nat>>)
    requires values != []
    ensures (forall i :: 0 <= i < |values| ==> values[i].Some?) <==>
              values[0].Some? && forall i :: 0 <= i < |values[1..]| ==> values[1..][i].Some?
  {
    if values[0].Some? && forall i :: 0 <= i < |values[1..]| ==> values[1..][i].Some? {
      forall i | 0 <= i < |values| ensures values[i].Some? {
        if i > 0 { assert values[1..][i - 1] == values[i]; }
      }
    }
  }

  lemma SumOfPieces(xml: string, head: string, segments: seq<string>)
    requires SplitBy(xml, OPEN) == [head] + segments
    ensures SumSizes(xml) == SumFrom(Values(segments), 0, 0)
  {
    assert ([head] + segments)[1..] == segments;
  }

  lemma SumIsReadSum(head: string, items: seq<Item>)
    requires Lacks(head, OPEN) && PlainText(items)
    ensures SumSizes(head + Render(items)) == SumFrom(Read(items), 0, 0)
  {
    SplitRendered(head, items);
    SumOfPieces(head + Render(items), head, Segments(items));
    RenderedValues(items);
  }

  /** What a size comes to in 64 bits. */
  function Fitting(size: nat): Option<nat> { if size <= U64_MAX then Some(size) else None }

  lemma SizesRead(items: seq<Item>)
    requires SizesWritten(items)
    ensures forall i :: 0 <= i < |items| ==> Read(items)[i] == Fitting(items[i].size)
  {
    forall i | 0 <= i < |items| ensures Read(items)[i] == Fitting(items[i].size) {
      assert Writes(items[i].text, items[i].size);
      SizeRead(items[i].text, items[i].size);
    }
  }

  lemma {:induction false} TotalOfSizes(values: seq<Option<nat>>, items: seq<Item>)
    requires |values| == |items| && forall i :: 0 <= i < |items| ==> values[i] == Some(items[i].size)
    ensures TotalOf(values) == Total(items)
    decreases |items|
  {
    if items != [] { TotalOfSizes(values[1..], items[1..]); }
  }

  /** A text that writes a number is read as that number when it fits 64 bits, and refused otherwise. */
  lemma SizeRead(text: string, n: nat)
    requires Writes(text, n)
    ensures ParseU64(Trim(text)) == if n <= U64_MAX then Some(n) else None
  {
    ReadsExactly(text, n);
    if n > U64_MAX { TooLarge(text, n); }
  }

  lemma TooLarge(text: string, n: nat)
    requires Writes(text, n) && n > U64_MAX
    ensures ParseU64(Trim(text)) == None
  {
    var left, right, plus, zeros: nat :|
      Blank(left) && Blank(right) && text == left + Numeral(plus, zeros, n) + right;
    NumeralParses(plus, zeros, n);
    TrimExactly(left, Numeral(plus, zeros, n), right);
  }

  lemma {:induction false} SizeWithinTotal(items: seq<Item>, i: nat)
    requires i < |items|
    ensures items[i].size <= Total(items)
    decreases |items|
  {
    if i > 0 { SizeWithinTotal(items[1..], i - 1); }
  }

  /**
   Summing a rendered listing gives exactly the sum and the number of its sizes, whatever text stands
   between the elements, however the numbers are padded; it fails exactly when a total does not fit
   64 bits.
   */
  lemma SumSizesExact(head: string, items: seq<Item>)
    requires Lacks(head, OPEN) && PlainText(items) && SizesWritten(items)
    ensures SumSizes(head + Render(items)).Ok? <==> Total(items) <= U64_MAX && |items| <= U64_MAX
    ensures SumSizes(head + Render(items)).Ok? ==> SumSizes(head + Render(items)).value == (Total(items), |items|)
  {
    SumIsReadSum(head, items);
    SizesRead(items);
    SumOfFitting(Read(items), items);
  }

  lemma SumOfFitting(values: seq<Option<nat>>, items: seq<Item>)
    requires |values| == |items| && forall i :: 0 <= i < |items| ==> values[i] == Fitting(items[i].size)
    ensures SumFrom(values, 0, 0).Ok? <==> Total(items) <= U64_MAX && |items| <= U64_MAX
    ensures SumFrom(values, 0, 0).Ok? ==> SumFrom(values, 0, 0).value == (Total(items), |items|)
  {
    SumFromExactly(values, 0, 0);
    if Total(items) <= U64_MAX {
      forall i | 0 <= i < |items| ensures values[i] == Some(items[i].size) { SizeWithinTotal(items, i); }
    }
    if forall i :: 0 <= i < |values| ==> values[i].Some? { TotalOfSizes(values, items); }
  }

  /** A single element whose text writes no 64-bit number makes the whole page an error. */
  lemma MalformedSizeRefused(head: string, items: seq<Item>, i: nat)
    requires Lacks(head, OPEN) && PlainText(items) && i < |items|
    requires forall n: nat :: Writes(items[i].text, n) ==> n > U64_MAX
    ensures SumSizes(head + Render(items)).Err?
  {
    SumIsReadSum(head, items);
    SumFromExactly(Read(items), 0, 0);
    var v := ParseU64(Trim(items[i].text));
    if v.Some? { ReadsExactly(items[i].text, v.value); }
    assert Read(items)[i].None?;
  }
}
