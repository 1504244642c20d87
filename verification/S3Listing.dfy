/** The paged usage listing and its operation budget (`crates/runlet-core/src/s3.rs`, `crates/fabric-wire/src/metrics.rs`). */
module S3Listing {
  import opened Wrappers
  import opened Sequences
  import opened Splitting
  import opened Decimals
  import opened S3Usage

  const NEXT_OPEN: string := "<NextContinuationToken>"
  const NEXT_CLOSE: string := "</NextContinuationToken>"

  // -- One page ---------------------------------------------------------------

  /** What the store sends back: a body with a success status, or anything else. */
  datatype Reply = Body(text: string) | Failed

  datatype Page = Page(bytes: nat, objects: nat, next: Option<string>)

  /** The operation budget, a page that cannot be had, and the two checked additions. */
  datatype UsageError = OpLimit | Upstream | ByteOverflow | ObjectOverflow

  /** The trimmed text after the first opening tag, up to the closing tag. */
  function ExtractTag(xml: string, open: string, close: string): Option<string>
    requires open != "" && close != ""
  {
    var pieces := SplitBy(xml, open);
    if |pieces| < 2 then None else Some(Trim(SplitBy(pieces[1], close)[0]))
  }

  /** An empty token ends the listing like a missing one. */
  function NextToken(xml: string): (next: Option<string>)
    ensures next.Some? ==> next.value != ""
  {
    var tag := ExtractTag(xml, NEXT_OPEN, NEXT_CLOSE);
    if tag == Some("") then None else tag
  }

  function ReadPage(reply: Reply): Result<Page, UsageError> {
    if reply.Failed? then Err(Upstream)
    else
      var sums := SumSizes(reply.text);
      if sums.Err? then Err(Upstream) else Ok(Page(sums.value.0, sums.value.1, NextToken(reply.text)))
  }

  method FetchListPage(reply: Reply) returns (r: Result<Page, UsageError>)
    ensures r == ReadPage(reply)
  {
    if reply.Failed? {
      return Err(Upstream);
    }
    var sums := SumSegments(SplitBy(reply.text, OPEN)[1..]);
    if sums.Err? {
      return Err(Upstream);
    }
    return Ok(Page(sums.value.0, sums.value.1, NextToken(reply.text)));
  }

  // -- The token chain --------------------------------------------------------

  /** The store's answer to a token at the n-th request: it may answer one token differently each time. */
  type Store = (Option<string>, nat) -> Reply

  /** A store as the listing reads it. */
  type Pager = (Option<string>, nat) -> Result<Page, UsageError>

  function Reader(store: Store): Pager {
    (token: Option<string>, n: nat) => ReadPage(store(token, n))
  }

  function Token(pages: seq<Page>): Option<string> {
    if pages == [] then None else pages[|pages| - 1].next
  }

  predicate Complete(pages: seq<Page>) {
    pages != [] && pages[|pages| - 1].next.None?
  }

  /** Each page answers the token of the page before it, which therefore did not end the listing. */
  predicate Chain(fetch: Pager, pages: seq<Page>) {
    pages == [] ||
    var init := pages[..|pages| - 1];
    Chain(fetch, init) && !Complete(init) && fetch(Token(init), |init|) == Ok(pages[|pages| - 1])
  }

  function Bytes(pages: seq<Page>): nat {
    if pages == [] then 0 else Bytes(pages[..|pages| - 1]) + pages[|pages| - 1].bytes
  }

  function Objects(pages: seq<Page>): nat {
    if pages == [] then 0 else Objects(pages[..|pages| - 1]) + pages[|pages| - 1].objects
  }

  predicate Fits(pages: seq<Page>) { Bytes(pages) <= U64_MAX && Objects(pages) <= U64_MAX }

  /** The listing's outcome read off the pages fetched, without reference to how they were fetched. */
  predicate Explains(fetch: Pager, budget: nat, pages: seq<Page>, outcome: Result<(nat, nat), UsageError>) {
    && Chain(fetch, pages) && |pages| <= budget
    && match outcome {
      case Ok(totals) => Complete(pages) && Fits(pages) && totals == (Bytes(pages), Objects(pages))
      case Err(OpLimit) => !Complete(pages) && Fits(pages) && |pages| == budget
      case Err(Upstream) =>
        && !Complete(pages) && Fits(pages) && |pages| < budget
        && fetch(Token(pages), |pages|).Err?
      case Err(ByteOverflow) =>
        pages != [] && Fits(pages[..|pages| - 1]) && Bytes(pages) > U64_MAX
      case Err(ObjectOverflow) =>
        pages != [] && Fits(pages[..|pages| - 1]) && Bytes(pages) <= U64_MAX && Objects(pages) > U64_MAX
    }
  }

  // -- The loop ---------------------------------------------------------------

  datatype S3Metric = S3Metric(action: string, bytes: Option<nat>, objects: Option<nat>)

  function MetricOf(page: Page): S3Metric { S3Metric("usage", Some(page.bytes), Some(page.objects)) }

  function MetricsOf(pages: seq<Page>): (r: seq<S3Metric>)
    ensures |r| == |pages|
  {
    if pages == [] then [] else MetricsOf(pages[..|pages| - 1]) + [MetricOf(pages[|pages| - 1])]
  }

  function Budget(recorded: nat, maxOps: nat): nat {
    if recorded >= maxOps then 0 else maxOps - recorded
  }

  /** The loop's state: an unfinished chain within the budget whose totals fit. */
  ghost predicate Going(fetch: Pager, budget: nat, pages: seq<Page>) {
    Chain(fetch, pages) && !Complete(pages) && Fits(pages) && |pages| <= budget
  }

  /** Where the loop stops without another page. */
  lemma Stops(fetch: Pager, budget: nat, pages: seq<Page>)
    requires Going(fetch, budget, pages)
    ensures |pages| == budget ==> Explains(fetch, budget, pages, Err(OpLimit))
    ensures |pages| < budget && fetch(Token(pages), |pages|).Err? ==> Explains(fetch, budget, pages, Err(Upstream))
  {
  }

  /** What the loop carries: the totals, the token to ask for, and how many pages it has had. */
  datatype Progress = Progress(bytes: nat, objects: nat, token: Option<string>, had: nat)

  ghost function ProgressOf(pages: seq<Page>): Progress {
    Progress(Bytes(pages), Objects(pages), Token(pages), |pages|)
  }

  /** A page added with checked additions: the outcome, if it ends the loop, and the progress after it. */
  function Added(p: Progress, page: Page): (Option<Result<(nat, nat), UsageError>>, Progress) {
    var bytes, objects := p.bytes + page.bytes, p.objects + page.objects;
    var after := Progress(bytes, objects, page.next, p.had + 1);
    if bytes > U64_MAX then (Some(Err(ByteOverflow)), after)
    else if objects > U64_MAX then (Some(Err(ObjectOverflow)), after)
    else if page.next.None? then (Some(Ok((bytes, objects))), after)
    else (None, after)
  }

  lemma ProgressSnoc(pages: seq<Page>, page: Page)
    ensures ProgressOf(pages + [page]) == Added(ProgressOf(pages), page).1
  {
    SumsSnoc(pages, page);
    TokenSnoc(pages, page);
  }

  lemma TokenSnoc(pages: seq<Page>, page: Page)
    ensures Token(pages + [page]) == page.next && |pages + [page]| == |pages| + 1
    ensures Complete(pages + [page]) <==> page.next.None?
  {
  }

  lemma ChainSnoc(fetch: Pager, pages: seq<Page>, page: Page)
    requires Chain(fetch, pages) && !Complete(pages) && fetch(Token(pages), |pages|) == Ok(page)
    ensures Chain(fetch, pages + [page]) && (pages + [page])[..|pages + [page]| - 1] == pages
  {
    assert (pages + [page])[..|pages|] == pages;
  }

  lemma SumsSnoc(pages: seq<Page>, page: Page)
    ensures Bytes(pages + [page]) == Bytes(pages) + page.bytes && Objects(pages + [page]) == Objects(pages) + page.objects
  {
    assert (pages + [page])[..|pages|] == pages;
  }

  lemma MetricsSnoc(pages: seq<Page>, page: Page)
    ensures (pages + [page])[..|pages|] == pages && MetricsOf(pages + [page]) == MetricsOf(pages) + [MetricOf(page)]
  {
  }

  /** The page that answers the last token continues the chain, and decides the outcome if it is the last. */
  lemma Extend(fetch: Pager, budget: nat, pages: seq<Page>, page: Page)
    requires Going(fetch, budget, pages) && |pages| < budget && fetch(Token(pages), |pages|) == Ok(page)
    ensures var outcome := Added(ProgressOf(pages), page).0;
            if outcome.Some? then Explains(fetch, budget, pages + [page], outcome.value)
            else Going(fetch, budget, pages + [page])
  {
    ChainSnoc(fetch, pages, page);
    SumsSnoc(pages, page);
    TokenSnoc(pages, page);
  }

  /** The metrics one execution's S3 operations leave behind. */
  class Collector {
    var metrics: seq<S3Metric>

    constructor ()
      ensures metrics == []
    {
      metrics := [];
    }

    method CheckOpLimit(maxOps: nat) returns (ok: bool)
      ensures ok <==> |metrics| < maxOps
    {
      ok := |metrics| < maxOps;
    }

    method Record(metric: S3Metric)
      modifies this
      ensures metrics == old(metrics) + [metric]
    {
      metrics := metrics + [metric];
    }

    /** One page: refused at the limit, recorded only when it was had. */
    method NextPage(fetch: Pager, maxOps: nat, token: Option<string>, n: nat) returns (page: Result<Page, UsageError>)
      modifies this
      ensures page == Err(OpLimit) <==> old(|metrics|) >= maxOps
      ensures page.Err? && page.error != OpLimit ==> page.error == Upstream && fetch(token, n).Err?
      ensures page.Err? ==> metrics == old(metrics)
      ensures page.Ok? ==> page == fetch(token, n) && metrics == old(metrics) + [MetricOf(page.value)]
    {
      var ok := CheckOpLimit(maxOps);
      if !ok {
        return Err(OpLimit);
      }
      page := fetch(token, n);
      if page.Err? {
        return Err(Upstream);
      }
      Record(MetricOf(page.value));
    }

    /**
     Totals a prefix page by page. The outcome is the one the fetched pages explain, exactly those
     pages are recorded, and there are never more of them than the budget left, whatever the store
     (`fetch` is `Reader(store)` for any store).
     */
    method DoUsage(fetch: Pager, maxOps: nat) returns (r: Result<(nat, nat), UsageError>, ghost pages: seq<Page>)
      modifies this
      ensures Explains(fetch, Budget(old(|metrics|), maxOps), pages, r)
      ensures metrics == old(metrics) + MetricsOf(pages)
    {
      var at, outcome := Progress(0, 0, None, 0), None;
      ghost var budget := Budget(|metrics|, maxOps);
      pages := [];
      while outcome.None?
        invariant outcome.None? ==> Going(fetch, budget, pages) && at == ProgressOf(pages)
        invariant outcome.Some? ==> Explains(fetch, budget, pages, outcome.value)
        invariant metrics == old(metrics) + MetricsOf(pages)
        decreases outcome.None?, Budget(|metrics|, maxOps)
      {
        outcome, at, pages := Advance(fetch, maxOps, at, old(metrics), pages);
      }
      r := outcome.value;
    }

    /** One turn of the loop: check the limit, fetch, record, add. */
    method Advance(fetch: Pager, maxOps: nat, at: Progress, ghost before: seq<S3Metric>, ghost pages: seq<Page>)
      returns (outcome: Option<Result<(nat, nat), UsageError>>, after: Progress, ghost more: seq<Page>)
      requires Going(fetch, Budget(|before|, maxOps), pages) && at == ProgressOf(pages)
      requires metrics == before + MetricsOf(pages)
      modifies this
      ensures outcome.None? ==> Going(fetch, Budget(|before|, maxOps), more) && after == ProgressOf(more)
      ensures outcome.None? ==> old(|metrics|) < |metrics| && old(|metrics|) < maxOps
      ensures outcome.Some? ==> Explains(fetch, Budget(|before|, maxOps), more, outcome.value)
      ensures metrics == before + MetricsOf(more)
    {
      ghost var budget := Budget(|before|, maxOps);
      after, more := at, pages;
      Stops(fetch, budget, pages);
      var fetched := NextPage(fetch, maxOps, at.token, at.had);
      if fetched.Err? {
        outcome := Some(Err(fetched.error));
        return;
      }
      Extend(fetch, budget, pages, fetched.value);
      ProgressSnoc(pages, fetched.value);
      MetricsSnoc(pages, fetched.value);
      more := pages + [fetched.value];
      var (ended, next) := Added(at, fetched.value);
      outcome, after := ended, next;
      Associative(before, MetricsOf(pages), [MetricOf(fetched.value)]);
    }
  }

  // -- What the outcome means -------------------------------------------------

  lemma {:induction false} ChainPrefix(fetch: Pager, pages: seq<Page>, n: nat)
    requires Chain(fetch, pages) && n <= |pages|
    ensures Chain(fetch, pages[..n])
    ensures n < |pages| ==> !Complete(pages[..n]) && fetch(Token(pages[..n]), n) == Ok(pages[n])
    decreases |pages|
  {
    if n == |pages| {
      assert pages[..n] == pages;
    } else if n < |pages| - 1 {
      var init := pages[..|pages| - 1];
      ChainPrefix(fetch, init, n);
      assert init[..n] == pages[..n];
    }
  }

  /** A store has one chain: of any two, the shorter is a prefix of the longer. */
  lemma {:induction false} ChainsAgree(fetch: Pager, a: seq<Page>, b: seq<Page>, n: nat)
    requires Chain(fetch, a) && Chain(fetch, b) && n <= |a| && n <= |b|
    ensures a[..n] == b[..n]
    decreases n
  {
    if n > 0 {
      ChainsAgree(fetch, a, b, n - 1);
      ChainPrefix(fetch, a, n - 1);
      ChainPrefix(fetch, b, n - 1);
      assert a[..n] == a[..n - 1] + [a[n - 1]] && b[..n] == b[..n - 1] + [b[n - 1]];
    }
  }

  lemma {:induction false} SumsGrow(pages: seq<Page>, n: nat)
    requires n <= |pages|
    ensures Bytes(pages[..n]) <= Bytes(pages) && Objects(pages[..n]) <= Objects(pages)
    decreases |pages|
  {
    if n == |pages| {
      assert pages[..n] == pages;
    } else {
      SumsGrow(pages[..|pages| - 1], n);
      assert pages[..|pages| - 1][..n] == pages[..n];
    }
  }

  /** No outcome explained by some pages leaves room for one explained by more of them. */
  lemma NoLonger(fetch: Pager, budget: nat,
                 a: seq<Page>, x: Result<(nat, nat), UsageError>,
                 b: seq<Page>, y: Result<(nat, nat), UsageError>)
    requires Explains(fetch, budget, a, x) && Explains(fetch, budget, b, y)
    ensures |a| >= |b|
  {
    if |a| < |b| {
      ChainsAgree(fetch, a, b, |a|);
      assert a[..|a|] == a;
      assert b[..|a|] == a;
      ChainPrefix(fetch, b, |a|);
      assert b[..|b| - 1][..|a|] == a;
      SumsGrow(b[..|b| - 1], |a|);
    }
  }

  /**
   The pages and the outcome of a listing are determined by the store and the budget alone: whatever
   explains it is what `DoUsage` returned. So it succeeds if and only if the store's chain ends
   within the budget and its totals fit, it hits the limit if and only if the chain outlives the
   budget, and so on for each error.
   */
  lemma UsageExactly(fetch: Pager, budget: nat,
                     a: seq<Page>, x: Result<(nat, nat), UsageError>,
                     b: seq<Page>, y: Result<(nat, nat), UsageError>)
    requires Explains(fetch, budget, a, x) && Explains(fetch, budget, b, y)
    ensures a == b && x == y
  {
    NoLonger(fetch, budget, a, x, b, y);
    NoLonger(fetch, budget, b, y, a, x);
    ChainsAgree(fetch, a, b, |a|);
    assert a[..|a|] == a && b[..|a|] == b;
  }

  /** Against a store whose tokens never end, a listing stops at the budget, or earlier at an overflow. */
  lemma EndlessHitsTheLimit(fetch: Pager, budget: nat, pages: seq<Page>, outcome: Result<(nat, nat), UsageError>)
    requires forall token, n :: fetch(token, n).Ok? && fetch(token, n).value.next.Some?
    requires Explains(fetch, budget, pages, outcome)
    ensures Fits(pages) ==> outcome == Err(OpLimit) && |pages| == budget
    ensures !Fits(pages) ==> outcome == Err(ByteOverflow) || outcome == Err(ObjectOverflow)
  {
    if Complete(pages) {
      assert false;
    }
  }

  /** What a usage metric reports; metrics of other actions report nothing here. */
  function UsageBytes(m: S3Metric): nat { if m.action == "usage" && m.bytes.Some? then m.bytes.value else 0 }

  function UsageObjects(m: S3Metric): nat { if m.action == "usage" && m.objects.Some? then m.objects.value else 0 }

  function RecordedBytes(metrics: seq<S3Metric>): nat {
    if metrics == [] then 0
    else
      RecordedBytes(metrics[..|metrics| - 1]) + UsageBytes(metrics[|metrics| - 1])
  }

  function RecordedObjects(metrics: seq<S3Metric>): nat {
    if metrics == [] then 0
    else
      RecordedObjects(metrics[..|metrics| - 1]) + UsageObjects(metrics[|metrics| - 1])
  }

  lemma RecordedSnoc(metrics: seq<S3Metric>, last: S3Metric)
    ensures RecordedBytes(metrics + [last]) == RecordedBytes(metrics) + UsageBytes(last)
    ensures RecordedObjects(metrics + [last]) == RecordedObjects(metrics) + UsageObjects(last)
  {
    assert (metrics + [last])[..|metrics|] == metrics;
  }

  /** The recorded page metrics add up to the totals of the chain. */
  lemma {:induction false} MetricsAddUp(before: seq<S3Metric>, pages: seq<Page>)
    ensures RecordedBytes(before + MetricsOf(pages)) == RecordedBytes(before) + Bytes(pages)
    ensures RecordedObjects(before + MetricsOf(pages)) == RecordedObjects(before) + Objects(pages)
    decreases |pages|
  {
    if pages == [] {
      assert before + MetricsOf(pages) == before;
    } else {
      var init, last := pages[..|pages| - 1], MetricOf(pages[|pages| - 1]);
      MetricsAddUp(before, init);
      Associative(before, MetricsOf(init), [last]);
      RecordedSnoc(before + MetricsOf(init), last);
    }
  }

  // -- From stored objects to totals ------------------------------------------

  /** A page as the store writes it: text, the token element if there is more, text, the sizes. */
  datatype Listing = Listing(before: string, token: Option<string>, pad: string, between: string, items: seq<Item>)

  function TokenElement(token: Option<string>, pad: string): string {
    if token.None? then "" else "<NextContinuationToken>" + (pad + token.value + pad) + "</NextContinuationToken>"
  }

  function Head(page: Listing): string { page.before + TokenElement(page.token, page.pad) + page.between }

  function Text(page: Listing): string { Head(page) + Render(page.items) }

  ghost predicate WellFormed(page: Listing) {
    && Lacks(Head(page), OPEN) && PlainText(page.items) && SizesWritten(page.items)
    && match page.token {
      case None => Lacks(Text(page), NEXT_OPEN)
      case Some(token) => Lacks(page.before, NEXT_OPEN) && token != "" && NoMarkup(token) && Tight(token) && Blank(page.pad)
    }
  }

  lemma NextTags()
    ensures Tag(NEXT_OPEN) && Tag(NEXT_CLOSE) && NEXT_OPEN[1] != NEXT_CLOSE[1]
  {
  }

  /** The element's closing tag comes before any second opening tag. */
  lemma FirstInner(inner: string, open: string, close: string, after: string)
    requires Tag(open) && Tag(close) && open[1] != close[1] && NoMarkup(inner)
    ensures SplitBy(SplitBy(inner + close + after, open)[0], close)[0] == inner
  {
    var s, n := inner + close + after, |inner + close|;
    forall i | 0 <= i < n ensures !At(s, i, open) {
      if i < |inner| {
        assert s[i] == inner[i];
        Mismatch(s, i, open, 0);
      } else if i == |inner| {
        assert s[i + 1] == close[1];
        Mismatch(s, i, open, 1);
      } else {
        assert s[i] == close[i - |inner|];
        Mismatch(s, i, open, 0);
      }
    }
    var cut := Find(s, open, 0);
    var end := if cut.Some? then cut.value else |s|;
    assert n <= end;
    assert s[..end] == inner + close + s[n..end];
    assert SplitBy(s, open)[0] == s[..end];
    NoMarkupLacks(inner, close);
    SplitAtTag(inner, close, s[n..end]);
  }

  lemma TagReadsBack(before: string, open: string, inner: string, close: string, after: string)
    requires Tag(open) && Tag(close) && open[1] != close[1] && Lacks(before, open) && NoMarkup(inner)
    ensures ExtractTag(before + open + (inner + close + after), open, close) == Some(Trim(inner))
  {
    var rest := inner + close + after;
    SplitAtTag(before, open, rest);
    FirstInner(inner, open, close, after);
    assert ([before] + SplitBy(rest, open))[1] == SplitBy(rest, open)[0];
  }

  lemma TokenReadsBack(page: Listing)
    requires WellFormed(page)
    ensures NextToken(Text(page)) == page.token
  {
    match page.token {
      case None => NoTagNoToken(Text(page));
      case Some(token) =>
        var after := page.between + Render(page.items);
        Regroup(page.before, NEXT_OPEN, page.pad + token + page.pad, NEXT_CLOSE, page.between, Render(page.items));
        TokenInText(page.before, token, page.pad, after);
    }
  }

  lemma Regroup(before: string, open: string, token: string, close: string, between: string, rest: string)
    ensures before + (open + token + close) + between + rest == before + open + (token + close + (between + rest))
  {
  }

  lemma NoTagNoToken(text: string)
    requires Lacks(text, NEXT_OPEN)
    ensures NextToken(text) == None
  {
    NextTags();
    NoSplit(text, NEXT_OPEN);
  }

  lemma BlankHoldsNoMarkup(pad: string)
    requires Blank(pad)
    ensures NoMarkup(pad)
  {
    forall i | 0 <= i < |pad| ensures pad[i] != '<' { assert BlankOctet(pad[i]); }
  }

  /** White space round a token is not part of it. */
  lemma TokenInText(before: string, token: string, pad: string, after: string)
    requires Lacks(before, NEXT_OPEN) && NoMarkup(token) && Tight(token) && token != "" && Blank(pad)
    ensures NextToken(before + NEXT_OPEN + (pad + token + pad + NEXT_CLOSE + after)) == Some(token)
  {
    NextTags();
    BlankHoldsNoMarkup(pad);
    TagReadsBack(before, NEXT_OPEN, pad + token + pad, NEXT_CLOSE, after);
    TrimExactly(pad, token, pad);
  }

  /** An empty or blank token element ends the listing. */
  lemma BlankTokenEnds(before: string, pad: string, after: string)
    requires Lacks(before, NEXT_OPEN) && Blank(pad)
    ensures NextToken(before + NEXT_OPEN + (pad + NEXT_CLOSE + after)) == None
  {
    NextTags();
    BlankHoldsNoMarkup(pad);
    TagReadsBack(before, NEXT_OPEN, pad, NEXT_CLOSE, after);
    TrimExactly(pad, "", "");
    assert pad + "" + "" == pad;
  }

  lemma PageReadsBack(page: Listing)
    requires WellFormed(page) && Total(page.items) <= U64_MAX && |page.items| <= U64_MAX
    ensures ReadPage(Body(Text(page))) == Ok(Page(Total(page.items), |page.items|, page.token))
  {
    TokenReadsBack(page);
    SumSizesExact(Head(page), page.items);
  }

  function TotalSize(listing: seq<Listing>): nat {
    if listing == [] then 0 else TotalSize(listing[..|listing| - 1]) + Total(listing[|listing| - 1].items)
  }

  function TotalItems(listing: seq<Listing>): nat {
    if listing == [] then 0 else TotalItems(listing[..|listing| - 1]) + |listing[|listing| - 1].items|
  }

  function LastToken(listing: seq<Listing>): Option<string> {
    if listing == [] then None else listing[|listing| - 1].token
  }

  /** The store serves these pages one after another, each but the last with the token of the next. */
  ghost predicate ServesPages(store: Store, listing: seq<Listing>) {
    && (forall i :: 0 <= i < |listing| ==> WellFormed(listing[i]))
    && (forall i :: 0 <= i < |listing| ==> store(LastToken(listing[..i]), i) == Body(Text(listing[i])))
    && (forall i :: 0 <= i < |listing| - 1 ==> listing[i].token.Some?)
  }

  /** The whole listing: the last page carries no token. */
  ghost predicate Serves(store: Store, listing: seq<Listing>) {
    ServesPages(store, listing) && listing != [] && listing[|listing| - 1].token.None?
  }

  function PagesOf(listing: seq<Listing>): (r: seq<Page>)
    ensures |r| == |listing|
    ensures forall i :: 0 <= i < |listing| ==> r[i] == Page(Total(listing[i].items), |listing[i].items|, listing[i].token)
  {
    seq(|listing|, i requires 0 <= i < |listing| => Page(Total(listing[i].items), |listing[i].items|, listing[i].token))
  }

  lemma {:induction false} PagesAddUp(listing: seq<Listing>)
    ensures Bytes(PagesOf(listing)) == TotalSize(listing) && Objects(PagesOf(listing)) == TotalItems(listing)
    decreases |listing|
  {
    if listing != [] {
      PagesAddUp(listing[..|listing| - 1]);
      assert PagesOf(listing)[..|listing| - 1] == PagesOf(listing[..|listing| - 1]);
    }
  }

  lemma {:induction false} PartFits(listing: seq<Listing>, i: nat)
    requires i < |listing|
    ensures Total(listing[i].items) <= TotalSize(listing) && |listing[i].items| <= TotalItems(listing)
    decreases |listing|
  {
    if i < |listing| - 1 { PartFits(listing[..|listing| - 1], i); }
  }

  lemma ReadServed(store: Store, token: Option<string>, n: nat, page: Listing)
    requires WellFormed(page) && Total(page.items) <= U64_MAX && |page.items| <= U64_MAX
    requires store(token, n) == Body(Text(page))
    ensures Reader(store)(token, n) == Ok(Page(Total(page.items), |page.items|, page.token))
  {
    PageReadsBack(page);
  }

  lemma TokensOfPages(listing: seq<Listing>, i: nat)
    requires i < |listing|
    ensures Token(PagesOf(listing)[..i]) == LastToken(listing[..i])
    ensures i == 0 || listing[i - 1].token.Some? ==> !Complete(PagesOf(listing)[..i])
  {
  }

  lemma ServedPage(store: Store, listing: seq<Listing>, i: nat)
    requires ServesPages(store, listing) && i < |listing|
    requires TotalSize(listing) <= U64_MAX && TotalItems(listing) <= U64_MAX
    ensures !Complete(PagesOf(listing)[..i])
    ensures Reader(store)(Token(PagesOf(listing)[..i]), i) == Ok(PagesOf(listing)[i])
  {
    PartFits(listing, i);
    TokensOfPages(listing, i);
    ReadServed(store, LastToken(listing[..i]), i, listing[i]);
  }

  ghost predicate AnswersToken(fetch: Pager, pages: seq<Page>, i: nat)
    requires i < |pages|
  {
    !Complete(pages[..i]) && fetch(Token(pages[..i]), i) == Ok(pages[i])
  }

  /** Pages that each answer the token before them form a chain. */
  lemma {:induction false} ChainOf(fetch: Pager, pages: seq<Page>, n: nat)
    requires n <= |pages|
    requires forall i :: 0 <= i < |pages| ==> AnswersToken(fetch, pages, i)
    ensures Chain(fetch, pages[..n])
  {
    if n > 0 {
      ChainOf(fetch, pages, n - 1);
      assert AnswersToken(fetch, pages, n - 1);
      ChainSnoc(fetch, pages[..n - 1], pages[n - 1]);
      PrefixSnoc(pages, n - 1);
    }
  }

  lemma ServedChain(store: Store, listing: seq<Listing>)
    requires ServesPages(store, listing)
    requires TotalSize(listing) <= U64_MAX && TotalItems(listing) <= U64_MAX
    ensures Chain(Reader(store), PagesOf(listing))
  {
    var pages := PagesOf(listing);
    forall i | 0 <= i < |pages| ensures AnswersToken(Reader(store), pages, i) { ServedPage(store, listing, i); }
    ChainOf(Reader(store), pages, |pages|);
    assert pages[..|pages|] == pages;
  }

  lemma ServedPages(store: Store, listing: seq<Listing>)
    requires ServesPages(store, listing)
    requires TotalSize(listing) <= U64_MAX && TotalItems(listing) <= U64_MAX
    ensures Chain(Reader(store), PagesOf(listing)) && Token(PagesOf(listing)) == LastToken(listing)
    ensures Complete(PagesOf(listing)) <==> listing != [] && listing[|listing| - 1].token.None?
    ensures Bytes(PagesOf(listing)) == TotalSize(listing) && Objects(PagesOf(listing)) == TotalItems(listing)
  {
    ServedChain(store, listing);
    PagesAddUp(listing);
  }

  lemma CompleteDecides(fetch: Pager, budget: nat, chain: seq<Page>, size: nat, items: nat,
                        pages: seq<Page>, outcome: Result<(nat, nat), UsageError>)
    requires Chain(fetch, chain) && Complete(chain) && |chain| <= budget
    requires Bytes(chain) == size <= U64_MAX && Objects(chain) == items <= U64_MAX
    requires Explains(fetch, budget, pages, outcome)
    ensures outcome == Ok((size, items))
  {
    UsageExactly(fetch, budget, pages, outcome, chain, Ok((size, items)));
  }

  /**
   Against a store that serves a listing, every outcome within a sufficient budget is the exact size
   and number of all objects stored under the prefix.
   */
  lemma UsageIsTrueTotal(store: Store, listing: seq<Listing>, budget: nat,
                         pages: seq<Page>, outcome: Result<(nat, nat), UsageError>)
    requires Serves(store, listing) && |listing| <= budget
    requires TotalSize(listing) <= U64_MAX && TotalItems(listing) <= U64_MAX
    requires Explains(Reader(store), budget, pages, outcome)
    ensures outcome == Ok((TotalSize(listing), TotalItems(listing)))
  {
    ServedPages(store, listing);
    CompleteDecides(Reader(store), budget, PagesOf(listing), TotalSize(listing), TotalItems(listing), pages, outcome);
  }

  ghost predicate MorePages(listing: seq<Listing>) { listing == [] || listing[|listing| - 1].token.Some? }

  /** A listing with more pages than the budget allows ends at the limit, however many more there are. */
  lemma LongListingHitsTheLimit(store: Store, listing: seq<Listing>, pages: seq<Page>, outcome: Result<(nat, nat), UsageError>)
    requires ServesPages(store, listing) && MorePages(listing)
    requires TotalSize(listing) <= U64_MAX && TotalItems(listing) <= U64_MAX
    requires Explains(Reader(store), |listing|, pages, outcome)
    ensures outcome == Err(OpLimit) && |pages| == |listing|
  {
    ServedPages(store, listing);
    LimitDecides(Reader(store), PagesOf(listing), pages, outcome);
  }

  lemma LimitDecides(fetch: Pager, chain: seq<Page>, pages: seq<Page>, outcome: Result<(nat, nat), UsageError>)
    requires Chain(fetch, chain) && !Complete(chain) && Fits(chain) && Explains(fetch, |chain|, pages, outcome)
    ensures outcome == Err(OpLimit) && |pages| == |chain|
  {
    UsageExactly(fetch, |chain|, pages, outcome, chain, Err(OpLimit));
  }

  /** A page that cannot be used: the request failed, or a size in it writes no 64-bit number. */
  ghost predicate Broken(reply: Reply) {
    || reply.Failed?
    || exists head, items, i: nat :: BadSizeAt(reply, head, items, i)
  }

  ghost predicate BadSizeAt(reply: Reply, head: string, items: seq<Item>, i: nat) {
    && i < |items| && reply == Body(head + Render(items)) && Lacks(head, OPEN) && PlainText(items)
    && forall n: nat :: Writes(items[i].text, n) ==> n > U64_MAX
  }

  lemma BrokenIsUpstream(reply: Reply)
    requires Broken(reply)
    ensures ReadPage(reply) == Err(Upstream)
  {
    if !reply.Failed? {
      var head, items, i: nat :| BadSizeAt(reply, head, items, i);
      MalformedSizeRefused(head, items, i);
    }
  }

  /** A broken page within the budget ends the listing in an upstream error: never in a total without it. */
  lemma BrokenPageEndsListing(store: Store, listing: seq<Listing>, budget: nat,
                              pages: seq<Page>, outcome: Result<(nat, nat), UsageError>)
    requires ServesPages(store, listing) && MorePages(listing) && |listing| < budget
    requires TotalSize(listing) <= U64_MAX && TotalItems(listing) <= U64_MAX
    requires Broken(store(LastToken(listing), |listing|)) && Explains(Reader(store), budget, pages, outcome)
    ensures outcome == Err(Upstream) && |pages| == |listing|
  {
    ServedPages(store, listing);
    BrokenIsUpstream(store(LastToken(listing), |listing|));
    UpstreamDecides(Reader(store), budget, PagesOf(listing), pages, outcome);
  }

  lemma UpstreamDecides(fetch: Pager, budget: nat, chain: seq<Page>, pages: seq<Page>, outcome: Result<(nat, nat), UsageError>)
    requires Chain(fetch, chain) && !Complete(chain) && Fits(chain) && |chain| < budget
    requires fetch(Token(chain), |chain|).Err? && Explains(fetch, budget, pages, outcome)
    ensures outcome == Err(Upstream) && |pages| == |chain|
  {
    UsageExactly(fetch, budget, pages, outcome, chain, Err(Upstream));
  }
}
