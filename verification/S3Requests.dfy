/** The queries of the signed list and delete requests (`crates/runlet-core/src/s3.rs`). */
module S3Requests {
  import opened Wrappers
  import opened Sequences
  import opened S3Query

  const LIST_TYPE: string := "list-type"
  const MAX_KEYS: string := "max-keys"
  const PREFIX: string := "prefix"
  const CONTINUATION_TOKEN: string := "continuation-token"

  /** `build_delete_url`: five parameters, valid for a minute. */
  function DeletePairs(credential: string, date: string): seq<Pair> {
    [(ALGORITHM, AWS4_HMAC_SHA256), (CREDENTIAL, credential), (DATE, date), (EXPIRES, "60"), (SIGNED_HEADERS, HOST)]
  }

  /** `build_list_url`: the listing's own parameters after them; an empty prefix is left out. */
  function ListPairs(credential: string, date: string, prefix: string, token: Option<string>): seq<Pair> {
    DeletePairs(credential, date) + [(LIST_TYPE, "2"), (MAX_KEYS, "1000")]
    + (if prefix == "" then [] else [(PREFIX, prefix)])
    + (if token.Some? then [(CONTINUATION_TOKEN, token.value)] else [])
  }

  // -- Distinct names are always in full order --------------------------------

  predicate DistinctNames(pairs: seq<Pair>) {
    forall i, j :: 0 <= i < j < |pairs| ==> pairs[i].0 != pairs[j].0
  }

  predicate OctetNames(pairs: seq<Pair>) { forall i :: 0 <= i < |pairs| ==> Octets(pairs[i].0) }

  /** Encoding keeps different names different. */
  lemma EncodedNamesDiffer(a: string, b: string)
    requires Octets(a) && Octets(b) && a != b
    ensures EncodeToken(a) != EncodeToken(b)
  {
    DecodeUndoesEncode(a);
    DecodeUndoesEncode(b);
  }

  /** A query whose names are all different has the order Signature Version 4 asks for, whatever its values. */
  lemma DistinctNamesFullySorted(pairs: seq<Pair>)
    requires DistinctNames(pairs) && OctetNames(pairs)
    ensures FullySorted(Sort(Encoded(pairs)))
  {
    var e := Encoded(pairs);
    forall i, j | 0 <= i < j < |e| ensures e[i].0 != e[j].0 {
      EncodedNamesDiffer(pairs[i].0, pairs[j].0);
    }
    FullOrderExactly(pairs);
  }

  /** With a repeated name the function alone does not give that order. */
  lemma RepeatedNameOutOfOrder()
    ensures !FullySorted(Sort(Encoded([("k", "2"), ("k", "1")])))
  {
    var pairs := [("k", "2"), ("k", "1")];
    UnreservedUnchanged("k");
    UnreservedUnchanged("2");
    UnreservedUnchanged("1");
    var e := Encoded(pairs);
    assert e[0] == ("k", "2") && e[1] == ("k", "1");
    assert !LexLe("2", "1");
    FullOrderExactly(pairs);
  }

  // -- The requests -----------------------------------------------------------

  /** The parameter names differ already in length. */
  lemma NameLengths()
    ensures |ALGORITHM| == 15 && |CREDENTIAL| == 16 && |DATE| == 10 && |EXPIRES| == 13 && |SIGNED_HEADERS| == 19
    ensures |LIST_TYPE| == 9 && |MAX_KEYS| == 8 && |PREFIX| == 6 && |CONTINUATION_TOKEN| == 18
  {
  }

  lemma SigningNamesAreOctets()
    ensures Octets(ALGORITHM) && Octets(CREDENTIAL) && Octets(DATE) && Octets(EXPIRES) && Octets(SIGNED_HEADERS)
  {
  }

  lemma ListingNamesAreOctets()
    ensures Octets(LIST_TYPE) && Octets(MAX_KEYS) && Octets(PREFIX) && Octets(CONTINUATION_TOKEN)
  {
  }

  predicate DistinctLengths(pairs: seq<Pair>) {
    forall i, j :: 0 <= i < j < |pairs| ==> |pairs[i].0| != |pairs[j].0|
  }

  lemma SnocDistinct(pairs: seq<Pair>, p: Pair)
    requires DistinctLengths(pairs) && OctetNames(pairs) && Octets(p.0)
    requires forall i :: 0 <= i < |pairs| ==> |pairs[i].0| != |p.0|
    ensures DistinctLengths(pairs + [p]) && OctetNames(pairs + [p])
  {
  }

  lemma DeleteNames(credential: string, date: string)
    ensures var pairs := DeletePairs(credential, date);
            && DistinctLengths(pairs) && OctetNames(pairs)
            && forall i :: 0 <= i < |pairs| ==> |pairs[i].0| in {15, 16, 10, 13, 19}
  {
    NameLengths();
    SigningNamesAreOctets();
  }

  lemma ListNames(credential: string, date: string, prefix: string, token: Option<string>)
    ensures DistinctLengths(ListPairs(credential, date, prefix, token)) && OctetNames(ListPairs(credential, date, prefix, token))
  {
    NameLengths();
    ListingNamesAreOctets();
    DeleteNames(credential, date);
    var five := DeletePairs(credential, date);
    var six := five + [(LIST_TYPE, "2")];
    SnocDistinct(five, (LIST_TYPE, "2"));
    var seven := six + [(MAX_KEYS, "1000")];
    SnocDistinct(six, (MAX_KEYS, "1000"));
    assert seven == five + [(LIST_TYPE, "2"), (MAX_KEYS, "1000")];
    var more := if prefix == "" then seven else seven + [(PREFIX, prefix)];
    if prefix != "" { SnocDistinct(seven, (PREFIX, prefix)); }
    assert more == seven + if prefix == "" then [] else [(PREFIX, prefix)];
    if token.Some? {
      SnocDistinct(more, (CONTINUATION_TOKEN, token.value));
    } else {
      assert more + [] == more;
    }
  }

  /** Every signed list and delete query is in full order, for every credential, date, prefix and token. */
  lemma RequestsFullySorted(credential: string, date: string, prefix: string, token: Option<string>)
    ensures FullySorted(Sort(Encoded(DeletePairs(credential, date))))
    ensures FullySorted(Sort(Encoded(ListPairs(credential, date, prefix, token))))
  {
    DeleteNames(credential, date);
    ListNames(credential, date, prefix, token);
    LengthsDiffer(DeletePairs(credential, date));
    LengthsDiffer(ListPairs(credential, date, prefix, token));
    DistinctNamesFullySorted(DeletePairs(credential, date));
    DistinctNamesFullySorted(ListPairs(credential, date, prefix, token));
  }

  // -- Their text -------------------------------------------------------------

  /** One more pair at the end of a query. */
  lemma JoinSnoc(q: seq<Pair>, x: Pair)
    requires q != []
    ensures Join(q + [x]) == Join(q) + ("&" + x.0 + "=") + x.1
  {
    JoinCut(q + [x], |q|);
    assert (q + [x])[..|q|] == q && (q + [x])[|q|..] == [x];
    Regrouped(Join(q), x.0, x.1);
  }

  lemma Regrouped(head: string, name: string, value: string)
    ensures head + "&" + (name + "=" + value) == head + ("&" + name + "=") + value
  {
    Associative(head + "&", name + "=", value);
    Associative(head, "&", name + "=");
    Associative("&", name, "=");
  }

  /** The text of the five signing parameters. */
  ghost function SigningText(credential: string, date: string, expires: string): string {
    "X-Amz-Algorithm=AWS4-HMAC-SHA256" + "&X-Amz-Credential=" + EncodeToken(credential)
    + "&X-Amz-Date=" + EncodeToken(date) + "&X-Amz-Expires=" + expires + "&X-Amz-SignedHeaders=host"
  }

  lemma SigningJoined(e: seq<Pair>, credential: string, date: string, expires: string)
    requires e == [(ALGORITHM, AWS4_HMAC_SHA256), (CREDENTIAL, EncodeToken(credential)), (DATE, EncodeToken(date)),
                   (EXPIRES, expires), (SIGNED_HEADERS, HOST)]
    ensures Join(e) == SigningText(credential, date, expires)
  {
    JoinedFive(e, ALGORITHM, CREDENTIAL, DATE, EXPIRES, SIGNED_HEADERS,
               AWS4_HMAC_SHA256, EncodeToken(credential), EncodeToken(date), expires, HOST);
    Chunks(EncodeToken(credential), EncodeToken(date), expires);
    AlgorithmText();
    NameTexts();
    HostText();
  }

  /** A pair goes between the names that are not greater and the ones that are. */
  lemma {:induction false} InsertBetween(x: Pair, a: seq<Pair>, b: seq<Pair>)
    requires forall i :: 0 <= i < |a| ==> LexLe(a[i].0, x.0)
    requires b == [] || LexLt(x.0, b[0].0)
    ensures Insert(x, a + b) == a + [x] + b
    decreases |a|
  {
    if a == [] {
      AppendNothing(b);
      AppendNothing([x]);
    } else {
      LexTotal(a[0].0, x.0);
      InsertBetween(x, a[1..], b);
      assert (a + b)[1..] == a[1..] + b;
      assert [a[0]] + (a[1..] + [x] + b) == a + [x] + b;
    }
  }

  lemma SortSnoc(p: seq<Pair>, x: Pair)
    ensures Sort(p + [x]) == Insert(x, Sort(p))
  {
    assert (p + [x])[..|p|] == p;
  }

  lemma EncodedSnoc(pairs: seq<Pair>, p: Pair)
    ensures Encoded(pairs + [p]) == Encoded(pairs) + [(EncodeToken(p.0), EncodeToken(p.1))]
  {
  }

  /** A parameter whose name is behind all others goes last. */
  lemma NextParameter(pairs: seq<Pair>, q: seq<Pair>, name: string, value: string, encoded: string)
    requires q == Sort(Encoded(pairs)) && name != "" && Plain(name) && EncodeToken(value) == encoded
    requires forall i :: 0 <= i < |q| ==> q[i].0 != "" && q[i].0[0] < name[0]
    ensures Sort(Encoded(pairs + [(name, value)])) == q + [(name, encoded)]
  {
    UnreservedUnchanged(name);
    EncodedSnoc(pairs, (name, value));
    SortSnoc(Encoded(pairs), (name, encoded));
    InsertBetween((name, encoded), q, []);
    AppendNothing(q);
    AppendNothing(q + [(name, encoded)]);
  }

  /** One whose name falls between two groups goes between them. */
  lemma MiddleParameter(pairs: seq<Pair>, a: seq<Pair>, b: seq<Pair>, name: string, value: string)
    requires a + b == Sort(Encoded(pairs)) && name != "" && Plain(name)
    requires forall i :: 0 <= i < |a| ==> a[i].0 != "" && a[i].0[0] < name[0]
    requires b != [] && b[0].0 != "" && name[0] < b[0].0[0]
    ensures Sort(Encoded(pairs + [(name, value)])) == a + [(name, EncodeToken(value))] + b
  {
    UnreservedUnchanged(name);
    EncodedSnoc(pairs, (name, value));
    SortSnoc(Encoded(pairs), (name, EncodeToken(value)));
    InsertBetween((name, EncodeToken(value)), a, b);
  }

  lemma ListNamesPlain()
    ensures Plain(LIST_TYPE) && Plain(MAX_KEYS) && Plain(PREFIX) && Plain(CONTINUATION_TOKEN)
    ensures LIST_TYPE[0] == 'l' && MAX_KEYS[0] == 'm' && PREFIX[0] == 'p' && CONTINUATION_TOKEN[0] == 'c'
    ensures ALGORITHM[0] == CREDENTIAL[0] == DATE[0] == EXPIRES[0] == SIGNED_HEADERS[0] == 'X'
  {
  }

  ghost function Optional(name: string, value: Option<string>): seq<Pair> {
    if value.Some? then [(name, EncodeToken(value.value))] else []
  }

  ghost function Given(name: string, value: Option<string>): seq<Pair> {
    if value.Some? then [(name, value.value)] else []
  }

  /** All names of the first group start with an octet below that of `name`. */
  ghost predicate AllBefore(q: seq<Pair>, name: string) {
    name != "" && forall i :: 0 <= i < |q| ==> q[i].0 != "" && q[i].0[0] < name[0]
  }

  lemma AllBeforeSnoc(q: seq<Pair>, x: Pair, name: string)
    requires AllBefore(q, name) && x.0 != "" && x.0[0] < name[0]
    ensures AllBefore(q + [x], name)
  {
  }

  /** Two parameters behind the others stay there in their order. */
  lemma TwoMore(pairs: seq<Pair>, q: seq<Pair>, n1: string, v1: string, n2: string, v2: string)
    requires q == Sort(Encoded(pairs)) && AllBefore(q, n1) && AllBefore(q, n2)
    requires Plain(n1) && Plain(v1) && Plain(n2) && Plain(v2) && n1[0] < n2[0]
    ensures Sort(Encoded(pairs + [(n1, v1)] + [(n2, v2)])) == q + [(n1, v1)] + [(n2, v2)]
  {
    UnreservedUnchanged(v1);
    UnreservedUnchanged(v2);
    NextParameter(pairs, q, n1, v1, v1);
    AllBeforeSnoc(q, (n1, v1), n2);
    NextParameter(pairs + [(n1, v1)], q + [(n1, v1)], n2, v2, v2);
  }

  /** An optional parameter behind the others. */
  lemma PerhapsLast(pairs: seq<Pair>, q: seq<Pair>, name: string, value: Option<string>)
    requires q == Sort(Encoded(pairs)) && AllBefore(q, name) && Plain(name)
    ensures Sort(Encoded(pairs + Given(name, value))) == q + Optional(name, value)
  {
    if value.Some? {
      NextParameter(pairs, q, name, value.value, EncodeToken(value.value));
    } else {
      AppendNothing(pairs);
      AppendNothing(q);
    }
  }

  /** An optional parameter between two groups. */
  lemma PerhapsBetween(pairs: seq<Pair>, a: seq<Pair>, b: seq<Pair>, name: string, value: Option<string>)
    requires a + b == Sort(Encoded(pairs)) && AllBefore(a, name) && Plain(name)
    requires b != [] && b[0].0 != "" && name[0] < b[0].0[0]
    ensures Sort(Encoded(pairs + Given(name, value))) == a + Optional(name, value) + b
  {
    if value.Some? {
      MiddleParameter(pairs, a, b, name, value.value);
    } else {
      AppendNothing(pairs);
      AppendNothing(a);
    }
  }

  /** Five groups of parameters whose names start in the order X, c, l, m, p, given in another order. */
  lemma ListOrder(five: seq<Pair>, e: seq<Pair>, ct: string, lt: string, v1: string, mk: string, v2: string, px: string,
                  prefix: Option<string>, token: Option<string>)
    requires e == Sort(Encoded(five)) && Behind(e, ct, lt, v1, mk, v2, px)
    ensures Sort(Encoded(five + [(lt, v1)] + [(mk, v2)] + Given(px, prefix) + Given(ct, token)))
         == e + Optional(ct, token) + ([(lt, v1)] + [(mk, v2)] + Optional(px, prefix))
  {
    TwoMore(five, e, lt, v1, mk, v2);
    var seven, e7 := five + [(lt, v1)] + [(mk, v2)], e + [(lt, v1)] + [(mk, v2)];
    AllBeforeSnoc(e, (lt, v1), px);
    AllBeforeSnoc(e + [(lt, v1)], (mk, v2), px);
    PerhapsLast(seven, e7, px, prefix);
    var rest := [(lt, v1)] + [(mk, v2)] + Optional(px, prefix);
    assert e7 + Optional(px, prefix) == e + rest;
    PerhapsBetween(seven + Given(px, prefix), e, rest, ct, token);
  }

  lemma ListNameTexts()
    ensures "&" + LIST_TYPE + "=" == "&list-type=" && "&" + MAX_KEYS + "=" == "&max-keys="
    ensures "&" + PREFIX + "=" == "&prefix=" && "&" + CONTINUATION_TOKEN + "=" == "&continuation-token="
  {
  }

  ghost function OptionalText(name: string, value: Option<string>): string {
    if value.Some? then name + EncodeToken(value.value) else ""
  }

  lemma OptionalJoined(q: seq<Pair>, name: string, value: Option<string>)
    requires q != []
    ensures Join(q + Optional(name, value)) == Join(q) + OptionalText("&" + name + "=", value)
  {
    if value.Some? {
      JoinSnoc(q, (name, EncodeToken(value.value)));
      Associative(Join(q), "&" + name + "=", EncodeToken(value.value));
    } else {
      AppendNothing(q);
      AppendNothing(Join(q));
    }
  }

  lemma ListJoined(e: seq<Pair>, ct: string, lt: string, v1: string, mk: string, v2: string, px: string,
                   prefix: Option<string>, token: Option<string>)
    requires e != []
    ensures Join(e + Optional(ct, token) + ([(lt, v1)] + [(mk, v2)] + Optional(px, prefix)))
         == Join(e) + OptionalText("&" + ct + "=", token) + ("&" + lt + "=") + v1 + ("&" + mk + "=") + v2
            + OptionalText("&" + px + "=", prefix)
  {
    var a := e + Optional(ct, token);
    OptionalJoined(e, ct, token);
    JoinSnoc(a, (lt, v1));
    JoinSnoc(a + [(lt, v1)], (mk, v2));
    OptionalJoined(a + [(lt, v1)] + [(mk, v2)], px, prefix);
    assert a + ([(lt, v1)] + [(mk, v2)] + Optional(px, prefix)) == a + [(lt, v1)] + [(mk, v2)] + Optional(px, prefix);
  }

  lemma ListPairsAre(credential: string, date: string, prefix: string, token: Option<string>)
    ensures ListPairs(credential, date, prefix, token)
         == DeletePairs(credential, date) + [(LIST_TYPE, "2")] + [(MAX_KEYS, "1000")]
            + Given(PREFIX, Nonempty(prefix)) + Given(CONTINUATION_TOKEN, token)
  {
    Pairwise(DeletePairs(credential, date), (LIST_TYPE, "2"), (MAX_KEYS, "1000"));
  }

  lemma Pairwise(q: seq<Pair>, x: Pair, y: Pair)
    ensures q + [x, y] == q + [x] + [y]
  {
  }

  /** Plain names that come behind the pairs of `e`, in this order by their first octets; plain values. */
  ghost predicate Behind(e: seq<Pair>, ct: string, lt: string, v1: string, mk: string, v2: string, px: string) {
    && AllBefore(e, ct) && AllBefore(e, lt) && AllBefore(e, mk) && AllBefore(e, px)
    && Plain(ct) && Plain(lt) && Plain(mk) && Plain(px) && Plain(v1) && Plain(v2)
    && ct[0] < lt[0] < mk[0] < px[0]
  }

  ghost predicate StartsWithX(e: seq<Pair>) {
    forall i :: 0 <= i < |e| ==> e[i].0 != "" && e[i].0[0] == 'X'
  }

  lemma ListBehind(e: seq<Pair>)
    requires StartsWithX(e)
    ensures Behind(e, CONTINUATION_TOKEN, LIST_TYPE, "2", MAX_KEYS, "1000", PREFIX)
  {
    ListNamesPlain();
  }

  lemma SigningFirst(e: seq<Pair>)
    requires |e| == 5 && e[0].0 == ALGORITHM && e[1].0 == CREDENTIAL && e[2].0 == DATE && e[3].0 == EXPIRES && e[4].0 == SIGNED_HEADERS
    ensures StartsWithX(e)
  {
    ListNamesPlain();
  }

  lemma ListQuery(pairs: seq<Pair>, five: seq<Pair>, e: seq<Pair>,
                  ct: string, lt: string, v1: string, mk: string, v2: string, px: string,
                  prefix: Option<string>, token: Option<string>)
    requires pairs == five + [(lt, v1)] + [(mk, v2)] + Given(px, prefix) + Given(ct, token)
    requires e == Sort(Encoded(five)) && e != [] && Behind(e, ct, lt, v1, mk, v2, px)
    ensures CanonicalQuery(pairs)
         == Join(e) + OptionalText("&" + ct + "=", token) + ("&" + lt + "=") + v1 + ("&" + mk + "=") + v2
            + OptionalText("&" + px + "=", prefix)
  {
    ListOrder(five, e, ct, lt, v1, mk, v2, px, prefix, token);
    ListJoined(e, ct, lt, v1, mk, v2, px, prefix, token);
  }

  /** The listing's parameters written out behind the signing ones. */
  ghost function ListingText(signing: string, prefix: Option<string>, token: Option<string>): string {
    signing + OptionalText("&continuation-token=", token) + "&list-type=" + "2" + "&max-keys=" + "1000"
    + OptionalText("&prefix=", prefix)
  }

  lemma ListingTextIs(signing: string, prefix: Option<string>, token: Option<string>)
    ensures ListingText(signing, prefix, token)
         == signing + OptionalText("&" + CONTINUATION_TOKEN + "=", token) + ("&" + LIST_TYPE + "=") + "2"
            + ("&" + MAX_KEYS + "=") + "1000" + OptionalText("&" + PREFIX + "=", prefix)
  {
    ListNameTexts();
  }

  ghost function Nonempty(prefix: string): Option<string> { if prefix == "" then None else Some(prefix) }

  lemma ListBehindSigning(credential: string, date: string, prefix: string, token: Option<string>, e: seq<Pair>)
    requires e == Sort(Encoded(DeletePairs(credential, date))) && e != [] && StartsWithX(e)
    ensures CanonicalQuery(ListPairs(credential, date, prefix, token)) == ListingText(Join(e), Nonempty(prefix), token)
  {
    ListBehind(e);
    ListPairsAre(credential, date, prefix, token);
    ListQuery(ListPairs(credential, date, prefix, token), DeletePairs(credential, date), e,
              CONTINUATION_TOKEN, LIST_TYPE, "2", MAX_KEYS, "1000", PREFIX, Nonempty(prefix), token);
    ListingTextIs(Join(e), Nonempty(prefix), token);
  }

  lemma DeleteSorted(credential: string, date: string) returns (e: seq<Pair>)
    ensures e == Sort(Encoded(DeletePairs(credential, date))) && e != [] && StartsWithX(e)
    ensures Join(e) == SigningText(credential, date, "60")
  {
    e := DeleteEncoded(credential, date);
    SigningIs(e, credential, date, "60");
    SortOfSorted(e);
  }

  ghost predicate IsSigning(e: seq<Pair>, credential: string, date: string, expires: string) {
    e == [(ALGORITHM, AWS4_HMAC_SHA256), (CREDENTIAL, EncodeToken(credential)), (DATE, EncodeToken(date)),
          (EXPIRES, expires), (SIGNED_HEADERS, HOST)]
  }

  lemma DeleteEncoded(credential: string, date: string) returns (e: seq<Pair>)
    ensures e == Encoded(DeletePairs(credential, date)) && SortedByName(e) && IsSigning(e, credential, date, "60")
  {
    e := PresignEncoded(credential, date, "60");
  }

  lemma SigningIs(e: seq<Pair>, credential: string, date: string, expires: string)
    requires IsSigning(e, credential, date, expires)
    ensures e != [] && StartsWithX(e) && Join(e) == SigningText(credential, date, expires)
  {
    SigningJoined(e, credential, date, expires);
    SigningFirst(e);
  }

  /** A signed delete request's query, written out. */
  lemma DeleteText(credential: string, date: string)
    ensures CanonicalQuery(DeletePairs(credential, date)) == SigningText(credential, date, "60")
  {
    var e := DeleteSorted(credential, date);
  }

  /**
   A signed list request's query, written out: the signing parameters, the token if there is one, the
   listing's own two, and the prefix unless it is empty.
   */
  lemma ListText(credential: string, date: string, prefix: string, token: Option<string>)
    ensures CanonicalQuery(ListPairs(credential, date, prefix, token))
         == ListingText(SigningText(credential, date, "60"), Nonempty(prefix), token)
  {
    var e := DeleteSorted(credential, date);
    ListBehindSigning(credential, date, prefix, token, e);
  }

  lemma LengthsDiffer(pairs: seq<Pair>)
    requires DistinctLengths(pairs)
    ensures DistinctNames(pairs)
  {
  }
}
