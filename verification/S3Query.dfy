/**
 SigV4 canonical query strings (`crates/runlet-core/src/s3.rs`). Text is a string of octets, one
 character per byte of its UTF-8 form.
 */
module S3Query {
  import opened Splitting
  import opened Sequences
  import opened Decimals

  type Pair = (string, string)

  predicate Octets(s: string) { forall i :: 0 <= i < |s| ==> s[i] as int < 256 }

  predicate OctetPairs(pairs: seq<Pair>) {
    forall i :: 0 <= i < |pairs| ==> Octets(pairs[i].0) && Octets(pairs[i].1)
  }

  // -- Percent encoding (sections 2.1 and 2.3 of RFC 3986) --------------------

  /** Letters, digits and `- _ . ~` stay as they are. */
  predicate Unreserved(c: char) {
    'A' <= c <= 'Z' || 'a' <= c <= 'z' || '0' <= c <= '9' || c == '-' || c == '_' || c == '.' || c == '~'
  }

  function Hex(n: nat): char
    requires n < 16
  {
    if n < 10 then '0' + n as char else 'A' + (n - 10) as char
  }

  function FromHex(c: char): nat {
    if '0' <= c <= '9' then (c - '0') as nat else if 'A' <= c <= 'F' then (c - 'A') as nat + 10 else 0
  }

  function EncodeChar(c: char): string {
    var n := c as nat % 256;
    if Unreserved(c) then [c] else ['%', Hex(n / 16), Hex(n % 16)]
  }

  function EncodeToken(s: string): string {
    if s == [] then [] else EncodeChar(s[0]) + EncodeToken(s[1..])
  }

  function DecodeToken(t: string): string {
    if t == [] then []
    else if t[0] == '%' && |t| >= 3
    then [((FromHex(t[1]) * 16 + FromHex(t[2])) % 256) as char] + DecodeToken(t[3..])
    else [t[0]] + DecodeToken(t[1..])
  }

  lemma HexPair(n: nat)
    requires n < 256
    ensures FromHex(Hex(n / 16)) * 16 + FromHex(Hex(n % 16)) == n
  {
    HexRoundTrip(n / 16);
    HexRoundTrip(n % 16);
  }

  lemma HexRoundTrip(n: nat)
    requires n < 16
    ensures FromHex(Hex(n)) == n
  {
  }

  lemma DecodeChar(c: char, rest: string)
    requires c as int < 256
    ensures DecodeToken(EncodeChar(c) + rest) == [c] + DecodeToken(rest)
  {
    var t := EncodeChar(c) + rest;
    if Unreserved(c) {
      assert t[0] == c && t[1..] == rest;
    } else {
      var n := c as nat;
      var hi, lo := Hex(n / 16), Hex(n % 16);
      assert t == ['%', hi, lo] + rest;
      assert t[3..] == rest;
      HexPair(n);
      assert ((FromHex(hi) * 16 + FromHex(lo)) % 256) as char == c;
    }
  }

  /** Decoding undoes encoding on every octet string. */
  lemma {:induction false} DecodeUndoesEncode(s: string)
    requires Octets(s)
    ensures DecodeToken(EncodeToken(s)) == s
  {
    if s != [] {
      DecodeChar(s[0], EncodeToken(s[1..]));
      DecodeUndoesEncode(s[1..]);
    }
  }

  /** An unreserved octet: a letter, a digit, or one of `-`, `.`, `_`, `~`. */
  predicate UnreservedOctet(n: nat) {
    65 <= n <= 90 || 97 <= n <= 122 || 48 <= n <= 57 || n == 45 || n == 46 || n == 95 || n == 126
  }

  /** What one octet is written as: itself, or a percent sign and two upper-case hexadecimal digits. */
  ghost function OctetText(c: char): string
    requires c as int < 256
  {
    if UnreservedOctet(c as nat) then [c]
    else ['%', "0123456789ABCDEF"[c as nat / 16], "0123456789ABCDEF"[c as nat % 16]]
  }

  lemma HexSpelled(n: nat)
    requires n < 16
    ensures Hex(n) == "0123456789ABCDEF"[n]
  {
  }

  lemma UnreservedSpelled(c: char)
    ensures Unreserved(c) <==> UnreservedOctet(c as nat)
  {
  }

  lemma EncodeCharSpelled(c: char)
    requires c as int < 256
    ensures EncodeChar(c) == OctetText(c)
  {
    UnreservedSpelled(c);
    if !Unreserved(c) { EscapeSpelled(c as nat); }
  }

  lemma EscapeSpelled(n: nat)
    requires n < 256
    ensures ['%', Hex(n / 16), Hex(n % 16)] == ['%', "0123456789ABCDEF"[n / 16], "0123456789ABCDEF"[n % 16]]
  {
    HexSpelled(n / 16);
    HexSpelled(n % 16);
  }

  lemma {:induction false} EncodeJoins(a: string, b: string)
    ensures EncodeToken(a + b) == EncodeToken(a) + EncodeToken(b)
    decreases |a|
  {
    if a == "" {
      AppendNothing(b);
      AppendNothing(EncodeToken(b));
    } else {
      EncodeJoins(a[1..], b);
      assert (a + b)[1..] == a[1..] + b;
      Associative(EncodeChar(a[0]), EncodeToken(a[1..]), EncodeToken(b));
    }
  }

  lemma EncodeOne(c: char)
    requires c as int < 256
    ensures EncodeToken([c]) == OctetText(c)
  {
    assert [c][1..] == "";
    AppendNothing(EncodeChar(c));
    EncodeCharSpelled(c);
  }

  lemma EncodeAround(a: string, c: char, b: string)
    requires c as int < 256
    ensures EncodeToken(a + [c] + b) == EncodeToken(a) + OctetText(c) + EncodeToken(b)
  {
    EncodeJoins(a + [c], b);
    EncodeJoins(a, [c]);
    EncodeOne(c);
  }

  /** Position by position, an encoded token is the text of each octet in turn. */
  lemma EncodedTextSpelled(s: string, i: nat)
    requires Octets(s) && i < |s|
    ensures EncodeToken(s) == EncodeToken(s[..i]) + OctetText(s[i]) + EncodeToken(s[i + 1..])
  {
    Around(s, i);
    EncodeAround(s[..i], s[i], s[i + 1..]);
  }

  predicate Safe(s: string) { forall i :: 0 <= i < |s| ==> Unreserved(s[i]) || s[i] == '%' }

  /** An encoded token has no separator in it. */
  lemma {:induction false} EncodedIsSafe(s: string)
    ensures Safe(EncodeToken(s))
  {
    if s != [] { EncodedIsSafe(s[1..]); }
  }

  lemma {:induction false} UnreservedUnchanged(s: string)
    requires forall i :: 0 <= i < |s| ==> Unreserved(s[i])
    ensures EncodeToken(s) == s
  {
    if s != [] {
      UnreservedUnchanged(s[1..]);
      assert s == [s[0]] + s[1..];
    }
  }

  // -- Byte order and the stable sort -----------------------------------------

  /** Rust's string order: byte by byte, a proper prefix first. */
  predicate LexLe(a: string, b: string) {
    a == [] || (b != [] && (a[0] < b[0] || (a[0] == b[0] && LexLe(a[1..], b[1..]))))
  }

  predicate LexLt(a: string, b: string) { LexLe(a, b) && a != b }

  lemma {:induction false} LexTotal(a: string, b: string)
    ensures LexLe(a, b) || LexLe(b, a)
    ensures LexLe(a, b) && LexLe(b, a) ==> a == b
    ensures LexLe(a, a)
  {
    if a != [] {
      LexTotal(a[1..], a[1..]);
      if b != [] {
        LexTotal(a[1..], b[1..]);
        assert a == [a[0]] + a[1..] && b == [b[0]] + b[1..];
      }
    }
  }

  lemma {:induction false} LexTransitive(a: string, b: string, c: string)
    requires LexLe(a, b) && LexLe(b, c)
    ensures LexLe(a, c)
  {
    if a != [] && a[0] == b[0] == c[0] { LexTransitive(a[1..], b[1..], c[1..]); }
  }

  /** One text comes before another: as its prefix, or by the first octet in which they differ. */
  ghost predicate PrefixOrSmaller(a: string, b: string) {
    a <= b || exists k :: 0 <= k < |a| && k < |b| && a[..k] == b[..k] && a[k] < b[k]
  }

  lemma {:induction false} OrderSpelled(a: string, b: string)
    ensures LexLe(a, b) <==> PrefixOrSmaller(a, b)
  {
    if a != "" && b != "" {
      if a[0] == b[0] {
        OrderSpelled(a[1..], b[1..]);
        OrderOfTails(a, b);
      } else if a[0] < b[0] {
        assert a[..0] == b[..0];
      } else {
        forall k | 0 < k < |a| && k < |b| ensures a[..k] != b[..k] { assert a[..k][0] != b[..k][0]; }
      }
    }
  }

  lemma OrderOfTails(a: string, b: string)
    requires a != "" && b != "" && a[0] == b[0]
    ensures PrefixOrSmaller(a, b) <==> PrefixOrSmaller(a[1..], b[1..])
  {
    assert a == [a[0]] + a[1..] && b == [b[0]] + b[1..];
    if k :| 0 <= k < |a| && k < |b| && a[..k] == b[..k] && a[k] < b[k] {
      assert 0 < k;
      assert a[1..][..k - 1] == a[..k][1..] && b[1..][..k - 1] == b[..k][1..];
      assert a[1..][k - 1] < b[1..][k - 1];
    }
    if k :| 0 <= k < |a[1..]| && k < |b[1..]| && a[1..][..k] == b[1..][..k] && a[1..][k] < b[1..][k] {
      PrefixOfCons(a, k);
      PrefixOfCons(b, k);
      assert a[..k + 1] == b[..k + 1] && a[k + 1] < b[k + 1];
    }
  }

  predicate SortedByName(q: seq<Pair>) {
    forall i, j :: 0 <= i < j < |q| ==> LexLe(q[i].0, q[j].0)
  }

  /** Places a pair after every pair whose name is not greater: what keeps equal names in order. */
  function Insert(x: Pair, q: seq<Pair>): seq<Pair> {
    if q == [] then [x]
    else if LexLt(x.0, q[0].0) then [x] + q
    else [q[0]] + Insert(x, q[1..])
  }

  /** The stable sort by name. */
  function Sort(p: seq<Pair>): seq<Pair> {
    if p == [] then [] else Insert(p[|p| - 1], Sort(p[..|p| - 1]))
  }

  /** The pairs with a given name, in order. */
  ghost function Named(q: seq<Pair>, name: string): seq<Pair> {
    if q == [] then []
    else (if q[0].0 == name then [q[0]] else []) + Named(q[1..], name)
  }

  lemma {:induction false} NamedAppend(a: seq<Pair>, b: seq<Pair>, name: string)
    ensures Named(a + b, name) == Named(a, name) + Named(b, name)
  {
    if a == [] {
      AppendNothing(b);
      AppendNothing(Named(b, name));
    } else {
      NamedAppend(a[1..], b, name);
      assert a == [a[0]] + a[1..] && a + b == [a[0]] + (a[1..] + b);
      NamedCons(a[0], a[1..], name);
      NamedCons(a[0], a[1..] + b, name);
      Associative([a[0]], Named(a[1..], name), Named(b, name));
    }
  }

  lemma {:induction false} InsertKeepsAll(x: Pair, q: seq<Pair>)
    ensures multiset(Insert(x, q)) == multiset(q) + multiset{x}
  {
    if q != [] {
      assert q == [q[0]] + q[1..];
      if !LexLt(x.0, q[0].0) { InsertKeepsAll(x, q[1..]); }
    }
  }

  lemma {:induction false} InsertSorted(x: Pair, q: seq<Pair>)
    requires SortedByName(q)
    ensures SortedByName(Insert(x, q))
  {
    if q != [] {
      if LexLt(x.0, q[0].0) {
        forall j | 0 <= j < |q| ensures LexLe(x.0, q[j].0) { if j > 0 { LexTransitive(x.0, q[0].0, q[j].0); } }
      } else {
        var rest := Insert(x, q[1..]);
        LexTotal(x.0, q[0].0);
        InsertSorted(x, q[1..]);
        InsertKeepsAll(x, q[1..]);
        forall j | 0 <= j < |rest| ensures LexLe(q[0].0, rest[j].0) {
          assert rest[j] in multiset(rest);
          if rest[j] != x {
            assert rest[j] in q[1..];
          }
        }
      }
    }
  }

  lemma {:induction false} InsertIsStable(x: Pair, q: seq<Pair>, name: string)
    requires SortedByName(q)
    ensures Named(Insert(x, q), name) == Named(q, name) + (if x.0 == name then [x] else [])
  {
    if q == [] {
      assert [x][1..] == [];
    } else if LexLt(x.0, q[0].0) {
      NoLaterName(x, q);
      assert ([x] + q)[1..] == q;
    } else {
      InsertIsStable(x, q[1..], name);
      var rest := Insert(x, q[1..]);
      assert ([q[0]] + rest)[1..] == rest;
    }
  }

  /** In a sorted list nothing bears a name smaller than the first. */
  lemma {:induction false} NoLaterName(x: Pair, q: seq<Pair>)
    requires SortedByName(q) && q != [] && LexLt(x.0, q[0].0)
    ensures Named(q, x.0) == []
  {
    if |q| > 1 {
      LexTransitive(x.0, q[0].0, q[1].0);
      LexTotal(q[0].0, x.0);
      LexTotal(q[0].0, q[1].0);
      NoLaterName(x, q[1..]);
    } else {
      assert q[1..] == [];
    }
  }

  /** The sort orders by name, loses nothing, and keeps pairs of one name in their given order. */
  lemma {:induction false} SortIsStable(p: seq<Pair>)
    ensures SortedByName(Sort(p))
    ensures multiset(Sort(p)) == multiset(p)
    ensures forall name :: Named(Sort(p), name) == Named(p, name)
  {
    if p != [] {
      var before, last := p[..|p| - 1], p[|p| - 1];
      SortIsStable(before);
      InsertSorted(last, Sort(before));
      InsertKeepsAll(last, Sort(before));
      assert p == before + [last];
      forall name ensures Named(Sort(p), name) == Named(p, name) {
        InsertIsStable(last, Sort(before), name);
        NamedAppend(before, [last], name);
        assert [last][1..] == [];
      }
    }
  }

  lemma {:induction false} NamedMember(q: seq<Pair>, y: Pair)
    ensures y in q <==> y in Named(q, y.0)
  {
    if q != [] {
      NamedMember(q[1..], y);
      assert q == [q[0]] + q[1..];
    }
  }

  /** There is only one such order: any two lists sorted by name with the same per-name order are equal. */
  lemma {:induction false} StableOrderUnique(a: seq<Pair>, b: seq<Pair>)
    requires SortedByName(a) && SortedByName(b)
    requires forall name :: Named(a, name) == Named(b, name)
    ensures a == b
  {
    if a == [] {
      if b != [] {
        NamedMember(b, b[0]);
        NamedMember(a, b[0]);
        assert false;
      }
    } else {
      NamedMember(a, a[0]);
      NamedMember(b, a[0]);
      NamedMember(b, b[0]);
      NamedMember(a, b[0]);
      SameFirstName(a, b);
      SameFirst(a, b);
      forall name ensures Named(a[1..], name) == Named(b[1..], name) {
        assert Named(a, name) == Named(b, name);
        if name == a[0].0 {
          assert Named(a, name) == [a[0]] + Named(a[1..], name);
          assert Named(b, name) == [b[0]] + Named(b[1..], name);
          assert Named(a[1..], name) == Named(a, name)[1..];
          assert Named(b[1..], name) == Named(b, name)[1..];
        } else {
          assert [] + Named(a[1..], name) == Named(a[1..], name);
          assert [] + Named(b[1..], name) == Named(b[1..], name);
        }
      }
      StableOrderUnique(a[1..], b[1..]);
      assert a == [a[0]] + a[1..] && b == [b[0]] + b[1..];
    }
  }

  lemma SameFirstName(a: seq<Pair>, b: seq<Pair>)
    requires SortedByName(a) && SortedByName(b) && a != [] && b != [] && a[0] in b && b[0] in a
    ensures a[0].0 == b[0].0
  {
    var i :| 0 <= i < |b| && b[i] == a[0];
    var j :| 0 <= j < |a| && a[j] == b[0];
    LexTotal(a[0].0, b[0].0);
    LexTotal(a[0].0, a[0].0);
  }

  lemma SameFirst(a: seq<Pair>, b: seq<Pair>)
    requires a != [] && b != [] && a[0].0 == b[0].0 && Named(a, a[0].0) == Named(b, a[0].0)
    ensures a[0] == b[0]
  {
    assert Named(a, a[0].0)[0] == a[0];
    assert Named(b, b[0].0)[0] == b[0];
  }

  // -- The canonical query ----------------------------------------------------

  function Encoded(pairs: seq<Pair>): (e: seq<Pair>)
    ensures |e| == |pairs|
    ensures forall i :: 0 <= i < |e| ==> e[i] == (EncodeToken(pairs[i].0), EncodeToken(pairs[i].1))
  {
    seq(|pairs|, i requires 0 <= i < |pairs| => (EncodeToken(pairs[i].0), EncodeToken(pairs[i].1)))
  }

  function Assign(p: Pair): string { p.0 + "=" + p.1 }

  function Join(q: seq<Pair>): string {
    if q == [] then "" else if |q| == 1 then Assign(q[0]) else Assign(q[0]) + "&" + Join(q[1..])
  }

  function CanonicalQuery(pairs: seq<Pair>): string {
    Join(Sort(Encoded(pairs)))
  }

  /** `canonical_query_from_pairs`: encode every pair, sort by name, join. */
  method CanonicalQueryFromPairs(pairs: seq<Pair>) returns (query: string)
    ensures query == CanonicalQuery(pairs)
  {
    var encoded: seq<Pair> := [];
    for i := 0 to |pairs|
      invariant encoded == Encoded(pairs)[..i]
    {
      encoded := encoded + [(EncodeToken(pairs[i].0), EncodeToken(pairs[i].1))];
    }
    assert encoded == Encoded(pairs);
    var sorted := Sort(encoded);
    query := "";
    var k := |sorted|;
    while k > 0
      invariant 0 <= k <= |sorted|
      invariant query == Join(sorted[k..])
    {
      k := k - 1;
      assert sorted[k..][1..] == sorted[k + 1..];
      query := if k + 1 == |sorted| then Assign(sorted[k]) else Assign(sorted[k]) + "&" + query;
    }
    assert sorted[0..] == sorted;
  }

  /** A cut anywhere in the list is an ampersand in the text. */
  lemma {:induction false} JoinCut(q: seq<Pair>, i: nat)
    requires 0 < i < |q|
    ensures Join(q) == Join(q[..i]) + "&" + Join(q[i..])
  {
    if i == 1 {
      assert q[..1] == [q[0]];
    } else {
      JoinCut(q[1..], i - 1);
      assert q[..i][1..] == q[1..][..i - 1] && q[1..][i - 1..] == q[i..];
      JoinHeads(Assign(q[0]), Join(q[1..][..i - 1]), Join(q[i..]));
    }
  }

  lemma JoinHeads(head: string, a: string, b: string)
    ensures head + "&" + (a + "&" + b) == head + "&" + a + "&" + b
  {
    Associative(head + "&", a + "&", b);
    Associative(head + "&", a, "&");
  }

  /**
   The text of a canonical query: encoded name, equals sign and encoded value, the pairs in the order
   of their encoded names with an ampersand between each two.
   */
  lemma QueryTextSpelled(pairs: seq<Pair>, q: seq<Pair>)
    requires q == Sort(Encoded(pairs))
    ensures |q| == |pairs| && multiset(q) == multiset(Encoded(pairs))
    ensures forall i, j :: 0 <= i < j < |q| ==> PrefixOrSmaller(q[i].0, q[j].0)
    ensures pairs == [] ==> CanonicalQuery(pairs) == ""
    ensures forall i :: 0 <= i < |q| ==> Join([q[i]]) == q[i].0 + "=" + q[i].1
    ensures forall i :: 0 < i < |q| ==> CanonicalQuery(pairs) == Join(q[..i]) + "&" + Join(q[i..])
  {
    SortIsStable(Encoded(pairs));
    assert |multiset(q)| == |multiset(Encoded(pairs))|;
    forall i, j | 0 <= i < j < |q| ensures PrefixOrSmaller(q[i].0, q[j].0) { OrderSpelled(q[i].0, q[j].0); }
    forall i | 0 < i < |q| ensures CanonicalQuery(pairs) == Join(q[..i]) + "&" + Join(q[i..]) { JoinCut(q, i); }
  }

  function ParsePair(piece: string): Pair {
    var halves := SplitBy(piece, "=");
    if |halves| == 2 then (halves[0], halves[1]) else (piece, "")
  }

  /** Reading a query back: nothing for the empty text, else one pair per piece. */
  function ParseQuery(query: string): seq<Pair> {
    if query == "" then []
    else
      var pieces := SplitBy(query, "&");
      seq(|pieces|, i requires 0 <= i < |pieces| => ParsePair(pieces[i]))
  }

  predicate SafePairs(q: seq<Pair>) {
    forall i :: 0 <= i < |q| ==> Safe(q[i].0) && Safe(q[i].1)
  }

  lemma ParseAssign(p: Pair)
    requires Safe(p.0) && Safe(p.1)
    ensures ParsePair(Assign(p)) == p && '&' !in Assign(p) && Assign(p) != ""
  {
    SplitAtChar(p.0, '=', p.1);
    NoCharNoSplit(p.1, '=');
  }

  function Assigns(q: seq<Pair>): (r: seq<string>)
    ensures |r| == |q| && forall i :: 0 <= i < |q| ==> r[i] == Assign(q[i])
  {
    seq(|q|, i requires 0 <= i < |q| => Assign(q[i]))
  }

  lemma AssignsCons(q: seq<Pair>)
    requires q != []
    ensures Assigns(q) == [Assign(q[0])] + Assigns(q[1..])
  {
  }

  lemma {:induction false} SplitJoin(q: seq<Pair>)
    requires SafePairs(q) && q != []
    ensures Join(q) != ""
    ensures SplitBy(Join(q), "&") == Assigns(q)
  {
    ParseAssign(q[0]);
    AssignsCons(q);
    if |q| == 1 {
      NoCharNoSplit(Join(q), '&');
    } else {
      SplitJoin(q[1..]);
      SplitAtChar(Assign(q[0]), '&', Join(q[1..]));
    }
  }

  lemma ParseJoin(q: seq<Pair>)
    requires SafePairs(q)
    ensures ParseQuery(Join(q)) == q
  {
    if q != [] {
      SplitJoin(q);
      forall i | 0 <= i < |q| ensures ParsePair(Assign(q[i])) == q[i] { ParseAssign(q[i]); }
    }
  }

  lemma SortedAreSafe(pairs: seq<Pair>)
    ensures SafePairs(Sort(Encoded(pairs)))
  {
    var q, e := Sort(Encoded(pairs)), Encoded(pairs);
    SortIsStable(e);
    forall i | 0 <= i < |q| ensures Safe(q[i].0) && Safe(q[i].1) {
      assert q[i] in multiset(q);
      assert q[i] in e;
      var j :| 0 <= j < |e| && e[j] == q[i];
      EncodedIsSafe(pairs[j].0);
      EncodedIsSafe(pairs[j].1);
    }
  }

  function Decoded(q: seq<Pair>): (d: seq<Pair>)
    ensures |d| == |q|
  {
    seq(|q|, i requires 0 <= i < |q| => DecodedPair(q[i]))
  }

  lemma DecodedEncoded(pairs: seq<Pair>)
    requires OctetPairs(pairs)
    ensures Decoded(Encoded(pairs)) == pairs
  {
    forall i | 0 <= i < |pairs| ensures Decoded(Encoded(pairs))[i] == pairs[i] {
      DecodeUndoesEncode(pairs[i].0);
      DecodeUndoesEncode(pairs[i].1);
    }
  }

  function DecodedPair(p: Pair): Pair { (DecodeToken(p.0), DecodeToken(p.1)) }

  lemma DecodedJoin(a: seq<Pair>, b: seq<Pair>)
    ensures Decoded(a + b) == Decoded(a) + Decoded(b)
  {
  }

  lemma DecodedOne(x: Pair)
    ensures Decoded([x]) == [DecodedPair(x)]
  {
  }

  lemma DecodedAround(a: seq<Pair>, x: Pair, b: seq<Pair>)
    ensures multiset(Decoded(a + [x] + b)) == multiset(Decoded(a + b)) + multiset{DecodedPair(x)}
  {
    DecodedJoin(a + [x], b);
    DecodedJoin(a, [x]);
    DecodedJoin(a, b);
    DecodedOne(x);
    CountedAround(Decoded(a), DecodedPair(x), Decoded(b));
  }

  lemma CountedAround(a: seq<Pair>, x: Pair, b: seq<Pair>)
    ensures multiset(a + [x] + b) == multiset(a + b) + multiset{x}
  {
  }

  lemma Removed(q: seq<Pair>, j: nat)
    requires j < |q|
    ensures multiset(q[..j] + q[j + 1..]) == multiset(q) - multiset{q[j]}
  {
    assert q == q[..j] + [q[j]] + q[j + 1..];
  }

  lemma SameRest(a: seq<Pair>, b: seq<Pair>, j: nat)
    requires multiset(a) == multiset(b) && a != [] && j < |b| && b[j] == a[0]
    ensures multiset(a[..0] + a[1..]) == multiset(b[..j] + b[j + 1..])
  {
    Removed(a, 0);
    Removed(b, j);
  }

  lemma DecodedWithout(q: seq<Pair>, j: nat)
    requires j < |q|
    ensures multiset(Decoded(q)) == multiset(Decoded(q[..j] + q[j + 1..])) + multiset{DecodedPair(q[j])}
  {
    assert q == q[..j] + [q[j]] + q[j + 1..];
    DecodedAround(q[..j], q[j], q[j + 1..]);
  }

  /** Mapping both sides keeps a permutation one. */
  lemma {:induction false} DecodedPermutation(a: seq<Pair>, b: seq<Pair>)
    requires multiset(a) == multiset(b)
    ensures multiset(Decoded(a)) == multiset(Decoded(b))
    decreases |a|
  {
    if a == [] {
      assert |multiset(b)| == |b|;
      assert b == [];
    } else {
      assert a[0] in multiset(b);
      var j :| 0 <= j < |b| && b[j] == a[0];
      SameRest(a, b, j);
      DecodedPermutation(a[..0] + a[1..], b[..j] + b[j + 1..]);
      DecodedWithout(a, 0);
      DecodedWithout(b, j);
    }
  }

  /**
   The query is sorted by encoded name and loses nothing: splitting and percent-decoding it gives
   back a permutation of the pairs it was built from.
   */
  lemma QueryRoundTrip(pairs: seq<Pair>)
    requires OctetPairs(pairs)
    ensures SortedByName(ParseQuery(CanonicalQuery(pairs)))
    ensures ParseQuery(CanonicalQuery(pairs)) == Sort(Encoded(pairs))
    ensures multiset(Decoded(ParseQuery(CanonicalQuery(pairs)))) == multiset(pairs)
  {
    var e := Encoded(pairs);
    SortIsStable(e);
    SortedAreSafe(pairs);
    ParseJoin(Sort(e));
    DecodedPermutation(Sort(e), e);
    DecodedEncoded(pairs);
  }

  // -- Signature Version 4's full order ---------------------------------------

  /** The order AWS Signature Version 4 asks for: by name, and by value among equal names. */
  predicate FullySorted(q: seq<Pair>) {
    forall i, j :: 0 <= i < j < |q| ==> LexLt(q[i].0, q[j].0) || (q[i].0 == q[j].0 && LexLe(q[i].1, q[j].1))
  }

  /** Pairs that share a name come in value order. */
  predicate ValuesOrdered(q: seq<Pair>) {
    forall i, j :: 0 <= i < j < |q| && q[i].0 == q[j].0 ==> LexLe(q[i].1, q[j].1)
  }

  lemma ValuesOrderedCons(x: Pair, q: seq<Pair>)
    ensures ValuesOrdered([x] + q) <==> ValuesOrdered(q) && forall y :: y in q && y.0 == x.0 ==> LexLe(x.1, y.1)
  {
    var c := [x] + q;
    if ValuesOrdered(c) {
      forall i, j | 0 <= i < j < |q| && q[i].0 == q[j].0 ensures LexLe(q[i].1, q[j].1) {
        assert c[i + 1] == q[i] && c[j + 1] == q[j];
      }
      forall y | y in q && y.0 == x.0 ensures LexLe(x.1, y.1) {
        var j :| 0 <= j < |q| && q[j] == y;
        assert c[0] == x && c[j + 1] == y;
      }
    }
    if ValuesOrdered(q) && forall y :: y in q && y.0 == x.0 ==> LexLe(x.1, y.1) {
      forall i, j | 0 <= i < j < |c| && c[i].0 == c[j].0 ensures LexLe(c[i].1, c[j].1) {
        if i == 0 { assert c[j] in q; } else { assert c[i] == q[i - 1] && c[j] == q[j - 1]; }
      }
    }
  }

  lemma {:induction false} NamedNames(q: seq<Pair>, name: string)
    ensures forall y :: y in Named(q, name) ==> y.0 == name
  {
    if q != [] { NamedNames(q[1..], name); }
  }

  lemma NamedCons(x: Pair, rest: seq<Pair>, name: string)
    ensures Named([x] + rest, name) == if x.0 == name then [x] + Named(rest, name) else Named(rest, name)
  {
    assert ([x] + rest)[1..] == rest;
    assert [] + Named(rest, name) == Named(rest, name);
  }

  ghost predicate EachNameOrdered(q: seq<Pair>) {
    forall name :: ValuesOrdered(Named(q, name))
  }

  lemma ConsOrderedSplits(x: Pair, rest: seq<Pair>)
    requires ValuesOrdered([x] + rest) && EachNameOrdered(rest)
    ensures EachNameOrdered([x] + rest)
  {
    ValuesOrderedCons(x, rest);
    forall name ensures ValuesOrdered(Named([x] + rest, name)) {
      NamedCons(x, rest, name);
      assert ValuesOrdered(Named(rest, name));
      NamedNames(rest, name);
      if x.0 == name {
        forall y | y in Named(rest, name) ensures LexLe(x.1, y.1) { NamedMember(rest, y); }
        ValuesOrderedCons(x, Named(rest, name));
      }
    }
  }

  lemma ConsOrderedJoins(x: Pair, rest: seq<Pair>)
    requires EachNameOrdered([x] + rest)
    ensures EachNameOrdered(rest)
    ensures ValuesOrdered(rest) ==> ValuesOrdered([x] + rest)
  {
    forall name ensures ValuesOrdered(Named(rest, name)) {
      NamedCons(x, rest, name);
      assert ValuesOrdered(Named([x] + rest, name));
      if x.0 == name { ValuesOrderedCons(x, Named(rest, name)); }
    }
    NamedCons(x, rest, x.0);
    assert ValuesOrdered(Named([x] + rest, x.0));
    ValuesOrderedCons(x, Named(rest, x.0));
    forall y | y in rest && y.0 == x.0 ensures LexLe(x.1, y.1) { NamedMember(rest, y); }
    ValuesOrderedCons(x, rest);
  }

  /** Value order is a property of each name's own pairs. */
  lemma {:induction false} ValuesOrderedByName(q: seq<Pair>)
    ensures ValuesOrdered(q) <==> EachNameOrdered(q)
  {
    if q != [] {
      var x, rest := q[0], q[1..];
      assert q == [x] + rest;
      ValuesOrderedByName(rest);
      ValuesOrderedCons(x, rest);
      if ValuesOrdered(q) { ConsOrderedSplits(x, rest); }
      if EachNameOrdered(q) { ConsOrderedJoins(x, rest); }
    }
  }

  /**
   The code sorts by name only. Its query is in the full order exactly when pairs given under one
   name are already in the order of their encoded values.
   */
  lemma FullOrderExactly(pairs: seq<Pair>)
    ensures FullySorted(Sort(Encoded(pairs))) <==> ValuesOrdered(Encoded(pairs))
  {
    var e := Encoded(pairs);
    var q := Sort(e);
    SortIsStable(e);
    ValuesOrderedByName(e);
    ValuesOrderedByName(q);
    SameNamesSameOrder(e, q);
    SameNamesSameOrder(q, e);
    FullIsNameThenValue(q);
  }

  lemma SameNamesSameOrder(a: seq<Pair>, b: seq<Pair>)
    requires forall name :: Named(a, name) == Named(b, name)
    ensures EachNameOrdered(a) ==> EachNameOrdered(b)
  {
    if EachNameOrdered(a) {
      forall name ensures ValuesOrdered(Named(b, name)) {
        assert Named(a, name) == Named(b, name);
        assert ValuesOrdered(Named(a, name));
      }
    }
  }

  lemma FullIsNameThenValue(q: seq<Pair>)
    requires SortedByName(q)
    ensures FullySorted(q) <==> ValuesOrdered(q)
  {
    if ValuesOrdered(q) {
      forall i, j | 0 <= i < j < |q| ensures LexLt(q[i].0, q[j].0) || (q[i].0 == q[j].0 && LexLe(q[i].1, q[j].1)) {
        assert LexLe(q[i].0, q[j].0);
      }
    }
  }

  // -- The hand-ordered query of a presigned request --------------------------

  const ALGORITHM: string := "X-Amz-Algorithm"
  const CREDENTIAL: string := "X-Amz-Credential"
  const DATE: string := "X-Amz-Date"
  const EXPIRES: string := "X-Amz-Expires"
  const SIGNED_HEADERS: string := "X-Amz-SignedHeaders"
  const AWS4_HMAC_SHA256: string := "AWS4-HMAC-SHA256"
  const HOST: string := "host"

  /** `build_canonical_query`: the five parameters written out in order, only two of them encoded. */
  function BuildCanonicalQuery(accessKey: string, scope: string, date: string, expires: nat): string {
    ALGORITHM + "=" + AWS4_HMAC_SHA256
    + "&" + CREDENTIAL + "=" + EncodeToken(accessKey + "/" + scope)
    + "&" + DATE + "=" + EncodeToken(date)
    + "&" + EXPIRES + "=" + Decimal(expires)
    + "&" + SIGNED_HEADERS + "=" + HOST
  }

  function PresignPairs(accessKey: string, scope: string, date: string, expires: nat): seq<Pair> {
    [(ALGORITHM, AWS4_HMAC_SHA256), (CREDENTIAL, accessKey + "/" + scope), (DATE, date),
     (EXPIRES, Decimal(expires)), (SIGNED_HEADERS, HOST)]
  }

  lemma AlgorithmText()
    ensures ALGORITHM + "=" + AWS4_HMAC_SHA256 == "X-Amz-Algorithm=AWS4-HMAC-SHA256"
  {
  }

  lemma NameTexts()
    ensures "&" + CREDENTIAL + "=" == "&X-Amz-Credential="
    ensures "&" + DATE + "=" == "&X-Amz-Date=" && "&" + EXPIRES + "=" == "&X-Amz-Expires="
  {
  }

  lemma HostText()
    ensures "&" + SIGNED_HEADERS + "=" + HOST == "&X-Amz-SignedHeaders=host"
  {
  }

  /** The text of a presigned request's query, written out. */
  lemma PresignText(accessKey: string, scope: string, date: string, expires: nat)
    ensures BuildCanonicalQuery(accessKey, scope, date, expires)
         == "X-Amz-Algorithm=AWS4-HMAC-SHA256" + "&X-Amz-Credential=" + EncodeToken(accessKey + "/" + scope)
            + "&X-Amz-Date=" + EncodeToken(date) + "&X-Amz-Expires=" + Decimal(expires) + "&X-Amz-SignedHeaders=host"
  {
    AlgorithmText();
    NameTexts();
    HostText();
    Chunks(EncodeToken(accessKey + "/" + scope), EncodeToken(date), Decimal(expires));
  }

  lemma Chunks(x: string, y: string, z: string)
    ensures ALGORITHM + "=" + AWS4_HMAC_SHA256 + "&" + CREDENTIAL + "=" + x + "&" + DATE + "=" + y
              + "&" + EXPIRES + "=" + z + "&" + SIGNED_HEADERS + "=" + HOST
         == (ALGORITHM + "=" + AWS4_HMAC_SHA256) + ("&" + CREDENTIAL + "=") + x + ("&" + DATE + "=") + y
              + ("&" + EXPIRES + "=") + z + ("&" + SIGNED_HEADERS + "=" + HOST)
  {
    ChunksOf(ALGORITHM + "=" + AWS4_HMAC_SHA256, CREDENTIAL, x, DATE, y, EXPIRES, z, SIGNED_HEADERS, HOST);
  }

  lemma ChunksOf(head: string, a: string, x: string, b: string, y: string, c: string, z: string, e: string, h: string)
    ensures head + "&" + a + "=" + x + "&" + b + "=" + y + "&" + c + "=" + z + "&" + e + "=" + h
         == head + ("&" + a + "=") + x + ("&" + b + "=") + y + ("&" + c + "=") + z + ("&" + e + "=" + h)
  {
    Chunk(head, a, x);
    Chunk(head + ("&" + a + "=") + x, b, y);
    Chunk(head + ("&" + a + "=") + x + ("&" + b + "=") + y, c, z);
    Chunk(head + ("&" + a + "=") + x + ("&" + b + "=") + y + ("&" + c + "=") + z, e, h);
    Associative(head + ("&" + a + "=") + x + ("&" + b + "=") + y + ("&" + c + "=") + z, "&" + e + "=", h);
  }

  lemma Chunk(head: string, name: string, value: string)
    ensures head + "&" + name + "=" + value == head + ("&" + name + "=") + value
  {
  }

  /** Two names that first differ at position `k` are ordered by that position. */
  lemma {:induction false} LexByPosition(a: string, b: string, k: nat)
    requires k < |a| && k < |b| && a[..k] == b[..k] && a[k] < b[k]
    ensures LexLt(a, b)
  {
    if k > 0 {
      assert a[0] == a[..k][0] == b[..k][0] == b[0];
      assert a[1..][..k - 1] == a[..k][1..] && b[1..][..k - 1] == b[..k][1..];
      LexByPosition(a[1..], b[1..], k - 1);
    }
  }

  lemma {:induction false} InsertLast(x: Pair, q: seq<Pair>)
    requires forall i :: 0 <= i < |q| ==> LexLe(q[i].0, x.0)
    ensures Insert(x, q) == q + [x]
  {
    if q != [] {
      LexTotal(q[0].0, x.0);
      InsertLast(x, q[1..]);
      assert q == [q[0]] + q[1..];
    }
  }

  /** A list already sorted by name is its own sort. */
  lemma {:induction false} SortOfSorted(p: seq<Pair>)
    requires SortedByName(p)
    ensures Sort(p) == p
  {
    if p != [] {
      SortOfSorted(p[..|p| - 1]);
      InsertLast(p[|p| - 1], p[..|p| - 1]);
    }
  }

  lemma AlgorithmFirst()
    ensures LexLt(ALGORITHM, CREDENTIAL)
  {
    LexByPosition(ALGORITHM, CREDENTIAL, 6);
  }

  lemma CredentialBeforeDate()
    ensures LexLt(CREDENTIAL, DATE)
  {
    LexByPosition(CREDENTIAL, DATE, 6);
  }

  lemma DateBeforeExpires()
    ensures LexLt(DATE, EXPIRES)
  {
    LexByPosition(DATE, EXPIRES, 6);
  }

  lemma SignedHeadersLast()
    ensures LexLt(EXPIRES, SIGNED_HEADERS)
  {
    LexByPosition(EXPIRES, SIGNED_HEADERS, 6);
  }

  predicate Plain(s: string) { forall i :: 0 <= i < |s| ==> Unreserved(s[i]) }

  lemma NamesPlain()
    ensures Plain(ALGORITHM) && Plain(CREDENTIAL) && Plain(DATE)
  {
  }

  lemma ValuesPlain()
    ensures Plain(EXPIRES) && Plain(SIGNED_HEADERS) && Plain(AWS4_HMAC_SHA256) && Plain(HOST)
  {
  }

  /** For every key, scope, date and lifetime the hand-written order is the general construction's. */
  lemma HandOrderedIsCanonical(accessKey: string, scope: string, date: string, expires: nat)
    ensures BuildCanonicalQuery(accessKey, scope, date, expires)
         == CanonicalQuery(PresignPairs(accessKey, scope, date, expires))
  {
    var credential := accessKey + "/" + scope;
    var e := PresignCanonical(credential, date, Decimal(expires));
    JoinedFive(e, ALGORITHM, CREDENTIAL, DATE, EXPIRES, SIGNED_HEADERS,
               AWS4_HMAC_SHA256, EncodeToken(credential), EncodeToken(date), Decimal(expires), HOST);
  }

  lemma PresignCanonical(credential: string, date: string, expires: string) returns (e: seq<Pair>)
    requires Plain(expires)
    ensures e == [(ALGORITHM, AWS4_HMAC_SHA256), (CREDENTIAL, EncodeToken(credential)), (DATE, EncodeToken(date)),
                  (EXPIRES, expires), (SIGNED_HEADERS, HOST)]
    ensures CanonicalQuery([(ALGORITHM, AWS4_HMAC_SHA256), (CREDENTIAL, credential), (DATE, date),
                            (EXPIRES, expires), (SIGNED_HEADERS, HOST)]) == Join(e)
  {
    e := PresignEncoded(credential, date, expires);
    QueryOfSorted([(ALGORITHM, AWS4_HMAC_SHA256), (CREDENTIAL, credential), (DATE, date),
                   (EXPIRES, expires), (SIGNED_HEADERS, HOST)], e);
  }

  lemma PresignEncoded(credential: string, date: string, expires: string) returns (e: seq<Pair>)
    requires Plain(expires)
    ensures e == [(ALGORITHM, AWS4_HMAC_SHA256), (CREDENTIAL, EncodeToken(credential)), (DATE, EncodeToken(date)),
                  (EXPIRES, expires), (SIGNED_HEADERS, HOST)]
    ensures Encoded([(ALGORITHM, AWS4_HMAC_SHA256), (CREDENTIAL, credential), (DATE, date),
                     (EXPIRES, expires), (SIGNED_HEADERS, HOST)]) == e && SortedByName(e)
  {
    NamesPlain();
    ValuesPlain();
    AlgorithmFirst();
    CredentialBeforeDate();
    DateBeforeExpires();
    SignedHeadersLast();
    e := FivePairs(ALGORITHM, CREDENTIAL, DATE, EXPIRES, SIGNED_HEADERS,
                   AWS4_HMAC_SHA256, credential, date, expires, HOST);
  }

  /** Five plain names in increasing order, three of their values plain: encoding and sorting keep them. */
  lemma FivePairs(n1: string, n2: string, n3: string, n4: string, n5: string,
                  v1: string, v2: string, v3: string, v4: string, v5: string) returns (e: seq<Pair>)
    requires Plain(n1) && Plain(n2) && Plain(n3) && Plain(n4) && Plain(n5) && Plain(v1) && Plain(v4) && Plain(v5)
    requires LexLt(n1, n2) && LexLt(n2, n3) && LexLt(n3, n4) && LexLt(n4, n5)
    ensures e == [(n1, v1), (n2, EncodeToken(v2)), (n3, EncodeToken(v3)), (n4, v4), (n5, v5)]
    ensures Encoded([(n1, v1), (n2, v2), (n3, v3), (n4, v4), (n5, v5)]) == e && SortedByName(e)
  {
    e := [(n1, v1), (n2, EncodeToken(v2)), (n3, EncodeToken(v3)), (n4, v4), (n5, v5)];
    FiveEncoded(n1, n2, n3, n4, n5, v1, v2, v3, v4, v5);
    FiveSorted(e, n1, n2, n3, n4, n5);
  }

  lemma QueryOfSorted(p: seq<Pair>, e: seq<Pair>)
    requires Encoded(p) == e && SortedByName(e)
    ensures CanonicalQuery(p) == Join(e)
  {
    SortOfSorted(e);
  }

  lemma FiveEncoded(n1: string, n2: string, n3: string, n4: string, n5: string,
                    v1: string, v2: string, v3: string, v4: string, v5: string)
    requires Plain(n1) && Plain(n2) && Plain(n3) && Plain(n4) && Plain(n5) && Plain(v1) && Plain(v4) && Plain(v5)
    ensures Encoded([(n1, v1), (n2, v2), (n3, v3), (n4, v4), (n5, v5)])
         == [(n1, v1), (n2, EncodeToken(v2)), (n3, EncodeToken(v3)), (n4, v4), (n5, v5)]
  {
    FiveNames(n1, n2, n3, n4, n5);
    UnreservedUnchanged(v1);
    UnreservedUnchanged(v4);
    UnreservedUnchanged(v5);
  }

  lemma JoinedFive(e: seq<Pair>, n1: string, n2: string, n3: string, n4: string, n5: string,
                   v1: string, v2: string, v3: string, v4: string, v5: string)
    requires e == [(n1, v1), (n2, v2), (n3, v3), (n4, v4), (n5, v5)]
    ensures Join(e) == n1 + "=" + v1 + "&" + n2 + "=" + v2 + "&" + n3 + "=" + v3 + "&" + n4 + "=" + v4 + "&" + n5 + "=" + v5
  {
    JoinFive(e);
    AssociateFive(n1 + "=" + v1, n2, v2, n3, v3, n4, v4, n5, v5);
  }

  lemma FiveNames(n1: string, n2: string, n3: string, n4: string, n5: string)
    requires Plain(n1) && Plain(n2) && Plain(n3) && Plain(n4) && Plain(n5)
    ensures EncodeToken(n1) == n1 && EncodeToken(n2) == n2 && EncodeToken(n3) == n3
    ensures EncodeToken(n4) == n4 && EncodeToken(n5) == n5
  {
    UnreservedUnchanged(n1);
    UnreservedUnchanged(n2);
    UnreservedUnchanged(n3);
    UnreservedUnchanged(n4);
    UnreservedUnchanged(n5);
  }

  lemma FiveSorted(e: seq<Pair>, n1: string, n2: string, n3: string, n4: string, n5: string)
    requires |e| == 5 && e[0].0 == n1 && e[1].0 == n2 && e[2].0 == n3 && e[3].0 == n4 && e[4].0 == n5
    requires LexLt(n1, n2) && LexLt(n2, n3) && LexLt(n3, n4) && LexLt(n4, n5)
    ensures SortedByName(e)
  {
    LexTransitive(n1, n2, n3);
    LexTransitive(n1, n3, n4);
    LexTransitive(n1, n4, n5);
    LexTransitive(n2, n3, n4);
    LexTransitive(n2, n4, n5);
    LexTransitive(n3, n4, n5);
  }

  lemma JoinFive(e: seq<Pair>)
    requires |e| == 5
    ensures Join(e) == Assign(e[0]) + "&" + (Assign(e[1]) + "&" + (Assign(e[2]) + "&" + (Assign(e[3]) + "&" + Assign(e[4]))))
  {
    assert e[1..][1..] == e[2..] && e[2..][1..] == e[3..] && e[3..][1..] == e[4..];
    assert Join(e[4..]) == Assign(e[4]);
    assert Join(e[3..]) == Assign(e[3]) + "&" + Join(e[4..]);
    assert Join(e[2..]) == Assign(e[2]) + "&" + Join(e[3..]);
    assert Join(e[1..]) == Assign(e[1]) + "&" + Join(e[2..]);
  }

  /** Concatenation is associative. */
  lemma AssociateFive(a: string, n2: string, v2: string, n3: string, v3: string, n4: string, v4: string, n5: string, v5: string)
    ensures a + "&" + ((n2 + "=" + v2) + "&" + ((n3 + "=" + v3) + "&" + ((n4 + "=" + v4) + "&" + (n5 + "=" + v5))))
         == a + "&" + n2 + "=" + v2 + "&" + n3 + "=" + v3 + "&" + n4 + "=" + v4 + "&" + n5 + "=" + v5
  {
  }
}
