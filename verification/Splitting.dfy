/** Searching and splitting text, as `str::split` does. */
module Splitting {
  import opened Wrappers

  predicate At(s: string, i: int, sep: string) {
    0 <= i && i + |sep| <= |s| && s[i..i + |sep|] == sep
  }

  predicate Lacks(s: string, sep: string) {
    forall i :: 0 <= i <= |s| ==> !At(s, i, sep)
  }

  /** The first occurrence of `sep` at or after `from`. */
  function Find(s: string, sep: string, from: nat): (r: Option<nat>)
    requires from <= |s|
    ensures r.Some? ==> from <= r.value && At(s, r.value, sep) && forall i :: from <= i < r.value ==> !At(s, i, sep)
    ensures r.None? ==> forall i :: from <= i <= |s| ==> !At(s, i, sep)
    decreases |s| - from
  {
    if At(s, from, sep) then Some(from)
    else if from == |s| then None
    else Find(s, sep, from + 1)
  }

  /** `str::split`: the pieces between non-overlapping occurrences, left to right. */
  function SplitBy(s: string, sep: string): (pieces: seq<string>)
    requires sep != ""
    ensures pieces != []
    decreases |s|
  {
    var i := Find(s, sep, 0);
    if i.None? then [s] else [s[..i.value]] + SplitBy(s[i.value + |sep|..], sep)
  }

  lemma SplitAtFirst(head: string, sep: string, rest: string)
    requires sep != "" && Find(head + sep + rest, sep, 0) == Some(|head|)
    ensures SplitBy(head + sep + rest, sep) == [head] + SplitBy(rest, sep)
  {
    var s := head + sep + rest;
    assert s[..|head|] == head && s[|head| + |sep|..] == rest;
  }

  lemma AtChar(s: string, i: int, sep: string, d: nat)
    requires At(s, i, sep) && d < |sep|
    ensures i + d < |s| && s[i + d] == sep[d]
  {
    assert s[i..i + |sep|][d] == sep[d];
  }

  lemma Mismatch(s: string, i: int, sep: string, d: nat)
    requires 0 <= i && d < |sep| && i + d < |s| && s[i + d] != sep[d]
    ensures !At(s, i, sep)
  {
    if At(s, i, sep) { AtChar(s, i, sep, d); }
  }

  lemma FindIs(s: string, sep: string, k: nat)
    requires k <= |s| && At(s, k, sep) && forall i :: 0 <= i < k ==> !At(s, i, sep)
    ensures Find(s, sep, 0) == Some(k)
  {
    var r := Find(s, sep, 0);
    assert r.Some?;
    assert !(r.value < k) && !(k < r.value);
  }

  lemma NoSplit(s: string, sep: string)
    requires sep != "" && Lacks(s, sep)
    ensures SplitBy(s, sep) == [s]
  {
    var r := Find(s, sep, 0);
    assert r.None?;
  }

  /** Splitting on one character that occurs nowhere before it. */
  lemma SplitAtChar(p: string, c: char, rest: string)
    requires c !in p
    ensures SplitBy(p + [c] + rest, [c]) == [p] + SplitBy(rest, [c])
  {
    var s, sep := p + [c] + rest, [c];
    assert s[|p|..|p| + 1] == sep;
    forall i | 0 <= i < |p| ensures !At(s, i, sep) {
      assert s[i] == p[i];
      Mismatch(s, i, sep, 0);
    }
    FindIs(s, sep, |p|);
    SplitAtFirst(p, sep, rest);
  }

  lemma NoCharNoSplit(p: string, c: char)
    requires c !in p
    ensures SplitBy(p, [c]) == [p]
  {
    forall i | 0 <= i <= |p| ensures !At(p, i, [c]) {
      if i < |p| { Mismatch(p, i, [c], 0); }
    }
    NoSplit(p, [c]);
  }
}
