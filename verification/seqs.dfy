/** `Array.prototype.filter`, used by every module of the bot, with the facts
    the other modules rely on: it keeps exactly the elements that pass, and it
    keeps them in their original order. */
module Seqs {

  /** The elements of `s` that satisfy `p`, in their original order. */
  function Filter<T>(s: seq<T>, p: T -> bool): (r: seq<T>)
    ensures |r| <= |s|
    decreases |s|
  {
    if s == [] then []
    else Filter(s[..|s| - 1], p) + (if p(s[|s| - 1]) then [s[|s| - 1]] else [])
  }

  /** Filtering distributes over concatenation: the relative order of the
      kept elements is the order in which they arrived. */
  lemma {:induction false} FilterAppend<T>(a: seq<T>, b: seq<T>, p: T -> bool)
    ensures Filter(a + b, p) == Filter(a, p) + Filter(b, p)
    decreases |b|
  {
    if b == [] {
      assert a + b == a;
    } else {
      var n := |b| - 1;
      assert (a + b)[..|a + b| - 1] == a + b[..n];
      FilterAppend(a, b[..n], p);
    }
  }

  /** Filtering a single element. */
  lemma FilterOne<T>(a: T, p: T -> bool)
    ensures Filter([a], p) == if p(a) then [a] else []
  {
    assert [a][..0] == [];
  }

  /** Filtering a sequence of three, element by element. */
  lemma Filter3<T>(a: T, b: T, c: T, p: T -> bool)
    ensures Filter([a, b, c], p) ==
      (if p(a) then [a] else []) + (if p(b) then [b] else []) + (if p(c) then [c] else [])
  {
    assert [a, b] == [a] + [b];
    assert [a, b, c] == [a, b] + [c];
    FilterOne(a, p);
    FilterOne(b, p);
    FilterOne(c, p);
    FilterAppend([a], [b], p);
    FilterAppend([a, b], [c], p);
  }

  /** Filtering a sequence of four, element by element. */
  lemma Filter4<T>(a: T, b: T, c: T, d: T, p: T -> bool)
    ensures Filter([a, b, c, d], p) ==
      (if p(a) then [a] else []) + (if p(b) then [b] else []) + (if p(c) then [c] else []) + (if p(d) then [d] else [])
  {
    assert [a, b, c, d] == [a, b, c] + [d];
    Filter3(a, b, c, p);
    FilterOne(d, p);
    FilterAppend([a, b, c], [d], p);
  }

  /** Every element of `s` that satisfies `p` survives the filter. */
  lemma {:induction false} FilterKeeps<T>(s: seq<T>, p: T -> bool, x: T)
    requires x in s && p(x)
    ensures x in Filter(s, p)
    decreases |s|
  {
    if s[|s| - 1] != x {
      var k :| 0 <= k < |s| && s[k] == x;
      assert s[..|s| - 1][k] == x;
      FilterKeeps(s[..|s| - 1], p, x);
    }
  }

  /** Whatever survives the filter came from `s` and passes. */
  lemma {:induction false} FilterSound<T>(s: seq<T>, p: T -> bool, x: T)
    requires x in Filter(s, p)
    ensures x in s && p(x)
    decreases |s|
  {
    var n := |s| - 1;
    if x != s[n] || !p(s[n]) {
      assert x in Filter(s[..n], p);
      FilterSound(s[..n], p, x);
    }
  }

  /** Membership in the filtered sequence, both directions. */
  lemma FilterMembership<T>(s: seq<T>, p: T -> bool, x: T)
    ensures x in Filter(s, p) <==> x in s && p(x)
  {
    if x in s && p(x) {
      FilterKeeps(s, p, x);
    }
    if x in Filter(s, p) {
      FilterSound(s, p, x);
    }
  }

  /** Membership in the filtered sequence, for every element at once. */
  lemma FilterMembers<T>(s: seq<T>, p: T -> bool)
    ensures forall x :: x in Filter(s, p) <==> x in s && p(x)
  {
    forall x ensures x in Filter(s, p) <==> x in s && p(x) {
      FilterMembership(s, p, x);
    }
  }

  /** Nothing survives the filter exactly when nothing passes. */
  lemma {:induction false} FilterEmpty<T>(s: seq<T>, p: T -> bool)
    ensures Filter(s, p) == [] <==> forall j :: 0 <= j < |s| ==> !p(s[j])
    decreases |s|
  {
    if s != [] {
      var n := |s| - 1;
      FilterEmpty(s[..n], p);
      if forall j :: 0 <= j < |s| ==> !p(s[j]) {
        assert forall j :: 0 <= j < n ==> !p(s[..n][j]);
      } else {
        var j :| 0 <= j < |s| && p(s[j]);
        if j < n {
          assert p(s[..n][j]);
        }
      }
    }
  }

  /** Filtering a sequence cut in two. */
  lemma {:induction false} FilterSplit<T>(s: seq<T>, p: T -> bool, k: nat)
    requires k <= |s|
    ensures Filter(s, p) == Filter(s[..k], p) + Filter(s[k..], p)
    decreases |s|
  {
    if k == |s| {
      assert s[..k] == s && s[k..] == [];
    } else {
      var n := |s| - 1;
      var x := s[n];
      FilterSplit(s[..n], p, k);
      assert s[..n][..k] == s[..k];
      assert s[k..][..|s[k..]| - 1] == s[..n][k..];
      assert s[k..][|s[k..]| - 1] == x;
    }
  }

  /** Filtering from the front: the first element, then the rest. */
  lemma FilterFront<T>(s: seq<T>, p: T -> bool)
    requires |s| > 0
    ensures Filter(s, p) == (if p(s[0]) then [s[0]] else []) + Filter(s[1..], p)
  {
    FilterOne(s[0], p);
    FilterAppend([s[0]], s[1..], p);
    assert [s[0]] + s[1..] == s;
  }

  /** Nothing before the first element that passes survives the filter. */
  lemma FilterPrefixEmpty<T>(s: seq<T>, p: T -> bool, k: nat)
    requires k <= |s|
    requires forall j :: 0 <= j < k ==> !p(s[j])
    ensures Filter(s[..k], p) == []
  {
    assert forall j :: 0 <= j < k ==> !p(s[..k][j]);
    FilterEmpty(s[..k], p);
  }

  /** The first kept element is the first element of `s` that passes. */
  lemma FilterHead<T>(s: seq<T>, p: T -> bool, k: nat)
    requires k < |s| && p(s[k])
    requires forall j :: 0 <= j < k ==> !p(s[j])
    ensures Filter(s, p) != [] && Filter(s, p)[0] == s[k]
  {
    FilterPrefixEmpty(s, p, k);
    FilterSplit(s, p, k);
    FilterFront(s[k..], p);
    assert s[k..][0] == s[k];
  }
}
