/** `Array.prototype.filter`, `find` and `indexOf`, and mongo's `limit`,
    over sequences. */
module Seqs {
  import opened Wrappers

  /** `s.filter(p)`, written from the right so that extending the input
      by one element extends the result by at most that element. */
  function Filter<T>(p: T -> bool, s: seq<T>): (r: seq<T>)
    ensures |r| <= |s|
  {
    if s == [] then [] else Filter(p, s[..|s| - 1]) + (if p(s[|s| - 1]) then [s[|s| - 1]] else [])
  }

  /** The filter keeps exactly the elements that satisfy `p`. */
  lemma {:induction false} FilterMembership<T>(p: T -> bool, s: seq<T>)
    ensures forall x :: x in Filter(p, s) <==> x in s && p(x)
  {
    if s != [] {
      FilterMembership(p, s[..|s| - 1]);
      assert s == s[..|s| - 1] + [s[|s| - 1]];
    }
  }

  /** Filtering a concatenation filters each part, in order. */
  lemma {:induction false} FilterConcat<T>(p: T -> bool, a: seq<T>, b: seq<T>)
    ensures Filter(p, a + b) == Filter(p, a) + Filter(p, b)
    decreases |b|
  {
    if b != [] {
      var b' := b[..|b| - 1];
      assert (a + b)[..|a + b| - 1] == a + b';
      FilterConcat(p, a, b');
    } else {
      assert a + b == a;
    }
  }

  /** A filter every element passes keeps the whole sequence. */
  lemma {:induction false} FilterAll<T>(p: T -> bool, s: seq<T>)
    requires forall i :: 0 <= i < |s| ==> p(s[i])
    ensures Filter(p, s) == s
  {
    if s != [] {
      FilterAll(p, s[..|s| - 1]);
    }
  }

  lemma FilterStep<T>(p: T -> bool, s: seq<T>, i: nat)
    requires i < |s|
    ensures Filter(p, s[..i + 1]) == Filter(p, s[..i]) + (if p(s[i]) then [s[i]] else [])
  {
    assert s[..i + 1][..i] == s[..i];
  }

  /** Nothing is kept exactly when no element satisfies `p`. */
  lemma FilterEmpty<T>(p: T -> bool, s: seq<T>)
    ensures Filter(p, s) == [] <==> forall i :: 0 <= i < |s| ==> !p(s[i])
  {
    FilterMembership(p, s);
    if Filter(p, s) == [] {
      forall i | 0 <= i < |s| ensures !p(s[i]) {
        assert s[i] in s;
      }
    } else {
      var x := Filter(p, s)[0];
      assert x in Filter(p, s);
    }
  }

  /** `s.map(f)` where `f` may throw (None): None as soon as one element
      throws. */
  function MapPartial<A, B>(f: A -> Option<B>, s: seq<A>): (r: Option<seq<B>>)
    ensures r.Some? ==> |r.value| == |s|
  {
    if s == [] then Some([])
    else
      var prev := MapPartial(f, s[..|s| - 1]);
      var last := f(s[|s| - 1]);
      if prev.None? || last.None? then None else Some(prev.value + [last.value])
  }

  /** The mapping keeps length and order, and fails exactly when one
      element throws. */
  lemma {:induction false} MapPartialSpec<A, B>(f: A -> Option<B>, s: seq<A>)
    ensures MapPartial(f, s).None? <==> exists i :: 0 <= i < |s| && f(s[i]).None?
    ensures MapPartial(f, s).Some? ==> forall i :: 0 <= i < |s| ==> f(s[i]) == Some(MapPartial(f, s).value[i])
  {
    if s != [] {
      var init := s[..|s| - 1];
      MapPartialSpec(f, init);
      assert forall i :: 0 <= i < |init| ==> s[i] == init[i];
      if MapPartial(f, init).None? {
        var i :| 0 <= i < |init| && f(init[i]).None?;
        assert f(s[i]).None?;
      }
    }
  }

  /** `s.find(p)`: the first element satisfying `p`, if any. */
  function Find<T>(p: T -> bool, s: seq<T>): (r: Option<T>)
    ensures r.Some? <==> exists i :: 0 <= i < |s| && p(s[i])
    ensures r.Some? ==> exists i :: 0 <= i < |s| && s[i] == r.value && p(r.value)
                                    && forall j :: 0 <= j < i ==> !p(s[j])
  {
    if s == [] then None
    else if p(s[0]) then Some(s[0])
    else
      var r := Find(p, s[1..]);
      assert forall i :: 1 <= i < |s| ==> s[i] == s[1..][i - 1];
      r
  }

  /** `s.indexOf(x)`, with -1 when `x` does not occur. */
  function IndexOf<T(==)>(s: seq<T>, x: T): (i: int)
    ensures -1 <= i < |s|
    ensures i == -1 <==> x !in s
    ensures i >= 0 ==> s[i] == x && x !in s[..i]
  {
    if s == [] then -1
    else if s[0] == x then 0
    else
      var j := IndexOf(s[1..], x);
      assert s[1..] == s[1..];
      if j == -1 then -1 else 1 + j
  }

  /** Mongo's `.limit(n)`: 0 means no limit, a negative n is read as |n|. */
  function Limit<T>(s: seq<T>, n: int): (r: seq<T>)
    ensures r <= s
    ensures n == 0 ==> r == s
    ensures n != 0 ==> |r| == if |s| <= (if n < 0 then -n else n) then |s| else (if n < 0 then -n else n)
  {
    var k := if n < 0 then -n else n;
    if n == 0 || |s| <= k then s else s[..k]
  }

  /** Mongo's `.skip(n)` for n >= 0. */
  function Skip<T>(s: seq<T>, n: nat): seq<T> {
    if n >= |s| then [] else s[n..]
  }

  /** `s` ordered by decreasing `key` (mongo's `.sort({field: -1})`). */
  predicate SortedDesc<T>(key: T -> int, s: seq<T>) {
    forall i, j :: 0 <= i < j < |s| ==> key(s[i]) >= key(s[j])
  }

  function InsertDesc<T>(key: T -> int, x: T, s: seq<T>): (r: seq<T>)
    requires SortedDesc(key, s)
    ensures SortedDesc(key, r)
    ensures multiset(r) == multiset(s) + multiset{x}
    ensures |r| == |s| + 1
  {
    if s == [] || key(x) >= key(s[0]) then [x] + s
    else
      var t := InsertDesc(key, x, s[1..]);
      assert s == [s[0]] + s[1..];
      BoundedByHead(key, x, s, t);
      [s[0]] + t
  }

  lemma BoundedByHead<T>(key: T -> int, x: T, s: seq<T>, t: seq<T>)
    requires s != [] && SortedDesc(key, s) && key(x) <= key(s[0])
    requires multiset(t) == multiset(s[1..]) + multiset{x}
    ensures forall k :: 0 <= k < |t| ==> key(t[k]) <= key(s[0])
  {
    forall k | 0 <= k < |t| ensures key(t[k]) <= key(s[0]) {
      assert t[k] in multiset(t);
      if t[k] != x {
        assert t[k] in multiset(s[1..]);
        var m :| 0 <= m < |s[1..]| && s[1..][m] == t[k];
        assert s[m + 1] == t[k];
      }
    }
  }

  /** A sort by decreasing key: the result is ordered and a permutation
      of the input. Equal keys keep no particular order in mongo; this
      model settles them one way. */
  function SortDesc<T>(key: T -> int, s: seq<T>): (r: seq<T>)
    ensures SortedDesc(key, r)
    ensures multiset(r) == multiset(s)
    ensures |r| == |s|
  {
    if s == [] then []
    else
      assert s == [s[0]] + s[1..];
      InsertDesc(key, s[0], SortDesc(key, s[1..]))
  }

  /** The first `n` of a sort by decreasing key are the `n` largest:
      nothing left out has a larger key than anything kept. */
  lemma TopOfSorted<T>(key: T -> int, s: seq<T>, n: int)
    requires SortedDesc(key, s)
    ensures forall i, j :: 0 <= i < |Limit(s, n)| <= j < |s| ==> key(s[j]) <= key(Limit(s, n)[i])
  {
  }

  /** `find(p).sort(key: -1).limit(n)`: the elements satisfying `p`, by
      decreasing key, at most `n` of them (0 meaning no limit). */
  function TopByKey<T>(p: T -> bool, key: T -> int, s: seq<T>, n: int): seq<T> {
    Limit(SortDesc(key, Filter(p, s)), n)
  }

  /** The query keeps only elements of `s` satisfying `p`, in decreasing
      key order; it returns as many as satisfy `p`, cut down to the limit;
      when it returns fewer than the limit (or there is none) every
      element satisfying `p` is among them; and nothing it leaves out that
      satisfies `p` has a larger key than anything kept. */
  lemma TopByKeySpec<T>(p: T -> bool, key: T -> int, s: seq<T>, n: int)
    ensures var out := TopByKey(p, key, s, n);
      var m := |Filter(p, s)|;
      var k := if n < 0 then -n else n;
      && (forall i :: 0 <= i < |out| ==> p(out[i]) && out[i] in s)
      && (forall i, j :: 0 <= i < j < |out| ==> key(out[i]) >= key(out[j]))
      && |out| == (if n == 0 || m <= k then m else k)
      && ((n == 0 || |out| < k) ==> forall x :: x in s && p(x) ==> x in out)
      && (forall x, i :: x in s && p(x) && x !in out && 0 <= i < |out| ==> key(x) <= key(out[i]))
  {
    TopByKeyOrder(p, key, s, n);
    TopByKeyCount(p, key, s, n);
  }

  /** Membership and order of the query's answer. */
  lemma TopByKeyOrder<T>(p: T -> bool, key: T -> int, s: seq<T>, n: int)
    ensures var out := TopByKey(p, key, s, n);
      && (forall i :: 0 <= i < |out| ==> p(out[i]) && out[i] in s)
      && (forall i, j :: 0 <= i < j < |out| ==> key(out[i]) >= key(out[j]))
      && (forall x, i :: x in s && p(x) && x !in out && 0 <= i < |out| ==> key(x) <= key(out[i]))
  {
    var kept := Filter(p, s);
    var sorted := SortDesc(key, kept);
    var out := Limit(sorted, n);
    FilterMembership(p, s);
    forall i | 0 <= i < |out| ensures p(out[i]) && out[i] in s {
      InSorted(key, kept, i);
    }
    TopOfSorted(key, sorted, n);
    forall x, i | x in s && p(x) && x !in out && 0 <= i < |out|
      ensures key(x) <= key(out[i])
    {
      assert x in kept;
      var j := SortedIndex(key, kept, x);
      assert forall k :: 0 <= k < |out| ==> sorted[k] == out[k] && out[k] != x;
    }
  }

  /** Length and completeness of the query's answer. */
  lemma TopByKeyCount<T>(p: T -> bool, key: T -> int, s: seq<T>, n: int)
    ensures var out := TopByKey(p, key, s, n);
      var m := |Filter(p, s)|;
      var k := if n < 0 then -n else n;
      && |out| == (if n == 0 || m <= k then m else k)
      && ((n == 0 || |out| < k) ==> forall x :: x in s && p(x) ==> x in out)
  {
    var kept := Filter(p, s);
    var sorted := SortDesc(key, kept);
    var out := Limit(sorted, n);
    var k := if n < 0 then -n else n;
    if n == 0 || |out| < k {
      assert out == sorted;
      forall x | x in s && p(x) ensures x in out {
        assert x in kept by { FilterMembership(p, s); }
        var j := SortedIndex(key, kept, x);
      }
    }
  }

  /** Each element of the sort is an element of the input. */
  lemma InSorted<T>(key: T -> int, s: seq<T>, i: nat)
    requires i < |SortDesc(key, s)|
    ensures SortDesc(key, s)[i] in s
  {
    assert SortDesc(key, s)[i] in multiset(SortDesc(key, s));
  }

  /** Each element of the input has a position in the sort. */
  lemma SortedIndex<T>(key: T -> int, s: seq<T>, x: T) returns (j: nat)
    requires x in s
    ensures j < |SortDesc(key, s)| && SortDesc(key, s)[j] == x
  {
    assert x in multiset(s);
    assert x in multiset(SortDesc(key, s));
    j :| 0 <= j < |SortDesc(key, s)| && SortDesc(key, s)[j] == x;
  }
}
