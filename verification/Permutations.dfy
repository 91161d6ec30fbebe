/** Facts about sequences that depend only on their multiset of elements. */
module Permutations {
  import opened Common

  predicate Permutes<T(==)>(a: seq<T>, b: seq<T>) {
    multiset(a) == multiset(b)
  }

  /** Python's `[f(x) for x in s if ...]`: the elements on which `f` is defined, mapped. */
  function FilterMap<T, U>(f: T -> Option<U>, s: seq<T>): (r: seq<U>)
    ensures |r| <= |s|
  {
    if s == [] then [] else One(f, s[0]) + FilterMap(f, s[1..])
  }

  function One<T, U>(f: T -> Option<U>, x: T): seq<U> {
    if f(x).Some? then [f(x).value] else []
  }

  lemma {:induction false} FilterMapAppend<T, U>(f: T -> Option<U>, a: seq<T>, b: seq<T>)
    ensures FilterMap(f, a + b) == FilterMap(f, a) + FilterMap(f, b)
  {
    if a == [] {
      assert a + b == b;
    } else {
      assert (a + b)[1..] == a[1..] + b;
      FilterMapAppend(f, a[1..], b);
      assert FilterMap(f, a + b) == One(f, a[0]) + (FilterMap(f, a[1..]) + FilterMap(f, b));
    }
  }

  lemma {:induction false} FilterMapNext<T, U>(f: T -> Option<U>, s: seq<T>, i: nat)
    requires i < |s|
    ensures FilterMap(f, s[..i + 1]) == FilterMap(f, s[..i]) + One(f, s[i])
  {
    assert s[..i + 1] == s[..i] + [s[i]];
    FilterMapAppend(f, s[..i], [s[i]]);
    assert FilterMap(f, [s[i]]) == One(f, s[i]) + FilterMap(f, []);
  }

  lemma {:induction false} FilterMapMember<T, U>(f: T -> Option<U>, s: seq<T>, u: U)
    ensures u in FilterMap(f, s) <==> exists i :: 0 <= i < |s| && f(s[i]) == Some(u)
  {
    if s != [] {
      FilterMapMember(f, s[1..], u);
      if i :| 0 <= i < |s| && f(s[i]) == Some(u) {
        if i > 0 {
          assert s[1..][i - 1] == s[i];
        }
      }
      if j :| 0 <= j < |s[1..]| && f(s[1..][j]) == Some(u) {
        assert s[j + 1] == s[1..][j];
      }
    }
  }

  function Drop<T>(s: seq<T>, i: nat): seq<T>
    requires i < |s|
  {
    s[..i] + s[i + 1..]
  }

  lemma {:induction false} DropMultiset<T>(s: seq<T>, i: nat)
    requires i < |s|
    ensures multiset(s) == multiset{s[i]} + multiset(Drop(s, i))
  {
    assert s == s[..i] + [s[i]] + s[i + 1..];
  }

  lemma {:induction false} SameMembers<T>(a: seq<T>, b: seq<T>)
    requires Permutes(a, b)
    ensures |a| == |b| && forall x :: x in a <==> x in b
  {
    assert |multiset(a)| == |multiset(b)|;
    forall x ensures x in a <==> x in b {
      assert x in multiset(a) <==> x in multiset(b);
    }
  }

  lemma {:induction false} DropBoth<T>(a: seq<T>, b: seq<T>, i: nat)
    requires Permutes(a, b) && a != [] && i < |b| && b[i] == a[0]
    ensures Permutes(a[1..], Drop(b, i))
  {
    assert a == [a[0]] + a[1..];
    DropMultiset(b, i);
    assert multiset(a[1..]) == multiset(a) - multiset{a[0]};
    assert multiset(Drop(b, i)) == multiset(b) - multiset{a[0]};
  }

  lemma {:induction false} FilterMapDrop<T, U>(f: T -> Option<U>, b: seq<T>, i: nat)
    requires i < |b|
    ensures multiset(FilterMap(f, b)) == multiset(One(f, b[i])) + multiset(FilterMap(f, Drop(b, i)))
  {
    assert b == b[..i] + ([b[i]] + b[i + 1..]);
    FilterMapAppend(f, b[..i], [b[i]] + b[i + 1..]);
    assert ([b[i]] + b[i + 1..])[1..] == b[i + 1..];
    FilterMapAppend(f, b[..i], b[i + 1..]);
  }

  /** Mapping a permutation gives a permutation. */
  lemma {:induction false} FilterMapPermutes<T, U>(f: T -> Option<U>, a: seq<T>, b: seq<T>)
    requires Permutes(a, b)
    ensures Permutes(FilterMap(f, a), FilterMap(f, b))
    decreases |a|
  {
    SameMembers(a, b);
    if a != [] {
      assert a[0] in b;
      var i :| 0 <= i < |b| && b[i] == a[0];
      DropBoth(a, b, i);
      FilterMapPermutes(f, a[1..], Drop(b, i));
      FilterMapDrop(f, b, i);
    }
  }

  /** Every occurrence of `x` contributes one of `f(x)`. */
  lemma {:induction false} CountThrough<T, U>(f: T -> Option<U>, s: seq<T>, x: T, u: U)
    requires f(x) == Some(u)
    ensures multiset(FilterMap(f, s))[u] >= multiset(s)[x]
  {
    if s != [] {
      CountThrough(f, s[1..], x, u);
      assert s == [s[0]] + s[1..];
    }
  }

  // ---- counting ----

  function Count<T>(p: T -> bool, s: seq<T>): (n: nat)
    ensures n <= |s|
  {
    if s == [] then 0 else (if p(s[0]) then 1 else 0) + Count(p, s[1..])
  }

  lemma {:induction false} CountAppend<T>(p: T -> bool, a: seq<T>, b: seq<T>)
    ensures Count(p, a + b) == Count(p, a) + Count(p, b)
  {
    if a == [] {
      assert a + b == b;
    } else {
      assert (a + b)[1..] == a[1..] + b;
      CountAppend(p, a[1..], b);
    }
  }

  lemma {:induction false} CountAll<T>(p: T -> bool, s: seq<T>)
    requires forall i :: 0 <= i < |s| ==> p(s[i])
    ensures Count(p, s) == |s|
  {
    if s != [] {
      CountAll(p, s[1..]);
    }
  }

  lemma {:induction false} CountNone<T>(p: T -> bool, s: seq<T>)
    requires forall i :: 0 <= i < |s| ==> !p(s[i])
    ensures Count(p, s) == 0
  {
    if s != [] {
      CountNone(p, s[1..]);
    }
  }

  lemma {:induction false} CountSlice<T>(p: T -> bool, s: seq<T>, lo: nat, hi: nat)
    requires lo <= hi <= |s| && forall i :: lo <= i < hi ==> p(s[i])
    ensures Count(p, s) >= hi - lo
  {
    assert s == s[..lo] + (s[lo..hi] + s[hi..]);
    CountAppend(p, s[..lo], s[lo..hi] + s[hi..]);
    CountAppend(p, s[lo..hi], s[hi..]);
    CountAll(p, s[lo..hi]);
  }

  lemma {:induction false} CountPermutes<T>(p: T -> bool, a: seq<T>, b: seq<T>)
    requires Permutes(a, b)
    ensures Count(p, a) == Count(p, b)
    decreases |a|
  {
    SameMembers(a, b);
    if a != [] {
      assert a[0] in b;
      var i :| 0 <= i < |b| && b[i] == a[0];
      DropBoth(a, b, i);
      CountPermutes(p, a[1..], Drop(b, i));
      CountAppend(p, b[..i], [b[i]] + b[i + 1..]);
      CountAppend(p, b[..i], b[i + 1..]);
      assert b == b[..i] + ([b[i]] + b[i + 1..]);
      assert ([b[i]] + b[i + 1..])[1..] == b[i + 1..];
    }
  }

  /** Counting the images that `q` accepts against the originals that `p` accepts. */
  lemma {:induction false} CountImages<T, U>(f: T -> Option<U>, q: U -> bool, p: T -> bool, s: seq<T>)
    requires forall i :: 0 <= i < |s| ==> f(s[i]).Some?
    ensures |FilterMap(f, s)| == |s|
    ensures (forall i :: 0 <= i < |s| && q(f(s[i]).value) ==> p(s[i])) ==> Count(q, FilterMap(f, s)) <= Count(p, s)
    ensures (forall i :: 0 <= i < |s| && p(s[i]) ==> q(f(s[i]).value)) ==> Count(p, s) <= Count(q, FilterMap(f, s))
  {
    if s != [] {
      CountImages(f, q, p, s[1..]);
      var rest := FilterMap(f, s[1..]);
      assert FilterMap(f, s) == [f(s[0]).value] + rest;
      assert ([f(s[0]).value] + rest)[1..] == rest;
    }
  }

  /** Counting the images that `q` accepts, when `f` need not be defined everywhere. */
  lemma {:induction false} CountFilterMap<T, U>(f: T -> Option<U>, q: U -> bool, p: T -> bool, s: seq<T>)
    requires forall i :: 0 <= i < |s| ==> (p(s[i]) <==> f(s[i]).Some? && q(f(s[i]).value))
    ensures Count(q, FilterMap(f, s)) == Count(p, s)
  {
    if s != [] {
      CountFilterMap(f, q, p, s[1..]);
      CountAppend(q, One(f, s[0]), FilterMap(f, s[1..]));
      assert f(s[0]).Some? ==> One(f, s[0])[1..] == [];
    }
  }

  lemma {:induction false} CountOnly<T>(p: T -> bool, s: seq<T>, i: nat)
    requires i < |s| && forall j :: 0 <= j < |s| && j != i ==> !p(s[j])
    ensures Count(p, s) == if p(s[i]) then 1 else 0
  {
    assert s == s[..i] + ([s[i]] + s[i + 1..]);
    CountAppend(p, s[..i], [s[i]] + s[i + 1..]);
    assert ([s[i]] + s[i + 1..])[1..] == s[i + 1..];
    CountNone(p, s[..i]);
    CountNone(p, s[i + 1..]);
  }

  // ---- sorting ----

  predicate Sorted(s: seq<real>) {
    forall i, j :: 0 <= i < j < |s| ==> s[i] <= s[j]
  }

  function Insert(x: real, s: seq<real>): seq<real> {
    if s == [] || x <= s[0] then [x] + s else [s[0]] + Insert(x, s[1..])
  }

  function Sort(s: seq<real>): seq<real> {
    if s == [] then [] else Insert(s[0], Sort(s[1..]))
  }

  lemma {:induction false} InsertMultiset(x: real, s: seq<real>)
    ensures multiset(Insert(x, s)) == multiset{x} + multiset(s)
  {
    if s != [] && x > s[0] {
      InsertMultiset(x, s[1..]);
      assert s == [s[0]] + s[1..];
    }
  }

  lemma {:induction false} InsertKeepsBound(x: real, s: seq<real>, low: real)
    requires low <= x && forall k :: 0 <= k < |s| ==> low <= s[k]
    ensures forall k :: 0 <= k < |Insert(x, s)| ==> low <= Insert(x, s)[k]
  {
    if s != [] && x > s[0] {
      InsertKeepsBound(x, s[1..], low);
    }
  }

  lemma {:induction false} InsertSorts(x: real, s: seq<real>)
    requires Sorted(s)
    ensures Sorted(Insert(x, s))
  {
    if s != [] && x > s[0] {
      InsertSorts(x, s[1..]);
      InsertKeepsBound(x, s[1..], s[0]);
    }
  }

  lemma {:induction false} SortSorts(s: seq<real>)
    ensures Sorted(Sort(s)) && Permutes(Sort(s), s) && |Sort(s)| == |s|
  {
    if s != [] {
      SortSorts(s[1..]);
      InsertSorts(s[0], Sort(s[1..]));
      InsertMultiset(s[0], Sort(s[1..]));
      assert s == [s[0]] + s[1..];
    }
    SameMembers(Sort(s), s);
  }

  lemma {:induction false} SortedIsUnique(a: seq<real>, b: seq<real>)
    requires Sorted(a) && Sorted(b) && Permutes(a, b)
    ensures a == b
  {
    SameMembers(a, b);
    if a != [] {
      assert a[0] in b && b[0] in a;
      assert a[0] == b[0];
      DropBoth(a, b, 0);
      assert Drop(b, 0) == b[1..];
      SortedIsUnique(a[1..], b[1..]);
    }
  }

  lemma {:induction false} SortPermutes(a: seq<real>, b: seq<real>)
    requires Permutes(a, b)
    ensures Sort(a) == Sort(b)
  {
    SortSorts(a);
    SortSorts(b);
    SortedIsUnique(Sort(a), Sort(b));
  }

  // ---- the median ----

  /** `statistics.median`; 0 for no values, which no caller asks for. */
  function Median(s: seq<real>): real {
    if s == [] then 0.0 else
      SortSorts(s);
      var t, n := Sort(s), |s|;
      if n % 2 == 1 then t[n / 2] else (t[n / 2 - 1] + t[n / 2]) / 2.0
  }

  lemma {:induction false} CountIn(s: seq<real>, v: real, lo: nat, hi: nat)
    requires lo <= hi <= |s|
    requires forall k :: 0 <= k < |s| && !(lo <= k < hi) ==> s[k] != v
    ensures multiset(s)[v] <= hi - lo
  {
    assert s == s[..lo] + s[lo..hi] + s[hi..];
    assert multiset(s[..lo])[v] == 0 && multiset(s[hi..])[v] == 0;
    assert |multiset(s[lo..hi])| == hi - lo;
    CountAtMostAll(multiset(s[lo..hi]), v);
  }

  lemma {:induction false} CountAtMostAll<T>(m: multiset<T>, v: T)
    ensures m[v] <= |m|
  {
    var only := multiset{}[v := m[v]];
    assert m == only + (m - only);
  }

  /** A value held by a strict majority sits in the middle of the sorted values. */
  lemma {:induction false} MajorityIsMiddle(t: seq<real>, v: real, k: nat)
    requires Sorted(t) && 2 * multiset(t)[v] > |t|
    requires k == |t| / 2 || (|t| % 2 == 0 && k + 1 == |t| / 2)
    ensures k < |t| && t[k] == v
  {
    CountAtMostAll(multiset(t), v);
    assert |multiset(t)| == |t|;
    if t[k] > v {
      CountIn(t, v, 0, k);
    } else if t[k] < v {
      CountIn(t, v, k + 1, |t|);
    }
  }

  lemma {:induction false} MajorityIsMedian(s: seq<real>, v: real)
    requires 2 * multiset(s)[v] > |s|
    ensures Median(s) == v
  {
    SortSorts(s);
    MajorityIsMiddle(Sort(s), v, |s| / 2);
    if |s| % 2 == 0 {
      MajorityIsMiddle(Sort(s), v, |s| / 2 - 1);
    }
  }

  lemma {:induction false} MedianPermutes(a: seq<real>, b: seq<real>)
    requires Permutes(a, b)
    ensures Median(a) == Median(b)
  {
    SameMembers(a, b);
    SortPermutes(a, b);
  }
}
