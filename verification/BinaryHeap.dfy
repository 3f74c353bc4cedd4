/**
 * Binary max-heaps kept in a vector, with the contracts of `std::push_heap` and `std::pop_heap`
 * (section 28.7.7 of ISO/IEC 14882:2017), and their refinement of a ranked list.
 * `lt(a, b)` is the C++ `operator<`: `a` has lower priority than `b`.
 */
module BinaryHeap {
  ghost predicate StrictWeakOrder<T(!new)>(lt: (T, T) -> bool) {
    && (forall a, b :: lt(a, b) ==> !lt(b, a))
    && (forall a, b, c :: !lt(a, b) && !lt(b, c) ==> !lt(a, c))
  }

  /** Positions `p` and `c` of a vector are parent and child in its heap. */
  predicate Edge(p: int, c: int) {
    0 <= p && (c == 2 * p + 1 || c == 2 * p + 2)
  }

  ghost predicate IsHeap<T>(v: seq<T>, lt: (T, T) -> bool) {
    forall p, c :: Edge(p, c) && c < |v| ==> !lt(v[p], v[c])
  }

  /** The heap order holds except possibly between `i` and its parent. */
  ghost predicate HeapButAbove<T>(v: seq<T>, lt: (T, T) -> bool, i: int) {
    && (forall p, c :: Edge(p, c) && c < |v| && c != i ==> !lt(v[p], v[c]))
    && (forall p, c :: Edge(p, i) && Edge(i, c) && c < |v| ==> !lt(v[p], v[c]))
  }

  /** The heap order of the first `n` elements holds except possibly between `i` and its children. */
  ghost predicate HeapButBelow<T>(v: seq<T>, n: nat, lt: (T, T) -> bool, i: int)
    requires n <= |v|
  {
    && (forall p, c :: Edge(p, c) && c < n && p != i ==> !lt(v[p], v[c]))
    && (forall p, c :: Edge(p, i) && Edge(i, c) && c < n ==> !lt(v[p], v[c]))
  }

  function Swap<T>(v: seq<T>, i: nat, j: nat): (r: seq<T>)
    requires i < |v| && j < |v|
    ensures |r| == |v| && multiset(r) == multiset(v)
    ensures r[i] == v[j] && r[j] == v[i]
    ensures forall k :: 0 <= k < |v| && k != i && k != j ==> r[k] == v[k]
  {
    v[i := v[j]][j := v[i]]
  }

  lemma {:induction false} SwapUp<T(!new)>(v: seq<T>, lt: (T, T) -> bool, i: nat, p: nat)
    requires StrictWeakOrder(lt) && i < |v| && Edge(p, i) && HeapButAbove(v, lt, i) && lt(v[p], v[i])
    ensures HeapButAbove(Swap(v, p, i), lt, p)
  {
  }

  lemma {:induction false} SwapDown<T(!new)>(v: seq<T>, n: nat, lt: (T, T) -> bool, i: nat, c: nat)
    requires StrictWeakOrder(lt) && n <= |v| && c < n && Edge(i, c) && HeapButBelow(v, n, lt, i) && lt(v[i], v[c])
    requires forall d :: Edge(i, d) && d < n ==> !lt(v[c], v[d])
    ensures HeapButBelow(Swap(v, i, c), n, lt, c)
  {
  }

  /** Adds the last element of `v` to the heap formed by the others. */
  method PushHeap<T(!new)>(v: seq<T>, lt: (T, T) -> bool) returns (r: seq<T>)
    requires StrictWeakOrder(lt)
    requires |v| > 0 && IsHeap(v[..|v| - 1], lt)
    ensures multiset(r) == multiset(v) && IsHeap(r, lt)
  {
    r := v;
    var i := |v| - 1;
    while i > 0 && lt(r[(i - 1) / 2], r[i])
      invariant 0 <= i < |r| == |v|
      invariant multiset(r) == multiset(v)
      invariant HeapButAbove(r, lt, i)
      decreases i
    {
      SwapUp(r, lt, i, (i - 1) / 2);
      r := Swap(r, (i - 1) / 2, i);
      i := (i - 1) / 2;
    }
    assert forall p :: Edge(p, i) ==> p == (i - 1) / 2;
  }

  lemma {:induction false} BackToTop<T(!new)>(v: seq<T>, lt: (T, T) -> bool)
    requires |v| > 0 && IsHeap(v, lt)
    ensures HeapButBelow(Swap(v, 0, |v| - 1), |v| - 1, lt, 0)
  {
  }

  /** The child of `i` that no other child outranks, or a position past the end. */
  function GreaterChild<T>(v: seq<T>, n: nat, lt: (T, T) -> bool, i: nat): (c: nat)
    requires n <= |v|
    ensures c < n ==> Edge(i, c)
    ensures c >= n ==> 2 * i + 1 >= n
  {
    var c := 2 * i + 1;
    if c + 1 < n && lt(v[c], v[c + 1]) then c + 1 else c
  }

  lemma {:induction false} GreaterChildIsGreatest<T(!new)>(v: seq<T>, n: nat, lt: (T, T) -> bool, i: nat)
    requires StrictWeakOrder(lt) && n <= |v| && 2 * i + 1 < n
    ensures forall d :: Edge(i, d) && d < n ==> !lt(v[GreaterChild(v, n, lt, i)], v[d])
  {
  }

  lemma {:induction false} SiftedDown<T(!new)>(v: seq<T>, n: nat, lt: (T, T) -> bool, i: nat)
    requires StrictWeakOrder(lt) && n <= |v| && HeapButBelow(v, n, lt, i)
    requires 2 * i + 1 < n ==> !lt(v[i], v[GreaterChild(v, n, lt, i)])
    ensures IsHeap(v[..n], lt)
  {
    if 2 * i + 1 < n {
      GreaterChildIsGreatest(v, n, lt, i);
    }
  }

  /** Moves the top of the heap to the back and makes a heap of the others. */
  method PopHeap<T(!new)>(v: seq<T>, lt: (T, T) -> bool) returns (r: seq<T>)
    requires StrictWeakOrder(lt)
    requires |v| > 0 && IsHeap(v, lt)
    ensures multiset(r) == multiset(v) && |r| == |v|
    ensures r[|v| - 1] == v[0] && IsHeap(r[..|v| - 1], lt)
  {
    hide IsHeap, HeapButBelow, StrictWeakOrder, Edge, Swap;
    var n := |v| - 1;
    r := Swap(v, 0, n);
    BackToTop(v, lt);
    var i := 0;
    while 2 * i + 1 < n && lt(r[i], r[GreaterChild(r, n, lt, i)])
      invariant 0 <= i && |r| == |v|
      invariant multiset(r) == multiset(v) && r[n] == v[0]
      invariant HeapButBelow(r, n, lt, i)
      decreases n - i
    {
      var c := GreaterChild(r, n, lt, i);
      GreaterChildIsGreatest(r, n, lt, i);
      SwapDown(r, n, lt, i, c);
      r := Swap(r, i, c);
      i := c;
    }
    SiftedDown(r, n, lt, i);
  }

  /** The top of a heap has no element above it. */
  lemma {:induction false} TopIsGreatest<T(!new)>(v: seq<T>, lt: (T, T) -> bool, i: nat)
    requires StrictWeakOrder(lt) && IsHeap(v, lt) && i < |v|
    ensures !lt(v[0], v[i])
  {
    if i > 0 {
      assert Edge((i - 1) / 2, i);
      TopIsGreatest(v, lt, (i - 1) / 2);
    }
  }

  // ---------- the ranked list a heap stands for ----------

  /** Every element has strictly higher priority than the ones after it. */
  ghost predicate Ranked<T>(s: seq<T>, lt: (T, T) -> bool) {
    forall i, j :: 0 <= i < j < |s| ==> lt(s[j], s[i])
  }

  ghost predicate Represents<T>(v: seq<T>, s: seq<T>, lt: (T, T) -> bool) {
    IsHeap(v, lt) && multiset(v) == multiset(s) && Ranked(s, lt)
  }

  function Insert<T>(s: seq<T>, x: T, lt: (T, T) -> bool): (r: seq<T>)
    ensures |r| == |s| + 1
  {
    if s == [] || lt(s[0], x) then [x] + s else [s[0]] + Insert(s[1..], x, lt)
  }

  lemma {:induction false} InsertAdds<T>(s: seq<T>, x: T, lt: (T, T) -> bool)
    ensures multiset(Insert(s, x, lt)) == multiset(s) + multiset{x}
  {
    if s != [] && !lt(s[0], x) {
      InsertAdds(s[1..], x, lt);
      assert s == [s[0]] + s[1..];
    }
  }

  lemma {:induction false} InsertMembers<T>(s: seq<T>, x: T, lt: (T, T) -> bool)
    ensures forall y :: y in Insert(s, x, lt) <==> y == x || y in s
  {
    if s != [] && !lt(s[0], x) {
      InsertMembers(s[1..], x, lt);
      assert s == [s[0]] + s[1..];
    }
  }

  lemma {:induction false} InMultiset<T>(v: seq<T>, s: seq<T>, i: nat) returns (j: nat)
    requires multiset(v) == multiset(s) && i < |v|
    ensures j < |s| && s[j] == v[i]
  {
    assert v[i] in multiset(v);
    j :| 0 <= j < |s| && s[j] == v[i];
  }

  lemma {:induction false} SizeOf<T>(v: seq<T>, s: seq<T>)
    requires multiset(v) == multiset(s)
    ensures |v| == |s|
  {
    assert |v| == |multiset(v)| == |multiset(s)| == |s|;
  }

  ghost predicate NoRepeats<T>(s: seq<T>) {
    forall i, j :: 0 <= i < j < |s| ==> s[i] != s[j]
  }

  lemma {:induction false} CountedOnce<T>(s: seq<T>, x: T)
    requires NoRepeats(s)
    ensures multiset(s)[x] <= 1
  {
    if s != [] {
      CountedOnce(s[1..], x);
      assert s == [s[0]] + s[1..];
      assert s[0] !in s[1..];
    }
  }

  lemma {:induction false} CountedTwice<T>(s: seq<T>, i: nat, j: nat)
    requires i < j < |s| && s[i] == s[j]
    ensures multiset(s)[s[i]] >= 2
  {
    assert s == s[..i] + [s[i]] + s[i + 1..j] + [s[j]] + s[j + 1..];
  }

  lemma {:induction false} TwoPlaces<T>(s: seq<T>, x: T) returns (i: nat, j: nat)
    requires multiset(s)[x] >= 2
    ensures i < j < |s| && s[i] == x && s[j] == x
  {
    if s[0] == x {
      assert s == [x] + s[1..];
      assert x in multiset(s[1..]);
      var k :| 0 <= k < |s[1..]| && s[1..][k] == x;
      i, j := 0, k + 1;
    } else {
      assert s == [s[0]] + s[1..];
      i, j := TwoPlaces(s[1..], x);
      i, j := i + 1, j + 1;
    }
  }

  lemma {:induction false} TopIsFirst<T(!new)>(v: seq<T>, s: seq<T>, lt: (T, T) -> bool)
    requires StrictWeakOrder(lt) && Represents(v, s, lt)
    ensures |v| == |s|
    ensures |v| > 0 ==> v[0] == s[0]
  {
    SizeOf(v, s);
    if |v| > 0 {
      var i := InMultiset(v, s, 0);
      var j := InMultiset(s, v, 0);
      TopIsGreatest(v, lt, j);
    }
  }

  lemma {:induction false} TailMultiset<T>(s: seq<T>)
    requires s != []
    ensures multiset(s[1..]) == multiset(s) - multiset{s[0]}
  {
    assert s == [s[0]] + s[1..];
  }

  lemma {:induction false} SameFirst<T(!new)>(s: seq<T>, t: seq<T>, lt: (T, T) -> bool)
    requires StrictWeakOrder(lt) && Ranked(s, lt) && Ranked(t, lt) && multiset(s) == multiset(t) && s != []
    ensures t != [] && s[0] == t[0]
  {
    var i := InMultiset(s, t, 0);
    var j := InMultiset(t, s, 0);
  }

  /** A ranked list is determined by its elements, so a heap stands for exactly one. */
  lemma {:induction false} RankedIsUnique<T(!new)>(s: seq<T>, t: seq<T>, lt: (T, T) -> bool)
    requires StrictWeakOrder(lt) && Ranked(s, lt) && Ranked(t, lt) && multiset(s) == multiset(t)
    ensures s == t
  {
    SizeOf(s, t);
    if s != [] {
      SameFirst(s, t, lt);
      TailMultiset(s);
      TailMultiset(t);
      RankedIsUnique(s[1..], t[1..], lt);
    }
  }

  lemma {:induction false} InsertRanked<T(!new)>(s: seq<T>, x: T, lt: (T, T) -> bool)
    requires StrictWeakOrder(lt) && Ranked(s, lt)
    requires forall i :: 0 <= i < |s| ==> lt(s[i], x) || lt(x, s[i])
    ensures Ranked(Insert(s, x, lt), lt)
  {
    if s == [] || lt(s[0], x) {
      forall i | 0 <= i < |s|
        ensures lt(s[i], x)
      {
        assert i > 0 ==> lt(s[i], s[0]);
      }
    } else {
      InsertRanked(s[1..], x, lt);
      InsertMembers(s[1..], x, lt);
      var r := Insert(s[1..], x, lt);
      forall j | 0 <= j < |r|
        ensures lt(r[j], s[0])
      {
        assert r[j] in r;
      }
    }
  }

  lemma {:induction false} PushRefines<T(!new)>(v: seq<T>, s: seq<T>, x: T, r: seq<T>, lt: (T, T) -> bool)
    requires StrictWeakOrder(lt) && Represents(v, s, lt)
    requires forall i :: 0 <= i < |s| ==> lt(s[i], x) || lt(x, s[i])
    requires IsHeap(r, lt) && multiset(r) == multiset(v + [x])
    ensures Represents(r, Insert(s, x, lt), lt)
  {
    InsertRanked(s, x, lt);
    InsertAdds(s, x, lt);
  }

  lemma {:induction false} PopRefines<T(!new)>(v: seq<T>, s: seq<T>, r: seq<T>, lt: (T, T) -> bool)
    requires StrictWeakOrder(lt) && Represents(v, s, lt) && |v| > 0
    requires |r| == |v| && multiset(r) == multiset(v) && r[|v| - 1] == v[0] && IsHeap(r[..|v| - 1], lt)
    ensures |s| > 0 && Represents(r[..|v| - 1], s[1..], lt)
  {
    TopIsFirst(v, s, lt);
    assert r == r[..|v| - 1] + [v[0]];
    assert s == [s[0]] + s[1..];
    assert multiset(r[..|v| - 1]) == multiset(r) - multiset{v[0]};
  }

  /** Changing the top to an element that ranks the same keeps the heap, whatever else it changes. */
  lemma {:induction false} ReplaceTopRefines<T(!new)>(v: seq<T>, s: seq<T>, x: T, lt: (T, T) -> bool)
    requires StrictWeakOrder(lt) && Represents(v, s, lt) && |v| > 0
    requires forall y :: lt(y, x) <==> lt(y, v[0])
    requires forall y :: lt(x, y) <==> lt(v[0], y)
    ensures |s| > 0 && Represents(v[0 := x], s[0 := x], lt)
  {
    TopIsFirst(v, s, lt);
  }
}
