/**
 * Arrivals of any ids, repeated and stale ones included: what an engine may do with them, and exactly
 * when it still does what it should.
 */
module Arrivals {
  import opened Types
  import opened BinaryHeap
  import opened Matching
  import opened Reorder

  // ---------- one arrival ----------

  /** Waiting orders by id; equal ids in any order. */
  ghost predicate Ascends(p: seq<Order>) {
    forall i, j :: 0 <= i < j < |p| ==> p[i].id <= p[j].id
  }

  /**
   * What an engine may become when `o` arrives: a heap may give waiting orders with equal ids in any
   * order, and then everything whose turn it is has been committed.
   */
  ghost predicate Received(e: Engine, o: Order, f: Engine) {
    exists p :: Ascends(p) && multiset(p) == multiset(e.pending) + multiset{o} && f == Drain(e.(pending := p))
  }

  lemma {:induction false} InsertAscends(p: seq<Order>, o: Order)
    requires Ascends(p)
    ensures Ascends(Insert(p, o, IdGreater))
  {
    if p != [] && !IdGreater(p[0], o) {
      InsertAscends(p[1..], o);
      InsertMembers(p[1..], o, IdGreater);
      var r := Insert(p[1..], o, IdGreater);
      forall j | 0 <= j < |r|
        ensures p[0].id <= r[j].id
      {
        assert r[j] in r;
      }
    }
  }

  /** Putting the order where `Insert` does is one of the possible ways. */
  lemma {:induction false} ReceiveIsReceived(e: Engine, o: Order)
    requires Ascends(e.pending)
    ensures Received(e, o, Receive(e, o))
  {
    InsertAscends(e.pending, o);
    InsertAdds(e.pending, o, IdGreater);
  }

  lemma {:induction false} DistinctRanked(p: seq<Order>)
    requires Ascends(p) && DistinctIds(p)
    ensures Ranked(p, IdGreater)
  {
    forall i, j | 0 <= i < j < |p|
      ensures IdGreater(p[j], p[i])
    {
      assert p[i].id != p[j].id;
    }
  }

  lemma {:induction false} SameDistinct(a: seq<Order>, b: seq<Order>)
    requires DistinctIds(a) && multiset(a) == multiset(b)
    ensures DistinctIds(b)
  {
    forall i, j | 0 <= i < j < |b|
      ensures b[i].id != b[j].id
    {
      var k := InMultiset(b, a, i);
      var l := InMultiset(b, a, j);
      if b[i] == b[j] {
        CountedTwice(b, i, j);
        CountedOnce(a, b[i]);
      }
    }
  }

  /** As long as no id waits twice, there is only one way. */
  lemma {:induction false} ReceivedIsReceive(e: Engine, o: Order, f: Engine)
    requires Ascends(e.pending) && DistinctIds(e.pending + [o]) && Received(e, o, f)
    ensures f == Receive(e, o)
  {
    var p :| Ascends(p) && multiset(p) == multiset(e.pending) + multiset{o} && f == Drain(e.(pending := p));
    var q := Insert(e.pending, o, IdGreater);
    assert multiset(e.pending + [o]) == multiset(e.pending) + multiset{o};
    InsertAscends(e.pending, o);
    InsertAdds(e.pending, o, IdGreater);
    SameDistinct(e.pending + [o], p);
    SameDistinct(e.pending + [o], q);
    DistinctRanked(p);
    DistinctRanked(q);
    RankedIsUnique(p, q, IdGreater);
  }

  // ---------- committing one after the other ----------

  /** Each next order has the id whose turn it is. */
  ghost predicate InTurn(last: int, done: seq<Order>) {
    forall i :: 0 <= i < |done| ==> done[i].id == last + 1 + i
  }

  /** The engine that has committed `done` after `e`, with `rest` still waiting. */
  function Having(e: Engine, done: seq<Order>, rest: seq<Order>): (f: Engine)
    ensures f.pending == rest && f.last == e.last + |done|
  {
    if done == [] then e.(pending := rest)
    else
      var before := Having(e, done[..|done| - 1], rest);
      var r := Commit(before.book, done[|done| - 1]);
      Engine(rest, before.last + 1, r.book, before.trades + r.trades)
  }

  lemma {:induction false} HavingNone(e: Engine, rest: seq<Order>)
    ensures Having(e, [], rest) == e.(pending := rest)
  {
  }

  lemma {:induction false} HavingRest(e: Engine, done: seq<Order>, rest: seq<Order>, other: seq<Order>)
    ensures Having(e, done, other) == Having(e, done, rest).(pending := other)
  {
    hide Commit;
    if done != [] {
      HavingRest(e, done[..|done| - 1], rest, other);
    }
  }

  /** Committing the first waiting order. */
  lemma {:induction false} HavingOneMore(e: Engine, done: seq<Order>, o: Order, rest: seq<Order>)
    ensures Having(e, done + [o], rest) == CommitNext(Having(e, done, [o] + rest))
  {
    hide Commit;
    assert (done + [o])[..|done|] == done && ([o] + rest)[1..] == rest;
    HavingRest(e, done, [o] + rest, rest);
  }

  /** Draining commits the orders in turn first, whatever waits behind them. */
  lemma {:induction false} DrainHaving(e: Engine, done: seq<Order>, rest: seq<Order>)
    requires InTurn(e.last, done)
    ensures Drain(e.(pending := done + rest)) == Drain(Having(e, done, rest))
  {
    hide Commit, Having, CommitNext;
    if done == [] {
      assert [] + rest == rest;
      HavingNone(e, rest);
    } else {
      var before, o := done[..|done| - 1], done[|done| - 1];
      DrainHaving(e, before, [o] + rest);
      HavingOneMore(e, before, o, rest);
      assert before + ([o] + rest) == done + rest && before + [o] == done;
    }
  }

  lemma {:induction false} DrainDone(e: Engine)
    requires e.pending == [] || e.pending[0].id != e.last + 1
    ensures Drain(e) == e
  {
  }

  /** And draining is such a run of commits. */
  lemma {:induction false} DrainIsHaving(e: Engine) returns (n: nat)
    ensures n <= |e.pending| && InTurn(e.last, e.pending[..n]) && Drain(e) == Having(e, e.pending[..n], e.pending[n..])
    ensures n < |e.pending| ==> e.pending[n].id != e.last + 1 + n
    decreases |e.pending|
  {
    n := 0;
    assert e.(pending := e.pending[0..]) == e;
    while n < |e.pending| && e.pending[n].id == e.last + 1 + n
      invariant n <= |e.pending| && InTurn(e.last, e.pending[..n])
    {
      n := n + 1;
    }
    var done, rest := e.pending[..n], e.pending[n..];
    assert done + rest == e.pending && e.(pending := done + rest) == e;
    DrainHaving(e, done, rest);
  }

  // ---------- heaps of waiting orders ----------

  ghost predicate Heaps(v: seq<Order>, p: seq<Order>) {
    IsHeap(v, IdGreater) && multiset(v) == multiset(p) && Ascends(p)
  }

  lemma {:induction false} TopHasFirstId(v: seq<Order>, p: seq<Order>)
    requires Heaps(v, p)
    ensures |v| == |p| && (v != [] ==> v[0].id == p[0].id && v[0] in p)
  {
    SizeOf(v, p);
    if v != [] {
      var k := InMultiset(v, p, 0);
      var l := InMultiset(p, v, 0);
      TopIsGreatest(v, IdGreater, l);
    }
  }

  /** `p` with its element at `k` moved to the front. */
  function Fronted(p: seq<Order>, k: nat): (q: seq<Order>)
    requires k < |p|
    ensures |q| == |p| && q[0] == p[k] && forall i :: 0 < i < |p| ==> q[i] == p[if i <= k then i - 1 else i]
  {
    [p[k]] + p[..k] + p[k + 1..]
  }

  lemma {:induction false} FrontedMembers(p: seq<Order>, k: nat)
    requires k < |p|
    ensures multiset(Fronted(p, k)) == multiset(p)
  {
    assert p == p[..k] + [p[k]] + p[k + 1..];
  }

  /** The waiting orders, with the one that the heap gives first in front. */
  lemma {:induction false} Rearranged(v: seq<Order>, p: seq<Order>) returns (q: seq<Order>)
    requires Heaps(v, p) && v != []
    ensures Heaps(v, q) && q != [] && q[0] == v[0]
  {
    hide IsHeap;
    TopHasFirstId(v, p);
    var k :| 0 <= k < |p| && p[k] == v[0];
    q := Fronted(p, k);
    FrontedMembers(p, k);
  }

  lemma {:induction false} RearrangedBehind(done: seq<Order>, p: seq<Order>, q: seq<Order>)
    requires Ascends(done + p) && Ascends(q) && multiset(p) == multiset(q)
    ensures Ascends(done + q) && multiset(done + q) == multiset(done + p)
  {
    SizeOf(p, q);
    forall i, j | 0 <= i < j < |done + q|
      ensures (done + q)[i].id <= (done + q)[j].id
    {
      if j < |done| {
        assert (done + p)[i].id <= (done + p)[j].id;
      } else if i < |done| {
        var k := InMultiset(q, p, j - |done|);
        assert (done + p)[i].id <= (done + p)[|done| + k].id;
      }
    }
  }

  /** Rearranges what waits behind `done` so that the order that the heap gives first comes first. */
  lemma {:induction false} TopMoves(e: Engine, done: seq<Order>, v: seq<Order>, p: seq<Order>) returns (q: seq<Order>)
    requires Heaps(v, p) && v != [] && Ascends(done + p)
    ensures Heaps(v, q) && |q| == |p| && q != [] && q[0] == v[0] && multiset(q) == multiset(p)
    ensures Ascends(done + q) && multiset(done + q) == multiset(done + p)
    ensures Having(e, done, q) == Having(e, done, p).(pending := q)
  {
    hide Having;
    q := Rearranged(v, p);
    RearrangedBehind(done, p, q);
    HavingRest(e, done, p, q);
    SizeOf(p, q);
  }

  /** Then its commit extends `done`. */
  lemma {:induction false} TopCommitted(e: Engine, done: seq<Order>, q: seq<Order>)
    requires InTurn(e.last, done) && q != [] && q[0].id == e.last + |done| + 1
    ensures InTurn(e.last, done + [q[0]]) && done + [q[0]] + q[1..] == done + q
    ensures Having(e, done + [q[0]], q[1..]) == CommitNext(Having(e, done, q))
  {
    hide Having, CommitNext;
    assert [q[0]] + q[1..] == q;
    HavingOneMore(e, done, q[0], q[1..]);
  }

  /** Pushing and popping keep a heap of the waiting orders. */
  lemma {:induction false} PushHeaps(v: seq<Order>, p: seq<Order>, o: Order, r: seq<Order>)
    requires Heaps(v, p) && IsHeap(r, IdGreater) && multiset(r) == multiset(v + [o])
    ensures Heaps(r, Insert(p, o, IdGreater))
  {
    InsertAscends(p, o);
    InsertAdds(p, o, IdGreater);
  }

  lemma {:induction false} PopHeaps(v: seq<Order>, p: seq<Order>, r: seq<Order>)
    requires Heaps(v, p) && v != [] && p != [] && p[0] == v[0]
    requires |r| == |v| && multiset(r) == multiset(v) && r[|v| - 1] == v[0] && IsHeap(r[..|v| - 1], IdGreater)
    ensures Heaps(r[..|v| - 1], p[1..])
  {
    hide IsHeap;
    assert r == r[..|v| - 1] + [v[0]];
    TailMultiset(p);
  }

  // ---------- any sequence of arrivals ----------

  /** The engine has committed some arrivals with ids 1, 2, ... and keeps the others, of which none has its turn. */
  ghost predicate TracksAs(e: Engine, s: seq<Order>, done: seq<Order>) {
    && |done| == e.last && InTurn(0, done) && Outcome(e.book, e.trades) == CommitAll(done)
    && multiset(done) + multiset(e.pending) == multiset(s)
    && Ascends(e.pending) && (e.pending != [] ==> e.pending[0].id != e.last + 1)
  }

  ghost predicate Tracks(e: Engine, s: seq<Order>) {
    exists done :: TracksAs(e, s, done)
  }

  lemma {:induction false} CommitAllHaving(done: seq<Order>, more: seq<Order>, e: Engine, rest: seq<Order>)
    requires Outcome(e.book, e.trades) == CommitAll(done)
    ensures
      var f := Having(e, more, rest);
      Outcome(f.book, f.trades) == CommitAll(done + more)
  {
    hide Commit;
    if more == [] {
      assert done + [] == done;
    } else {
      var before := more[..|more| - 1];
      CommitAllHaving(done, before, e, rest);
      assert (done + more)[..|done + more| - 1] == done + before;
    }
  }

  lemma {:induction false} InTurnConcat(done: seq<Order>, more: seq<Order>)
    requires InTurn(0, done) && InTurn(|done|, more)
    ensures InTurn(0, done + more)
  {
  }

  lemma {:induction false} AscendsTail(p: seq<Order>, n: nat)
    requires Ascends(p) && n <= |p|
    ensures Ascends(p[n..])
  {
  }

  lemma {:induction false} MovedArrivals(done: seq<Order>, waiting: multiset<Order>, s: seq<Order>, o: Order,
                                         p: seq<Order>, n: nat)
    requires multiset(done) + waiting == multiset(s) && multiset(p) == waiting + multiset{o} && n <= |p|
    ensures multiset(done + p[..n]) + multiset(p[n..]) == multiset(s + [o])
  {
    assert p[..n] + p[n..] == p;
    var d, a, b := multiset(done), multiset(p[..n]), multiset(p[n..]);
    assert (d + a) + b == d + (a + b);
    assert d + (waiting + multiset{o}) == (d + waiting) + multiset{o};
  }

  /** Whichever way an arrival goes, the engine still tracks what has arrived. */
  lemma {:induction false} ReceivedTracks(e: Engine, s: seq<Order>, o: Order, f: Engine)
    requires Tracks(e, s) && Received(e, o, f)
    ensures Tracks(f, s + [o])
  {
    hide Having, Drain, CommitAll, Ascends, InTurn;
    var done :| TracksAs(e, s, done);
    var p :| Ascends(p) && multiset(p) == multiset(e.pending) + multiset{o} && f == Drain(e.(pending := p));
    var n := DrainIsHaving(e.(pending := p));
    CommitAllHaving(done, p[..n], e.(pending := p), p[n..]);
    InTurnConcat(done, p[..n]);
    AscendsTail(p, n);
    MovedArrivals(done, multiset(e.pending), s, o, p, n);
    assert n < |p| ==> p[n..][0] == p[n];
    assert TracksAs(f, s + [o], done + p[..n]);
  }

  lemma {:induction false} TracksNone()
    ensures Tracks(NEW_ENGINE, [])
  {
    assert TracksAs(NEW_ENGINE, [], []);
  }

  lemma {:induction false} TrackedAscends(e: Engine, s: seq<Order>)
    requires Tracks(e, s)
    ensures Ascends(e.pending) && 0 <= e.last && |e.pending| + e.last == |s|
  {
    var done :| TracksAs(e, s, done);
    assert multiset(done + e.pending) == multiset(s);
    SizeOf(done + e.pending, s);
  }

  lemma {:induction false} ReceiveAllTracks(s: seq<Order>)
    ensures Tracks(ReceiveAll(s), s)
  {
    hide CommitAll, Receive, Tracks;
    if s == [] {
      TracksNone();
    } else {
      var before, o := s[..|s| - 1], s[|s| - 1];
      var e := ReceiveAll(before);
      ReceiveAllTracks(before);
      TrackedAscends(e, before);
      ReceiveIsReceived(e, o);
      ReceivedTracks(e, before, o, Receive(e, o));
      assert before + [o] == s;
    }
  }

  // ---------- exactly when an engine does what it should ----------

  /** The order that arrived as number `i` has an id that the engine has passed, and that was not its own turn. */
  ghost predicate Overtaken(s: seq<Order>, last: int, i: int) {
    && 0 <= i < |s| && s[i].id <= last
    && (s[i].id < 1 || exists j :: 0 <= j < |s| && j != i && s[j].id == s[i].id)
  }

  lemma {:induction false} InTurnOnce(done: seq<Order>)
    requires InTurn(0, done)
    ensures NoRepeats(done)
  {
  }

  lemma {:induction false} JammedHasOvertaken(e: Engine, s: seq<Order>) returns (i: nat)
    requires Tracks(e, s) && Jammed(e)
    ensures Overtaken(s, e.last, i)
  {
    hide CommitAll, Ascends;
    var done :| TracksAs(e, s, done);
    var all, x := done + e.pending, e.pending[0];
    assert multiset(all) == multiset(s) && all[|done|] == x;
    i := InMultiset(all, s, |done|);
    if x.id >= 1 {
      var y := done[x.id - 1];
      assert all[x.id - 1] == y;
      if y == x {
        CountedTwice(all, x.id - 1, |done|);
        var j;
        i, j := TwoPlaces(s, x);
      } else {
        var j := InMultiset(all, s, x.id - 1);
      }
    }
  }

  lemma {:induction false} OvertakenJams(e: Engine, s: seq<Order>, i: nat)
    requires Tracks(e, s) && Overtaken(s, e.last, i)
    ensures Jammed(e)
  {
    hide CommitAll;
    var done :| TracksAs(e, s, done);
    var all := done + e.pending;
    assert multiset(all) == multiset(s);
    var k := InMultiset(s, all, i);
    if k < |done| {
      var j :| 0 <= j < |s| && j != i && s[j].id == s[i].id;
      var l := InMultiset(s, all, j);
      if l < |done| {
        assert s[j] == s[i];
        CountedTwice(s, if i < j then i else j, if i < j then j else i);
        InTurnOnce(done);
        CountedOnce(done, s[i]);
        assert multiset(e.pending)[s[i]] >= 1;
        var m :| 0 <= m < |e.pending| && e.pending[m] == s[i];
      }
    }
  }

  /**
   * After any arrivals, an engine is jammed if and only if an id that it has passed arrived twice or
   * was below 1.
   */
  lemma {:induction false} JammedIff(e: Engine, s: seq<Order>)
    requires Tracks(e, s)
    ensures Jammed(e) <==> exists i :: Overtaken(s, e.last, i)
  {
    if Jammed(e) {
      var i := JammedHasOvertaken(e, s);
    }
    if i :| Overtaken(s, e.last, i) {
      OvertakenJams(e, s, i);
    }
  }

  /** An engine that is jammed never commits anything again. */
  lemma {:induction false} JammedForGood(e: Engine, later: seq<Order>)
    requires Jammed(e)
    ensures
      var f := ReceiveFrom(e, later);
      Jammed(f) && f.last == e.last && f.book == e.book && f.trades == e.trades
  {
    if later != [] {
      var before := later[..|later| - 1];
      JammedForGood(e, before);
      JammedStays(ReceiveFrom(e, before), later[|later| - 1]);
    }
  }

  lemma {:induction false} OneMoreArrival(s: seq<Order>, o: Order)
    ensures ReceiveAll([]) == NEW_ENGINE && ReceiveAll(s + [o]) == Receive(ReceiveAll(s), o)
  {
    assert (s + [o])[..|s|] == s;
  }

  lemma {:induction false} InsertTwos(a: Order, b: Order, c: Order)
    requires a.id == 2 && b.id == 2 && c.id == 1
    ensures Insert([], a, IdGreater) == [a] && Insert([a], b, IdGreater) == [a, b]
    ensures Insert([a, b], c, IdGreater) == [c, a, b]
  {
    assert [a][1..] == [] && Insert([], b, IdGreater) == [b];
  }

  /**
   * Three arrivals with the ids 2, 2, 1: none is stale when it arrives, and nothing is committed before
   * the third, but then the engine is jammed.
   */
  lemma {:induction false} RepeatedIdJams(a: Order, b: Order, c: Order)
    requires a.id == 2 && b.id == 2 && c.id == 1
    ensures ReceiveAll([a]).last == 0 && ReceiveAll([a, b]).last == 0 && ReceiveAll([a, b, c]).last == 2
    ensures !Jammed(ReceiveAll([a, b])) && Jammed(ReceiveAll([a, b, c]))
  {
    hide Commit, ReceiveFrom, Having, Insert, Drain;
    OneMoreArrival([], a);
    OneMoreArrival([a], b);
    OneMoreArrival([a, b], c);
    assert [] + [a] == [a] && [a] + [b] == [a, b] && [a, b] + [c] == [a, b, c];
    InsertTwos(a, b, c);
    DrainDone(NEW_ENGINE.(pending := [a]));
    DrainDone(NEW_ENGINE.(pending := [a, b]));
    DrainHaving(NEW_ENGINE, [c, a], [b]);
    assert [c, a] + [b] == [c, a, b];
    DrainDone(Having(NEW_ENGINE, [c, a], [b]));
  }

  function Ids(s: seq<Order>): set<int> {
    set o | o in s :: o.id
  }

  lemma {:induction false} IdsOfFirst(s: seq<Order>)
    requires s != []
    ensures Ids(s) == {s[0].id} + Ids(s[1..])
  {
    assert s == [s[0]] + s[1..];
  }

  lemma {:induction false} DistinctFirst(s: seq<Order>)
    requires s != []
    ensures DistinctIds(s) <==> s[0].id !in Ids(s[1..]) && DistinctIds(s[1..])
  {
    var rest := s[1..];
    if s[0].id in Ids(rest) {
      var o :| o in rest && o.id == s[0].id;
      var k :| 0 <= k < |rest| && rest[k] == o;
      assert s[0].id == s[k + 1].id;
    } else if DistinctIds(rest) {
      forall i, j | 0 <= i < j < |s|
        ensures s[i].id != s[j].id
      {
        assert rest[j - 1] in rest;
        assert i > 0 ==> rest[i - 1].id != rest[j - 1].id;
      }
    } else {
      var i, j :| 0 <= i < j < |rest| && rest[i].id == rest[j].id;
      assert s[i + 1].id == s[j + 1].id;
    }
  }

  /** There are at most as many ids as orders, and as many exactly when no id repeats. */
  lemma {:induction false} CountIds(s: seq<Order>)
    ensures |Ids(s)| <= |s| && (|Ids(s)| == |s| <==> DistinctIds(s))
  {
    if s == [] {
      assert Ids(s) == {};
    } else {
      CountIds(s[1..]);
      IdsOfFirst(s);
      DistinctFirst(s);
      hide Ids, DistinctIds;
      if s[0].id in Ids(s[1..]) {
        assert Ids(s) == Ids(s[1..]);
      }
    }
  }

  function FirstNumbers(n: nat): (r: set<int>)
    ensures |r| == n && forall i :: i in r <==> 1 <= i <= n
  {
    if n == 0 then {} else FirstNumbers(n - 1) + {n}
  }

  lemma {:induction false} SameSet<T>(a: set<T>, b: set<T>)
    requires a <= b && |b| <= |a|
    ensures a == b
  {
    assert b == a + (b - a);
  }

  lemma {:induction false} SettledCounts(e: Engine, s: seq<Order>)
    requires Settled(e, s) && |e.pending| + e.last == |s|
    ensures NewIds(s)
  {
    var n, p := e.last, e.pending;
    CountIds(s);
    CountIds(p);
    var both := FirstNumbers(n) + Ids(p);
    assert FirstNumbers(n) !! Ids(p);
    assert |both| == |s|;
    forall id | id in both
      ensures id in Ids(s)
    {
      if id <= n {
        assert HasId(s, id);
      }
    }
    SameSet(both, Ids(s));
    forall i | 0 <= i < |s|
      ensures s[i].id >= 1
    {
      assert s[i] in s && s[i].id in both;
    }
  }

  /**
   * In-order commit, exactly: after any arrivals, the engine has committed the longest run 1, 2, ..., n
   * in order and keeps just the others if and only if all ids are different and at least 1.
   */
  lemma {:induction false} SettledIffNew(s: seq<Order>)
    ensures Settled(ReceiveAll(s), s) <==> NewIds(s)
  {
    var e := ReceiveAll(s);
    if NewIds(s) {
      CommitsLongestRun(s);
    }
    if Settled(e, s) {
      hide ReceiveAll, CommitAll, FirstIds, HasId;
      ReceiveAllTracks(s);
      TrackedAscends(e, s);
      SettledCounts(e, s);
    }
  }

  lemma {:induction false} SettledIsFree(e: Engine, s: seq<Order>)
    requires Settled(e, s)
    ensures !Jammed(e)
  {
    assert e.pending != [] ==> e.pending[0] in e.pending;
  }

  lemma {:induction false} RepeatedWaits(e: Engine, s: seq<Order>, o: Order)
    requires Settled(e, s) && DistinctIds(s) && !DistinctIds(s + [o]) && o.id > e.last
    ensures !Jammed(Receive(e, o))
  {
    hide Commit, CommitAll, FirstIds;
    var w :| w in s && w.id == o.id;
    assert w in e.pending && e.pending[0] in e.pending;
    assert e.pending[0].id != e.last + 1;
    assert e.pending[0].id <= w.id;
    DrainDone(e.(pending := Insert(e.pending, o, IdGreater)));
  }

  /** Right after new ids, an arrival puts a stale id at the head if and only if it is stale itself. */
  lemma {:induction false} StaleIffJammed(arrivals: seq<Order>, o: Order)
    requires NewIds(arrivals)
    ensures Jammed(Receive(ReceiveAll(arrivals), o)) <==> o.id <= ReceiveAll(arrivals).last
  {
    hide CommitAll, FirstIds, ReceiveAll, Receive, Contiguous;
    var e := ReceiveAll(arrivals);
    CommitsLongestRun(arrivals);
    if o.id <= e.last {
      JammedStays(e, o);
    } else if DistinctIds(arrivals + [o]) {
      ReceiveAllTracks(arrivals);
      TrackedAscends(e, arrivals);
      ReceiveSettles(e, arrivals, o);
      SettledIsFree(Receive(e, o), arrivals + [o]);
    } else {
      RepeatedWaits(e, arrivals, o);
    }
  }
}
