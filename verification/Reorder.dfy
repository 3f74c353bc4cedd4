/** In-order commit: whatever order ids arrive in, an engine commits 1, 2, 3, ... */
module Reorder {
  import opened Types
  import opened BinaryHeap
  import opened Matching

  /** The heap order of waiting orders: a larger id has lower priority. */
  predicate IdGreater(a: Order, b: Order) {
    a.id > b.id
  }

  datatype Engine = Engine(pending: seq<Order>, last: int, book: Book, trades: seq<Trade>)

  const NEW_ENGINE := Engine([], 0, EMPTY_BOOK, [])

  function CommitNext(e: Engine): Engine
    requires e.pending != []
  {
    var r := Commit(e.book, e.pending[0]);
    Engine(e.pending[1..], e.last + 1, r.book, e.trades + r.trades)
  }

  function Drain(e: Engine): Engine
    decreases |e.pending|
  {
    if e.pending != [] && e.pending[0].id == e.last + 1 then Drain(CommitNext(e)) else e
  }

  function Receive(e: Engine, o: Order): Engine {
    Drain(e.(pending := Insert(e.pending, o, IdGreater)))
  }

  function ReceiveFrom(e: Engine, arrivals: seq<Order>): Engine {
    if arrivals == [] then e
    else Receive(ReceiveFrom(e, arrivals[..|arrivals| - 1]), arrivals[|arrivals| - 1])
  }

  function ReceiveAll(arrivals: seq<Order>): Engine {
    ReceiveFrom(NEW_ENGINE, arrivals)
  }

  // ---------- arrival order does not matter ----------

  ghost predicate DistinctIds(s: seq<Order>) {
    forall i, j :: 0 <= i < j < |s| ==> s[i].id != s[j].id
  }

  ghost predicate HasId(s: seq<Order>, id: int) {
    exists o :: o in s && o.id == id
  }

  ghost function WithId(s: seq<Order>, id: int): (o: Order)
    requires HasId(s, id)
    ensures o in s && o.id == id
  {
    if s[0].id == id then s[0]
    else
      assert forall o :: o in s ==> o == s[0] || o in s[1..];
      WithId(s[1..], id)
  }

  /** Ids 1 to `n` have all arrived. */
  ghost predicate Contiguous(s: seq<Order>, n: int) {
    0 <= n && forall id :: 1 <= id <= n ==> HasId(s, id)
  }

  ghost function FirstIds(s: seq<Order>, n: nat): (r: seq<Order>)
    requires Contiguous(s, n)
    ensures |r| == n && forall i :: 0 <= i < n ==> r[i] == WithId(s, i + 1)
  {
    if n == 0 then [] else FirstIds(s, n - 1) + [WithId(s, n)]
  }

  /** `e` has committed ids 1 to `e.last` in order and keeps exactly the later ones. */
  ghost predicate InStep(e: Engine, s: seq<Order>) {
    && Contiguous(s, e.last)
    && Outcome(e.book, e.trades) == CommitAll(FirstIds(s, e.last))
    && Ranked(e.pending, IdGreater)
    && forall o :: o in e.pending <==> o in s && o.id > e.last
  }

  /** Nothing more can be committed: the next id has not arrived. */
  ghost predicate Settled(e: Engine, s: seq<Order>) {
    InStep(e, s) && !HasId(s, e.last + 1)
  }

  lemma {:induction false} SameId(s: seq<Order>, a: Order, b: Order)
    requires DistinctIds(s) && a in s && b in s && a.id == b.id
    ensures a == b
  {
    var i :| 0 <= i < |s| && s[i] == a;
    var j :| 0 <= j < |s| && s[j] == b;
    assert i < j || j < i || i == j;
  }

  lemma {:induction false} TailMembers(p: seq<Order>, o: Order)
    requires p != [] && Ranked(p, IdGreater)
    ensures o in p[1..] <==> o in p && o != p[0]
  {
    assert p == [p[0]] + p[1..];
    if o in p[1..] {
      var i :| 0 <= i < |p[1..]| && p[1..][i] == o;
      assert IdGreater(p[i + 1], p[0]);
    }
  }

  lemma {:induction false} CommitNextInStep(e: Engine, s: seq<Order>)
    requires DistinctIds(s) && InStep(e, s) && e.pending != [] && e.pending[0].id == e.last + 1
    ensures InStep(CommitNext(e), s)
  {
    var o := e.pending[0];
    assert o in e.pending;
    assert HasId(s, e.last + 1);
    SameId(s, o, WithId(s, e.last + 1));
    var first := FirstIds(s, e.last + 1);
    assert first[..e.last] == FirstIds(s, e.last);
    forall q
      ensures q in e.pending[1..] <==> q in s && q.id > e.last + 1
    {
      TailMembers(e.pending, q);
      if q in s && q.id == o.id {
        SameId(s, q, o);
      }
    }
  }

  lemma {:induction false} NextIsMissing(e: Engine, s: seq<Order>)
    requires InStep(e, s) && (e.pending == [] || e.pending[0].id != e.last + 1)
    ensures !HasId(s, e.last + 1)
  {
    forall o | o in s
      ensures o.id != e.last + 1
    {
      if o.id > e.last {
        var i :| 0 <= i < |e.pending| && e.pending[i] == o;
        assert e.pending[0] in e.pending;
        assert i > 0 ==> IdGreater(e.pending[i], e.pending[0]);
      }
    }
  }

  lemma {:induction false} DrainInStep(e: Engine, s: seq<Order>)
    requires DistinctIds(s) && InStep(e, s)
    ensures Settled(Drain(e), s)
    decreases |e.pending|
  {
    if e.pending != [] && e.pending[0].id == e.last + 1 {
      CommitNextInStep(e, s);
      DrainInStep(CommitNext(e), s);
    } else {
      NextIsMissing(e, s);
    }
  }

  lemma {:induction false} WithIdLater(s: seq<Order>, o: Order, id: int)
    requires HasId(s, id)
    ensures HasId(s + [o], id) && WithId(s + [o], id) == WithId(s, id)
  {
    assert WithId(s, id) in s + [o];
    if s[0].id != id {
      assert HasId(s[1..], id) by {
        assert WithId(s, id) in s && WithId(s, id) != s[0];
      }
      WithIdLater(s[1..], o, id);
      assert (s + [o])[1..] == s[1..] + [o];
    }
  }

  lemma {:induction false} FirstIdsLater(s: seq<Order>, o: Order, n: nat)
    requires Contiguous(s, n)
    ensures Contiguous(s + [o], n) && FirstIds(s + [o], n) == FirstIds(s, n)
  {
    forall id | 1 <= id <= n
      ensures HasId(s + [o], id) && WithId(s + [o], id) == WithId(s, id)
    {
      WithIdLater(s, o, id);
    }
  }

  lemma {:induction false} ArrivalInStep(e: Engine, s: seq<Order>, o: Order)
    requires InStep(e, s) && DistinctIds(s + [o]) && o.id > e.last
    ensures InStep(e.(pending := Insert(e.pending, o, IdGreater)), s + [o])
  {
    FirstIdsLater(s, o, e.last);
    InsertMembers(e.pending, o, IdGreater);
    forall i | 0 <= i < |e.pending|
      ensures e.pending[i].id != o.id
    {
      assert e.pending[i] in s;
      var j :| 0 <= j < |s| && s[j] == e.pending[i];
      assert (s + [o])[j].id != (s + [o])[|s|].id;
    }
    InsertRanked(e.pending, o, IdGreater);
  }

  lemma {:induction false} NewIdIsLater(s: seq<Order>, o: Order, n: int)
    requires DistinctIds(s + [o]) && Contiguous(s, n) && o.id >= 1
    ensures o.id > n
  {
    forall q | q in s
      ensures q.id != o.id
    {
      var i :| 0 <= i < |s| && s[i] == q;
      assert (s + [o])[i].id != (s + [o])[|s|].id;
    }
    assert !HasId(s, o.id);
  }

  ghost predicate NewIds(s: seq<Order>) {
    DistinctIds(s) && forall i :: 0 <= i < |s| ==> s[i].id >= 1
  }

  lemma {:induction false} ReceiveSettles(e: Engine, s: seq<Order>, o: Order)
    requires InStep(e, s) && DistinctIds(s + [o]) && o.id >= 1
    ensures Settled(Receive(e, o), s + [o])
  {
    NewIdIsLater(s, o, e.last);
    ArrivalInStep(e, s, o);
    DrainInStep(e.(pending := Insert(e.pending, o, IdGreater)), s + [o]);
  }

  lemma {:induction false} FewerNewIds(s: seq<Order>, o: Order)
    requires NewIds(s + [o])
    ensures NewIds(s) && o.id >= 1
  {
    var t := s + [o];
    assert t[|s|] == o;
    forall i, j | 0 <= i < j < |s|
      ensures s[i].id != s[j].id
    {
      assert t[i].id != t[j].id;
    }
    forall i | 0 <= i < |s|
      ensures s[i].id >= 1
    {
      assert t[i].id >= 1;
    }
  }

  /**
   * After any arrivals with distinct positive ids, the engine has committed exactly the longest run
   * 1, 2, ..., n that has arrived, in order, and keeps exactly the other orders.
   */
  lemma {:induction false} CommitsLongestRun(s: seq<Order>)
    requires NewIds(s)
    ensures Settled(ReceiveAll(s), s)
  {
    if s == [] {
      assert FirstIds(s, 0) == [];
    } else {
      var before, o := s[..|s| - 1], s[|s| - 1];
      assert s == before + [o];
      FewerNewIds(before, o);
      CommitsLongestRun(before);
      ReceiveSettles(ReceiveAll(before), before, o);
    }
  }

  lemma {:induction false} SameRun(s: seq<Order>, t: seq<Order>, n: nat)
    requires DistinctIds(s) && (forall o :: o in s <==> o in t) && Contiguous(s, n) && Contiguous(t, n)
    ensures FirstIds(s, n) == FirstIds(t, n)
  {
    forall id | 1 <= id <= n
      ensures WithId(s, id) == WithId(t, id)
    {
      SameId(s, WithId(s, id), WithId(t, id));
    }
  }

  lemma {:induction false} SameMembers(p: seq<Order>, q: seq<Order>)
    requires Ranked(p, IdGreater) && Ranked(q, IdGreater) && forall o :: o in p <==> o in q
    ensures p == q
  {
    assert q == [] || q[0] in q;
    if p != [] {
      assert p[0] in q;
      assert q[0] in p;
      assert p[0] == q[0];
      forall o
        ensures o in p[1..] <==> o in q[1..]
      {
        TailMembers(p, o);
        TailMembers(q, o);
      }
      SameMembers(p[1..], q[1..]);
    }
  }

  /** The whole engine is the same after any two arrival orders of the same orders. */
  lemma {:induction false} ArrivalOrderIrrelevant(s: seq<Order>, t: seq<Order>)
    requires NewIds(s) && NewIds(t) && forall o :: o in s <==> o in t
    ensures ReceiveAll(s) == ReceiveAll(t)
  {
    CommitsLongestRun(s);
    CommitsLongestRun(t);
    var e, f := ReceiveAll(s), ReceiveAll(t);
    assert forall id :: HasId(s, id) <==> HasId(t, id);
    assert e.last == f.last by {
      assert e.last < f.last ==> HasId(t, e.last + 1);
      assert f.last < e.last ==> HasId(s, f.last + 1);
    }
    SameRun(s, t, e.last);
    SameMembers(e.pending, f.pending);
  }

  // ---------- why ids must be new ----------

  /** The first waiting order has an id that was committed before. */
  predicate Jammed(e: Engine) {
    e.pending != [] && e.pending[0].id <= e.last
  }

  /** A stale arrival jams any engine, and a jammed engine stays as it is apart from what waits. */
  lemma {:induction false} JammedStays(e: Engine, o: Order)
    requires Jammed(e) || o.id <= e.last
    ensures
      var f := Receive(e, o);
      Jammed(f) && f.last == e.last && f.book == e.book && f.trades == e.trades
  {
  }

  /** Once an id at or below the last committed one has arrived, no later arrivals ever commit anything. */
  lemma {:induction false} StaleIdBlocks(e: Engine, o: Order, later: seq<Order>)
    requires o.id <= e.last
    ensures
      var f := ReceiveFrom(Receive(e, o), later);
      Jammed(f) && f.last == e.last && f.book == e.book && f.trades == e.trades
  {
    JammedStays(e, o);
    if later != [] {
      var before := later[..|later| - 1];
      StaleIdBlocks(e, o, before);
      JammedStays(ReceiveFrom(Receive(e, o), before), later[|later| - 1]);
    }
  }
}
