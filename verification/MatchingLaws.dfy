/** What every run of commits keeps: an uncrossed price-time book, volume, and maker prices. */
module MatchingLaws {
  import opened Types
  import opened BinaryHeap
  import opened Matching

  // ---------- the book invariant ----------

  ghost predicate GoodSide(side: Side, s: seq<Record>, bound: int) {
    && Ranked(s, Less(side))
    && forall i :: 0 <= i < |s| ==> s[i].volume > 0 && s[i].id < bound
  }

  /** Every bid is strictly below every ask. */
  ghost predicate Uncrossed(b: Book) {
    forall i, j :: 0 <= i < |b.bids| && 0 <= j < |b.asks| ==> b.bids[i].price < b.asks[j].price
  }

  ghost predicate GoodBook(b: Book, bound: int) {
    GoodSide(Buy, b.bids, bound) && GoodSide(Sell, b.asks, bound) && Uncrossed(b)
  }

  /** Price `p` rests on `side` strictly outside price `q` of the opposite side. */
  predicate Outside(side: Side, p: real, q: real) {
    if side.Buy? then p < q else p > q
  }

  /** `rest` is `recs` without its first `k` records, with volumes at most as large. */
  ghost predicate Dropped(recs: seq<Record>, k: int, rest: seq<Record>) {
    && 0 <= k <= |recs| && |rest| == |recs| - k
    && forall i :: 0 <= i < |rest| ==>
         && rest[i].id == recs[k + i].id && rest[i].price == recs[k + i].price
         && 0 < rest[i].volume <= recs[k + i].volume
  }

  lemma {:induction false} DroppedOneMore(recs: seq<Record>, k: nat, rest: seq<Record>)
    requires recs != [] && Dropped(recs[1..], k, rest)
    ensures Dropped(recs, k + 1, rest)
  {
    forall i | 0 <= i < |rest|
      ensures rest[i].id == recs[k + 1 + i].id && rest[i].price == recs[k + 1 + i].price
      ensures 0 < rest[i].volume <= recs[k + 1 + i].volume
    {
      assert recs[1..][k + i] == recs[k + 1 + i];
    }
  }

  /** What a sweep leaves of the order: nothing, unless it used up the first `n` records. */
  lemma {:induction false} SweepLeft(side: Side, o: Order, recs: seq<Record>, n: nat, v: int)
    requires n <= |recs| && v >= 0
    ensures 0 <= SweepFirst(side, o, recs, n, v).left
    ensures SweepFirst(side, o, recs, n, v).left > 0 ==> SweepFirst(side, o, recs, n, v).rest == recs[n..]
  {
    if n > 0 && v > 0 && v >= recs[0].volume {
      SweepLeft(side, o, recs[1..], n - 1, v - recs[0].volume);
      assert recs[1..][n - 1..] == recs[n..];
    }
  }

  /** A sweep drops some leading records, may shrink the next one, and touches nothing else. */
  lemma {:induction false} SweepShape(side: Side, o: Order, recs: seq<Record>, n: nat, v: int) returns (k: nat)
    requires n <= |recs|
    requires forall i :: 0 <= i < |recs| ==> recs[i].volume > 0
    ensures k <= n && Dropped(recs, k, SweepFirst(side, o, recs, n, v).rest)
  {
    if n == 0 || v <= 0 || v < recs[0].volume {
      k := 0;
    } else {
      k := SweepShape(side, o, recs[1..], n - 1, v - recs[0].volume);
      DroppedOneMore(recs, k, SweepFirst(side, o, recs[1..], n - 1, v - recs[0].volume).rest);
      k := k + 1;
    }
  }

  lemma {:induction false} SweepKeepsGood(side: Side, o: Order, recs: seq<Record>, n: nat, v: int, bound: int)
    requires n <= |recs| && v >= 0 && GoodSide(Flip(side), recs, bound)
    ensures GoodSide(Flip(side), SweepFirst(side, o, recs, n, v).rest, bound)
    ensures forall r :: r in SweepFirst(side, o, recs, n, v).rest ==> exists q :: q in recs && q.price == r.price
  {
    var k := SweepShape(side, o, recs, n, v);
    var rest := SweepFirst(side, o, recs, n, v).rest;
    forall i, j | 0 <= i < j < |rest|
      ensures Less(Flip(side))(rest[j], rest[i])
    {
      assert Less(Flip(side))(recs[k + j], recs[k + i]);
    }
    forall r | r in rest
      ensures exists q :: q in recs && q.price == r.price
    {
      var i :| 0 <= i < |rest| && rest[i] == r;
      assert recs[k + i] in recs;
    }
  }

  lemma {:induction false} RestKeepsGood(side: Side, own: seq<Record>, id: int, price: real, volume: int)
    requires GoodSide(side, own, id)
    ensures GoodSide(side, Rest(side, own, id, price, volume), id + 1)
    ensures forall r :: r in Rest(side, own, id, price, volume) ==> r in own || (volume > 0 && r.price == price)
  {
    if volume > 0 {
      var x := Record(id, price, volume);
      LessIsOrder(side);
      InsertRanked(own, x, Less(side));
      InsertMembers(own, x, Less(side));
      var r := Rest(side, own, id, price, volume);
      forall i | 0 <= i < |r|
        ensures r[i].volume > 0 && r[i].id < id + 1
      {
        assert r[i] in r;
      }
    }
  }

  ghost predicate Apart(side: Side, own: seq<Record>, opp: seq<Record>) {
    forall r, q :: r in own && q in opp ==> Outside(side, r.price, q.price)
  }

  lemma {:induction false} GoodFromSides(side: Side, own: seq<Record>, opp: seq<Record>, bound: int)
    requires GoodSide(side, own, bound) && GoodSide(Flip(side), opp, bound) && Apart(side, own, opp)
    ensures GoodBook(WithSides(side, own, opp), bound)
  {
  }

  lemma {:induction false} SidesFromGood(side: Side, b: Book, bound: int)
    requires GoodBook(b, bound)
    ensures GoodSide(side, Own(b, side), bound) && GoodSide(Flip(side), Opp(b, side), bound)
    ensures Apart(side, Own(b, side), Opp(b, side))
  {
  }

  /** Sweeping to a depth that leaves only prices outside `price` lets the remainder rest at `price`. */
  lemma {:induction false} TakeThenRestKeepsGood(side: Side, b: Book, o: Order, n: nat, price: real)
    requires GoodBook(b, o.id) && n <= |Opp(b, side)| && o.volume >= 0
    requires forall j :: n <= j < |Opp(b, side)| ==> Outside(side, price, Opp(b, side)[j].price)
    ensures GoodBook(TakeThenRest(side, b, o, n, price).book, o.id + 1)
    ensures GoodBook(Take(side, b, o, n).book, o.id + 1)
  {
    var own, opp := Own(b, side), Opp(b, side);
    var s := SweepFirst(side, o, opp, n, o.volume);
    SidesFromGood(side, b, o.id);
    SweepLeft(side, o, opp, n, o.volume);
    SweepKeepsGood(side, o, opp, n, o.volume, o.id);
    RestKeepsGood(side, own, o.id, price, s.left);
    GoodFromSides(side, own, s.rest, o.id + 1);
    GoodFromSides(side, Rest(side, own, o.id, price, s.left), s.rest, o.id + 1);
  }

  lemma {:induction false} LimitDepthSplits(side: Side, recs: seq<Record>, limit: real)
    requires Ranked(recs, Less(Flip(side)))
    ensures
      var n := LimitDepth(side, recs, limit);
      && (forall j :: 0 <= j < n ==> Accepts(side, limit, recs[j].price))
      && (forall j :: n <= j < |recs| ==> Outside(side, limit, recs[j].price))
  {
    if recs != [] && Accepts(side, limit, recs[0].price) {
      LimitDepthSplits(side, recs[1..], limit);
    } else if recs != [] {
      forall j | 0 < j < |recs|
        ensures Outside(side, limit, recs[j].price)
      {
        assert Less(Flip(side))(recs[j], recs[0]);
      }
    }
  }

  /** The records at the best price are exactly those a limit order at that price accepts. */
  lemma {:induction false} BestPriceDepth(side: Side, recs: seq<Record>, price: real)
    requires Ranked(recs, Less(Flip(side)))
    requires forall j :: 0 <= j < |recs| ==> recs[j].price == price || Outside(side, price, recs[j].price)
    ensures PriceDepth(recs, price) == LimitDepth(side, recs, price)
  {
    if recs != [] && recs[0].price == price {
      BestPriceDepth(side, recs[1..], price);
    }
  }

  lemma {:induction false} RankedPrices(side: Side, recs: seq<Record>)
    requires Ranked(recs, Less(side)) && recs != []
    ensures
      forall j :: 0 <= j < |recs| ==>
        recs[j].price == recs[0].price || Outside(side, recs[j].price, recs[0].price)
  {
    forall j | 0 <= j < |recs|
      ensures recs[j].price == recs[0].price || Outside(side, recs[j].price, recs[0].price)
    {
      assert j > 0 ==> Less(side)(recs[j], recs[0]);
    }
  }

  lemma {:induction false} TakeKeepsGood(side: Side, b: Book, o: Order, n: nat)
    requires GoodBook(b, o.id) && n <= |Opp(b, side)| && o.volume >= 0
    ensures GoodBook(Take(side, b, o, n).book, o.id + 1)
  {
    SidesFromGood(side, b, o.id);
    SweepKeepsGood(side, o, Opp(b, side), n, o.volume, o.id);
    GoodFromSides(side, Own(b, side), SweepFirst(side, o, Opp(b, side), n, o.volume).rest, o.id + 1);
  }

  lemma {:induction false} CommitOnKeepsGood(side: Side, b: Book, o: Order)
    requires GoodBook(b, o.id) && (0 <= o.kind <= 5 ==> o.volume >= 0)
    ensures GoodBook(CommitOn(side, b, o).book, o.id + 1)
  {
    hide Ranked, SweepFirst, Insert;
    var own, opp := Own(b, side), Opp(b, side);
    SidesFromGood(side, b, o.id);
    GoodFromSides(side, own, opp, o.id + 1);
    assert b == WithSides(side, own, opp);
    if o.kind == 0 {
      LimitDepthSplits(side, opp, o.price);
      TakeThenRestKeepsGood(side, b, o, LimitDepth(side, opp, o.price), o.price);
    } else if o.kind == 1 && opp != [] {
      RankedPrices(Flip(side), opp);
      BestPriceDepth(side, opp, opp[0].price);
      LimitDepthSplits(side, opp, opp[0].price);
      TakeThenRestKeepsGood(side, b, o, PriceDepth(opp, opp[0].price), opp[0].price);
    } else if o.kind == 2 && own != [] {
      RestKeepsGood(side, own, o.id, own[0].price, o.volume);
      assert own[0] in own;
      GoodFromSides(side, Rest(side, own, o.id, own[0].price, o.volume), opp, o.id + 1);
    } else if o.kind == 3 {
      TakeKeepsGood(side, b, o, LevelDepth(opp, 0.0, MAX_LEVELS));
    } else if o.kind == 4 || o.kind == 5 {
      TakeKeepsGood(side, b, o, |opp|);
    }
  }

  lemma {:induction false} CommitKeepsGood(b: Book, o: Order)
    requires GoodBook(b, o.id) && ValidOrder(o)
    ensures GoodBook(Commit(b, o).book, o.id + 1)
  {
    if o.direction == 1 {
      CommitOnKeepsGood(Buy, b, o);
    } else if o.direction == -1 {
      CommitOnKeepsGood(Sell, b, o);
    }
  }

  // ---------- runs ----------

  /** The orders an engine commits: ids 1, 2, 3, ... */
  ghost predicate InOrder(orders: seq<Order>) {
    forall i :: 0 <= i < |orders| ==> orders[i].id == i + 1 && ValidOrder(orders[i])
  }

  lemma {:induction false} RunKeepsGood(orders: seq<Order>)
    requires InOrder(orders)
    ensures GoodBook(CommitAll(orders).book, |orders| + 1)
  {
    if orders != [] {
      var prefix := orders[..|orders| - 1];
      RunKeepsGood(prefix);
      CommitKeepsGood(CommitAll(prefix).book, orders[|orders| - 1]);
    }
  }

  /** After any run, if both sides have records then the best bid is strictly below the best ask. */
  lemma {:induction false} NeverCrossed(orders: seq<Order>)
    requires InOrder(orders)
    ensures
      var b := CommitAll(orders).book;
      b.bids != [] && b.asks != [] ==> b.bids[0].price < b.asks[0].price
  {
    RunKeepsGood(orders);
  }

  // ---------- volume is conserved over the lifetime of every order ----------

  function TradedVolume(trades: seq<Trade>, id: int): int {
    if trades == [] then 0
    else
      (if trades[0].bid == id then trades[0].volume else 0) +
      (if trades[0].ask == id then trades[0].volume else 0) +
      TradedVolume(trades[1..], id)
  }

  function RestingVolume(s: seq<Record>, id: int): int {
    if s == [] then 0 else (if s[0].id == id then s[0].volume else 0) + RestingVolume(s[1..], id)
  }

  function Unmet(recs: seq<Record>, v: int): int {
    if v > TotalVolume(recs) then v - TotalVolume(recs) else 0
  }

  /** The part of an order that its type withdraws: the rules of the six types, not what the sweep did. */
  function CancelledVolume(b: Book, o: Order): int {
    if o.direction != 1 && o.direction != -1 then o.volume
    else
      var side := if o.direction == 1 then Buy else Sell;
      var own, opp := Own(b, side), Opp(b, side);
      if o.kind == 0 then 0
      else if o.kind == 1 then (if opp == [] then o.volume else 0)
      else if o.kind == 2 then (if own == [] then o.volume else 0)
      else if o.kind == 3 then Unmet(opp[..LevelDepth(opp, 0.0, MAX_LEVELS)], o.volume)
      else if o.kind == 4 then Unmet(opp, o.volume)
      else if o.kind == 5 then (if o.volume > Wrap32(TotalVolume(opp)) then o.volume else 0)
      else o.volume
  }

  lemma {:induction false} TradedVolumeConcat(a: seq<Trade>, b: seq<Trade>, id: int)
    ensures TradedVolume(a + b, id) == TradedVolume(a, id) + TradedVolume(b, id)
  {
    if a == [] {
      assert a + b == b;
    } else {
      assert (a + b)[1..] == a[1..] + b;
      TradedVolumeConcat(a[1..], b, id);
    }
  }

  lemma {:induction false} InsertResting(s: seq<Record>, x: Record, lt: (Record, Record) -> bool, id: int)
    ensures RestingVolume(Insert(s, x, lt), id) == RestingVolume(s, id) + if x.id == id then x.volume else 0
  {
    if s == [] || lt(s[0], x) {
      assert ([x] + s)[1..] == s;
    } else {
      InsertResting(s[1..], x, lt, id);
      assert Insert(s, x, lt)[1..] == Insert(s[1..], x, lt);
    }
  }

  lemma {:induction false} NothingResting(s: seq<Record>, id: int)
    requires forall i :: 0 <= i < |s| ==> s[i].id != id
    ensures RestingVolume(s, id) == 0
  {
    if s != [] {
      NothingResting(s[1..], id);
    }
  }

  /** Whatever a record loses in a sweep is traded, and so is whatever the order loses. */
  lemma {:induction false} SweepConserves(side: Side, o: Order, recs: seq<Record>, n: nat, v: int, id: int)
    requires n <= |recs| && forall i :: 0 <= i < |recs| ==> recs[i].id != o.id
    ensures
      var s := SweepFirst(side, o, recs, n, v);
      TradedVolume(s.trades, id) + RestingVolume(s.rest, id) ==
      RestingVolume(recs, id) + if id == o.id then v - s.left else 0
  {
    if n == 0 || v <= 0 {
    } else if v < recs[0].volume {
      var s := SweepFirst(side, o, recs, n, v);
      assert s.rest[1..] == recs[1..] && s.trades[1..] == [];
    } else {
      SweepConserves(side, o, recs[1..], n - 1, v - recs[0].volume, id);
      var s := SweepFirst(side, o, recs, n, v);
      assert s.trades[1..] == SweepFirst(side, o, recs[1..], n - 1, v - recs[0].volume).trades;
    }
  }

  lemma {:induction false} TotalIsNatural(recs: seq<Record>)
    requires forall i :: 0 <= i < |recs| ==> recs[i].volume > 0
    ensures TotalVolume(recs) >= 0
  {
    if recs != [] {
      TotalIsNatural(recs[1..]);
    }
  }

  /** A sweep stops short only when the first `n` records hold less than the order wants. */
  lemma {:induction false} SweepLeavesUnmet(side: Side, o: Order, recs: seq<Record>, n: nat, v: int)
    requires n <= |recs| && v >= 0 && forall i :: 0 <= i < |recs| ==> recs[i].volume > 0
    ensures SweepFirst(side, o, recs, n, v).left == Unmet(recs[..n], v)
  {
    TotalIsNatural(recs[..n]);
    if n > 0 && v > 0 {
      assert recs[..n][1..] == recs[1..][..n - 1];
      TotalIsNatural(recs[1..][..n - 1]);
      if v >= recs[0].volume {
        SweepLeavesUnmet(side, o, recs[1..], n - 1, v - recs[0].volume);
      }
    }
  }

  /** A 32-bit total is never above the real one, so an order it lets through can always be filled. */
  lemma {:induction false} WrapNeverAbove(n: int)
    requires n >= 0
    ensures Wrap32(n) <= n
    ensures Wrap32(n) == n <==> n < 0x8000_0000
  {
  }

  function RestingIn(b: Book, id: int): int {
    RestingVolume(b.bids, id) + RestingVolume(b.asks, id)
  }

  lemma {:induction false} TakeConserves(side: Side, b: Book, o: Order, n: nat, id: int)
    requires GoodSide(Flip(side), Opp(b, side), o.id) && n <= |Opp(b, side)| && o.volume >= 0
    ensures
      var r := Take(side, b, o, n);
      TradedVolume(r.trades, id) + RestingIn(r.book, id) ==
      RestingIn(b, id) + if id == o.id then o.volume - Unmet(Opp(b, side)[..n], o.volume) else 0
  {
    SweepConserves(side, o, Opp(b, side), n, o.volume, id);
    SweepLeavesUnmet(side, o, Opp(b, side), n, o.volume);
  }

  lemma {:induction false} TakeThenRestConserves(side: Side, b: Book, o: Order, n: nat, price: real, id: int)
    requires GoodSide(Flip(side), Opp(b, side), o.id) && n <= |Opp(b, side)| && o.volume >= 0
    ensures
      var r := TakeThenRest(side, b, o, n, price);
      TradedVolume(r.trades, id) + RestingIn(r.book, id) == RestingIn(b, id) + if id == o.id then o.volume else 0
  {
    SweepConserves(side, o, Opp(b, side), n, o.volume, id);
    SweepLeft(side, o, Opp(b, side), n, o.volume);
    var left := SweepFirst(side, o, Opp(b, side), n, o.volume).left;
    InsertResting(Own(b, side), Record(o.id, price, left), Less(side), id);
  }

  lemma {:induction false} CommitOnConserves(side: Side, b: Book, o: Order, id: int)
    requires GoodBook(b, o.id) && (0 <= o.kind <= 5 ==> o.volume >= 0)
    requires o.direction == if side.Buy? then 1 else -1
    ensures
      var r := CommitOn(side, b, o);
      TradedVolume(r.trades, id) + RestingIn(r.book, id) ==
      RestingIn(b, id) + if id == o.id then o.volume - CancelledVolume(b, o) else 0
  {
    hide GoodSide, SweepFirst, Insert, RestingVolume, LimitDepth, PriceDepth, LevelDepth;
    var own, opp := Own(b, side), Opp(b, side);
    SidesFromGood(side, b, o.id);
    if o.kind == 0 {
      TakeThenRestConserves(side, b, o, LimitDepth(side, opp, o.price), o.price, id);
    } else if o.kind == 1 && opp != [] {
      TakeThenRestConserves(side, b, o, PriceDepth(opp, opp[0].price), opp[0].price, id);
    } else if o.kind == 2 && own != [] {
      InsertResting(own, Record(o.id, own[0].price, o.volume), Less(side), id);
    } else if o.kind == 3 {
      TakeConserves(side, b, o, LevelDepth(opp, 0.0, MAX_LEVELS), id);
    } else if o.kind == 4 || o.kind == 5 {
      TakeConserves(side, b, o, |opp|, id);
      assert opp[..|opp|] == opp;
      TotalIsNatural(opp);
      WrapNeverAbove(TotalVolume(opp));
    }
  }

  /** One commit: what the book loses is traded, and the order is traded, resting or cancelled. */
  lemma {:induction false} CommitConserves(b: Book, o: Order, id: int)
    requires GoodBook(b, o.id) && ValidOrder(o)
    ensures
      var r := Commit(b, o);
      TradedVolume(r.trades, id) + RestingIn(r.book, id) ==
      RestingIn(b, id) + if id == o.id then o.volume - CancelledVolume(b, o) else 0
  {
    if o.direction == 1 {
      CommitOnConserves(Buy, b, o, id);
    } else if o.direction == -1 {
      CommitOnConserves(Sell, b, o, id);
    }
  }

  lemma {:induction false} UnknownIdsIdle(orders: seq<Order>, id: int)
    requires InOrder(orders) && id > |orders|
    ensures TradedVolume(CommitAll(orders).trades, id) == 0 && RestingIn(CommitAll(orders).book, id) == 0
  {
    if orders != [] {
      var prefix, o := orders[..|orders| - 1], orders[|orders| - 1];
      UnknownIdsIdle(prefix, id);
      RunKeepsGood(prefix);
      CommitConserves(CommitAll(prefix).book, o, id);
      TradedVolumeConcat(CommitAll(prefix).trades, Commit(CommitAll(prefix).book, o).trades, id);
      RunKeepsGood(orders);
      NothingResting(CommitAll(orders).book.bids, id);
      NothingResting(CommitAll(orders).book.asks, id);
    }
  }

  lemma {:induction false} CancelledIsNatural(b: Book, o: Order)
    requires GoodBook(b, o.id) && ValidOrder(o) && o.volume >= 0
    ensures 0 <= CancelledVolume(b, o) <= o.volume
  {
    TotalIsNatural(b.bids);
    TotalIsNatural(b.asks);
    TotalIsNatural(b.bids[..LevelDepth(b.bids, 0.0, MAX_LEVELS)]);
    TotalIsNatural(b.asks[..LevelDepth(b.asks, 0.0, MAX_LEVELS)]);
  }

  /** Over any run, every order is exactly what it traded, plus what rests, plus what was cancelled. */
  lemma {:induction false} LifetimeConservation(orders: seq<Order>, i: nat)
    requires InOrder(orders) && i < |orders|
    ensures
      var r := CommitAll(orders);
      orders[i].volume ==
      TradedVolume(r.trades, i + 1) + RestingIn(r.book, i + 1) +
      CancelledVolume(CommitAll(orders[..i]).book, orders[i])
  {
    var prefix, o := orders[..|orders| - 1], orders[|orders| - 1];
    var before := CommitAll(prefix);
    RunKeepsGood(prefix);
    CommitConserves(before.book, o, i + 1);
    TradedVolumeConcat(before.trades, Commit(before.book, o).trades, i + 1);
    if i < |orders| - 1 {
      LifetimeConservation(prefix, i);
      assert prefix[..i] == orders[..i];
    } else {
      UnknownIdsIdle(prefix, i + 1);
    }
  }

  // ---------- who trades with whom, and at which price ----------

  /** Every trade of a sweep is with one of the first `n` records, at the record's price. */
  lemma {:induction false} SweepMakes(side: Side, o: Order, recs: seq<Record>, n: nat, v: int, t: Trade)
    returns (i: nat)
    requires n <= |recs| && forall j :: 0 <= j < |recs| ==> recs[j].volume > 0
    requires t in SweepFirst(side, o, recs, n, v).trades
    ensures i < n && t == TradeOf(side, o, recs[i], t.volume) && 0 < t.volume <= recs[i].volume
  {
    assert n > 0 && v > 0;
    var head := TradeOf(side, o, recs[0], if v < recs[0].volume then v else recs[0].volume);
    if t == head {
      i := 0;
    } else {
      i := SweepMakes(side, o, recs[1..], n - 1, v - recs[0].volume, t);
      assert recs[1..][i] == recs[i + 1];
      i := i + 1;
    }
  }

  /** Each record on a side comes from an order of that direction, and a limit order rests at its own price. */
  ghost predicate Sourced(s: seq<Record>, orders: seq<Order>, direction: int) {
    forall i :: 0 <= i < |s| ==>
      && 1 <= s[i].id <= |orders|
      && orders[s[i].id - 1].direction == direction
      && (orders[s[i].id - 1].kind == 0 ==> s[i].price == orders[s[i].id - 1].price)
  }

  ghost predicate SourcedBook(b: Book, orders: seq<Order>) {
    Sourced(b.bids, orders, 1) && Sourced(b.asks, orders, -1)
  }

  /** When order `taker` was committed, order `maker` was resting on `side` at `price`. */
  ghost predicate RestedAt(orders: seq<Order>, side: Side, maker: int, taker: int, price: real)
    requires 1 <= taker <= |orders|
  {
    exists r :: r in Own(CommitAll(orders[..taker - 1]).book, side) && r.id == maker && r.price == price
  }

  /** The terms of one trade: parties, resting order, and the prices limit orders stated. */
  ghost predicate FairTrade(orders: seq<Order>, t: Trade) {
    && 1 <= t.bid <= |orders| && 1 <= t.ask <= |orders| && t.volume > 0
    && orders[t.bid - 1].direction == 1 && orders[t.ask - 1].direction == -1
    && (orders[t.bid - 1].kind == 0 ==> t.price <= orders[t.bid - 1].price)
    && (orders[t.ask - 1].kind == 0 ==> t.price >= orders[t.ask - 1].price)
    && RestedAt(orders, if t.bid < t.ask then Buy else Sell, if t.bid < t.ask then t.bid else t.ask,
                if t.bid < t.ask then t.ask else t.bid, t.price)
  }

  function DepthOf(side: Side, b: Book, o: Order): (n: nat)
    ensures n <= |Opp(b, side)|
  {
    var opp := Opp(b, side);
    if o.kind == 0 then LimitDepth(side, opp, o.price)
    else if o.kind == 1 then (if opp == [] then 0 else PriceDepth(opp, opp[0].price))
    else if o.kind == 3 then LevelDepth(opp, 0.0, MAX_LEVELS)
    else if o.kind == 4 || o.kind == 5 then |opp|
    else 0
  }

  lemma {:induction false} TradesAreSwept(side: Side, b: Book, o: Order, t: Trade)
    requires t in CommitOn(side, b, o).trades
    ensures t in SweepFirst(side, o, Opp(b, side), DepthOf(side, b, o), o.volume).trades
  {
  }

  /** The record an incoming order trades with is one its type lets it reach. */
  lemma {:induction false} MakerOf(side: Side, b: Book, o: Order, t: Trade) returns (r: Record)
    requires GoodBook(b, o.id) && t in CommitOn(side, b, o).trades
    ensures r in Opp(b, side) && r.id < o.id
    ensures t == TradeOf(side, o, r, t.volume) && 0 < t.volume <= r.volume
    ensures o.kind == 0 ==> Accepts(side, o.price, r.price)
  {
    var opp, n := Opp(b, side), DepthOf(side, b, o);
    SidesFromGood(side, b, o.id);
    TradesAreSwept(side, b, o, t);
    var i := SweepMakes(side, o, opp, n, o.volume, t);
    r := opp[i];
    if o.kind == 0 {
      LimitDepthSplits(side, opp, o.price);
    }
  }

  lemma {:induction false} SourceOf(side: Side, b: Book, orders: seq<Order>, r: Record)
    requires SourcedBook(b, orders) && r in Own(b, side)
    ensures 1 <= r.id <= |orders| && orders[r.id - 1].direction == if side.Buy? then 1 else -1
    ensures orders[r.id - 1].kind == 0 ==> r.price == orders[r.id - 1].price
  {
  }

  lemma {:induction false} FairWithMaker(side: Side, orders: seq<Order>, r: Record, t: Trade)
    requires orders != [] && 1 <= r.id < |orders| && t.volume > 0
    requires
      var o := orders[|orders| - 1];
      && o.id == |orders| && o.direction == (if side.Buy? then 1 else -1)
      && t == TradeOf(side, o, r, t.volume)
      && (o.kind == 0 ==> Accepts(side, o.price, r.price))
      && orders[r.id - 1].direction == -o.direction
      && (orders[r.id - 1].kind == 0 ==> r.price == orders[r.id - 1].price)
    requires r in Opp(CommitAll(orders[..|orders| - 1]).book, side)
    ensures t.bid != t.ask && FairTrade(orders, t)
  {
    hide CommitAll;
  }

  lemma {:induction false} RestSourced(side: Side, own: seq<Record>, orders: seq<Order>, o: Order, price: real,
                                       volume: int)
    requires Sourced(own, orders, if side.Buy? then 1 else -1)
    requires o.id == |orders| + 1 && o.direction == (if side.Buy? then 1 else -1)
    requires o.kind == 0 ==> price == o.price
    ensures Sourced(Rest(side, own, o.id, price, volume), orders + [o], if side.Buy? then 1 else -1)
  {
    var r := Rest(side, own, o.id, price, volume);
    InsertMembers(own, Record(o.id, price, volume), Less(side));
    forall i | 0 <= i < |r|
      ensures r[i] in own || r[i] == Record(o.id, price, volume)
    {
      assert r[i] in r;
    }
  }

  lemma {:induction false} SweepSourced(side: Side, o: Order, recs: seq<Record>, n: nat, v: int, orders: seq<Order>,
                                        direction: int)
    requires n <= |recs| && (forall i :: 0 <= i < |recs| ==> recs[i].volume > 0) && Sourced(recs, orders, direction)
    ensures Sourced(SweepFirst(side, o, recs, n, v).rest, orders + [o], direction)
  {
    var k := SweepShape(side, o, recs, n, v);
    var rest := SweepFirst(side, o, recs, n, v).rest;
    forall i | 0 <= i < |rest|
      ensures rest[i].id == recs[k + i].id && rest[i].price == recs[k + i].price
    {
    }
  }

  lemma {:induction false} CommitOnSourced(side: Side, b: Book, o: Order, orders: seq<Order>)
    requires GoodBook(b, o.id) && SourcedBook(b, orders) && o.id == |orders| + 1
    requires o.direction == if side.Buy? then 1 else -1
    ensures SourcedBook(CommitOn(side, b, o).book, orders + [o])
  {
    hide Insert, Sourced, LimitDepth, PriceDepth, LevelDepth;
    var own, opp := Own(b, side), Opp(b, side);
    SidesFromGood(side, b, o.id);
    var n := DepthOf(side, b, o);
    SweepSourced(side, o, opp, n, o.volume, orders, -o.direction);
    SweepSourced(side, o, opp, 0, 0, orders, -o.direction);
    RestSourced(side, own, orders, o, o.price, 0);
    RestSourced(side, own, orders, o, o.price, SweepFirst(side, o, opp, n, o.volume).left);
    if o.kind == 1 && opp != [] {
      RestSourced(side, own, orders, o, opp[0].price, SweepFirst(side, o, opp, n, o.volume).left);
    }
    if o.kind == 2 && own != [] {
      RestSourced(side, own, orders, o, own[0].price, o.volume);
    }
  }

  lemma {:induction false} RunSourced(orders: seq<Order>)
    requires InOrder(orders)
    ensures SourcedBook(CommitAll(orders).book, orders)
  {
    if orders != [] {
      var prefix, o := orders[..|orders| - 1], orders[|orders| - 1];
      var b := CommitAll(prefix).book;
      RunSourced(prefix);
      RunKeepsGood(prefix);
      assert orders == prefix + [o];
      if o.direction == 1 {
        CommitOnSourced(Buy, b, o, prefix);
      } else if o.direction == -1 {
        CommitOnSourced(Sell, b, o, prefix);
      } else {
        SweepSourced(Buy, o, b.asks, 0, 0, prefix, -1);
        SweepSourced(Sell, o, b.bids, 0, 0, prefix, 1);
      }
    }
  }

  lemma {:induction false} CommitOnFair(side: Side, prefix: seq<Order>, o: Order, t: Trade)
    requires InOrder(prefix) && o.id == |prefix| + 1 && o.direction == if side.Buy? then 1 else -1
    requires t in CommitOn(side, CommitAll(prefix).book, o).trades
    ensures t.bid != t.ask && FairTrade(prefix + [o], t)
  {
    var b := CommitAll(prefix).book;
    RunKeepsGood(prefix);
    RunSourced(prefix);
    var r := MakerOf(side, b, o, t);
    SourceOf(Flip(side), b, prefix, r);
    assert (prefix + [o])[..|prefix|] == prefix;
    FairWithMaker(side, prefix + [o], r, t);
  }

  lemma {:induction false} RestedLater(prefix: seq<Order>, o: Order, side: Side, maker: int, taker: int, price: real)
    requires 1 <= taker <= |prefix| && RestedAt(prefix, side, maker, taker, price)
    ensures RestedAt(prefix + [o], side, maker, taker, price)
  {
    assert (prefix + [o])[..taker - 1] == prefix[..taker - 1];
  }

  lemma {:induction false} FairLater(prefix: seq<Order>, o: Order, t: Trade)
    requires FairTrade(prefix, t)
    ensures FairTrade(prefix + [o], t)
  {
    if t.bid < t.ask {
      RestedLater(prefix, o, Buy, t.bid, t.ask, t.price);
    } else {
      RestedLater(prefix, o, Sell, t.ask, t.bid, t.price);
    }
  }

  /**
   * In every trade of every run the order with the smaller id was resting, the price is the one it
   * rested at, and no limit order trades beyond the price it stated.
   */
  lemma {:induction false} MakerPricing(orders: seq<Order>, t: Trade)
    requires InOrder(orders) && t in CommitAll(orders).trades
    ensures t.bid != t.ask && FairTrade(orders, t)
  {
    var prefix, o := orders[..|orders| - 1], orders[|orders| - 1];
    var b := CommitAll(prefix).book;
    assert orders == prefix + [o];
    if t in CommitAll(prefix).trades {
      MakerPricing(prefix, t);
      FairLater(prefix, o, t);
    } else {
      CommitOnFair(if o.direction == 1 then Buy else Sell, prefix, o, t);
    }
  }
}
