/**
 * What one order does to the book, record by record: it trades with the best opposite records first,
 * uses up each one before the next, and goes as far as its type allows.
 */
module Priority {
  import opened Types
  import opened BinaryHeap
  import opened Matching
  import opened MatchingLaws
  import opened OrderTypes

  function Volumes(trades: seq<Trade>): int {
    if trades == [] then 0 else trades[0].volume + Volumes(trades[1..])
  }

  /** The records that are left once the first ones have traded as listed. */
  function Untraded(recs: seq<Record>, trades: seq<Trade>): seq<Record>
    requires |trades| <= |recs|
  {
    var k := |trades|;
    if k == 0 then recs
    else if trades[k - 1].volume == recs[k - 1].volume then recs[k..]
    else [recs[k - 1].(volume := recs[k - 1].volume - trades[k - 1].volume)] + recs[k..]
  }

  /** The trades are with the first records in turn; all but the last use up their record. */
  ghost predicate InTurnWith(side: Side, o: Order, recs: seq<Record>, trades: seq<Trade>) {
    && |trades| <= |recs|
    && forall i :: 0 <= i < |trades| ==>
         && trades[i] == TradeOf(side, o, recs[i], trades[i].volume)
         && 0 < trades[i].volume <= recs[i].volume
         && (i < |trades| - 1 ==> trades[i].volume == recs[i].volume)
  }

  lemma {:induction false} TradeOfVolume(side: Side, o: Order, r: Record, volume: int)
    ensures TradeOf(side, o, r, volume).volume == volume
  {
  }

  lemma {:induction false} InTurnOneMore(side: Side, o: Order, recs: seq<Record>, trades: seq<Trade>, t: Trade)
    requires recs != [] && recs[0].volume > 0 && t == TradeOf(side, o, recs[0], recs[0].volume)
    requires InTurnWith(side, o, recs[1..], trades)
    ensures InTurnWith(side, o, recs, [t] + trades)
  {
    hide TradeOf;
    var all := [t] + trades;
    forall i | 0 <= i < |all|
      ensures all[i] == TradeOf(side, o, recs[i], all[i].volume) && 0 < all[i].volume <= recs[i].volume
      ensures i < |all| - 1 ==> all[i].volume == recs[i].volume
    {
      if i == 0 {
        TradeOfVolume(side, o, recs[0], recs[0].volume);
      } else {
        assert all[i] == trades[i - 1] && recs[1..][i - 1] == recs[i];
      }
    }
  }

  lemma {:induction false} UntradedOneMore(recs: seq<Record>, trades: seq<Trade>, t: Trade)
    requires |trades| + 1 <= |recs| && t.volume == recs[0].volume
    ensures Untraded(recs, [t] + trades) == Untraded(recs[1..], trades)
    ensures Volumes([t] + trades) == t.volume + Volumes(trades)
  {
    var k := |trades|;
    assert ([t] + trades)[1..] == trades && recs[1..][k..] == recs[k + 1..];
    assert k > 0 ==> ([t] + trades)[k] == trades[k - 1] && recs[1..][k - 1] == recs[k];
  }

  lemma {:induction false} LastInTurn(side: Side, o: Order, recs: seq<Record>, v: int)
    requires recs != [] && 0 < v < recs[0].volume
    ensures
      var t := TradeOf(side, o, recs[0], v);
      && InTurnWith(side, o, recs, [t]) && Volumes([t]) == v
      && Untraded(recs, [t]) == recs[0 := recs[0].(volume := recs[0].volume - v)]
  {
    assert Volumes([]) == 0;
  }

  lemma {:induction false} InTurnSize(side: Side, o: Order, recs: seq<Record>, trades: seq<Trade>)
    requires InTurnWith(side, o, recs, trades)
    ensures |trades| <= |recs|
  {
  }

  /** What is left of the order and of the records fits the trades, and nothing within reach is passed over. */
  ghost predicate Greedy(side: Side, o: Order, recs: seq<Record>, n: nat, v: int, s: Sweep) {
    && InTurnWith(side, o, recs, s.trades) && s.rest == Untraded(recs, s.trades) && |s.trades| <= n <= |recs|
    && s.left == v - Volumes(s.trades) && s.left >= 0
    && (s.left > 0 ==> |s.trades| == n && s.rest == recs[n..])
  }

  lemma {:induction false} GreedyNone(side: Side, o: Order, recs: seq<Record>, n: nat, v: int)
    requires n <= |recs| && v >= 0 && (n == 0 || v == 0)
    ensures Greedy(side, o, recs, n, v, Sweep(recs, v, []))
  {
  }

  lemma {:induction false} GreedyLast(side: Side, o: Order, recs: seq<Record>, n: nat, v: int)
    requires 0 < n <= |recs| && 0 < v < recs[0].volume
    ensures
      Greedy(side, o, recs, n, v,
             Sweep(recs[0 := recs[0].(volume := recs[0].volume - v)], 0, [TradeOf(side, o, recs[0], v)]))
  {
    hide InTurnWith, Untraded, Volumes, TradeOf;
    LastInTurn(side, o, recs, v);
  }

  lemma {:induction false} GreedyOneMore(side: Side, o: Order, recs: seq<Record>, n: nat, v: int, s: Sweep)
    requires 0 < n <= |recs| && recs[0].volume > 0 && Greedy(side, o, recs[1..], n - 1, v - recs[0].volume, s)
    ensures
      Greedy(side, o, recs, n, v,
             Sweep(s.rest, s.left, [TradeOf(side, o, recs[0], recs[0].volume)] + s.trades))
  {
    hide InTurnWith, Untraded, Volumes, TradeOf;
    var t := TradeOf(side, o, recs[0], recs[0].volume);
    InTurnSize(side, o, recs[1..], s.trades);
    TradeOfVolume(side, o, recs[0], recs[0].volume);
    InTurnOneMore(side, o, recs, s.trades, t);
    UntradedOneMore(recs, s.trades, t);
    assert recs[1..][n - 1..] == recs[n..];
  }

  /** A sweep, record by record. */
  lemma {:induction false} SweepIsGreedy(side: Side, o: Order, recs: seq<Record>, n: nat, v: int)
    requires n <= |recs| && v >= 0 && forall i :: 0 <= i < |recs| ==> recs[i].volume > 0
    ensures Greedy(side, o, recs, n, v, SweepFirst(side, o, recs, n, v))
  {
    hide Greedy;
    if n == 0 || v == 0 {
      GreedyNone(side, o, recs, n, v);
    } else if v < recs[0].volume {
      GreedyLast(side, o, recs, n, v);
    } else {
      SweepIsGreedy(side, o, recs[1..], n - 1, v - recs[0].volume);
      GreedyOneMore(side, o, recs, n, v, SweepFirst(side, o, recs[1..], n - 1, v - recs[0].volume));
    }
  }

  lemma {:induction false} PriceDepthSplits(recs: seq<Record>, price: real)
    ensures
      var n := PriceDepth(recs, price);
      (forall i :: 0 <= i < n ==> recs[i].price == price) && (n < |recs| ==> recs[n].price != price)
  {
    if recs != [] && recs[0].price == price {
      PriceDepthSplits(recs[1..], price);
    }
  }

  /** How far the types go: up to the first opposite record that an order cannot trade with. */
  lemma {:induction false} DepthEnds(side: Side, b: Book, o: Order)
    requires GoodBook(b, o.id)
    ensures
      var opp, n := Opp(b, side), DepthOf(side, b, o);
      && (o.kind == 0 ==> forall i :: 0 <= i < n ==> Accepts(side, o.price, opp[i].price))
      && (o.kind == 0 && n < |opp| ==> !Accepts(side, o.price, opp[n].price))
      && (o.kind == 1 ==> forall i :: 0 <= i < n ==> opp[i].price == opp[0].price)
      && (o.kind == 1 && n < |opp| ==> opp[n].price != opp[0].price)
  {
    var opp := Opp(b, side);
    SidesFromGood(side, b, o.id);
    LimitDepthSplits(side, opp, o.price);
    if o.kind == 1 && opp != [] {
      PriceDepthSplits(opp, opp[0].price);
    }
  }

  lemma {:induction false} RestMembers(side: Side, own: seq<Record>, id: int, price: real, volume: int)
    ensures
      forall r :: r in Rest(side, own, id, price, volume) <==>
        r in own || (volume > 0 && r == Record(id, price, volume))
  {
    if volume > 0 {
      InsertMembers(own, Record(id, price, volume), Less(side));
    }
  }

  // ---------- one commit on any book that a run leaves ----------

  /** An order that a run may commit next: the next id, on the buying or the selling side. */
  ghost predicate Next(prefix: seq<Order>, o: Order) {
    InOrder(prefix) && o.id == |prefix| + 1 && ValidOrder(o) && (o.direction == 1 || o.direction == -1)
  }

  function SideOf(o: Order): Side {
    if o.direction == 1 then Buy else Sell
  }

  /** Types 0, 1, 3 and 4 sweep, and so does type 5 if it is accepted; nothing else trades. */
  predicate Sweeps(b: Book, o: Order) {
    o.kind == 0 || o.kind == 1 || o.kind == 3 || o.kind == 4 ||
    (o.kind == 5 && o.volume <= Wrap32(TotalVolume(Opp(b, SideOf(o)))))
  }

  lemma {:induction false} CommitOnIsSweep(side: Side, b: Book, o: Order)
    requires side == SideOf(o)
    ensures
      var s := SweepFirst(side, o, Opp(b, side), DepthOf(side, b, o), o.volume);
      var r := CommitOn(side, b, o);
      && r.trades == (if Sweeps(b, o) then s.trades else [])
      && Opp(r.book, side) == (if Sweeps(b, o) then s.rest else Opp(b, side))
  {
    hide TotalVolume, LimitDepth, PriceDepth, LevelDepth, Rest;
    if o.kind == 1 && Opp(b, side) == [] {
      assert SweepFirst(side, o, Opp(b, side), 0, o.volume) == Sweep(Opp(b, side), o.volume, []);
    }
  }

  lemma {:induction false} PositiveSide(b: Book, side: Side, bound: int)
    requires GoodBook(b, bound)
    ensures forall i :: 0 <= i < |Opp(b, side)| ==> Opp(b, side)[i].volume > 0
  {
  }

  lemma {:induction false} CommitIsSweep(prefix: seq<Order>, o: Order)
    requires Next(prefix, o)
    ensures
      var b, side := CommitAll(prefix).book, SideOf(o);
      var s := SweepFirst(side, o, Opp(b, side), DepthOf(side, b, o), o.volume);
      var r := Commit(b, o);
      && GoodBook(b, o.id)
      && r.trades == (if Sweeps(b, o) then s.trades else [])
      && Opp(r.book, side) == (if Sweeps(b, o) then s.rest else Opp(b, side))
      && (Sweeps(b, o) ==> Greedy(side, o, Opp(b, side), DepthOf(side, b, o), o.volume, s))
  {
    hide SweepFirst, Greedy, TotalVolume, CommitAll, LimitDepth, PriceDepth, LevelDepth, GoodBook;
    RunKeepsGood(prefix);
    var b, side := CommitAll(prefix).book, SideOf(o);
    CommitOnIsSweep(side, b, o);
    if Sweeps(b, o) {
      PositiveSide(b, side, o.id);
      SweepIsGreedy(side, o, Opp(b, side), DepthOf(side, b, o), o.volume);
    }
  }

  /** Both sides of every book that a run leaves are in price-time order: better price first, then lower id. */
  lemma {:induction false} BookIsSorted(orders: seq<Order>, i: nat, j: nat)
    requires InOrder(orders)
    ensures
      var bids := CommitAll(orders).book.bids;
      i < j < |bids| ==>
        bids[i].price > bids[j].price || (bids[i].price == bids[j].price && bids[i].id < bids[j].id)
    ensures
      var asks := CommitAll(orders).book.asks;
      i < j < |asks| ==>
        asks[i].price < asks[j].price || (asks[i].price == asks[j].price && asks[i].id < asks[j].id)
  {
    hide CommitAll;
    RunKeepsGood(orders);
    var b := CommitAll(orders).book;
    assert i < j < |b.bids| ==> Less(Buy)(b.bids[j], b.bids[i]);
    assert i < j < |b.asks| ==> Less(Sell)(b.asks[j], b.asks[i]);
  }

  /**
   * Trade number `i` of a commit is with opposite record number `i`, at its price, between it and the
   * order; all but the last trade use up their record; and what is left of the opposite side is just
   * what has not traded.
   */
  lemma {:induction false} TradesAreInTurn(prefix: seq<Order>, o: Order)
    requires Next(prefix, o)
    ensures
      var b := CommitAll(prefix).book;
      var r := Commit(b, o);
      var opp := if o.direction == 1 then b.asks else b.bids;
      var rest := if o.direction == 1 then r.book.asks else r.book.bids;
      var k := |r.trades|;
      && k <= |opp|
      && (forall i {:trigger r.trades[i]} :: 0 <= i < k ==>
            var t := r.trades[i];
            && t.stock == o.stock && t.price == opp[i].price && 0 < t.volume <= opp[i].volume
            && t.bid == (if o.direction == 1 then o.id else opp[i].id)
            && t.ask == (if o.direction == 1 then opp[i].id else o.id)
            && (i < k - 1 ==> t.volume == opp[i].volume))
      && rest ==
         (if k == 0 then opp
          else if r.trades[k - 1].volume == opp[k - 1].volume then opp[k..]
          else [opp[k - 1].(volume := opp[k - 1].volume - r.trades[k - 1].volume)] + opp[k..])
      && (k > 0 ==> Volumes(r.trades) <= o.volume)
  {
    hide CommitAll, Commit, SweepFirst, GoodBook, Sweeps, DepthOf;
    CommitIsSweep(prefix, o);
    assert Volumes([]) == 0;
  }

  lemma {:induction false} TradeIsInTurn(prefix: seq<Order>, o: Order, i: nat)
    requires Next(prefix, o) && i < |Commit(CommitAll(prefix).book, o).trades|
    ensures
      var b := CommitAll(prefix).book;
      var opp, t := if o.direction == 1 then b.asks else b.bids, Commit(b, o).trades[i];
      i < |opp| && t.price == opp[i].price && (if o.direction == 1 then t.ask else t.bid) == opp[i].id
  {
    hide Commit, CommitAll, Next, Volumes;
    TradesAreInTurn(prefix, o);
  }

  /**
   * Along the trades of one commit the resting records strictly descend in price-time priority: a buyer
   * trades at rising prices, a seller at falling ones, and at one price with rising ids.
   */
  lemma {:induction false} TradesDescend(prefix: seq<Order>, o: Order, i: nat, j: nat)
    requires Next(prefix, o) && i < j < |Commit(CommitAll(prefix).book, o).trades|
    ensures
      var trades := Commit(CommitAll(prefix).book, o).trades;
      if o.direction == 1 then
        trades[i].price < trades[j].price || (trades[i].price == trades[j].price && trades[i].ask < trades[j].ask)
      else
        trades[i].price > trades[j].price || (trades[i].price == trades[j].price && trades[i].bid < trades[j].bid)
  {
    TradesAreInTurn(prefix, o);
    BookIsSorted(prefix, i, j);
    hide CommitAll, Commit;
  }

  lemma {:induction false} CommitLeaves(prefix: seq<Order>, o: Order)
    requires Next(prefix, o)
    ensures
      var b := CommitAll(prefix).book;
      var r := Commit(b, o);
      var opp := if o.direction == 1 then b.asks else b.bids;
      var rest := if o.direction == 1 then r.book.asks else r.book.bids;
      |r.trades| <= |opp| && rest == Untraded(opp, r.trades)
  {
    hide CommitAll, Commit, SweepFirst, GoodBook, Sweeps, DepthOf, InTurnWith;
    CommitIsSweep(prefix, o);
    var b, side := CommitAll(prefix).book, SideOf(o);
    if Sweeps(b, o) {
      InTurnSize(side, o, Opp(b, side), Commit(b, o).trades);
    }
  }

  lemma {:induction false} UntradedIsLater(recs: seq<Record>, trades: seq<Trade>, l: nat)
    requires |trades| <= |recs|
    ensures
      var rest := Untraded(recs, trades);
      && |trades| - 1 <= |recs| - |rest| && |rest| <= |recs|
      && (l < |rest| ==>
            rest[l].id == recs[|recs| - |rest| + l].id && rest[l].price == recs[|recs| - |rest| + l].price)
  {
  }

  /** What is left is the end of what was there, the first of it perhaps smaller. */
  lemma {:induction false} LeftAreLater(prefix: seq<Order>, o: Order, l: nat)
    requires Next(prefix, o)
    ensures
      var b := CommitAll(prefix).book;
      var r := Commit(b, o);
      var opp := if o.direction == 1 then b.asks else b.bids;
      var rest := if o.direction == 1 then r.book.asks else r.book.bids;
      && |r.trades| - 1 <= |opp| - |rest| && |rest| <= |opp|
      && (l < |rest| ==>
            rest[l].id == opp[|opp| - |rest| + l].id && rest[l].price == opp[|opp| - |rest| + l].price)
  {
    hide Commit, CommitAll, Next, Untraded, InTurnWith;
    CommitLeaves(prefix, o);
    var b := CommitAll(prefix).book;
    var r := Commit(b, o);
    UntradedIsLater(if o.direction == 1 then b.asks else b.bids, r.trades, l);
  }

  lemma {:induction false} IndexOf<T>(s: seq<T>, x: T) returns (i: nat)
    requires x in s
    ensures i < |s| && s[i] == x
  {
    i :| 0 <= i < |s| && s[i] == x;
  }

  /** The order that came in when a trade was made: the younger of the two. */
  function Taker(t: Trade): int {
    if t.bid > t.ask then t.bid else t.ask
  }

  lemma {:induction false} TakerIsNew(prefix: seq<Order>, o: Order, i: nat)
    requires Next(prefix, o) && i < |Commit(CommitAll(prefix).book, o).trades|
    ensures
      var t := Commit(CommitAll(prefix).book, o).trades[i];
      Taker(t) == o.id && (o.direction == 1 <==> t.bid > t.ask)
  {
    hide Commit, CommitAll;
    TradesAreInTurn(prefix, o);
    RunKeepsGood(prefix);
  }

  lemma {:induction false} TakersAreOld(orders: seq<Order>, i: nat)
    requires InOrder(orders) && i < |CommitAll(orders).trades|
    ensures Taker(CommitAll(orders).trades[i]) <= |orders|
  {
    hide CommitAll;
    MakerPricing(orders, CommitAll(orders).trades[i]);
  }

  /** The trades of a run are those before its last order, and then those of that order. */
  lemma {:induction false} RunSplits(orders: seq<Order>)
    requires InOrder(orders) && orders != []
    ensures
      var prefix, o := orders[..|orders| - 1], orders[|orders| - 1];
      var before, made := CommitAll(prefix).trades, Commit(CommitAll(prefix).book, o).trades;
      && InOrder(prefix) && |prefix| < o.id && CommitAll(orders).trades == before + made
      && (made != [] ==> Next(prefix, o))
  {
    hide CommitOn;
  }

  lemma {:induction false} SideOfNext(prefix: seq<Order>, o: Order)
    requires Next(prefix, o)
    ensures o.direction == 1 || o.direction == -1
  {
  }

  lemma {:induction false} NoOrdersNoTrades()
    ensures CommitAll([]).trades == []
  {
  }

  /**
   * Over a whole run, the trades are in the order of the orders that caused them, and those of one order
   * go from better to worse resting records: by price, and at one price by id.
   */
  lemma {:induction false} RunTradesInOrder(orders: seq<Order>, i: nat, j: nat)
    requires InOrder(orders) && i < j < |CommitAll(orders).trades|
    ensures
      var a, b := CommitAll(orders).trades[i], CommitAll(orders).trades[j];
      && Taker(a) <= Taker(b)
      && (Taker(a) == Taker(b) && b.bid > b.ask ==> a.price < b.price || (a.price == b.price && a.ask < b.ask))
      && (Taker(a) == Taker(b) && b.bid < b.ask ==> a.price > b.price || (a.price == b.price && a.bid < b.bid))
  {
    hide CommitAll, Commit, InOrder, Next, Taker;
    NoOrdersNoTrades();
    RunSplits(orders);
    var prefix, o := orders[..|orders| - 1], orders[|orders| - 1];
    var n := |CommitAll(prefix).trades|;
    if j < n {
      RunTradesInOrder(prefix, i, j);
    } else {
      TakerIsNew(prefix, o, j - n);
      if i < n {
        TakersAreOld(prefix, i);
      } else {
        TakerIsNew(prefix, o, i - n);
        TradesDescend(prefix, o, i - n, j - n);
        SideOfNext(prefix, o);
      }
    }
  }

  /**
   * A record trades only once every better opposite record `x` has been used up: whatever is left on
   * that side is worse than `x`.
   */
  lemma {:induction false} BetterAreUsedUp(prefix: seq<Order>, o: Order, i: nat, x: Record, y: Record)
    requires Next(prefix, o) && i < |Commit(CommitAll(prefix).book, o).trades|
    requires
      var b, t := CommitAll(prefix).book, Commit(CommitAll(prefix).book, o).trades[i];
      if o.direction == 1 then x in b.asks && (x.price < t.price || (x.price == t.price && x.id < t.ask))
      else x in b.bids && (x.price > t.price || (x.price == t.price && x.id < t.bid))
    requires
      var r := Commit(CommitAll(prefix).book, o);
      y in if o.direction == 1 then r.book.asks else r.book.bids
    ensures
      if o.direction == 1 then x.price < y.price || (x.price == y.price && x.id < y.id)
      else x.price > y.price || (x.price == y.price && x.id < y.id)
  {
    hide Commit, CommitAll, Volumes;
    var b := CommitAll(prefix).book;
    var r := Commit(b, o);
    var opp := if o.direction == 1 then b.asks else b.bids;
    var rest := if o.direction == 1 then r.book.asks else r.book.bids;
    var j := IndexOf(opp, x);
    var l := IndexOf(rest, y);
    TradeIsInTurn(prefix, o, i);
    LeftAreLater(prefix, o, l);
    BookIsSorted(prefix, i, j);
    BookIsSorted(prefix, j, |opp| - |rest| + l);
  }

  /** What of an order did not trade. */
  function Left(o: Order, trades: seq<Trade>): int {
    o.volume - Volumes(trades)
  }

  lemma {:induction false} WholeIsFilled(prefix: seq<Order>, o: Order)
    requires Next(prefix, o) && o.kind == 5 && Sweeps(CommitAll(prefix).book, o)
    ensures Left(o, Commit(CommitAll(prefix).book, o).trades) == 0
  {
    hide Commit, CommitAll, SweepFirst, InTurnWith, Untraded, Volumes;
    var b, side := CommitAll(prefix).book, SideOf(o);
    CommitIsSweep(prefix, o);
    PositiveSide(b, side, o.id);
    SweepLeavesUnmet(side, o, Opp(b, side), |Opp(b, side)|, o.volume);
    assert Opp(b, side)[..|Opp(b, side)|] == Opp(b, side);
    TotalIsNatural(Opp(b, side));
    WrapNeverAbove(TotalVolume(Opp(b, side)));
  }

  /**
   * How far the types go: a limit order trades within its limit and until the next record is beyond it,
   * counterparty-best at the best price only and until that is used up, immediate-or-cancel until
   * nothing is left, whole-or-cancel for all of its volume or not at all, and own-best never.
   */
  lemma {:induction false} HowFar(prefix: seq<Order>, o: Order)
    requires Next(prefix, o)
    ensures
      var b := CommitAll(prefix).book;
      var trades := Commit(b, o).trades;
      var opp := if o.direction == 1 then b.asks else b.bids;
      var k, left := |trades|, Left(o, trades);
      && k <= |opp|
      && (o.kind == 0 && o.direction == 1 ==>
            (forall i :: 0 <= i < k ==> opp[i].price <= o.price) && (left > 0 && k < |opp| ==> opp[k].price > o.price))
      && (o.kind == 0 && o.direction == -1 ==>
            (forall i :: 0 <= i < k ==> opp[i].price >= o.price) && (left > 0 && k < |opp| ==> opp[k].price < o.price))
      && (o.kind == 1 ==>
            && (forall i :: 0 <= i < k ==> opp[i].price == opp[0].price)
            && (left > 0 && k < |opp| ==> opp[k].price != opp[0].price))
      && (o.kind == 4 && left > 0 ==> k == |opp|)
      && (o.kind == 5 ==> k == 0 || left == 0)
      && (o.kind == 2 || o.kind < 0 || o.kind > 5 ==> k == 0)
  {
    hide Commit, CommitAll, SweepFirst, GoodBook, Volumes, LimitDepth, PriceDepth, LevelDepth;
    var b := CommitAll(prefix).book;
    CommitIsSweep(prefix, o);
    DepthEnds(SideOf(o), b, o);
    if o.kind == 5 && Sweeps(b, o) {
      WholeIsFilled(prefix, o);
    }
  }

  /**
   * What happens on the order's own side: the remainder of a limit order rests at its limit, that of a
   * counterparty-best order at the price it traded at, and an own-best order as it is at the best price
   * of its side; of the other types nothing rests. Everything else stays.
   */
  lemma {:induction false} RemainderRests(prefix: seq<Order>, o: Order, x: Record)
    requires Next(prefix, o)
    ensures
      var b := CommitAll(prefix).book;
      var r := Commit(b, o);
      var own := if o.direction == 1 then b.bids else b.asks;
      var next := if o.direction == 1 then r.book.bids else r.book.asks;
      var opp := if o.direction == 1 then b.asks else b.bids;
      var left := Left(o, r.trades);
      var rests :=
        || (o.kind == 0 && left > 0 && x == Record(o.id, o.price, left))
        || (o.kind == 1 && opp != [] && left > 0 && x == Record(o.id, opp[0].price, left))
        || (o.kind == 2 && own != [] && x == Record(o.id, own[0].price, o.volume));
      x in next <==> x in own || rests
  {
    hide CommitAll, SweepFirst, GoodBook, Volumes, InTurnWith, Untraded, Rest, TotalVolume;
    hide LimitDepth, PriceDepth, LevelDepth;
    var b, side := CommitAll(prefix).book, SideOf(o);
    CommitIsSweep(prefix, o);
    var own, opp := Own(b, side), Opp(b, side);
    var left := SweepFirst(side, o, opp, DepthOf(side, b, o), o.volume).left;
    if o.kind == 0 {
      RestMembers(side, own, o.id, o.price, left);
    } else if o.kind == 1 && opp != [] {
      RestMembers(side, own, o.id, opp[0].price, left);
    } else if o.kind == 2 && own != [] {
      RestMembers(side, own, o.id, own[0].price, o.volume);
    }
  }

  /** What is cancelled of an order, by type: all that did not trade and does not rest. */
  lemma {:induction false} CancelledIs(prefix: seq<Order>, o: Order)
    requires Next(prefix, o)
    ensures
      var b := CommitAll(prefix).book;
      var opp := if o.direction == 1 then b.asks else b.bids;
      var own := if o.direction == 1 then b.bids else b.asks;
      CancelledVolume(b, o) ==
      if o.kind == 0 then 0
      else if o.kind == 1 then (if opp == [] then o.volume else 0)
      else if o.kind == 2 then (if own == [] then o.volume else 0)
      else Left(o, Commit(b, o).trades)
  {
    hide CommitAll, SweepFirst, GoodBook, InTurnWith, Untraded, LimitDepth, PriceDepth, LevelDepth;
    var b, side := CommitAll(prefix).book, SideOf(o);
    CommitIsSweep(prefix, o);
    PositiveSide(b, side, o.id);
    if o.kind == 3 || o.kind == 4 || (o.kind == 5 && Sweeps(b, o)) {
      SweepLeavesUnmet(side, o, Opp(b, side), DepthOf(side, b, o), o.volume);
      assert Opp(b, side)[..|Opp(b, side)|] == Opp(b, side);
      TotalIsNatural(Opp(b, side));
      WrapNeverAbove(TotalVolume(Opp(b, side)));
    }
  }

  /** An order that was cancelled, or of an unknown type or direction, changes nothing. */
  lemma {:induction false} OthersDoNothing(b: Book, o: Order)
    requires o.kind < 0 || o.kind > 5 || (o.direction != 1 && o.direction != -1)
    ensures Commit(b, o).book == b && Commit(b, o).trades == []
  {
  }

  lemma {:induction false} PricesOneMore(recs: seq<Record>, k: nat)
    requires k < |recs| && |Prices(recs[..k])| <= 5 < |Prices(recs[..k + 1])|
    ensures |Prices(recs[..k])| == 5 && forall i :: 0 <= i < k ==> recs[i].price != recs[k].price
  {
    assert recs[..k + 1] == recs[..k] + [recs[k]];
    PricesSnoc(recs[..k], recs[k]);
    forall i | 0 <= i < k
      ensures recs[i].price != recs[k].price
    {
      assert recs[..k][i].price in Prices(recs[..k]);
    }
  }

  lemma {:induction false} FivePricesReached(side: Side, recs: seq<Record>, k: nat)
    requires Ranked(recs, Less(Flip(side))) && recs != [] && recs[0].price != 0.0
    requires k <= LevelDepth(recs, 0.0, MAX_LEVELS)
    ensures |Prices(recs[..k])| <= 5
    ensures
      k == LevelDepth(recs, 0.0, MAX_LEVELS) && k < |recs| ==>
        |Prices(recs[..k])| == 5 && forall i :: 0 <= i < k ==> recs[i].price != recs[k].price
  {
    hide LevelDepth, Ranked;
    var n := LevelDepth(recs, 0.0, MAX_LEVELS);
    FiveLevelDepth(Flip(side), recs);
    PricesGrow(recs, k, n);
    if k == n < |recs| {
      PricesOneMore(recs, k);
    }
  }

  lemma {:induction false} PricesOfFirst(recs: seq<Record>, k: nat)
    requires k <= |recs|
    ensures Prices(recs[..k]) == set i | 0 <= i < k :: recs[i].price
  {
    forall p
      ensures p in Prices(recs[..k]) <==> p in set i | 0 <= i < k :: recs[i].price
    {
      if p in Prices(recs[..k]) {
        var i :| 0 <= i < k && recs[..k][i].price == p;
        assert recs[i].price == p;
      }
      if i :| 0 <= i < k && recs[i].price == p {
        assert recs[..k][i].price == p;
      }
    }
  }

  /**
   * A five-level order, with a best opposite price that is not 0, trades at no more than five different
   * prices, and stops short only where the next record would be at a sixth.
   */
  lemma {:induction false} AtMostFivePrices(prefix: seq<Order>, o: Order)
    requires Next(prefix, o) && o.kind == 3
    ensures
      var b := CommitAll(prefix).book;
      var trades := Commit(b, o).trades;
      var opp := if o.direction == 1 then b.asks else b.bids;
      var k := |trades|;
      && k <= |opp|
      && (opp != [] && opp[0].price != 0.0 ==>
            && |set i | 0 <= i < k :: opp[i].price| <= 5
            && (Left(o, trades) > 0 && k < |opp| ==>
                  |set i | 0 <= i < k :: opp[i].price| == 5 && forall i :: 0 <= i < k ==> opp[i].price != opp[k].price))
  {
    hide Commit, CommitAll, SweepFirst, Volumes, LevelDepth, InTurnWith, Untraded, IsLevelPrefix;
    CommitIsSweep(prefix, o);
    var b, side := CommitAll(prefix).book, SideOf(o);
    var opp := Opp(b, side);
    var s := SweepFirst(side, o, opp, LevelDepth(opp, 0.0, MAX_LEVELS), o.volume);
    InTurnSize(side, o, opp, s.trades);
    if opp != [] && opp[0].price != 0.0 {
      SidesFromGood(side, b, o.id);
      FivePricesReached(side, opp, |s.trades|);
      PricesOfFirst(opp, |s.trades|);
    }
  }
}
