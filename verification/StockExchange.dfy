/**
 * The matching engine of one stock (src/exchange/stock_exchange.cpp): six order types, a buy and a
 * sell loop each, over the heaps of the declaration book; and the reorder buffer in front of them.
 */
module StockExchanges {
  import opened Types
  import opened BinaryHeap
  import opened Matching
  import opened MatchingLaws
  import opened DeclarationBooks
  import opened Reorder
  import opened Arrivals

  /** A sweep that comes after some trades. */
  ghost function After(done: seq<Trade>, s: Sweep): Sweep {
    s.(trades := done + s.trades)
  }

  /** Trading once with the best record is the first step of every sweep that may touch it. */
  lemma {:induction false} FirstStep(side: Side, o: Order, recs: seq<Record>, n: nat, v: int, done: seq<Trade>)
    requires 1 <= n <= |recs| && v > 0
    ensures
      After(done, SweepFirst(side, o, recs, n, v)) ==
      if v < recs[0].volume then
        After(done + [TradeOf(side, o, recs[0], v)],
              SweepFirst(side, o, recs[0 := recs[0].(volume := recs[0].volume - v)], n - 1, 0))
      else
        After(done + [TradeOf(side, o, recs[0], recs[0].volume)],
              SweepFirst(side, o, recs[1..], n - 1, v - recs[0].volume))
  {
    var s := SweepFirst(side, o, recs, n, v);
    if v >= recs[0].volume {
      var t := SweepFirst(side, o, recs[1..], n - 1, v - recs[0].volume).trades;
      assert done + ([TradeOf(side, o, recs[0], recs[0].volume)] + t) ==
             (done + [TradeOf(side, o, recs[0], recs[0].volume)]) + t;
    }
  }

  /** Every waiting order is valid and for this stock. */
  ghost predicate AllWaiting(pending: seq<Order>, stock: int) {
    forall i :: 0 <= i < |pending| ==> ValidOrder(pending[i]) && pending[i].stock == stock
  }

  lemma {:induction false} OneMoreWaiting(pending: seq<Order>, o: Order, stock: int)
    requires AllWaiting(pending, stock) && ValidOrder(o) && o.stock == stock
    ensures AllWaiting(Insert(pending, o, IdGreater), stock)
  {
    InsertMembers(pending, o, IdGreater);
    var r := Insert(pending, o, IdGreater);
    forall i | 0 <= i < |r|
      ensures ValidOrder(r[i]) && r[i].stock == stock
    {
      assert r[i] in r;
    }
  }

  lemma {:induction false} KeepsWaiting(pending: seq<Order>, q: seq<Order>, stock: int)
    requires AllWaiting(pending, stock) && multiset(q) == multiset(pending)
    ensures AllWaiting(q, stock)
  {
    forall i | 0 <= i < |q|
      ensures ValidOrder(q[i]) && q[i].stock == stock
    {
      var j := InMultiset(q, pending, i);
    }
  }

  lemma {:induction false} TailWaits(pending: seq<Order>, stock: int)
    requires AllWaiting(pending, stock) && pending != []
    ensures AllWaiting(pending[1..], stock) && ValidOrder(pending[0]) && pending[0].stock == stock
  {
  }

  /** A witness for `Received`, which leaves no choice while no id waits twice. */
  lemma {:induction false} ReceivedIs(e: Engine, o: Order, f: Engine, p: seq<Order>)
    requires Ascends(e.pending) && Ascends(p) && multiset(p) == multiset(e.pending) + multiset{o}
    requires f == Drain(e.(pending := p))
    ensures Received(e, o, f) && (DistinctIds(e.pending + [o]) ==> f == Receive(e, o))
  {
    assert Received(e, o, f);
    if DistinctIds(e.pending + [o]) {
      ReceivedIsReceive(e, o, f);
    }
  }

  /** Adds an order to a heap of waiting orders. */
  method PushOrder(v: seq<Order>, ghost pending: seq<Order>, o: Order) returns (r: seq<Order>)
    requires Heaps(v, pending)
    ensures Heaps(r, Insert(pending, o, IdGreater))
  {
    assert (v + [o])[..|v|] == v;
    r := PushHeap(v + [o], IdGreater);
    PushHeaps(v, pending, o, r);
  }

  /** Nothing to take, or nobody to take it from: the sweep is over. */
  lemma {:induction false} SweepStops(side: Side, o: Order, recs: seq<Record>, left: int)
    ensures forall n {:trigger SweepFirst(side, o, recs, n, left)} ::
      0 <= n <= |recs| && (n == 0 || left == 0) ==> SweepFirst(side, o, recs, n, left) == Sweep(recs, left, [])
  {
  }

  /** What the first record means for the levels that are still open. */
  lemma {:induction false} NextLevel(recs: seq<Record>, previous: real, budget: nat)
    requires recs != []
    ensures recs[0].price != previous && budget == 0 ==> LevelDepth(recs, previous, budget) == 0
    ensures
      recs[0].price == previous || budget > 0 ==>
        var left := if recs[0].price == previous then budget else budget - 1;
        && LevelDepth(recs, recs[0].price, left) == LevelDepth(recs, previous, budget)
        && LevelDepth(recs, previous, budget) == 1 + LevelDepth(recs[1..], recs[0].price, left)
  {
  }

  /** What the first record means for the depth of a limit order. */
  lemma {:induction false} NextAccepted(side: Side, recs: seq<Record>, limit: real)
    requires recs != []
    ensures
      LimitDepth(side, recs, limit) ==
      if Accepts(side, limit, recs[0].price) then 1 + LimitDepth(side, recs[1..], limit) else 0
  {
  }

  /** An order that a side's 32-bit total covers is covered by the real total. */
  lemma {:induction false} CoveredByTotal(recs: seq<Record>)
    requires forall i :: 0 <= i < |recs| ==> recs[i].volume > 0
    ensures Wrap32(TotalVolume(recs)) <= TotalVolume(recs)
  {
    TotalIsNatural(recs);
    WrapNeverAbove(TotalVolume(recs));
  }

  class StockExchange {
    const stkCode: int
    const book: DeclarationBook
    var notReady: seq<Order>
    var lastCommit: int
    /** Everything handed to `produceTrade`, in order. */
    var trades: seq<Trade>
    ghost var pending: seq<Order>

    ghost predicate Valid()
      reads this, book
    {
      && book.Valid()
      && GoodBook(book.Model(), lastCommit + 1)
      && Heaps(notReady, pending)
      && AllWaiting(pending, stkCode)
    }

    ghost function Model(): Engine
      reads this, book
    {
      Engine(pending, lastCommit, book.Model(), trades)
    }

    constructor (stkCode: int)
      ensures Valid() && Model() == NEW_ENGINE && this.stkCode == stkCode && fresh(book)
    {
      this.stkCode := stkCode;
      book := new DeclarationBook();
      notReady, pending, lastCommit, trades := [], [], 0, [];
    }

    /** What every handler starts from: an order above all resting ids. */
    ghost predicate Ready(o: Order)
      reads this, book
    {
      book.Valid() && GoodBook(book.Model(), o.id) && ValidOrder(o) && o.stock == stkCode
    }

    /** The book and the trades, those before being `t`, are what `r` prescribes on price-time lists. */
    ghost predicate Did(t: seq<Trade>, r: Outcome)
      reads this, book
    {
      book.Valid() && book.Model() == r.book && trades == t + r.trades
    }

    // ---------- trading with the best record ----------

    /** Trades `left` with the best ask: takes part of it in place, or all of it and removes it. */
    method TakeSellFirst(o: Order, left: int, ghost n: nat) returns (left': int)
      requires book.Valid() && 1 <= n <= |book.asks| && left > 0 && o.stock == stkCode
      modifies this`trades, book
      ensures book.Valid() && book.bids == old(book.bids)
      ensures
        && n - 1 <= |book.asks|
        && After(trades, SweepFirst(Buy, o, book.asks, n - 1, left')) ==
           After(old(trades), SweepFirst(Buy, o, old(book.asks), n, left))
      ensures left' == 0 ==> |book.asks| <= |old(book.asks)|
      ensures left' != 0 ==> 0 < left' == left - old(book.asks)[0].volume && book.asks == old(book.asks)[1..]
    {
      FirstStep(Buy, o, book.asks, n, left, trades);
      var sr := book.QuerySellFirst();
      if left < sr.value.volume {
        trades := trades + [Trade(stkCode, o.id, sr.value.id, sr.value.price, left)];
        book.ReduceSellFirst(left);
        left' := 0;
      } else {
        trades := trades + [Trade(stkCode, o.id, sr.value.id, sr.value.price, sr.value.volume)];
        left' := left - sr.value.volume;
        book.RemoveSellFirst();
      }
    }

    method TakeBuyFirst(o: Order, left: int, ghost n: nat) returns (left': int)
      requires book.Valid() && 1 <= n <= |book.bids| && left > 0 && o.stock == stkCode
      modifies this`trades, book
      ensures book.Valid() && book.asks == old(book.asks)
      ensures
        && n - 1 <= |book.bids|
        && After(trades, SweepFirst(Sell, o, book.bids, n - 1, left')) ==
           After(old(trades), SweepFirst(Sell, o, old(book.bids), n, left))
      ensures left' == 0 ==> |book.bids| <= |old(book.bids)|
      ensures left' != 0 ==> 0 < left' == left - old(book.bids)[0].volume && book.bids == old(book.bids)[1..]
    {
      FirstStep(Sell, o, book.bids, n, left, trades);
      var br := book.QueryBuyFirst();
      if left < br.value.volume {
        trades := trades + [Trade(stkCode, br.value.id, o.id, br.value.price, left)];
        book.ReduceBuyFirst(left);
        left' := 0;
      } else {
        trades := trades + [Trade(stkCode, br.value.id, o.id, br.value.price, br.value.volume)];
        left' := left - br.value.volume;
        book.RemoveBuyFirst();
      }
    }

    // ---------- type 0: limit ----------

    method LimitSweepSell(o: Order) returns (left: int)
      requires book.Valid() && o.stock == stkCode && o.volume >= 0
      modifies this`trades, book
      ensures book.Valid() && book.bids == old(book.bids) && left >= 0
      ensures
        Sweep(book.asks, left, trades) ==
        After(old(trades), SweepFirst(Buy, o, old(book.asks), LimitDepth(Buy, old(book.asks), o.price), o.volume))
    {
      hide SweepFirst, LimitDepth;
      left := o.volume;
      while left != 0
        invariant book.Valid() && book.bids == old(book.bids) && left >= 0
        invariant
          After(trades, SweepFirst(Buy, o, book.asks, LimitDepth(Buy, book.asks, o.price), left)) ==
          After(old(trades), SweepFirst(Buy, o, old(book.asks), LimitDepth(Buy, old(book.asks), o.price), o.volume))
        decreases |book.asks|, left
      {
        var sr := book.QuerySellFirst();
        if sr.None? {
          break;
        }
        NextAccepted(Buy, book.asks, o.price);
        if sr.value.price > o.price {
          break;
        }
        left := TakeSellFirst(o, left, LimitDepth(Buy, book.asks, o.price));
        SweepStops(Buy, o, book.asks, left);
      }
      SweepStops(Buy, o, book.asks, left);
    }

    method LimitSweepBuy(o: Order) returns (left: int)
      requires book.Valid() && o.stock == stkCode && o.volume >= 0
      modifies this`trades, book
      ensures book.Valid() && book.asks == old(book.asks) && left >= 0
      ensures
        Sweep(book.bids, left, trades) ==
        After(old(trades), SweepFirst(Sell, o, old(book.bids), LimitDepth(Sell, old(book.bids), o.price), o.volume))
    {
      hide SweepFirst, LimitDepth;
      left := o.volume;
      while left != 0
        invariant book.Valid() && book.asks == old(book.asks) && left >= 0
        invariant
          After(trades, SweepFirst(Sell, o, book.bids, LimitDepth(Sell, book.bids, o.price), left)) ==
          After(old(trades), SweepFirst(Sell, o, old(book.bids), LimitDepth(Sell, old(book.bids), o.price), o.volume))
        decreases |book.bids|, left
      {
        var br := book.QueryBuyFirst();
        if br.None? {
          break;
        }
        NextAccepted(Sell, book.bids, o.price);
        if br.value.price < o.price {
          break;
        }
        left := TakeBuyFirst(o, left, LimitDepth(Sell, book.bids, o.price));
        SweepStops(Sell, o, book.bids, left);
      }
      SweepStops(Sell, o, book.bids, left);
    }

    method HandleLimitOrder(o: Order)
      requires Ready(o) && o.kind == 0
      modifies this`trades, book
      ensures Did(old(trades), Commit(old(book.Model()), o))
    {
      if o.direction == 1 {
        var left := LimitSweepSell(o);
        if left != 0 {
          book.InsertBuy(Record(o.id, o.price, left));
        }
      } else if o.direction == -1 {
        var left := LimitSweepBuy(o);
        if left != 0 {
          book.InsertSell(Record(o.id, o.price, left));
        }
      }
    }

    // ---------- type 1: counterparty best ----------

    /** Trades at price `price` until the order or that price is used up. */
    method BestSweepSell(o: Order, price: real) returns (left: int)
      requires book.Valid() && o.stock == stkCode && o.volume >= 0 && book.asks != [] && book.asks[0].price == price
      modifies this`trades, book
      ensures book.Valid() && book.bids == old(book.bids) && left >= 0
      ensures
        Sweep(book.asks, left, trades) ==
        After(old(trades), SweepFirst(Buy, o, old(book.asks), PriceDepth(old(book.asks), price), o.volume))
    {
      left := o.volume;
      while left != 0
        invariant book.Valid() && book.bids == old(book.bids) && left >= 0
        invariant left > 0 ==> book.asks != [] && book.asks[0].price == price
        invariant
          After(trades, SweepFirst(Buy, o, book.asks, PriceDepth(book.asks, price), left)) ==
          After(old(trades), SweepFirst(Buy, o, old(book.asks), PriceDepth(old(book.asks), price), o.volume))
        decreases |book.asks|, left
      {
        left := TakeSellFirst(o, left, PriceDepth(book.asks, price));
        if left == 0 {
          break;
        }
        var sr := book.QuerySellFirst();
        if sr.None? || sr.value.price != price {
          break;
        }
      }
    }

    /** Trades at price `price` until the order or that price is used up. */
    method BestSweepBuy(o: Order, price: real) returns (left: int)
      requires book.Valid() && o.stock == stkCode && o.volume >= 0 && book.bids != [] && book.bids[0].price == price
      modifies this`trades, book
      ensures book.Valid() && book.asks == old(book.asks) && left >= 0
      ensures
        Sweep(book.bids, left, trades) ==
        After(old(trades), SweepFirst(Sell, o, old(book.bids), PriceDepth(old(book.bids), price), o.volume))
    {
      left := o.volume;
      while left != 0
        invariant book.Valid() && book.asks == old(book.asks) && left >= 0
        invariant left > 0 ==> book.bids != [] && book.bids[0].price == price
        invariant
          After(trades, SweepFirst(Sell, o, book.bids, PriceDepth(book.bids, price), left)) ==
          After(old(trades), SweepFirst(Sell, o, old(book.bids), PriceDepth(old(book.bids), price), o.volume))
        decreases |book.bids|, left
      {
        left := TakeBuyFirst(o, left, PriceDepth(book.bids, price));
        if left == 0 {
          break;
        }
        var br := book.QueryBuyFirst();
        if br.None? || br.value.price != price {
          break;
        }
      }
    }

    method HandleCounterpartyBest(o: Order)
      requires Ready(o) && o.kind == 1
      modifies this`trades, book
      ensures Did(old(trades), Commit(old(book.Model()), o))
    {
      if o.direction == 1 {
        var sr := book.QuerySellFirst();
        if sr.None? {
          return;
        }
        var left := BestSweepSell(o, sr.value.price);
        if left != 0 {
          book.InsertBuy(Record(o.id, sr.value.price, left));
        }
      } else if o.direction == -1 {
        var br := book.QueryBuyFirst();
        if br.None? {
          return;
        }
        var left := BestSweepBuy(o, br.value.price);
        if left != 0 {
          book.InsertSell(Record(o.id, br.value.price, left));
        }
      }
    }

    // ---------- type 2: own best ----------

    method HandleOurBest(o: Order)
      requires Ready(o) && o.kind == 2
      modifies this`trades, book
      ensures Did(old(trades), Commit(old(book.Model()), o))
    {
      if o.direction == 1 {
        var br := book.QueryBuyFirst();
        if br.None? {
          return;
        }
        book.InsertBuy(Record(o.id, br.value.price, o.volume));
      } else if o.direction == -1 {
        var sr := book.QuerySellFirst();
        if sr.None? {
          return;
        }
        book.InsertSell(Record(o.id, sr.value.price, o.volume));
      }
    }

    // ---------- type 3: five levels, then cancel ----------

    method LevelSweepSell(o: Order, maxLevels: nat) returns (left: int)
      requires book.Valid() && o.stock == stkCode && o.volume >= 0
      modifies this`trades, book
      ensures book.Valid() && book.bids == old(book.bids)
      ensures
        Sweep(book.asks, left, trades) ==
        After(old(trades), SweepFirst(Buy, o, old(book.asks), LevelDepth(old(book.asks), 0.0, maxLevels), o.volume))
    {
      hide SweepFirst, LevelDepth;
      left := o.volume;
      var levels, previous := 0, 0.0;
      ghost var all := After(trades, SweepFirst(Buy, o, book.asks, LevelDepth(book.asks, 0.0, maxLevels), left));
      while left != 0
        invariant book.Valid() && book.bids == old(book.bids) && left >= 0 && 0 <= levels <= maxLevels
        invariant
          After(trades, SweepFirst(Buy, o, book.asks, LevelDepth(book.asks, previous, maxLevels - levels), left)) == all
        decreases |book.asks|, left
      {
        var sr := book.QuerySellFirst();
        if sr.None? {
          break;
        }
        NextLevel(book.asks, previous, maxLevels - levels);
        if sr.value.price != previous {
          levels := levels + 1;
          if levels > maxLevels {
            break;
          }
          previous := sr.value.price;
        }
        left := TakeSellFirst(o, left, LevelDepth(book.asks, previous, maxLevels - levels));
        SweepStops(Buy, o, book.asks, left);
      }
      SweepStops(Buy, o, book.asks, left);
    }

    method LevelSweepBuy(o: Order, maxLevels: nat) returns (left: int)
      requires book.Valid() && o.stock == stkCode && o.volume >= 0
      modifies this`trades, book
      ensures book.Valid() && book.asks == old(book.asks)
      ensures
        Sweep(book.bids, left, trades) ==
        After(old(trades), SweepFirst(Sell, o, old(book.bids), LevelDepth(old(book.bids), 0.0, maxLevels), o.volume))
    {
      hide SweepFirst, LevelDepth;
      left := o.volume;
      var levels, previous := 0, 0.0;
      ghost var all := After(trades, SweepFirst(Sell, o, book.bids, LevelDepth(book.bids, 0.0, maxLevels), left));
      while left != 0
        invariant book.Valid() && book.asks == old(book.asks) && left >= 0 && 0 <= levels <= maxLevels
        invariant
          After(trades, SweepFirst(Sell, o, book.bids, LevelDepth(book.bids, previous, maxLevels - levels), left)) ==
          all
        decreases |book.bids|, left
      {
        var br := book.QueryBuyFirst();
        if br.None? {
          break;
        }
        NextLevel(book.bids, previous, maxLevels - levels);
        if br.value.price != previous {
          levels := levels + 1;
          if levels > maxLevels {
            break;
          }
          previous := br.value.price;
        }
        left := TakeBuyFirst(o, left, LevelDepth(book.bids, previous, maxLevels - levels));
        SweepStops(Sell, o, book.bids, left);
      }
      SweepStops(Sell, o, book.bids, left);
    }

    method HandleFiveLevelOtherCancel(o: Order)
      requires Ready(o) && o.kind == 3
      modifies this`trades, book
      ensures Did(old(trades), Commit(old(book.Model()), o))
    {
      hide SweepFirst, Insert, LimitDepth, PriceDepth, LevelDepth, TotalVolume;
      if o.direction == 1 {
        var left := LevelSweepSell(o, MAX_LEVELS);
      } else if o.direction == -1 {
        var left := LevelSweepBuy(o, MAX_LEVELS);
      }
    }

    // ---------- type 4: immediate, then cancel ----------

    method ImmediateSweepSell(o: Order) returns (left: int)
      requires book.Valid() && o.stock == stkCode && o.volume >= 0
      modifies this`trades, book
      ensures book.Valid() && book.bids == old(book.bids)
      ensures
        Sweep(book.asks, left, trades) ==
        After(old(trades), SweepFirst(Buy, o, old(book.asks), |old(book.asks)|, o.volume))
    {
      left := o.volume;
      while left != 0
        invariant book.Valid() && book.bids == old(book.bids) && left >= 0
        invariant
          After(trades, SweepFirst(Buy, o, book.asks, |book.asks|, left)) ==
          After(old(trades), SweepFirst(Buy, o, old(book.asks), |old(book.asks)|, o.volume))
        decreases |book.asks|, left
      {
        var sr := book.QuerySellFirst();
        if sr.None? {
          break;
        }
        left := TakeSellFirst(o, left, |book.asks|);
      }
    }

    method ImmediateSweepBuy(o: Order) returns (left: int)
      requires book.Valid() && o.stock == stkCode && o.volume >= 0
      modifies this`trades, book
      ensures book.Valid() && book.asks == old(book.asks)
      ensures
        Sweep(book.bids, left, trades) ==
        After(old(trades), SweepFirst(Sell, o, old(book.bids), |old(book.bids)|, o.volume))
    {
      left := o.volume;
      while left != 0
        invariant book.Valid() && book.asks == old(book.asks) && left >= 0
        invariant
          After(trades, SweepFirst(Sell, o, book.bids, |book.bids|, left)) ==
          After(old(trades), SweepFirst(Sell, o, old(book.bids), |old(book.bids)|, o.volume))
        decreases |book.bids|, left
      {
        var br := book.QueryBuyFirst();
        if br.None? {
          break;
        }
        left := TakeBuyFirst(o, left, |book.bids|);
      }
    }

    method HandleImmediateOtherCancel(o: Order)
      requires Ready(o) && o.kind == 4
      modifies this`trades, book
      ensures Did(old(trades), Commit(old(book.Model()), o))
    {
      hide SweepFirst, Insert, LimitDepth, PriceDepth, LevelDepth, TotalVolume;
      if o.direction == 1 {
        var left := ImmediateSweepSell(o);
      } else if o.direction == -1 {
        var left := ImmediateSweepBuy(o);
      }
    }

    // ---------- type 5: whole or cancel ----------

    /** The total covers the order, so a best record is there for every step. */
    method WholeSweepSell(o: Order) returns (left: int)
      requires book.Valid() && o.stock == stkCode && 0 <= o.volume <= TotalVolume(book.asks)
      modifies this`trades, book
      ensures book.Valid() && book.bids == old(book.bids) && left == 0
      ensures
        Sweep(book.asks, left, trades) ==
        After(old(trades), SweepFirst(Buy, o, old(book.asks), |old(book.asks)|, o.volume))
    {
      left := o.volume;
      while left != 0
        invariant book.Valid() && book.bids == old(book.bids) && left >= 0
        invariant left > 0 ==> left <= TotalVolume(book.asks)
        invariant
          After(trades, SweepFirst(Buy, o, book.asks, |book.asks|, left)) ==
          After(old(trades), SweepFirst(Buy, o, old(book.asks), |old(book.asks)|, o.volume))
        decreases |book.asks|, left
      {
        var sr := book.QuerySellFirst();
        assert sr.Some?;
        left := TakeSellFirst(o, left, |book.asks|);
      }
    }

    /** The total covers the order, so a best record is there for every step. */
    method WholeSweepBuy(o: Order) returns (left: int)
      requires book.Valid() && o.stock == stkCode && 0 <= o.volume <= TotalVolume(book.bids)
      modifies this`trades, book
      ensures book.Valid() && book.asks == old(book.asks) && left == 0
      ensures
        Sweep(book.bids, left, trades) ==
        After(old(trades), SweepFirst(Sell, o, old(book.bids), |old(book.bids)|, o.volume))
    {
      left := o.volume;
      while left != 0
        invariant book.Valid() && book.asks == old(book.asks) && left >= 0
        invariant left > 0 ==> left <= TotalVolume(book.bids)
        invariant
          After(trades, SweepFirst(Sell, o, book.bids, |book.bids|, left)) ==
          After(old(trades), SweepFirst(Sell, o, old(book.bids), |old(book.bids)|, o.volume))
        decreases |book.bids|, left
      {
        var br := book.QueryBuyFirst();
        assert br.Some?;
        left := TakeBuyFirst(o, left, |book.bids|);
      }
    }

    method HandleWholeOrCancel(o: Order)
      requires Ready(o) && o.kind == 5
      modifies this`trades, book
      ensures Did(old(trades), Commit(old(book.Model()), o))
    {
      if o.direction == 1 {
        var total := book.TotalSellVolume();
        if o.volume > total {
          return;
        }
        CoveredByTotal(book.asks);
        var left := WholeSweepSell(o);
      } else if o.direction == -1 {
        var total := book.TotalBuyVolume();
        if o.volume > total {
          return;
        }
        CoveredByTotal(book.bids);
        var left := WholeSweepBuy(o);
      }
    }

    // ---------- committing and receiving ----------

    /** Commits one order on the heaps exactly as the price-time lists prescribe. */
    method CommitOrder(o: Order)
      requires Ready(o)
      modifies this`trades, book
      ensures Did(old(trades), Commit(old(book.Model()), o))
    {
      if o.kind == 0 {
        HandleLimitOrder(o);
      } else if o.kind == 1 {
        HandleCounterpartyBest(o);
      } else if o.kind == 2 {
        HandleOurBest(o);
      } else if o.kind == 3 {
        HandleFiveLevelOtherCancel(o);
      } else if o.kind == 4 {
        HandleImmediateOtherCancel(o);
      } else if o.kind == 5 {
        HandleWholeOrCancel(o);
      }
    }

    /** Puts one order in the heap of waiting orders. */
    method Enqueue(o: Order)
      requires Valid() && ValidOrder(o) && o.stock == stkCode
      modifies this`notReady, this`pending
      ensures Valid() && pending == Insert(old(pending), o, IdGreater)
    {
      var v := PushOrder(notReady, pending, o);
      OneMoreWaiting(pending, o, stkCode);
      notReady, pending := v, Insert(pending, o, IdGreater);
    }

    /** Takes the first waiting order off the heap. */
    method Dequeue()
      requires Heaps(notReady, pending) && notReady != [] && pending != [] && pending[0] == notReady[0]
      modifies this`notReady, this`pending
      ensures Heaps(notReady, pending) && pending == old(pending)[1..]
    {
      var v := PopHeap(notReady, IdGreater);
      PopHeaps(notReady, pending, v);
      notReady, pending := v[..|v| - 1], pending[1..];
    }

    /** Commits the waiting order whose turn it is, then takes it off the heap. */
    method CommitFirst()
      requires Valid() && notReady != [] && pending != [] && pending[0] == notReady[0]
      requires notReady[0].id == lastCommit + 1
      modifies this, book
      ensures Valid() && Model() == CommitNext(old(Model()))
    {
      hide GoodBook, Commit, Ascends, IsHeap, ValidOrder;
      TailWaits(pending, stkCode);
      CommitKeepsGood(book.Model(), pending[0]);
      CommitOrder(notReady[0]);
      Dequeue();
      lastCommit := lastCommit + 1;
    }

    /** Commits the order that the heap gives first; `e` is where the commits in `done` started. */
    method CommitTop(ghost e: Engine, ghost done: seq<Order>)
      requires Valid() && notReady != [] && notReady[0].id == lastCommit + 1
      requires InTurn(e.last, done) && Ascends(done + pending) && Model() == Having(e, done, pending)
      modifies this, book
      ensures Valid() && InTurn(e.last, done + [old(notReady[0])]) && |pending| < |old(pending)|
      ensures Ascends(done + [old(notReady[0])] + pending)
      ensures multiset(done + [old(notReady[0])] + pending) == multiset(done + old(pending))
      ensures Model() == Having(e, done + [old(notReady[0])], pending)
    {
      hide Commit, Having, GoodBook, Insert, AllWaiting, InTurn, Ascends, CommitNext;
      ghost var q := TopMoves(e, done, notReady, pending);
      KeepsWaiting(pending, q, stkCode);
      pending := q;
      CommitFirst();
      TopCommitted(e, done, q);
    }

    /**
     * An order arrives. With no id waiting twice the engine becomes what `Receive` says; with one, the
     * heap chooses which of the two is committed.
     */
    method ReceiveOrder(o: Order)
      requires Valid() && ValidOrder(o) && o.stock == stkCode
      modifies this, book
      ensures Valid() && Received(old(Model()), o, Model())
      ensures DistinctIds(old(pending) + [o]) ==> Model() == Receive(old(Model()), o)
    {
      hide Commit, Having, Drain, Received, GoodBook, Insert, AllWaiting;
      ghost var e, done := Model(), [];
      Enqueue(o);
      InsertAdds(e.pending, o, IdGreater);
      HavingNone(e, pending);
      assert [] + pending == pending;
      while true
        invariant Valid() && InTurn(e.last, done) && Ascends(done + pending)
        invariant multiset(done + pending) == multiset(e.pending) + multiset{o}
        invariant Model() == Having(e, done, pending)
        decreases |pending|
      {
        TopHasFirstId(notReady, pending);
        if |notReady| == 0 {
          break;
        }
        if lastCommit + 1 != notReady[0].id {
          break;
        }
        ghost var top := notReady[0];
        CommitTop(e, done);
        done := done + [top];
      }
      DrainHaving(e, done, pending);
      DrainDone(Model());
      ReceivedIs(e, o, Model(), done + pending);
    }
  }
}
