/** What the six order types mean in terms of each other, of price levels, and of the mirrored book. */
module OrderTypes {
  import opened Types
  import opened BinaryHeap
  import opened Matching
  import opened MatchingLaws

  /** The direction value of an order that comes in on `side`. */
  function Direction(side: Side): int {
    if side.Buy? then 1 else -1
  }

  /** A sweep looks at nothing of the order but its stock, its id and the volume it is given. */
  lemma {:induction false} SweepSameTaker(side: Side, o: Order, q: Order, recs: seq<Record>, n: nat, v: int)
    requires n <= |recs| && o.stock == q.stock && o.id == q.id
    ensures SweepFirst(side, o, recs, n, v) == SweepFirst(side, q, recs, n, v)
  {
    if n > 0 && v > 0 && v >= recs[0].volume {
      SweepSameTaker(side, o, q, recs[1..], n - 1, v - recs[0].volume);
    }
  }

  // ---------- equivalences ----------

  /** Counterparty-best is a limit order at the opposite best price, and nothing happens without one. */
  lemma {:induction false} CounterpartyBestIsLimit(orders: seq<Order>, o: Order, side: Side)
    requires InOrder(orders) && o.kind == 1 && o.direction == Direction(side)
    ensures
      var b := CommitAll(orders).book;
      Commit(b, o) ==
      if Opp(b, side) == [] then Outcome(b, []) else Commit(b, o.(kind := 0, price := Opp(b, side)[0].price))
  {
    var b := CommitAll(orders).book;
    var opp := Opp(b, side);
    if opp != [] {
      RunKeepsGood(orders);
      SidesFromGood(side, b, |orders| + 1);
      RankedPrices(Flip(side), opp);
      BestPriceDepth(side, opp, opp[0].price);
      SweepSameTaker(side, o, o.(kind := 0, price := opp[0].price), opp, PriceDepth(opp, opp[0].price), o.volume);
    }
  }

  /** Own-best is a limit order at the own best price; an uncrossed book lets it trade nothing. */
  lemma {:induction false} OwnBestIsLimit(orders: seq<Order>, o: Order, side: Side)
    requires InOrder(orders) && o.kind == 2 && o.direction == Direction(side)
    ensures
      var b := CommitAll(orders).book;
      && Commit(b, o).trades == []
      && Commit(b, o) ==
         if Own(b, side) == [] then Outcome(b, []) else Commit(b, o.(kind := 0, price := Own(b, side)[0].price))
  {
    var b := CommitAll(orders).book;
    var own, opp := Own(b, side), Opp(b, side);
    if own != [] {
      RunKeepsGood(orders);
      SidesFromGood(side, b, |orders| + 1);
      assert own[0] in own;
      assert opp != [] ==> opp[0] in opp;
      assert LimitDepth(side, opp, own[0].price) == 0;
    }
  }

  // ---------- whole or cancel ----------

  lemma {:induction false} SweepDropsIds(side: Side, o: Order, recs: seq<Record>, n: nat, v: int)
    requires n <= |recs| && forall i :: 0 <= i < |recs| ==> recs[i].id != o.id
    ensures forall r :: r in SweepFirst(side, o, recs, n, v).rest ==> r.id != o.id
  {
    if n > 0 && v > 0 && v >= recs[0].volume {
      SweepDropsIds(side, o, recs[1..], n - 1, v - recs[0].volume);
    }
  }

  lemma {:induction false} NothingRestsAfterTake(side: Side, b: Book, o: Order, n: nat)
    requires GoodBook(b, o.id) && n <= |Opp(b, side)|
    ensures RestingIn(Take(side, b, o, n).book, o.id) == 0
  {
    SidesFromGood(side, b, o.id);
    SweepDropsIds(side, o, Opp(b, side), n, o.volume);
    NothingResting(Own(b, side), o.id);
    NothingResting(SweepFirst(side, o, Opp(b, side), n, o.volume).rest, o.id);
  }

  lemma {:induction false} WholeAccepted(b: Book, o: Order, side: Side)
    requires GoodBook(b, o.id) && o.kind == 5 && o.direction == Direction(side) && o.volume >= 0
    requires o.volume <= Wrap32(TotalVolume(Opp(b, side)))
    ensures Commit(b, o) == Commit(b, o.(kind := 4))
    ensures TradedVolume(Commit(b, o).trades, o.id) == o.volume && RestingIn(Commit(b, o).book, o.id) == 0
  {
    var opp := Opp(b, side);
    SweepSameTaker(side, o, o.(kind := 4), opp, |opp|, o.volume);
    CommitConserves(b, o, o.id);
    SidesFromGood(side, b, o.id);
    NothingResting(Own(b, side), o.id);
    NothingResting(opp, o.id);
    NothingRestsAfterTake(side, b, o, |opp|);
  }

  /** An order is filled whole, exactly as immediate-or-cancel would, or it changes nothing. */
  ghost predicate WholeOrNothing(b: Book, o: Order, whole: bool) {
    var r := Commit(b, o);
    if whole then
      r == Commit(b, o.(kind := 4)) && TradedVolume(r.trades, o.id) == o.volume && RestingIn(r.book, o.id) == 0
    else
      r == Outcome(b, [])
  }

  lemma {:induction false} TotalsOfGoodBook(b: Book, side: Side, bound: int)
    requires GoodBook(b, bound)
    ensures Wrap32(TotalVolume(Opp(b, side))) <= TotalVolume(Opp(b, side))
    ensures
      TotalVolume(Opp(b, side)) < 0x8000_0000 ==> Wrap32(TotalVolume(Opp(b, side))) == TotalVolume(Opp(b, side))
  {
    SidesFromGood(side, b, bound);
    TotalIsNatural(Opp(b, side));
    WrapNeverAbove(TotalVolume(Opp(b, side)));
  }

  /** Refusing an empty order is filling it. */
  lemma {:induction false} EmptyOrder(b: Book, o: Order, side: Side)
    requires GoodBook(b, o.id) && o.kind == 5 && o.direction == Direction(side) && o.volume == 0
    requires Commit(b, o) == Outcome(b, [])
    ensures WholeOrNothing(b, o, true)
  {
    SidesFromGood(side, b, o.id);
    NothingResting(Own(b, side), o.id);
    NothingResting(Opp(b, side), o.id);
    assert Commit(b, o.(kind := 4)) == Outcome(b, []);
  }

  /**
   * Whole-or-cancel on any book a run leaves is accepted exactly when the 32-bit total of the
   * opposite side covers it. So it does what it promises, to fill or refuse by the real total, if
   * and only if the real total falls short, or the 32-bit total covers the order too, or the order is
   * empty; a real total below 2^31 is enough for that.
   */
  lemma {:induction false} WholeOrCancelIsExact(orders: seq<Order>, o: Order, side: Side)
    requires InOrder(orders) && o.kind == 5 && o.direction == Direction(side)
    requires o.id == |orders| + 1 && o.volume >= 0
    ensures
      var b := CommitAll(orders).book;
      var total := TotalVolume(Opp(b, side));
      && WholeOrNothing(b, o, o.volume <= Wrap32(total))
      && (o.volume <= Wrap32(total) ==> o.volume <= total)
      && (WholeOrNothing(b, o, o.volume <= total) <==>
          o.volume > total || o.volume <= Wrap32(total) || o.volume == 0)
      && (total < 0x8000_0000 ==> WholeOrNothing(b, o, o.volume <= total))
  {
    var b := CommitAll(orders).book;
    RunKeepsGood(orders);
    TotalsOfGoodBook(b, side, o.id);
    if o.volume <= Wrap32(TotalVolume(Opp(b, side))) {
      WholeAccepted(b, o, side);
    } else if o.volume == 0 {
      EmptyOrder(b, o, side);
    }
  }

  lemma {:induction false} CommitOneMore(orders: seq<Order>, o: Order)
    ensures
      var r := CommitAll(orders);
      CommitAll(orders + [o]) == Outcome(Commit(r.book, o).book, r.trades + Commit(r.book, o).trades)
  {
    assert (orders + [o])[..|orders|] == orders;
  }

  lemma {:induction false} InsertLast(s: seq<Record>, x: Record)
    requires forall i :: 0 <= i < |s| ==> !SellLess(s[i], x)
    ensures Insert(s, x, SellLess) == s + [x]
  {
    if s != [] {
      InsertLast(s[1..], x);
    }
  }

  /** Where only asks rest, a limit order to sell at no better price and with a later id rests behind them. */
  lemma {:induction false} AskRests(orders: seq<Order>, o: Order, asks: seq<Record>)
    requires CommitAll(orders) == Outcome(Book([], asks), [])
    requires o.direction == -1 && o.kind == 0 && o.volume > 0
    requires forall i :: 0 <= i < |asks| ==> asks[i].price <= o.price && asks[i].id < o.id
    ensures CommitAll(orders + [o]) == Outcome(Book([], asks + [Record(o.id, o.price, o.volume)]), [])
  {
    CommitOneMore(orders, o);
    InsertLast(asks, Record(o.id, o.price, o.volume));
  }

  const BIG_SELL := Order(1, 1, -1, 0, 10.0, 0x7fff_ffff)
  const SMALL_SELL := Order(1, 2, -1, 0, 10.0, 1)

  lemma {:induction false} WrappedBook()
    ensures
      var r := CommitAll([BIG_SELL, SMALL_SELL]);
      r.trades == [] && TotalVolume(r.book.asks) == 0x8000_0000
  {
    var big, small := Record(1, 10.0, 0x7fff_ffff), Record(2, 10.0, 1);
    AskRests([], BIG_SELL, []);
    hide CommitAll, Commit;
    assert [] + [BIG_SELL] == [BIG_SELL] && [] + [big] == [big];
    AskRests([BIG_SELL], SMALL_SELL, [big]);
    assert [BIG_SELL] + [SMALL_SELL] == [BIG_SELL, SMALL_SELL];
    TotalVolumeConcat([big], [small]);
  }

  /**
   * Past 2^31 - 1 the 32-bit total refuses an order that the opposite side could fill: after two limit
   * orders to sell, of volumes 2^31 - 1 and 1, a whole-or-cancel order to buy 1 changes nothing.
   */
  lemma {:induction false} WrappedTotalRefuses()
    ensures
      var sells, o := [BIG_SELL, SMALL_SELL], Order(1, 3, 1, 5, 0.0, 1);
      && InOrder(sells + [o]) && o.volume <= TotalVolume(CommitAll(sells).book.asks)
      && CommitAll(sells + [o]) == CommitAll(sells) && CommitAll(sells).trades == []
  {
    hide CommitAll, Commit, TotalVolume;
    var sells, o := [BIG_SELL, SMALL_SELL], Order(1, 3, 1, 5, 0.0, 1);
    WrappedBook();
    WholeOrCancelIsExact(sells, o, Buy);
    CommitOneMore(sells, o);
  }

  // ---------- five levels ----------

  function Prices(s: seq<Record>): set<real> {
    set i | 0 <= i < |s| :: s[i].price
  }

  /** `n` is the longest prefix of `recs` with at most `levels` different prices. */
  ghost predicate IsLevelPrefix(recs: seq<Record>, n: int, levels: int) {
    && 0 <= n <= |recs| && |Prices(recs[..n])| <= levels
    && (n < |recs| ==> |Prices(recs[..n + 1])| > levels)
  }

  lemma {:induction false} SubsetSize<T>(a: set<T>, b: set<T>)
    requires a <= b
    ensures |a| <= |b|
  {
    assert b == a + (b - a);
  }

  lemma {:induction false} PricesGrow(s: seq<Record>, m: nat, n: nat)
    requires m <= n <= |s|
    ensures Prices(s[..m]) <= Prices(s[..n]) && |Prices(s[..m])| <= |Prices(s[..n])|
  {
    forall p | p in Prices(s[..m])
      ensures p in Prices(s[..n])
    {
      var i :| 0 <= i < m && s[..m][i].price == p;
      assert s[..n][i].price == p;
    }
    SubsetSize(Prices(s[..m]), Prices(s[..n]));
  }

  lemma {:induction false} LevelPrefixIsUnique(recs: seq<Record>, m: nat, n: nat, levels: int)
    requires IsLevelPrefix(recs, m, levels) && IsLevelPrefix(recs, n, levels)
    ensures m == n
  {
    if m < n {
      PricesGrow(recs, m + 1, n);
    } else if n < m {
      PricesGrow(recs, n + 1, m);
    }
  }

  lemma {:induction false} PricesCons(s: seq<Record>)
    requires s != []
    ensures Prices(s) == {s[0].price} + Prices(s[1..])
  {
    assert forall i :: 0 < i < |s| ==> s[i] == s[1..][i - 1];
  }

  lemma {:induction false} OneMorePrice(s: seq<Record>, previous: real, size: int)
    requires s != [] && |{s[0].price} + Prices(s[1..])| == size
    requires s[0].price != previous ==> previous !in Prices(s[1..])
    ensures |{previous} + Prices(s)| == if s[0].price == previous then size else size + 1
  {
    var deeper := {s[0].price} + Prices(s[1..]);
    PricesCons(s);
    if s[0].price == previous {
      assert {previous} + Prices(s) == deeper;
    } else {
      assert {previous} + Prices(s) == {previous} + deeper;
    }
  }

  /** Up to `n`, at most `budget` prices besides `previous`; and one more at `n`, if there is a record. */
  ghost predicate Counted(recs: seq<Record>, n: int, previous: real, budget: int) {
    && 0 <= n <= |recs|
    && |{previous} + Prices(recs[..n])| <= budget + 1
    && (n < |recs| ==>
          |{previous} + Prices(recs[..n])| == budget + 1 && recs[n].price !in {previous} + Prices(recs[..n]))
  }

  lemma {:induction false} CountedOneMore(recs: seq<Record>, n: nat, previous: real, budget: int)
    requires recs != [] && (recs[0].price != previous ==> forall j :: 0 <= j < |recs| ==> recs[j].price != previous)
    requires Counted(recs[1..], n, recs[0].price, if recs[0].price == previous then budget else budget - 1)
    ensures Counted(recs, n + 1, previous, budget)
  {
    var first := recs[..n + 1];
    assert first[1..] == recs[1..][..n];
    PricesCons(first);
    OneMorePrice(first, previous, |{recs[0].price} + Prices(first[1..])|);
  }

  lemma {:induction false} CountedNone(recs: seq<Record>, previous: real, budget: nat)
    requires recs == [] || (recs[0].price != previous && budget == 0)
    ensures Counted(recs, 0, previous, budget)
  {
    assert recs[..0] == [];
    assert {previous} + Prices([]) == {previous};
  }

  /** All prices are `previous` or lie beyond it. */
  ghost predicate From(side: Side, recs: seq<Record>, previous: real) {
    forall j :: 0 <= j < |recs| ==> recs[j].price == previous || Outside(side, recs[j].price, previous)
  }

  lemma {:induction false} FromFirst(side: Side, recs: seq<Record>, previous: real)
    requires Ranked(recs, Less(side)) && recs != [] && From(side, recs, previous)
    ensures Ranked(recs[1..], Less(side)) && From(side, recs[1..], recs[0].price)
    ensures recs[0].price != previous ==> forall j :: 0 <= j < |recs| ==> recs[j].price != previous
  {
    RankedPrices(side, recs);
  }

  /** Counting price changes counts prices, because a ranked list never returns to a price. */
  lemma {:induction false} LevelDepthCounts(side: Side, recs: seq<Record>, previous: real, budget: nat)
    requires Ranked(recs, Less(side)) && From(side, recs, previous)
    ensures Counted(recs, LevelDepth(recs, previous, budget), previous, budget)
  {
    hide Counted, Ranked, From;
    if recs == [] || (recs[0].price != previous && budget == 0) {
      CountedNone(recs, previous, budget);
    } else {
      FromFirst(side, recs, previous);
      if recs[0].price == previous {
        LevelDepthCounts(side, recs[1..], previous, budget);
        CountedOneMore(recs, LevelDepth(recs[1..], previous, budget), previous, budget);
      } else {
        LevelDepthCounts(side, recs[1..], recs[0].price, budget - 1);
        CountedOneMore(recs, LevelDepth(recs[1..], recs[0].price, budget - 1), previous, budget);
      }
    }
  }

  /** A resting best price of 0 is taken for "no previous price" and gets a sixth level. */
  function LevelsReached(recs: seq<Record>): int {
    if recs != [] && recs[0].price == 0.0 then 6 else 5
  }

  lemma {:induction false} PricesSnoc(s: seq<Record>, r: Record)
    ensures Prices(s + [r]) == Prices(s) + {r.price}
  {
    var t := s + [r];
    forall p
      ensures p in Prices(t) <==> p in Prices(s) + {r.price}
    {
      if p in Prices(s) {
        var i :| 0 <= i < |s| && s[i].price == p;
        assert t[i].price == p;
      } else if p == r.price {
        assert t[|s|].price == p;
      }
    }
  }

  lemma {:induction false} PrefixOneMore(recs: seq<Record>, m: nat, levels: int)
    requires recs != [] && Counted(recs[1..], m, recs[0].price, levels - 1)
    ensures IsLevelPrefix(recs, m + 1, levels)
  {
    var n := m + 1;
    PricesCons(recs[..n]);
    assert recs[..n][1..] == recs[1..][..m];
    if n < |recs| {
      assert recs[..n + 1] == recs[..n] + [recs[n]];
      PricesSnoc(recs[..n], recs[n]);
    }
  }

  lemma {:induction false} LevelDepthAfterFirst(side: Side, recs: seq<Record>, budget: nat)
    requires Ranked(recs, Less(side)) && recs != []
    ensures IsLevelPrefix(recs, 1 + LevelDepth(recs[1..], recs[0].price, budget), budget + 1)
  {
    RankedPrices(side, recs);
    LevelDepthCounts(side, recs[1..], recs[0].price, budget);
    PrefixOneMore(recs, LevelDepth(recs[1..], recs[0].price, budget), budget + 1);
  }

  lemma {:induction false} FirstLevel(recs: seq<Record>, budget: nat)
    requires recs != [] && budget > 0
    ensures
      LevelDepth(recs, 0.0, budget) ==
      1 + LevelDepth(recs[1..], recs[0].price, if recs[0].price == 0.0 then budget else budget - 1)
  {
  }

  lemma {:induction false} LevelDepthIsPrefix(side: Side, recs: seq<Record>, budget: nat)
    requires Ranked(recs, Less(side)) && recs != [] && budget > 0
    ensures
      IsLevelPrefix(recs, LevelDepth(recs, 0.0, budget), if recs[0].price == 0.0 then budget + 1 else budget)
  {
    var deeper := if recs[0].price == 0.0 then budget else budget - 1;
    LevelDepthAfterFirst(side, recs, deeper);
    FirstLevel(recs, budget);
  }

  /**
   * A five-level order trades greedily with exactly the records at the best five prices of the
   * opposite side (six when the best of them is 0), and inserts nothing on its own side.
   */
  lemma {:induction false} FiveLevelIsGreedy(orders: seq<Order>, o: Order, side: Side, n: nat)
    requires InOrder(orders) && o.kind == 3 && o.direction == Direction(side)
    requires IsLevelPrefix(Opp(CommitAll(orders).book, side), n, LevelsReached(Opp(CommitAll(orders).book, side)))
    ensures
      var b := CommitAll(orders).book;
      var s := SweepFirst(side, o, Opp(b, side), n, o.volume);
      && Commit(b, o).trades == s.trades
      && Opp(Commit(b, o).book, side) == s.rest
      && Own(Commit(b, o).book, side) == Own(b, side)
  {
    var b := CommitAll(orders).book;
    RunKeepsGood(orders);
    SidesFromGood(side, b, |orders| + 1);
    if Opp(b, side) != [] {
      LevelDepthIsPrefix(Flip(side), Opp(b, side), MAX_LEVELS);
    } else {
      assert Prices([]) == {};
    }
    LevelPrefixIsUnique(Opp(b, side), n, LevelDepth(Opp(b, side), 0.0, MAX_LEVELS), LevelsReached(Opp(b, side)));
  }

  /**
   * The depth of a five-level order is that of the best five prices if and only if the best price is
   * not 0 or there are at most five different prices.
   */
  lemma {:induction false} FiveLevelDepth(side: Side, recs: seq<Record>)
    requires Ranked(recs, Less(side))
    ensures
      IsLevelPrefix(recs, LevelDepth(recs, 0.0, MAX_LEVELS), 5) <==>
      recs == [] || recs[0].price != 0.0 || |Prices(recs)| <= 5
  {
    var n := LevelDepth(recs, 0.0, MAX_LEVELS);
    assert recs[..|recs|] == recs;
    if recs == [] {
      assert Prices([]) == {};
    } else {
      LevelDepthIsPrefix(side, recs, MAX_LEVELS);
      PricesGrow(recs, n, |recs|);
      if n < |recs| {
        PricesGrow(recs, n + 1, |recs|);
        assert recs[..n + 1] == recs[..n] + [recs[n]];
        PricesSnoc(recs[..n], recs[n]);
      }
    }
  }

  /** And it is never less. */
  lemma {:induction false} FiveLevelsReached(side: Side, recs: seq<Record>, n: nat)
    requires Ranked(recs, Less(side)) && IsLevelPrefix(recs, n, 5)
    ensures n <= LevelDepth(recs, 0.0, MAX_LEVELS)
  {
    var m := LevelDepth(recs, 0.0, MAX_LEVELS);
    if recs != [] {
      LevelDepthIsPrefix(side, recs, MAX_LEVELS);
      if m < n {
        PricesGrow(recs, m + 1, n);
      }
    }
  }

  lemma {:induction false} TotalOfPrefix(recs: seq<Record>, n: nat)
    requires 0 < n <= |recs|
    ensures TotalVolume(recs[..n]) == recs[0].volume + TotalVolume(recs[1..][..n - 1])
  {
    assert recs[..n][1..] == recs[1..][..n - 1];
  }

  lemma {:induction false} SameAfterFirst<T>(x: T, a: seq<T>, b: seq<T>)
    ensures [x] + a == [x] + b <==> a == b
  {
    assert ([x] + a)[1..] == a && ([x] + b)[1..] == b;
  }

  /** A deeper sweep does the same if and only if the shallower depth holds the whole volume. */
  lemma {:induction false} DeeperSweep(side: Side, o: Order, recs: seq<Record>, n: nat, m: nat, v: int)
    requires n < m <= |recs| && forall i :: 0 <= i < |recs| ==> recs[i].volume > 0
    ensures
      if v <= TotalVolume(recs[..n]) then SweepFirst(side, o, recs, n, v) == SweepFirst(side, o, recs, m, v)
      else SweepFirst(side, o, recs, n, v).trades != SweepFirst(side, o, recs, m, v).trades
  {
    if n > 0 {
      TotalOfPrefix(recs, n);
      TotalIsNatural(recs[1..][..n - 1]);
      if v > 0 && v >= recs[0].volume {
        var u := v - recs[0].volume;
        DeeperSweep(side, o, recs[1..], n - 1, m - 1, u);
        var x := TradeOf(side, o, recs[0], recs[0].volume);
        SameAfterFirst(x, SweepFirst(side, o, recs[1..], n - 1, u).trades,
                       SweepFirst(side, o, recs[1..], m - 1, u).trades);
      }
    }
  }

  lemma {:induction false} FiveLevelCommit(b: Book, o: Order, side: Side)
    requires o.kind == 3 && o.direction == Direction(side)
    ensures Commit(b, o) == Take(side, b, o, LevelDepth(Opp(b, side), 0.0, MAX_LEVELS))
  {
  }

  lemma {:induction false} PrefixBound(recs: seq<Record>, n: int, levels: int)
    requires IsLevelPrefix(recs, n, levels)
    ensures 0 <= n <= |recs|
  {
  }

  /**
   * On every reachable book, a five-level order trades with the best five prices and no others, as
   * promised, if and only if the best opposite price is not 0, or there are at most five different
   * prices, or those five hold the whole volume of the order.
   */
  lemma {:induction false} FiveLevelsExactly(orders: seq<Order>, o: Order, side: Side, n: nat)
    requires InOrder(orders) && o.kind == 3 && o.direction == Direction(side)
    requires IsLevelPrefix(Opp(CommitAll(orders).book, side), n, 5)
    ensures
      var b := CommitAll(orders).book;
      var opp := Opp(b, side);
      Commit(b, o) == Take(side, b, o, n) <==>
      opp == [] || opp[0].price != 0.0 || |Prices(opp)| <= 5 || o.volume <= TotalVolume(opp[..n])
  {
    hide CommitAll, Commit, GoodBook, SweepFirst, LevelDepth, IsLevelPrefix, Prices;
    var b := CommitAll(orders).book;
    var opp := Opp(b, side);
    RunKeepsGood(orders);
    SidesFromGood(side, b, |orders| + 1);
    FiveLevelCommit(b, o, side);
    FiveLevelDepth(Flip(side), opp);
    FiveLevelsReached(Flip(side), opp, n);
    PrefixBound(opp, n, 5);
    var m := LevelDepth(opp, 0.0, MAX_LEVELS);
    if IsLevelPrefix(opp, m, MAX_LEVELS) {
      LevelPrefixIsUnique(opp, n, m, MAX_LEVELS);
    } else {
      DeeperSweep(side, o, opp, n, m, o.volume);
    }
  }

  // A concrete run that shows the sixth level.

  /** Limit orders to sell 1 at the prices 0, 1, ..., n - 1. */
  function Sells(n: nat): (orders: seq<Order>)
    ensures |orders| == n && forall i :: 0 <= i < n ==> orders[i] == Order(1, i + 1, -1, 0, i as real, 1)
  {
    if n == 0 then [] else Sells(n - 1) + [Order(1, n, -1, 0, (n - 1) as real, 1)]
  }

  function SellRecords(n: nat): (recs: seq<Record>)
    ensures |recs| == n && forall i :: 0 <= i < n ==> recs[i] == Record(i + 1, i as real, 1)
  {
    if n == 0 then [] else SellRecords(n - 1) + [Record(n, (n - 1) as real, 1)]
  }

  lemma {:induction false} SellsRest(n: nat)
    ensures CommitAll(Sells(n)) == Outcome(Book([], SellRecords(n)), [])
  {
    if n > 0 {
      SellsRest(n - 1);
      hide CommitAll;
      AskRests(Sells(n - 1), Order(1, n, -1, 0, (n - 1) as real, 1), SellRecords(n - 1));
    }
  }

  lemma {:induction false} SellTotals(n: nat)
    ensures |Prices(SellRecords(n))| == n && TotalVolume(SellRecords(n)) == n
  {
    if n == 0 {
      assert Prices([]) == {};
    } else {
      var recs, x := SellRecords(n - 1), Record(n, (n - 1) as real, 1);
      SellTotals(n - 1);
      PricesSnoc(recs, x);
      assert x.price !in Prices(recs);
      TotalVolumeConcat(recs, [x]);
      assert TotalVolume([x]) == 1;
    }
  }

  lemma {:induction false} SellPrefix(n: nat, m: nat)
    requires m <= n
    ensures SellRecords(n)[..m] == SellRecords(m)
  {
  }

  /**
   * After six limit orders to sell 1 at the prices 0, 1, ..., 5, a five-level order to buy 6 does not
   * stop after five prices: a witness for the engine, which takes orders at any price.
   */
  lemma {:induction false} SixLevelsTaken()
    ensures
      var b := CommitAll(Sells(6)).book;
      && InOrder(Sells(6)) && IsLevelPrefix(b.asks, 5, 5)
      && Commit(b, Order(1, 7, 1, 3, 0.0, 6)) != Take(Buy, b, Order(1, 7, 1, 3, 0.0, 6), 5)
  {
    SellsRest(6);
    SellTotals(5);
    SellTotals(6);
    SellPrefix(6, 5);
    SellPrefix(6, 6);
    FiveLevelsExactly(Sells(6), Order(1, 7, 1, 3, 0.0, 6), Buy, 5);
  }

  // ---------- buy and sell are mirror images ----------

  function MirrorRecord(r: Record): Record {
    r.(price := -r.price)
  }

  function MirrorRecords(s: seq<Record>): (r: seq<Record>)
    ensures |r| == |s| && forall i :: 0 <= i < |s| ==> r[i] == MirrorRecord(s[i])
  {
    if s == [] then [] else [MirrorRecord(s[0])] + MirrorRecords(s[1..])
  }

  function MirrorBook(b: Book): Book {
    Book(MirrorRecords(b.asks), MirrorRecords(b.bids))
  }

  function MirrorOrder(o: Order): Order {
    o.(direction := -o.direction, price := -o.price)
  }

  function MirrorTrade(t: Trade): Trade {
    Trade(t.stock, t.ask, t.bid, -t.price, t.volume)
  }

  function MirrorTrades(s: seq<Trade>): (r: seq<Trade>)
    ensures |r| == |s|
  {
    if s == [] then [] else [MirrorTrade(s[0])] + MirrorTrades(s[1..])
  }

  function MirrorOutcome(r: Outcome): Outcome {
    Outcome(MirrorBook(r.book), MirrorTrades(r.trades))
  }

  function MirrorOrders(orders: seq<Order>): (r: seq<Order>)
    ensures |r| == |orders| && forall i :: 0 <= i < |orders| ==> r[i] == MirrorOrder(orders[i])
  {
    if orders == [] then [] else [MirrorOrder(orders[0])] + MirrorOrders(orders[1..])
  }

  lemma {:induction false} MirrorLastFill(side: Side, o: Order, recs: seq<Record>, v: int)
    requires recs != [] && 0 < v < recs[0].volume
    ensures
      var s := SweepFirst(side, o, recs, 1, v);
      SweepFirst(Flip(side), MirrorOrder(o), MirrorRecords(recs), 1, v) ==
      Sweep(MirrorRecords(s.rest), s.left, MirrorTrades(s.trades))
  {
    var m := MirrorRecords(recs);
    var rest := recs[0 := recs[0].(volume := recs[0].volume - v)];
    assert MirrorRecords(rest) == m[0 := m[0].(volume := m[0].volume - v)];
    var t := TradeOf(side, o, recs[0], v);
    assert [t][1..] == [];
    assert MirrorTrades([t]) == [MirrorTrade(t)];
  }

  lemma {:induction false} MirrorSweep(side: Side, o: Order, recs: seq<Record>, n: nat, v: int)
    requires n <= |recs|
    ensures
      var s := SweepFirst(side, o, recs, n, v);
      SweepFirst(Flip(side), MirrorOrder(o), MirrorRecords(recs), n, v) ==
      Sweep(MirrorRecords(s.rest), s.left, MirrorTrades(s.trades))
  {
    if n == 0 || v <= 0 {
    } else if v < recs[0].volume {
      MirrorLastFill(side, o, recs, v);
    } else {
      assert MirrorRecords(recs)[1..] == MirrorRecords(recs[1..]);
      MirrorSweep(side, o, recs[1..], n - 1, v - recs[0].volume);
      var s := SweepFirst(side, o, recs, n, v);
      assert s.trades[1..] == SweepFirst(side, o, recs[1..], n - 1, v - recs[0].volume).trades;
    }
  }

  lemma {:induction false} MirrorDepths(side: Side, recs: seq<Record>, price: real, budget: nat)
    ensures LimitDepth(Flip(side), MirrorRecords(recs), -price) == LimitDepth(side, recs, price)
    ensures PriceDepth(MirrorRecords(recs), -price) == PriceDepth(recs, price)
    ensures LevelDepth(MirrorRecords(recs), -price, budget) == LevelDepth(recs, price, budget)
    ensures TotalVolume(MirrorRecords(recs)) == TotalVolume(recs)
  {
    if recs != [] {
      assert MirrorRecords(recs)[1..] == MirrorRecords(recs[1..]);
      MirrorDepths(side, recs[1..], price, budget);
      if recs[0].price != price && budget > 0 {
        MirrorDepths(side, recs[1..], recs[0].price, budget - 1);
      }
    }
  }

  lemma {:induction false} MirrorInsert(side: Side, s: seq<Record>, x: Record)
    ensures Insert(MirrorRecords(s), MirrorRecord(x), Less(Flip(side))) == MirrorRecords(Insert(s, x, Less(side)))
  {
    if s == [] {
      assert [x][1..] == [];
    } else if Less(side)(s[0], x) {
      assert ([x] + s)[1..] == s;
    } else {
      MirrorInsert(side, s[1..], x);
      assert MirrorRecords(s)[1..] == MirrorRecords(s[1..]);
      assert Insert(s, x, Less(side))[1..] == Insert(s[1..], x, Less(side));
    }
  }

  lemma {:induction false} MirrorRest(side: Side, own: seq<Record>, id: int, price: real, volume: int)
    ensures
      Rest(Flip(side), MirrorRecords(own), id, -price, volume) ==
      MirrorRecords(Rest(side, own, id, price, volume))
  {
    MirrorInsert(side, own, Record(id, price, volume));
  }

  lemma {:induction false} MirrorSides(side: Side, b: Book)
    ensures Own(MirrorBook(b), Flip(side)) == MirrorRecords(Own(b, side))
    ensures Opp(MirrorBook(b), Flip(side)) == MirrorRecords(Opp(b, side))
  {
  }

  lemma {:induction false} MirrorTake(side: Side, b: Book, o: Order, n: nat, price: real)
    requires n <= |Opp(b, side)|
    ensures Take(Flip(side), MirrorBook(b), MirrorOrder(o), n) == MirrorOutcome(Take(side, b, o, n))
    ensures
      TakeThenRest(Flip(side), MirrorBook(b), MirrorOrder(o), n, -price) ==
      MirrorOutcome(TakeThenRest(side, b, o, n, price))
  {
    MirrorSides(side, b);
    MirrorSweep(side, o, Opp(b, side), n, o.volume);
    MirrorRest(side, Own(b, side), o.id, price, SweepFirst(side, o, Opp(b, side), n, o.volume).left);
  }

  lemma {:induction false} MirrorLimit(side: Side, b: Book, o: Order, limit: real)
    ensures
      LimitOutcome(Flip(side), MirrorBook(b), MirrorOrder(o), -limit) == MirrorOutcome(LimitOutcome(side, b, o, limit))
  {
    MirrorSides(side, b);
    MirrorDepths(side, Opp(b, side), limit, 0);
    MirrorTake(side, b, o, LimitDepth(side, Opp(b, side), limit), limit);
  }

  lemma {:induction false} MirrorCounterpartyBest(side: Side, b: Book, o: Order)
    ensures
      CounterpartyBestOutcome(Flip(side), MirrorBook(b), MirrorOrder(o)) ==
      MirrorOutcome(CounterpartyBestOutcome(side, b, o))
  {
    var opp := Opp(b, side);
    MirrorSides(side, b);
    if opp != [] {
      MirrorDepths(side, opp, opp[0].price, 0);
      MirrorTake(side, b, o, PriceDepth(opp, opp[0].price), opp[0].price);
    }
  }

  lemma {:induction false} MirrorOwnBest(side: Side, b: Book, o: Order)
    ensures OwnBestOutcome(Flip(side), MirrorBook(b), MirrorOrder(o)) == MirrorOutcome(OwnBestOutcome(side, b, o))
  {
    var own := Own(b, side);
    MirrorSides(side, b);
    if own != [] {
      MirrorInsert(side, own, Record(o.id, own[0].price, o.volume));
    }
  }

  lemma {:induction false} MirrorLevels(side: Side, b: Book, o: Order, budget: nat)
    ensures
      Take(Flip(side), MirrorBook(b), MirrorOrder(o), LevelDepth(Opp(MirrorBook(b), Flip(side)), 0.0, budget)) ==
      MirrorOutcome(Take(side, b, o, LevelDepth(Opp(b, side), 0.0, budget)))
  {
    MirrorSides(side, b);
    MirrorDepths(side, Opp(b, side), 0.0, budget);
    MirrorTake(side, b, o, LevelDepth(Opp(b, side), 0.0, budget), 0.0);
  }

  lemma {:induction false} MirrorWhole(side: Side, b: Book, o: Order)
    ensures ImmediateOutcome(Flip(side), MirrorBook(b), MirrorOrder(o)) == MirrorOutcome(ImmediateOutcome(side, b, o))
    ensures WholeOutcome(Flip(side), MirrorBook(b), MirrorOrder(o)) == MirrorOutcome(WholeOutcome(side, b, o))
  {
    MirrorSides(side, b);
    MirrorDepths(side, Opp(b, side), 0.0, 0);
    MirrorTake(side, b, o, |Opp(b, side)|, 0.0);
  }

  lemma {:induction false} MirrorCommitOn(side: Side, b: Book, o: Order)
    ensures CommitOn(Flip(side), MirrorBook(b), MirrorOrder(o)) == MirrorOutcome(CommitOn(side, b, o))
  {
    if o.kind == 0 {
      MirrorLimit(side, b, o, o.price);
    } else if o.kind == 1 {
      MirrorCounterpartyBest(side, b, o);
    } else if o.kind == 2 {
      MirrorOwnBest(side, b, o);
    } else if o.kind == 3 {
      MirrorLevels(side, b, o, MAX_LEVELS);
    } else if o.kind == 4 || o.kind == 5 {
      MirrorWhole(side, b, o);
    }
  }

  /** For every book and every order, mirroring first and committing then is committing first and mirroring then. */
  lemma {:induction false} MirrorCommit(b: Book, o: Order)
    ensures Commit(MirrorBook(b), MirrorOrder(o)) == MirrorOutcome(Commit(b, o))
  {
    MirrorCommitOn(Buy, b, o);
    MirrorCommitOn(Sell, b, o);
  }

  lemma {:induction false} MirrorTradesConcat(a: seq<Trade>, b: seq<Trade>)
    ensures MirrorTrades(a + b) == MirrorTrades(a) + MirrorTrades(b)
  {
    if a == [] {
      assert a + b == b;
    } else {
      assert (a + b)[1..] == a[1..] + b;
      MirrorTradesConcat(a[1..], b);
    }
  }

  /** A mirrored run ends in the mirrored book with the mirrored trades. */
  lemma {:induction false} MirrorRun(orders: seq<Order>)
    ensures CommitAll(MirrorOrders(orders)) == MirrorOutcome(CommitAll(orders))
  {
    if orders != [] {
      var n := |orders| - 1;
      var before := CommitAll(orders[..n]);
      MirrorRun(orders[..n]);
      assert MirrorOrders(orders)[..n] == MirrorOrders(orders[..n]);
      MirrorCommit(before.book, orders[n]);
      MirrorTradesConcat(before.trades, Commit(before.book, orders[n]).trades);
    }
  }
}
