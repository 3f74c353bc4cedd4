/**
 * What the traders' price check does for the books: whatever the schedule, every resting price was
 * accepted by a trader, so where the limits are positive a five-level order stops after five prices.
 */
module PriceLimits {
  import opened Types
  import opened Matching
  import opened MatchingLaws
  import opened OrderTypes
  import opened System
  import opened FlowControl
  import opened Protocol
  import opened Schedule

  ghost predicate AllOk(s: seq<Record>, ok: real -> bool) {
    forall r :: r in s ==> ok(r.price)
  }

  ghost predicate BookOk(b: Book, ok: real -> bool) {
    AllOk(b.bids, ok) && AllOk(b.asks, ok)
  }

  lemma {:induction false} SweepOk(side: Side, b: Book, o: Order, n: nat, ok: real -> bool)
    requires GoodBook(b, o.id) && n <= |Opp(b, side)| && o.volume >= 0 && AllOk(Opp(b, side), ok)
    ensures AllOk(SweepFirst(side, o, Opp(b, side), n, o.volume).rest, ok)
  {
    SidesFromGood(side, b, o.id);
    SweepKeepsGood(side, o, Opp(b, side), n, o.volume, o.id);
  }

  lemma {:induction false} RestOk(side: Side, own: seq<Record>, id: int, price: real, volume: int, ok: real -> bool)
    requires GoodSide(side, own, id) && AllOk(own, ok) && ok(price)
    ensures AllOk(Rest(side, own, id, price, volume), ok)
  {
    RestKeepsGood(side, own, id, price, volume);
  }

  lemma {:induction false} FirstOk(s: seq<Record>, ok: real -> bool)
    requires s != [] && AllOk(s, ok)
    ensures ok(s[0].price)
  {
    assert s[0] in s;
  }

  /** No order type rests at a price that was neither stated by a limit order nor there before. */
  lemma {:induction false} CommitOnOk(side: Side, b: Book, o: Order, ok: real -> bool)
    requires GoodBook(b, o.id) && (0 <= o.kind <= 5 ==> o.volume >= 0)
    requires BookOk(b, ok) && (o.kind == 0 ==> ok(o.price))
    ensures BookOk(CommitOn(side, b, o).book, ok)
  {
    hide GoodSide, SweepFirst, Rest, AllOk;
    var own, opp, n := Own(b, side), Opp(b, side), DepthOf(side, b, o);
    SidesFromGood(side, b, o.id);
    if 0 <= o.kind <= 5 {
      SweepOk(side, b, o, n, ok);
    }
    var left := SweepFirst(side, o, opp, n, o.volume).left;
    if o.kind == 0 {
      RestOk(side, own, o.id, o.price, left, ok);
    } else if o.kind == 1 && opp != [] {
      FirstOk(opp, ok);
      RestOk(side, own, o.id, opp[0].price, left, ok);
    } else if o.kind == 2 && own != [] {
      FirstOk(own, ok);
      RestOk(side, own, o.id, own[0].price, o.volume, ok);
    }
  }

  /** What is true of the prices of all limit orders of a run is true of every price that ever rests. */
  lemma {:induction false} RunOk(orders: seq<Order>, ok: real -> bool)
    requires InOrder(orders) && forall i :: 0 <= i < |orders| && orders[i].kind == 0 ==> ok(orders[i].price)
    ensures BookOk(CommitAll(orders).book, ok)
  {
    if orders != [] {
      var prefix, o := orders[..|orders| - 1], orders[|orders| - 1];
      RunOk(prefix, ok);
      RunKeepsGood(prefix);
      if o.direction == 1 {
        CommitOnOk(Buy, CommitAll(prefix).book, o, ok);
      } else if o.direction == -1 {
        CommitOnOk(Sell, CommitAll(prefix).book, o, ok);
      }
    }
  }

  /** Some trader takes the price for one within the limits of stock `s`. */
  ghost predicate Accepted(c: Config, s: int, price: real) {
    exists t :: c.IsTrader(t) && c.low(t, s) <= price <= c.high(t, s)
  }

  lemma {:induction false} PolledAccepted(c: Config, q: State, s: int, j: nat)
    requires ValidConfig(c) && FlowInv(c, q.flow) && AllHonest(c, q.flow, q.core) && j < |q.flow.Polled(s)|
    ensures q.flow.Polled(s)[j].kind == 0 ==> Accepted(c, s, q.flow.Polled(s)[j].price)
  {
    hide ListsInv, WindowsInv, WiresHome, AllHonest, IsArrived, Produced;
    assert PolledInv(c, q.flow, s);
    var t, i := SourceOfArrived(c, q.flow, q.core, s, q.flow.Polled(s)[j]);
    assert c.IsTrader(t);
  }

  /** In every reachable state, every price in a stock's book lies within the limits of some trader. */
  lemma {:induction false} BooksWithinLimits(c: Config, schedule: seq<Step>, s: int, r: Record)
    requires ValidConfig(c)
    requires
      var b := Run(c, schedule).core.EngineOf(s).book;
      r in b.bids || r in b.asks
    ensures Accepted(c, s, r.price)
  {
    hide Run, FlowInv, CoresInv, MailsInv, AllHonest, CommitAll, Accepted;
    RunKeeps(c, schedule);
    EngineLawsHold(c, schedule, s);
    var q := Run(c, schedule);
    var committed := CommittedOf(q, s);
    ghost var ok := (price: real) => Accepted(c, s, price);
    forall i | 0 <= i < |committed| && committed[i].kind == 0
      ensures ok(committed[i].price)
    {
      PolledAccepted(c, q, s, i);
    }
    RunOk(committed, ok);
  }

  /**
   * With positive limits, a five-level order that reaches a stock's engine takes the best five prices and no
   * others.
   */
  lemma {:induction false} FiveLevelsInSystem(c: Config, schedule: seq<Step>, s: int, o: Order, side: Side, n: nat)
    requires ValidConfig(c) && o.kind == 3 && o.direction == Direction(side)
    requires forall t :: c.IsTrader(t) ==> c.low(t, s) > 0.0
    requires IsLevelPrefix(Opp(Run(c, schedule).core.EngineOf(s).book, side), n, 5)
    ensures
      var b := Run(c, schedule).core.EngineOf(s).book;
      Commit(b, o) == Take(side, b, o, n)
  {
    hide Run, CommitAll, Commit, IsLevelPrefix, Take;
    EngineLawsHold(c, schedule, s);
    var q := Run(c, schedule);
    var opp := Opp(q.core.EngineOf(s).book, side);
    if opp != [] {
      assert opp[0] in opp;
      BooksWithinLimits(c, schedule, s, opp[0]);
    }
    FiveLevelsExactly(CommittedOf(q, s), o, side, n);
  }
}
