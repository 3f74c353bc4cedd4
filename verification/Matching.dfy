/**
 * What committing one order means, on price-time lists: an order sweeps a prefix of the opposite
 * list from its best record on, and what it leaves may rest on its own side.
 */
module Matching {
  import opened Types
  import opened BinaryHeap

  // ---------- priorities (src/exchange/record.hpp) ----------

  predicate BuyLess(a: Record, b: Record) {
    if a.price == b.price then a.id > b.id else a.price < b.price
  }

  predicate SellLess(a: Record, b: Record) {
    if a.price == b.price then a.id > b.id else a.price > b.price
  }

  function Less(side: Side): (Record, Record) -> bool {
    if side.Buy? then BuyLess else SellLess
  }

  lemma {:induction false} LessIsOrder(side: Side)
    ensures StrictWeakOrder(Less(side))
  {
  }

  // ---------- the book ----------

  datatype Book = Book(bids: seq<Record>, asks: seq<Record>)

  const EMPTY_BOOK := Book([], [])

  function Own(b: Book, side: Side): seq<Record> {
    if side.Buy? then b.bids else b.asks
  }

  function Opp(b: Book, side: Side): seq<Record> {
    Own(b, Flip(side))
  }

  function WithSides(side: Side, own: seq<Record>, opp: seq<Record>): Book {
    if side.Buy? then Book(own, opp) else Book(opp, own)
  }

  function TotalVolume(s: seq<Record>): int {
    if s == [] then 0 else s[0].volume + TotalVolume(s[1..])
  }

  lemma {:induction false} TotalVolumeConcat(a: seq<Record>, b: seq<Record>)
    ensures TotalVolume(a + b) == TotalVolume(a) + TotalVolume(b)
  {
    if a == [] {
      assert a + b == b;
    } else {
      assert (a + b)[1..] == a[1..] + b;
      TotalVolumeConcat(a[1..], b);
    }
  }

  /** Two's complement value of a 32-bit `int` that holds `n`. */
  function Wrap32(n: int): (r: int)
    ensures -0x8000_0000 <= r < 0x8000_0000 && (n - r) % 0x1_0000_0000 == 0
  {
    (n + 0x8000_0000) % 0x1_0000_0000 - 0x8000_0000
  }

  // ---------- sweeping the opposite list ----------

  datatype Sweep = Sweep(rest: seq<Record>, left: int, trades: seq<Trade>)

  function TradeOf(side: Side, o: Order, r: Record, volume: int): Trade {
    if side.Buy? then Trade(o.stock, o.id, r.id, r.price, volume)
    else Trade(o.stock, r.id, o.id, r.price, volume)
  }

  /** Trades `v` against the first `n` records, best first. */
  function SweepFirst(side: Side, o: Order, recs: seq<Record>, n: nat, v: int): Sweep
    requires n <= |recs|
  {
    if n == 0 || v <= 0 then Sweep(recs, v, [])
    else if v < recs[0].volume then
      Sweep(recs[0 := recs[0].(volume := recs[0].volume - v)], 0, [TradeOf(side, o, recs[0], v)])
    else
      var s := SweepFirst(side, o, recs[1..], n - 1, v - recs[0].volume);
      s.(trades := [TradeOf(side, o, recs[0], recs[0].volume)] + s.trades)
  }

  /** A resting price that a limit order at `limit` accepts. */
  predicate Accepts(side: Side, limit: real, price: real) {
    if side.Buy? then price <= limit else price >= limit
  }

  /** How many leading records a limit order accepts. */
  function LimitDepth(side: Side, recs: seq<Record>, limit: real): (n: nat)
    ensures n <= |recs|
  {
    if recs == [] || !Accepts(side, limit, recs[0].price) then 0
    else 1 + LimitDepth(side, recs[1..], limit)
  }

  /** How many leading records have exactly this price. */
  function PriceDepth(recs: seq<Record>, price: real): (n: nat)
    ensures n <= |recs|
  {
    if recs == [] || recs[0].price != price then 0 else 1 + PriceDepth(recs[1..], price)
  }

  /** How many leading records are reached while the price changes at most `budget` times from `previous`. */
  function LevelDepth(recs: seq<Record>, previous: real, budget: nat): (n: nat)
    ensures n <= |recs|
  {
    if recs == [] then 0
    else if recs[0].price == previous then 1 + LevelDepth(recs[1..], previous, budget)
    else if budget == 0 then 0
    else 1 + LevelDepth(recs[1..], recs[0].price, budget - 1)
  }

  // ---------- committing one order ----------

  datatype Outcome = Outcome(book: Book, trades: seq<Trade>)

  function Rest(side: Side, own: seq<Record>, id: int, price: real, volume: int): seq<Record> {
    if volume <= 0 then own else Insert(own, Record(id, price, volume), Less(side))
  }

  function Take(side: Side, b: Book, o: Order, n: nat): Outcome
    requires n <= |Opp(b, side)|
  {
    var s := SweepFirst(side, o, Opp(b, side), n, o.volume);
    Outcome(WithSides(side, Own(b, side), s.rest), s.trades)
  }

  function TakeThenRest(side: Side, b: Book, o: Order, n: nat, price: real): Outcome
    requires n <= |Opp(b, side)|
  {
    var s := SweepFirst(side, o, Opp(b, side), n, o.volume);
    Outcome(WithSides(side, Rest(side, Own(b, side), o.id, price, s.left), s.rest), s.trades)
  }

  function LimitOutcome(side: Side, b: Book, o: Order, limit: real): Outcome {
    TakeThenRest(side, b, o, LimitDepth(side, Opp(b, side), limit), limit)
  }

  function CounterpartyBestOutcome(side: Side, b: Book, o: Order): Outcome {
    var opp := Opp(b, side);
    if opp == [] then Outcome(b, [])
    else TakeThenRest(side, b, o, PriceDepth(opp, opp[0].price), opp[0].price)
  }

  function OwnBestOutcome(side: Side, b: Book, o: Order): Outcome {
    var own := Own(b, side);
    if own == [] then Outcome(b, [])
    else Outcome(WithSides(side, Rest(side, own, o.id, own[0].price, o.volume), Opp(b, side)), [])
  }

  const MAX_LEVELS := 5

  function FiveLevelOutcome(side: Side, b: Book, o: Order): Outcome {
    Take(side, b, o, LevelDepth(Opp(b, side), 0.0, MAX_LEVELS))
  }

  function ImmediateOutcome(side: Side, b: Book, o: Order): Outcome {
    Take(side, b, o, |Opp(b, side)|)
  }

  function WholeOutcome(side: Side, b: Book, o: Order): Outcome {
    if o.volume > Wrap32(TotalVolume(Opp(b, side))) then Outcome(b, []) else ImmediateOutcome(side, b, o)
  }

  function CommitOn(side: Side, b: Book, o: Order): Outcome {
    if o.kind == 0 then LimitOutcome(side, b, o, o.price)
    else if o.kind == 1 then CounterpartyBestOutcome(side, b, o)
    else if o.kind == 2 then OwnBestOutcome(side, b, o)
    else if o.kind == 3 then FiveLevelOutcome(side, b, o)
    else if o.kind == 4 then ImmediateOutcome(side, b, o)
    else if o.kind == 5 then WholeOutcome(side, b, o)
    else Outcome(b, [])
  }

  function Commit(b: Book, o: Order): Outcome {
    if o.direction == 1 then CommitOn(Buy, b, o)
    else if o.direction == -1 then CommitOn(Sell, b, o)
    else Outcome(b, [])
  }

  /** Committing orders one after another, starting with no order known. */
  function CommitAll(orders: seq<Order>): Outcome {
    if orders == [] then Outcome(EMPTY_BOOK, [])
    else
      var before := CommitAll(orders[..|orders| - 1]);
      var last := Commit(before.book, orders[|orders| - 1]);
      Outcome(last.book, before.trades + last.trades)
  }
}
