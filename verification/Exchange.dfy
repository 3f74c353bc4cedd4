/**
 * One exchange (src/exchange/exchange.cpp): which stocks it serves, where orders are kept, and how they are
 * consumed.
 */
module Exchanges {
  import opened Types
  import opened SlidingWindows
  import opened System
  import opened FlowControl

  /** The stocks that exchange `partition` of `exchanges` serves, in ascending order. */
  method StocksOf(stocks: nat, exchanges: nat, partition: int) returns (codes: seq<int>)
    requires exchanges > 0
    ensures forall s :: s in codes <==> 1 <= s <= stocks && s % exchanges == partition
    ensures forall i, j :: 0 <= i < j < |codes| ==> codes[i] < codes[j]
  {
    codes := [];
    for i := 1 to stocks + 1
      invariant forall s :: s in codes <==> 1 <= s < i && s % exchanges == partition
      invariant forall k, j :: 0 <= k < j < |codes| ==> codes[k] < codes[j]
    {
      if i % exchanges == partition {
        assert forall k :: 0 <= k < |codes| ==> codes[k] in codes;
        codes := codes + [i];
      }
    }
  }

  /** Stores an arriving order in the slot its id picks. */
  method ReceiveOrder(w: SlidingWindow<Order>, o: Order)
    requires w.Valid() && !w.available[SlotOf(o.id, w.data.Length)]
    modifies w.data, w.available
    ensures w.Valid() && w.Model() == PutAt(old(w.Model()), o, SlotOf(o.id, w.data.Length))
    ensures w.available[(o.id - 1) % w.data.Length] && w.data[(o.id - 1) % w.data.Length] == o
  {
    w.Put(o, SlotOf(o.id, w.data.Length));
  }

  /** Takes every order that is ready, in slot order, and names the last one as the acknowledgement. */
  method ConsumeOrder(w: SlidingWindow<Order>) returns (orders: seq<Order>, ack: Option<int>)
    requires w.Valid()
    modifies w`head, w.available
    ensures w.Valid() && Drained(orders, w.Model()) == PollAll(old(w.Model()))
    ensures ack == if orders == [] then None else Some(orders[|orders| - 1].id)
  {
    hide PollAll, Occupied;
    orders := [];
    while true
      invariant w.Valid()
      invariant
        PollAll(old(w.Model())) == Drained(orders + PollAll(w.Model()).items, PollAll(w.Model()).window)
      decreases Occupied(w.Model().slots)
    {
      ghost var before := w.Model();
      PollAllStep(before);
      var r := w.Poll();
      if r.None? {
        assert orders + [] == orders;
        break;
      }
      assert orders + ([r.value] + PollAll(w.Model()).items) == (orders + [r.value]) + PollAll(w.Model()).items;
      orders := orders + [r.value];
    }
    ack := if orders == [] then None else Some(orders[|orders| - 1].id);
  }

  /** The flow after polling stock `s` until nothing is ready. */
  function PolledOut(c: Config, f: Flow, s: int): Flow
    decreases Occupied(f.WindowOf(c, s).slots)
  {
    var w := f.WindowOf(c, s);
    if !CanPoll(w) then f
    else
      OccupiedLess(w.slots, w.head);
      PolledOut(c, DoPoll(c, f, s), s)
  }

  lemma {:induction false} PollParts(c: Config, f: Flow, s: int)
    requires CanPoll(f.WindowOf(c, s))
    ensures
      var g, w := DoPoll(c, f, s), f.WindowOf(c, s);
      && g.WindowOf(c, s) == Polled(w) && g.Polled(s) == f.Polled(s) + [w.slots[w.head].value]
      && Occupied(Polled(w).slots) < Occupied(w.slots) && PolledOut(c, f, s) == PolledOut(c, g, s)
  {
    OccupiedLess(f.WindowOf(c, s).slots, f.WindowOf(c, s).head);
  }

  /**
   * Consuming a window is a run of polls: it gives out the next ids without a gap, and the
   * acknowledgement is the number of orders polled.
   */
  lemma {:induction false} ConsumeIsPolls(c: Config, f: Flow, s: int)
    requires ValidConfig(c) && FlowInv(c, f)
    ensures
      var g, all := PolledOut(c, f, s), PollAll(f.WindowOf(c, s));
      && FlowInv(c, g) && g.WindowOf(c, s) == all.window && !CanPoll(g.WindowOf(c, s))
      && g.Polled(s) == f.Polled(s) + all.items
      && (all.items != [] ==> all.items[0].id == |f.Polled(s)| + 1 && all.items[|all.items| - 1].id == |g.Polled(s)|)
    decreases Occupied(f.WindowOf(c, s).slots)
  {
    hide FlowInv, ValidConfig, DoPoll, PollAll, Occupied, IsArrived;
    var w := f.WindowOf(c, s);
    PollAllStep(w);
    if CanPoll(w) {
      HeadIsNext(c, f, s);
      PollKeepsFlow(c, f, s);
      PollParts(c, f, s);
      ConsumeIsPolls(c, DoPoll(c, f, s), s);
      assert f.Polled(s) + ([w.slots[w.head].value] + PollAll(Polled(w)).items) ==
             (f.Polled(s) + [w.slots[w.head].value]) + PollAll(Polled(w)).items;
    }
  }
}
