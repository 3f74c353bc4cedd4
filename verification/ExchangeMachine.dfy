/**
 * The window and the engine of a stock follow the step machine: what their methods ask of the caller
 * holds in every reachable state, and each call does what the step does.
 */
module ExchangeMachine {
  import opened Types
  import opened Matching
  import opened Reorder
  import opened SlidingWindows
  import opened StockExchanges
  import opened Exchanges
  import opened System
  import opened FlowControl
  import opened Protocol
  import opened Schedule

  /** Window and engine of stock `s` are those of state `q`. */
  ghost predicate Serves(c: Config, w: SlidingWindow<Order>, ex: StockExchange, q: State, s: int)
    reads w, w.data, w.available, ex, ex.book
  {
    && w.Valid() && ex.Valid() && ex.stkCode == s
    && w.Model() == q.flow.WindowOf(c, s) && ex.Model() == q.core.EngineOf(s)
  }

  /** New objects serve the initial state. */
  method StartStock(c: Config, s: int) returns (w: SlidingWindow<Order>, ex: StockExchange)
    requires ValidSizes(c)
    ensures fresh(w) && fresh(w.data) && fresh(w.available) && fresh(ex) && fresh(ex.book)
    ensures Serves(c, w, ex, INITIAL, s)
  {
    w := new SlidingWindow<Order>(c.window);
    ex := new StockExchange(s);
  }

  lemma {:induction false} ArriveParts(c: Config, q: State, t: int, e: int)
    requires ValidConfig(c) && Inv(c, q) && Enabled(c, q, Arrive(t, e))
    ensures
      var o, n := q.flow.Wire(t, e)[0], Apply(c, q, Arrive(t, e));
      var w := q.flow.WindowOf(c, o.stock);
      && |w.slots| == c.window && w.slots[SlotOf(o.id, c.window)].None?
      && n.core == q.core && n.flow.WindowOf(c, o.stock) == PutAt(w, o, SlotOf(o.id, c.window))
  {
    hide FlowInv, CoresInv, MailsInv, AllHonest;
    SlotIsFree(c, q.flow, t, e);
  }

  /** An order arrives: its slot is free, so the assertion of the window holds. */
  method StoreOrder(c: Config, w: SlidingWindow<Order>, ex: StockExchange, t: int, e: int, o: Order, ghost q: State)
    requires ValidConfig(c) && Inv(c, q) && Enabled(c, q, Arrive(t, e)) && o == q.flow.Wire(t, e)[0]
    requires Serves(c, w, ex, q, o.stock)
    modifies w.data, w.available
    ensures Serves(c, w, ex, Apply(c, q, Arrive(t, e)), o.stock)
  {
    hide Inv, Apply;
    ArriveParts(c, q, t, e);
    Exchanges.ReceiveOrder(w, o);
  }

  /** The stock's thread polls: it gets an order exactly when the machine can poll, and the same one. */
  method PollOrder(c: Config, w: SlidingWindow<Order>, ex: StockExchange, s: int, ghost q: State)
    returns (r: Option<Order>)
    requires ValidSizes(c) && c.IsStock(s) && Serves(c, w, ex, q, s) && q.core.PhaseOf(s).Collecting?
    modifies w`head, w.available
    ensures r.Some? <==> Enabled(c, q, Poll(s))
    ensures r.None? ==> Serves(c, w, ex, q, s)
    ensures
      r.Some? ==>
        var n := Apply(c, q, Poll(s));
        Serves(c, w, ex, n, s) && n.core.PhaseOf(s) == Collecting(q.core.PhaseOf(s).batch + [r.value])
  {
    hide StockExchange.Valid;
    r := w.Poll();
  }

  /** The next order of a batch is one that the engine may receive: nothing waits, and it is valid. */
  lemma {:induction false} NextOfBatch(c: Config, q: State, s: int)
    requires ValidConfig(c) && Inv(c, q) && Enabled(c, q, Work(s))
    ensures
      var o := q.core.PhaseOf(s).batch[0];
      && ValidOrder(o) && o.stock == s && q.core.EngineOf(s).pending == []
      && Apply(c, q, Work(s)).core.EngineOf(s) == Receive(q.core.EngineOf(s), o)
      && Apply(c, q, Work(s)).flow == q.flow
  {
    hide FlowInv, CoresInv, MailsInv, AllHonest, Receive, CommitAll, ValidOrder;
    CoreAt(q.flow, q.core, s);
    PolledValid(c, q, s);
    PolledAreOrders(c, q.flow, s);
  }

  /** The stock's thread hands the next order of its batch to the engine. */
  method WorkOrder(c: Config, w: SlidingWindow<Order>, ex: StockExchange, s: int, o: Order, ghost q: State)
    requires ValidConfig(c) && Inv(c, q) && Enabled(c, q, Work(s)) && o == q.core.PhaseOf(s).batch[0]
    requires Serves(c, w, ex, q, s)
    modifies ex, ex.book
    ensures Serves(c, w, ex, Apply(c, q, Work(s)), s)
  {
    hide Inv, Apply, Receive, StockExchange.Valid;
    NextOfBatch(c, q, s);
    ex.ReceiveOrder(o);
  }

  /** No other step touches the window or the engine of a stock. */
  lemma {:induction false} OthersKeepServing(c: Config, w: SlidingWindow<Order>, ex: StockExchange, q: State, s: int,
                                             step: Step)
    requires ValidSizes(c) && Serves(c, w, ex, q, s) && step != Poll(s) && step != Work(s)
    requires step.Arrive? && q.flow.Wire(step.t, step.e) != [] ==> q.flow.Wire(step.t, step.e)[0].stock != s
    ensures Serves(c, w, ex, Apply(c, q, step), s)
  {
    hide StockExchange.Valid, SlidingWindow.Valid, Receive, Decide, Known;
    var n := Apply(c, q, step);
    assert n.flow.WindowOf(c, s) == q.flow.WindowOf(c, s);
    assert n.core.EngineOf(s) == q.core.EngineOf(s);
  }
}
