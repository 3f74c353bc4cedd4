/**
 * A trader that reads its orders chunk by chunk (src/trader/trader_controller.cpp) sends what the one with
 * all orders in memory sends.
 */
module ChunkedTraders {
  import opened Types
  import opened System
  import opened Traders
  import opened OrderGenerators

  /** The order that is generated after `k` used ones is the next readable one, or marks the end. */
  lemma {:induction false} NextReadable(cache: Cache, stock: int, k: nat)
    requires cache.Valid() && k <= |Readable(cache, stock)|
    ensures
      var n := |cache.ids| / 10 * 10;
      if k < |Readable(cache, stock)| then
        k < n && cache.At(stock, k) == Readable(cache, stock)[k] && cache.At(stock, k).kind != -1
      else
        k < n ==> cache.At(stock, k).kind == -1
  {
    hide UpToCancelled, OrdersOf;
    CancelledNext(OrdersOf(cache, stock, 0, |cache.ids| / NUM_PARTITION * NUM_PARTITION));
  }

  /** One round of the sending loop: generate, check, and commit if the order goes. */
  method SendNextChunked(ctl: TraderController, gen: OrderGenerator, s: int, limit: int, ghost mail: Mail)
    returns (r: Option<Order>)
    requires ctl.Knows(mail) && ctl.config.IsStock(s) && gen.Valid() && gen.length > 0 && gen.stock == s
    requires 0 <= gen.Used() <= |Readable(gen.cache, s)|
    modifies gen
    ensures gen.Valid() && gen.Used() == old(gen.Used()) + (if r.None? then 0 else 1) <= |Readable(gen.cache, s)|
    ensures
      r ==
      if old(gen.Used()) == |Readable(gen.cache, s)| then None
      else
        var o := Readable(gen.cache, s)[old(gen.Used())];
        if o.id >= limit then None
        else Decide(ctl.config, ctl.id, s, o, Known(ctl.config, mail, ctl.id, s, o))
  {
    hide Readable, Decide, Known;
    NextReadable(gen.cache, s, gen.Used());
    var o := gen.GenerateOrder();
    if o.value.kind == -1 {
      return None;
    }
    r := ctl.CheckOrder(o.value, limit, s, mail);
    if r.Some? {
      gen.Commit();
    }
  }

  lemma {:induction false} HasCache(gen: OrderGenerator)
    requires gen.Valid()
    ensures gen.cache.Valid()
  {
  }

  /**
   * The sending loop over a generator. Where the trader holds what its chunks let it read, it sends
   * exactly what the loop over the orders in memory sends from the same position.
   */
  method SendStockChunked(ctl: TraderController, gen: OrderGenerator, s: int, ghost mail: Mail)
    returns (orders: seq<Order>)
    requires ctl.Knows(mail) && ctl.config.IsStock(s) && gen.Valid() && gen.length > 0 && gen.stock == s
    requires ctl.config.Raw(ctl.id, s) == Readable(gen.cache, s) && 0 <= gen.Used() <= |Readable(gen.cache, s)|
    modifies gen
    ensures gen.Valid() && orders == Sendable(ctl.config, mail, ctl.id, s, old(gen.Used()))
    ensures gen.Used() == old(gen.Used()) + |orders| <= |Readable(gen.cache, s)|
  {
    hide Readable, Decide, Known, Sendable, OrderGenerator.Used, OrderGenerator.Valid, TraderController.Knows;
    ghost var c, t := ctl.config, ctl.id;
    ghost var raw, from := c.Raw(t, s), gen.Used();
    HasCache(gen);
    KnownStart(ctl, s, mail);
    var limit := ctl.info.windowStart[s - 1] + ctl.config.window;
    orders := [];
    while true
      invariant gen.Valid() && gen.Used() == from + |orders| <= |raw|
      invariant orders + Sendable(c, mail, t, s, from + |orders|) == Sendable(c, mail, t, s, from)
      decreases |raw| - gen.Used()
    {
      SendableNext(c, mail, t, s, from + |orders|);
      var r := SendNextChunked(ctl, gen, s, limit, mail);
      if r.None? {
        break;
      }
      orders := orders + [r.value];
    }
  }
}
