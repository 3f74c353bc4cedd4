/**
 * Flow control: however sends, arrivals and polls interleave, every order that has been sent and not
 * yet polled lies within one window above the number of polled orders, and none is lost.
 */
module FlowControl {
  import opened Types
  import opened SlidingWindows
  import opened System

  /** Traders hold ascending lists of their own orders, no id is held twice for a stock, and hooks name stocks. */
  ghost predicate ValidConfig(c: Config) {
    && ValidSizes(c)
    && (forall t, s, i :: 0 <= i < |c.Raw(t, s)| ==>
          c.Raw(t, s)[i].stock == s && c.Raw(t, s)[i].id >= 1 && ValidOrder(c.Raw(t, s)[i]))
    && (forall t, s, i, j :: 0 <= i < j < |c.Raw(t, s)| ==> c.Raw(t, s)[i].id < c.Raw(t, s)[j].id)
    && (forall t, u, s, i, j :: t != u && 0 <= i < |c.Raw(t, s)| && 0 <= j < |c.Raw(u, s)| ==>
          c.Raw(t, s)[i].id != c.Raw(u, s)[j].id)
    && (forall t, s :: c.Raw(t, s) != [] ==> c.IsTrader(t) && c.IsStock(s))
    && (forall k :: k in c.hooks ==> c.IsStock(c.hooks[k].stock))
  }

  /** The orders of one stock on a wire. */
  function OfStock(wire: seq<Order>, s: int): seq<Order> {
    if wire == [] then []
    else if wire[0].stock == s then [wire[0]] + OfStock(wire[1..], s)
    else OfStock(wire[1..], s)
  }

  function OnWire(c: Config, f: Flow, t: int, s: int): seq<Order> {
    OfStock(f.Wire(t, c.Home(s)), s)
  }

  /** How many of the orders that trader `t` sent for stock `s` have reached the window. */
  function Arrived(c: Config, f: Flow, t: int, s: int): int {
    |f.Sent(t, s)| - |OnWire(c, f, t, s)|
  }

  // ---------- the invariant ----------

  /** What was sent is a prefix of what is held, and what is on the wire is its end. */
  ghost predicate SentInv(c: Config, f: Flow, t: int, s: int) {
    && |f.Sent(t, s)| <= |c.Raw(t, s)|
    && (forall i :: 0 <= i < |f.Sent(t, s)| ==> f.Sent(t, s)[i].id == c.Raw(t, s)[i].id && f.Sent(t, s)[i].stock == s)
    && 0 <= Arrived(c, f, t, s)
    && OnWire(c, f, t, s) == f.Sent(t, s)[Arrived(c, f, t, s)..]
  }

  predicate InSlot(c: Config, f: Flow, s: int, o: Order)
    requires c.window > 0
  {
    var w := f.WindowOf(c, s);
    SlotOf(o.id, c.window) < |w.slots| && w.slots[SlotOf(o.id, c.window)] == Some(o)
  }

  /** Unpolled orders lie in the window; those that have arrived are in their slots. */
  ghost predicate InWindow(c: Config, f: Flow, t: int, s: int)
    requires c.window > 0
  {
    forall i :: 0 <= i < |f.Sent(t, s)| ==>
      && f.Sent(t, s)[i].id <= |f.Polled(s)| + c.window
      && (i >= Arrived(c, f, t, s) ==> f.Sent(t, s)[i].id > |f.Polled(s)|)
      && (i < Arrived(c, f, t, s) && f.Sent(t, s)[i].id > |f.Polled(s)| ==> InSlot(c, f, s, f.Sent(t, s)[i]))
  }

  ghost predicate ArrivedAt(c: Config, f: Flow, t: int, s: int, i: int, o: Order) {
    0 <= i < Arrived(c, f, t, s) && i < |f.Sent(t, s)| && f.Sent(t, s)[i] == o
  }

  ghost predicate IsArrived(c: Config, f: Flow, s: int, o: Order) {
    exists t, i :: ArrivedAt(c, f, t, s, i, o)
  }

  ghost predicate SlotsInv(c: Config, f: Flow, s: int)
    requires c.window > 0
  {
    var w := f.WindowOf(c, s);
    && |w.slots| == c.window && w.head == |f.Polled(s)| % c.window
    && forall k :: 0 <= k < c.window && w.slots[k].Some? ==>
         && SlotOf(w.slots[k].value.id, c.window) == k
         && |f.Polled(s)| < w.slots[k].value.id <= |f.Polled(s)| + c.window
         && IsArrived(c, f, s, w.slots[k].value)
  }

  /** Orders leave the window with ids 1, 2, 3, ... */
  ghost predicate PolledInv(c: Config, f: Flow, s: int) {
    forall j :: 0 <= j < |f.Polled(s)| ==> f.Polled(s)[j].id == j + 1 && IsArrived(c, f, s, f.Polled(s)[j])
  }

  /** A wire carries only orders of stocks that its exchange serves. */
  ghost predicate WireHome(c: Config, f: Flow, t: int, e: int) {
    forall i :: 0 <= i < |f.Wire(t, e)| ==> c.IsStock(f.Wire(t, e)[i].stock) && c.Home(f.Wire(t, e)[i].stock) == e
  }

  ghost predicate WiresHome(c: Config, f: Flow) {
    forall t, e :: WireHome(c, f, t, e)
  }

  ghost predicate ListsInv(c: Config, f: Flow) {
    forall t, s :: SentInv(c, f, t, s)
  }

  ghost predicate WindowsInv(c: Config, f: Flow)
    requires c.window > 0
  {
    forall t, s :: InWindow(c, f, t, s)
  }

  ghost predicate StocksInv(c: Config, f: Flow)
    requires c.window > 0
  {
    forall s :: SlotsInv(c, f, s) && PolledInv(c, f, s)
  }

  ghost predicate FlowInv(c: Config, f: Flow)
    requires c.window > 0
  {
    WiresHome(c, f) && ListsInv(c, f) && WindowsInv(c, f) && StocksInv(c, f)
  }

  // ---------- small facts ----------

  lemma {:induction false} OfStockAppend(wire: seq<Order>, o: Order, s: int)
    ensures OfStock(wire + [o], s) == OfStock(wire, s) + if o.stock == s then [o] else []
  {
    if wire == [] {
      assert (wire + [o])[1..] == [];
    } else {
      assert (wire + [o])[1..] == wire[1..] + [o];
      OfStockAppend(wire[1..], o, s);
    }
  }

  lemma {:induction false} SmallMultiple(w: int, d: int)
    requires w > 0 && -w < w * d < w
    ensures d == 0
  {
    assert d >= 1 ==> w * d >= w;
    assert d <= -1 ==> w * d <= -w;
  }

  lemma {:induction false} SameRemainder(x: int, y: int, w: int)
    requires w > 0 && x % w == y % w && -w < y - x < w
    ensures x == y
  {
    assert y - x == w * (y / w - x / w);
    SmallMultiple(w, y / w - x / w);
  }

  lemma {:induction false} RemainderIs(x: int, w: int, d: int, r: int)
    requires w > 0 && x == w * d + r && 0 <= r < w
    ensures x % w == r
  {
    assert x % w - r == w * (d - x / w);
    SmallMultiple(w, d - x / w);
  }

  lemma {:induction false} NextRemainder(p: nat, w: int)
    requires w > 0
    ensures (p % w + 1) % w == (p + 1) % w
  {
    var d, r := p / w, p % w;
    if r + 1 == w {
      assert w * (d + 1) == w * d + w;
      RemainderIs(p + 1, w, d + 1, 0);
      RemainderIs(w, w, 1, 0);
    } else {
      RemainderIs(p + 1, w, d, r + 1);
      RemainderIs(r + 1, w, 0, r + 1);
    }
  }

  /** Two orders of a valid configuration with one id are one order. */
  lemma {:induction false} OneHolder(c: Config, f: Flow, s: int, t: int, i: nat, u: int, j: nat)
    requires ValidConfig(c) && SentInv(c, f, t, s) && SentInv(c, f, u, s)
    requires i < |f.Sent(t, s)| && j < |f.Sent(u, s)| && f.Sent(t, s)[i].id == f.Sent(u, s)[j].id
    ensures t == u && i == j
  {
    assert c.Raw(t, s)[i].id == c.Raw(u, s)[j].id;
    assert t == u;
  }

  /** An order still on the wire is neither in a slot nor polled. */
  lemma {:induction false} OnWireIsNew(c: Config, f: Flow, s: int, t: int, i: nat, o: Order)
    requires ValidConfig(c) && FlowInv(c, f) && IsArrived(c, f, s, o)
    requires Arrived(c, f, t, s) <= i < |f.Sent(t, s)|
    ensures f.Sent(t, s)[i].id != o.id
  {
    var u, j :| ArrivedAt(c, f, u, s, j, o);
    assert SentInv(c, f, t, s) && SentInv(c, f, u, s);
    if f.Sent(t, s)[i].id == o.id {
      OneHolder(c, f, s, t, i, u, j);
    }
  }

  lemma {:induction false} InitialFlow(c: Config)
    requires ValidSizes(c)
    ensures FlowInv(c, INITIAL.flow)
  {
  }

  // ---------- the slot of an arriving order is free ----------

  lemma {:induction false} FirstOnWire(c: Config, f: Flow, t: int, e: int)
    requires ValidConfig(c) && FlowInv(c, f) && f.Wire(t, e) != []
    ensures
      var o := f.Wire(t, e)[0];
      var a := Arrived(c, f, t, o.stock);
      && c.IsStock(o.stock) && c.Home(o.stock) == e
      && 0 <= a < |f.Sent(t, o.stock)| && f.Sent(t, o.stock)[a] == o
      && |f.Polled(o.stock)| < o.id <= |f.Polled(o.stock)| + c.window
  {
    var o := f.Wire(t, e)[0];
    assert SentInv(c, f, t, o.stock) && InWindow(c, f, t, o.stock) && WireHome(c, f, t, e);
    assert OnWire(c, f, t, o.stock)[0] == o;
  }

  /** In every state the invariant allows, an arriving order finds its slot free: nothing is overwritten. */
  lemma {:induction false} SlotIsFree(c: Config, f: Flow, t: int, e: int)
    requires ValidConfig(c) && FlowInv(c, f) && f.Wire(t, e) != []
    ensures
      var o := f.Wire(t, e)[0];
      var w := f.WindowOf(c, o.stock);
      |w.slots| == c.window && w.slots[SlotOf(o.id, c.window)].None?
  {
    var o := f.Wire(t, e)[0];
    var s := o.stock;
    var w := f.WindowOf(c, s);
    FirstOnWire(c, f, t, e);
    assert SlotsInv(c, f, s);
    var k := SlotOf(o.id, c.window);
    if w.slots[k].Some? {
      SameRemainder(w.slots[k].value.id - 1, o.id - 1, c.window);
      OnWireIsNew(c, f, s, t, Arrived(c, f, t, s), w.slots[k].value);
      assert false;
    }
  }

  // ---------- every step keeps the invariant ----------

  /** Sent orders stay sent, arrived orders stay arrived. */
  ghost predicate Grows(c: Config, f: Flow, g: Flow) {
    forall t, s :: f.Sent(t, s) <= g.Sent(t, s) && Arrived(c, f, t, s) <= Arrived(c, g, t, s)
  }

  lemma {:induction false} StaysArrived(c: Config, f: Flow, g: Flow, s: int, o: Order)
    requires Grows(c, f, g) && IsArrived(c, f, s, o)
    ensures IsArrived(c, g, s, o)
  {
    var t, i :| ArrivedAt(c, f, t, s, i, o);
    assert f.Sent(t, s) <= g.Sent(t, s);
    assert ArrivedAt(c, g, t, s, i, o);
  }

  lemma {:induction false} StaysPolled(c: Config, f: Flow, g: Flow, s: int)
    requires Grows(c, f, g) && PolledInv(c, f, s) && g.Polled(s) == f.Polled(s)
    ensures PolledInv(c, g, s)
  {
    forall j | 0 <= j < |g.Polled(s)|
      ensures IsArrived(c, g, s, g.Polled(s)[j])
    {
      StaysArrived(c, f, g, s, f.Polled(s)[j]);
    }
  }

  lemma {:induction false} StaysInSlots(c: Config, f: Flow, g: Flow, s: int)
    requires c.window > 0 && Grows(c, f, g) && SlotsInv(c, f, s)
    requires g.Polled(s) == f.Polled(s) && g.WindowOf(c, s) == f.WindowOf(c, s)
    ensures SlotsInv(c, g, s)
  {
    var w := f.WindowOf(c, s);
    forall k | 0 <= k < c.window && w.slots[k].Some?
      ensures IsArrived(c, g, s, w.slots[k].value)
    {
      StaysArrived(c, f, g, s, w.slots[k].value);
    }
  }

  lemma {:induction false} StaysStocks(c: Config, f: Flow, g: Flow)
    requires c.window > 0 && Grows(c, f, g) && StocksInv(c, f) && g.polled == f.polled && g.windows == f.windows
    ensures StocksInv(c, g)
  {
    forall s
      ensures SlotsInv(c, g, s) && PolledInv(c, g, s)
    {
      StaysInSlots(c, f, g, s);
      StaysPolled(c, f, g, s);
    }
  }

  // sending

  lemma {:induction false} SendWires(c: Config, f: Flow, t: int, s: int, o: Order, u: int, r: int)
    requires o.stock == s
    ensures
      var g := DoSend(c, f, t, s, o);
      && Arrived(c, g, u, r) == Arrived(c, f, u, r)
      && g.Sent(u, r) == f.Sent(u, r) + (if (u, r) == (t, s) then [o] else [])
      && OnWire(c, g, u, r) == OnWire(c, f, u, r) + (if (u, r) == (t, s) then [o] else [])
  {
    OfStockAppend(f.Wire(t, c.Home(s)), o, r);
  }

  /** An order not yet sent has an id that has neither arrived nor been polled. */
  lemma {:induction false} UnsentIsNew(c: Config, f: Flow, t: int, s: int, p: Order)
    requires ValidConfig(c) && ListsInv(c, f) && |f.Sent(t, s)| < |c.Raw(t, s)| && IsArrived(c, f, s, p)
    ensures p.id != c.Raw(t, s)[|f.Sent(t, s)|].id
  {
    var u, j :| ArrivedAt(c, f, u, s, j, p);
    assert SentInv(c, f, u, s);
    assert c.Raw(u, s)[j].id == p.id;
  }

  lemma {:induction false} UnsentIsUnpolled(c: Config, f: Flow, t: int, s: int)
    requires ValidConfig(c) && FlowInv(c, f) && |f.Sent(t, s)| < |c.Raw(t, s)|
    ensures c.Raw(t, s)[|f.Sent(t, s)|].id > |f.Polled(s)|
  {
    var id := c.Raw(t, s)[|f.Sent(t, s)|].id;
    assert PolledInv(c, f, s);
    if id <= |f.Polled(s)| {
      UnsentIsNew(c, f, t, s, f.Polled(s)[id - 1]);
    }
  }

  ghost predicate MaySend(c: Config, f: Flow, t: int, s: int, o: Order) {
    && c.IsStock(s) && |f.Sent(t, s)| < |c.Raw(t, s)| && o.stock == s
    && o.id == c.Raw(t, s)[|f.Sent(t, s)|].id && o.id <= |f.Polled(s)| + c.window
  }

  lemma {:induction false} SendGrows(c: Config, f: Flow, t: int, s: int, o: Order)
    requires o.stock == s
    ensures Grows(c, f, DoSend(c, f, t, s, o))
  {
    forall u, r
      ensures f.Sent(u, r) <= DoSend(c, f, t, s, o).Sent(u, r)
      ensures Arrived(c, f, u, r) <= Arrived(c, DoSend(c, f, t, s, o), u, r)
    {
      SendWires(c, f, t, s, o, u, r);
    }
  }

  /** What `SentInv` says, of the three sequences alone. */
  ghost predicate Following(raw: seq<Order>, sent: seq<Order>, wire: seq<Order>, s: int) {
    && |wire| <= |sent| <= |raw| && wire == sent[|sent| - |wire|..]
    && forall i :: 0 <= i < |sent| ==> sent[i].id == raw[i].id && sent[i].stock == s
  }

  lemma {:induction false} FollowingGrows(raw: seq<Order>, sent: seq<Order>, wire: seq<Order>, s: int, o: Order)
    requires Following(raw, sent, wire, s) && |sent| < |raw| && o.id == raw[|sent|].id && o.stock == s
    ensures Following(raw, sent + [o], wire + [o], s)
  {
  }

  lemma {:induction false} SendKeepsSent(c: Config, f: Flow, t: int, s: int, o: Order)
    requires SentInv(c, f, t, s) && MaySend(c, f, t, s, o)
    ensures SentInv(c, DoSend(c, f, t, s, o), t, s)
  {
    hide OnWire, DoSend;
    SendWires(c, f, t, s, o, t, s);
    FollowingGrows(c.Raw(t, s), f.Sent(t, s), OnWire(c, f, t, s), s, o);
  }

  lemma {:induction false} SendKeepsLists(c: Config, f: Flow, t: int, s: int, o: Order)
    requires ListsInv(c, f) && MaySend(c, f, t, s, o)
    ensures ListsInv(c, DoSend(c, f, t, s, o))
  {
    hide OnWire, DoSend;
    forall u, r
      ensures SentInv(c, DoSend(c, f, t, s, o), u, r)
    {
      assert SentInv(c, f, u, r);
      if (u, r) == (t, s) {
        SendKeepsSent(c, f, t, s, o);
      } else {
        SendWires(c, f, t, s, o, u, r);
      }
    }
  }

  lemma {:induction false} SendKeepsWindow(c: Config, f: Flow, t: int, s: int, o: Order, u: int, r: int)
    requires ValidConfig(c) && FlowInv(c, f) && MaySend(c, f, t, s, o)
    ensures InWindow(c, DoSend(c, f, t, s, o), u, r)
  {
    var g := DoSend(c, f, t, s, o);
    assert InWindow(c, f, u, r) && SentInv(c, f, u, r);
    SendWires(c, f, t, s, o, u, r);
    UnsentIsUnpolled(c, f, t, s);
    forall i | 0 <= i < |g.Sent(u, r)|
      ensures i < |f.Sent(u, r)| ==> g.Sent(u, r)[i] == f.Sent(u, r)[i]
      ensures i < |f.Sent(u, r)| ==> InSlot(c, g, r, g.Sent(u, r)[i]) == InSlot(c, f, r, f.Sent(u, r)[i])
      ensures i == |f.Sent(u, r)| ==> g.Sent(u, r)[i] == o && r == s
    {
    }
  }

  lemma {:induction false} SendKeepsFlow(c: Config, f: Flow, t: int, s: int, o: Order)
    requires ValidConfig(c) && FlowInv(c, f) && MaySend(c, f, t, s, o)
    ensures FlowInv(c, DoSend(c, f, t, s, o)) && Grows(c, f, DoSend(c, f, t, s, o))
  {
    var g := DoSend(c, f, t, s, o);
    SendGrows(c, f, t, s, o);
    SendKeepsLists(c, f, t, s, o);
    forall u, r
      ensures InWindow(c, g, u, r)
    {
      SendKeepsWindow(c, f, t, s, o, u, r);
    }
    StaysStocks(c, f, g);
    forall u, e
      ensures WireHome(c, g, u, e)
    {
      assert WireHome(c, f, u, e);
      assert g.Wire(u, e) == f.Wire(u, e) + if u == t && e == c.Home(s) then [o] else [];
    }
  }

  // arriving

  lemma {:induction false} ArriveWires(c: Config, f: Flow, t: int, e: int, u: int, r: int)
    requires c.window > 0 && f.Wire(t, e) != []
    ensures
      var o := f.Wire(t, e)[0];
      var g := DoArrive(c, f, t, e);
      && g.Sent(u, r) == f.Sent(u, r)
      && (if u == t && c.Home(r) == e && r == o.stock
          then OnWire(c, f, u, r) == [o] + OnWire(c, g, u, r) else OnWire(c, g, u, r) == OnWire(c, f, u, r))
  {
  }

  lemma {:induction false} ArriveGrows(c: Config, f: Flow, t: int, e: int)
    requires c.window > 0 && f.Wire(t, e) != []
    ensures Grows(c, f, DoArrive(c, f, t, e))
  {
    forall u, r
      ensures f.Sent(u, r) <= DoArrive(c, f, t, e).Sent(u, r)
      ensures Arrived(c, f, u, r) <= Arrived(c, DoArrive(c, f, t, e), u, r)
    {
      ArriveWires(c, f, t, e, u, r);
    }
  }

  lemma {:induction false} ArriveKeepsLists(c: Config, f: Flow, t: int, e: int)
    requires c.window > 0 && ListsInv(c, f) && f.Wire(t, e) != []
    ensures ListsInv(c, DoArrive(c, f, t, e))
  {
    forall u, r
      ensures SentInv(c, DoArrive(c, f, t, e), u, r)
    {
      assert SentInv(c, f, u, r);
      ArriveWires(c, f, t, e, u, r);
    }
  }

  /** What an arrival does to the slots: it fills one free slot of one stock. */
  lemma {:induction false} ArriveSlots(c: Config, f: Flow, t: int, e: int, r: int)
    requires ValidConfig(c) && FlowInv(c, f) && f.Wire(t, e) != []
    ensures
      var o := f.Wire(t, e)[0];
      var w, v := f.WindowOf(c, r), DoArrive(c, f, t, e).WindowOf(c, r);
      var k := SlotOf(o.id, c.window);
      && |w.slots| == c.window && v.head == w.head
      && v.slots == (if r == o.stock then w.slots[k := Some(o)] else w.slots)
      && (r == o.stock ==> w.slots[k].None?)
  {
    SlotIsFree(c, f, t, e);
    assert SlotsInv(c, f, r);
  }

  lemma {:induction false} ArriveKeepsWindow(c: Config, f: Flow, t: int, e: int, u: int, r: int)
    requires ValidConfig(c) && FlowInv(c, f) && f.Wire(t, e) != []
    ensures InWindow(c, DoArrive(c, f, t, e), u, r)
  {
    var g := DoArrive(c, f, t, e);
    assert InWindow(c, f, u, r) && SentInv(c, f, u, r);
    ArriveWires(c, f, t, e, u, r);
    ArriveSlots(c, f, t, e, r);
    FirstOnWire(c, f, t, e);
    forall i | 0 <= i < |f.Sent(u, r)| && i < Arrived(c, g, u, r) && f.Sent(u, r)[i].id > |f.Polled(r)|
      ensures InSlot(c, g, r, f.Sent(u, r)[i])
    {
      if i < Arrived(c, f, u, r) {
        assert InSlot(c, f, r, f.Sent(u, r)[i]);
      }
    }
  }

  lemma {:induction false} ArriveKeepsSlots(c: Config, f: Flow, t: int, e: int, r: int)
    requires ValidConfig(c) && FlowInv(c, f) && f.Wire(t, e) != []
    ensures SlotsInv(c, DoArrive(c, f, t, e), r)
  {
    var g, o := DoArrive(c, f, t, e), f.Wire(t, e)[0];
    assert SlotsInv(c, f, r);
    ArriveSlots(c, f, t, e, r);
    FirstOnWire(c, f, t, e);
    ArriveGrows(c, f, t, e);
    var v := g.WindowOf(c, r);
    forall k | 0 <= k < c.window && v.slots[k].Some?
      ensures IsArrived(c, g, r, v.slots[k].value)
    {
      if r == o.stock && k == SlotOf(o.id, c.window) {
        ArriveWires(c, f, t, e, t, r);
        assert ArrivedAt(c, g, t, r, Arrived(c, f, t, r), o);
      } else {
        StaysArrived(c, f, g, r, v.slots[k].value);
      }
    }
  }

  lemma {:induction false} ArriveKeepsFlow(c: Config, f: Flow, t: int, e: int)
    requires ValidConfig(c) && FlowInv(c, f) && f.Wire(t, e) != []
    ensures FlowInv(c, DoArrive(c, f, t, e)) && Grows(c, f, DoArrive(c, f, t, e))
  {
    var g := DoArrive(c, f, t, e);
    ArriveGrows(c, f, t, e);
    ArriveKeepsLists(c, f, t, e);
    forall u, r
      ensures InWindow(c, g, u, r)
    {
      ArriveKeepsWindow(c, f, t, e, u, r);
    }
    forall r
      ensures SlotsInv(c, g, r) && PolledInv(c, g, r)
    {
      ArriveKeepsSlots(c, f, t, e, r);
      StaysPolled(c, f, g, r);
    }
    forall u, d
      ensures WireHome(c, g, u, d)
    {
      assert WireHome(c, f, u, d);
      assert g.Wire(u, d) == if u == t && d == e then f.Wire(u, d)[1..] else f.Wire(u, d);
    }
  }

  // polling

  /** The order in the head slot is the next id. */
  lemma {:induction false} HeadIsNext(c: Config, f: Flow, s: int)
    requires ValidConfig(c) && FlowInv(c, f) && CanPoll(f.WindowOf(c, s))
    ensures
      var w := f.WindowOf(c, s);
      w.slots[w.head].value.id == |f.Polled(s)| + 1 && IsArrived(c, f, s, w.slots[w.head].value)
  {
    var w := f.WindowOf(c, s);
    assert SlotsInv(c, f, s);
    SameRemainder(w.slots[w.head].value.id - 1, |f.Polled(s)|, c.window);
  }

  lemma {:induction false} PollKeepsWindow(c: Config, f: Flow, s: int, u: int, r: int)
    requires ValidConfig(c) && FlowInv(c, f) && CanPoll(f.WindowOf(c, s))
    ensures InWindow(c, DoPoll(c, f, s), u, r)
  {
    var g := DoPoll(c, f, s);
    var w := f.WindowOf(c, s);
    assert InWindow(c, f, u, r) && SentInv(c, f, u, r) && SlotsInv(c, f, r);
    assert forall t, q :: Arrived(c, g, t, q) == Arrived(c, f, t, q);
    if r == s {
      HeadIsNext(c, f, s);
      forall i | 0 <= i < |f.Sent(u, r)|
        ensures i >= Arrived(c, f, u, r) ==> f.Sent(u, r)[i].id > |g.Polled(r)|
        ensures i < Arrived(c, f, u, r) && f.Sent(u, r)[i].id > |g.Polled(r)| ==> InSlot(c, g, r, f.Sent(u, r)[i])
      {
        var o := f.Sent(u, r)[i];
        if i >= Arrived(c, f, u, r) {
          OnWireIsNew(c, f, s, u, i, w.slots[w.head].value);
        } else if o.id > |g.Polled(r)| && SlotOf(o.id, c.window) == w.head {
          SameRemainder(o.id - 1, |f.Polled(s)|, c.window);
        }
      }
    }
  }

  lemma {:induction false} PollKeepsSlots(c: Config, f: Flow, s: int)
    requires ValidConfig(c) && FlowInv(c, f) && CanPoll(f.WindowOf(c, s))
    ensures SlotsInv(c, DoPoll(c, f, s), s) && PolledInv(c, DoPoll(c, f, s), s)
  {
    var g := DoPoll(c, f, s);
    var w, v := f.WindowOf(c, s), g.WindowOf(c, s);
    assert SlotsInv(c, f, s) && PolledInv(c, f, s);
    assert forall t, q :: Arrived(c, g, t, q) == Arrived(c, f, t, q);
    HeadIsNext(c, f, s);
    NextRemainder(|f.Polled(s)|, c.window);
    forall k | 0 <= k < c.window && v.slots[k].Some?
      ensures SlotOf(v.slots[k].value.id, c.window) == k
      ensures |g.Polled(s)| < v.slots[k].value.id <= |g.Polled(s)| + c.window && IsArrived(c, g, s, v.slots[k].value)
    {
      assert w.slots[k] == v.slots[k];
      StaysArrived(c, f, g, s, w.slots[k].value);
    }
    forall j | 0 <= j < |g.Polled(s)|
      ensures g.Polled(s)[j].id == j + 1 && IsArrived(c, g, s, g.Polled(s)[j])
    {
      StaysArrived(c, f, g, s, if j < |f.Polled(s)| then f.Polled(s)[j] else w.slots[w.head].value);
    }
  }

  lemma {:induction false} PollKeepsLists(c: Config, f: Flow, s: int)
    requires ListsInv(c, f) && WiresHome(c, f) && CanPoll(f.WindowOf(c, s))
    ensures ListsInv(c, DoPoll(c, f, s)) && WiresHome(c, DoPoll(c, f, s)) && Grows(c, f, DoPoll(c, f, s))
  {
    var g := DoPoll(c, f, s);
    forall u, r
      ensures SentInv(c, g, u, r) && Arrived(c, g, u, r) == Arrived(c, f, u, r)
    {
      assert SentInv(c, f, u, r);
      assert g.Sent(u, r) == f.Sent(u, r) && OnWire(c, g, u, r) == OnWire(c, f, u, r);
    }
    forall u, e
      ensures WireHome(c, g, u, e)
    {
      assert WireHome(c, f, u, e);
      assert g.Wire(u, e) == f.Wire(u, e);
    }
  }

  lemma {:induction false} PollKeepsFlow(c: Config, f: Flow, s: int)
    requires ValidConfig(c) && FlowInv(c, f) && CanPoll(f.WindowOf(c, s))
    ensures FlowInv(c, DoPoll(c, f, s)) && Grows(c, f, DoPoll(c, f, s))
  {
    var g := DoPoll(c, f, s);
    PollKeepsLists(c, f, s);
    forall u, r
      ensures InWindow(c, g, u, r)
    {
      PollKeepsWindow(c, f, s, u, r);
    }
    forall r
      ensures SlotsInv(c, g, r) && PolledInv(c, g, r)
    {
      if r == s {
        PollKeepsSlots(c, f, s);
      } else {
        StaysInSlots(c, f, g, r);
        StaysPolled(c, f, g, r);
      }
    }
  }
}
