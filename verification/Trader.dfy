/** The sending side of a trader (src/trader/trader_controller.cpp): which orders one pass lets go. */
module Traders {
  import opened Types
  import opened System
  import opened FlowControl
  import opened TradeReceivers

  // ---------- the hook tables (src/common/loader.hpp) ----------

  /** One row of the hook data: order `self` waits for trade `index` of `target`. */
  datatype HookRow = HookRow(self: int, target: int, index: int, arg: int)

  /** Every hook has an entry in the table of its target, and all entries are still unknown. */
  ghost predicate Awaited(hooks: seq<map<int, Hook>>, table: seq<map<int, int>>) {
    && (forall s, o :: 0 <= s < |hooks| && o in hooks[s] ==>
          1 <= hooks[s][o].stock <= |table| && hooks[s][o].index in table[hooks[s][o].stock - 1])
    && (forall s, k :: 0 <= s < |table| && k in table[s] ==> table[s][k] == -1)
  }

  lemma {:induction false} AwaitedGrows(hooks: seq<map<int, Hook>>, table: seq<map<int, int>>, s: nat, row: HookRow)
    requires Awaited(hooks, table) && s < |hooks| && 1 <= row.target <= |table|
    ensures
      Awaited(hooks[s := hooks[s][row.self := Hook(row.target, row.index, row.arg)]],
               table[row.target - 1 := table[row.target - 1][row.index := -1]])
  {
  }

  /** Row `y` is the last of its block for order `o`. */
  ghost predicate LastRow(block: seq<HookRow>, y: int, o: int) {
    0 <= y < |block| && block[y].self == o && forall z :: y < z < |block| ==> block[z].self != o
  }

  /** Exactly the orders named in the block are held, each as its last row says. */
  ghost predicate HeldBy(block: seq<HookRow>, hooks: map<int, Hook>) {
    && (forall o :: o in hooks ==> exists y :: LastRow(block, y, o))
    && (forall o, y :: LastRow(block, y, o) ==>
          o in hooks && hooks[o] == Hook(block[y].target, block[y].index, block[y].arg))
  }

  lemma {:induction false} HeldByOneMore(block: seq<HookRow>, n: nat, hooks: map<int, Hook>)
    requires n < |block| && HeldBy(block[..n], hooks)
    ensures HeldBy(block[..n + 1], hooks[block[n].self := Hook(block[n].target, block[n].index, block[n].arg)])
  {
    var more, next := block[..n + 1], hooks[block[n].self := Hook(block[n].target, block[n].index, block[n].arg)];
    assert LastRow(more, n, block[n].self);
    forall o | o in next
      ensures exists y :: LastRow(more, y, o)
    {
      if o != block[n].self {
        var y :| LastRow(block[..n], y, o);
        assert LastRow(more, y, o);
      }
    }
    forall o, y | LastRow(more, y, o)
      ensures o in next && next[o] == Hook(more[y].target, more[y].index, more[y].arg)
    {
      if o != block[n].self {
        assert LastRow(block[..n], y, o);
      } else {
        assert y == n;
      }
    }
  }

  /** Before row `y` of block `x` there is a row that waits for trade `k` of stock `s`. */
  ghost predicate Named(rows: seq<seq<HookRow>>, x: int, y: int, s: int, k: int) {
    exists a, b :: 0 <= a < |rows| && 0 <= b < |rows[a]| && (a < x || (a == x && b < y)) &&
      rows[a][b].target == s && rows[a][b].index == k
  }

  /** The table holds exactly the trades that some row waits for. */
  ghost predicate Listed(rows: seq<seq<HookRow>>, x: int, y: int, table: seq<map<int, int>>) {
    forall s, k :: 0 <= s < |table| ==> (k in table[s] <==> Named(rows, x, y, s + 1, k))
  }

  lemma {:induction false} NamedOneMore(rows: seq<seq<HookRow>>, x: nat, y: nat, s: int, k: int)
    requires x < |rows| && y < |rows[x]|
    ensures
      Named(rows, x, y + 1, s, k) <==> Named(rows, x, y, s, k) || (rows[x][y].target == s && rows[x][y].index == k)
  {
  }

  lemma {:induction false} ListedOneMore(rows: seq<seq<HookRow>>, x: nat, y: nat, table: seq<map<int, int>>)
    requires x < |rows| && y < |rows[x]| && Listed(rows, x, y, table) && 1 <= rows[x][y].target <= |table|
    ensures
      var row := rows[x][y];
      Listed(rows, x, y + 1, table[row.target - 1 := table[row.target - 1][row.index := -1]])
  {
    hide Named;
    var row := rows[x][y];
    var next := table[row.target - 1 := table[row.target - 1][row.index := -1]];
    forall s, k | 0 <= s < |next|
      ensures k in next[s] <==> Named(rows, x, y + 1, s + 1, k)
    {
      NamedOneMore(rows, x, y, s + 1, k);
      assert k in table[s] <==> Named(rows, x, y, s + 1, k);
    }
  }

  lemma {:induction false} NextBlock(rows: seq<seq<HookRow>>, x: nat, table: seq<map<int, int>>)
    requires x < |rows| && Listed(rows, x, |rows[x]|, table)
    ensures Listed(rows, x + 1, 0, table)
  {
    forall s, k | 0 <= s < |table|
      ensures k in table[s] <==> Named(rows, x + 1, 0, s + 1, k)
    {
      assert k in table[s] <==> Named(rows, x, |rows[x]|, s + 1, k);
    }
  }

  const HOOK_BLOCKS := 10

  /** The blocks before `x` are loaded, the others not yet. */
  ghost predicate Loaded(rows: seq<seq<HookRow>>, x: int, hooks: seq<map<int, Hook>>) {
    forall s :: 0 <= s < |hooks| ==> if s < x && s < |rows| then HeldBy(rows[s], hooks[s]) else hooks[s] == map[]
  }

  ghost predicate Targeted(rows: seq<seq<HookRow>>, stocks: int) {
    forall x, y :: 0 <= x < |rows| && 0 <= y < |rows[x]| ==> 1 <= rows[x][y].target <= stocks
  }

  /** Reads one block of rows; a later row of an order replaces an earlier one. */
  method LoadBlock(rows: seq<seq<HookRow>>, x: nat, hooks: seq<map<int, Hook>>, table: seq<map<int, int>>)
    returns (hooks': seq<map<int, Hook>>, table': seq<map<int, int>>)
    requires x < |rows| == 10 <= |hooks| == |table| && Targeted(rows, |table|)
    requires Awaited(hooks, table) && Listed(rows, x, 0, table) && hooks[x] == map[]
    ensures |hooks'| == |table'| == |hooks| && Awaited(hooks', table') && Listed(rows, x, |rows[x]|, table')
    ensures HeldBy(rows[x], hooks'[x]) && forall r :: 0 <= r < |hooks| && r != x ==> hooks'[r] == hooks[r]
  {
    hooks', table' := hooks, table;
    var s := x % HOOK_BLOCKS;
    for y := 0 to |rows[x]|
      invariant |hooks'| == |table'| == |hooks| && Awaited(hooks', table') && Listed(rows, x, y, table')
      invariant HeldBy(rows[x][..y], hooks'[s])
      invariant forall r :: 0 <= r < |hooks| && r != s ==> hooks'[r] == hooks[r]
    {
      hide Awaited, HeldBy, Listed;
      var row := rows[x][y];
      AwaitedGrows(hooks', table', s, row);
      HeldByOneMore(rows[x], y, hooks'[s]);
      ListedOneMore(rows, x, y, table');
      hooks' := hooks'[s := hooks'[s][row.self := Hook(row.target, row.index, row.arg)]];
      table' := table'[row.target - 1 := table'[row.target - 1][row.index := -1]];
    }
    assert rows[x][..|rows[x]|] == rows[x];
  }

  /** Reads the hook data, one block of rows per stock. */
  method LoadHook(rows: seq<seq<HookRow>>, stocks: nat) returns (hooks: seq<map<int, Hook>>, table: seq<map<int, int>>)
    requires |rows| == 10 <= stocks && Targeted(rows, stocks)
    ensures |hooks| == |table| == stocks && Awaited(hooks, table)
    ensures Loaded(rows, |rows|, hooks) && Listed(rows, |rows|, 0, table)
  {
    hooks := seq(stocks, i => map[]);
    table := seq(stocks, i => map[]);
    for x := 0 to |rows|
      invariant |hooks| == |table| == stocks && Awaited(hooks, table)
      invariant Loaded(rows, x, hooks) && Listed(rows, x, 0, table)
    {
      hide Awaited, HeldBy, Listed, Targeted;
      hooks, table := LoadBlock(rows, x, hooks, table);
      NextBlock(rows, x, table);
    }
  }

  // ---------- what one pass sends ----------

  /** From the order numbered `from` on, the orders of a stock that may go now, as they go. */
  function Sendable(c: Config, mail: Mail, t: int, s: int, from: nat): seq<Order>
    decreases |c.Raw(t, s)| - from
  {
    if from >= |c.Raw(t, s)| || CheckOrder(c, mail, t, s, c.Raw(t, s)[from]).None? then []
    else [CheckOrder(c, mail, t, s, c.Raw(t, s)[from]).value] + Sendable(c, mail, t, s, from + 1)
  }

  lemma {:induction false} SendableNext(c: Config, mail: Mail, t: int, s: int, from: nat)
    ensures
      Sendable(c, mail, t, s, from) ==
      if from >= |c.Raw(t, s)| then []
      else
        var r := CheckOrder(c, mail, t, s, c.Raw(t, s)[from]);
        if r.None? then [] else [r.value] + Sendable(c, mail, t, s, from + 1)
  {
  }

  /** The orders of stocks 1 to `n` that one pass sends. */
  function PassOrders(c: Config, mail: Mail, t: int, next: seq<nat>, n: nat): seq<Order>
    requires n <= |next|
  {
    if n == 0 then [] else PassOrders(c, mail, t, next, n - 1) + Sendable(c, mail, t, n, next[n - 1])
  }

  /** The hooks of the stocks, as loaded, are those of the configuration. */
  ghost predicate Holds(c: Config, hooks: seq<map<int, Hook>>) {
    && |hooks| == c.stocks
    && forall s, o :: c.IsStock(s) ==>
         && (o in hooks[s - 1] <==> (s, o) in c.hooks)
         && (o in hooks[s - 1] ==> hooks[s - 1][o] == c.hooks[(s, o)])
  }

  lemma {:induction false} SendableOfStock(c: Config, mail: Mail, t: int, s: int, from: nat)
    requires ValidConfig(c)
    ensures forall i :: 0 <= i < |Sendable(c, mail, t, s, from)| ==> Sendable(c, mail, t, s, from)[i].stock == s
    decreases |c.Raw(t, s)| - from
  {
    if from < |c.Raw(t, s)| {
      SendableOfStock(c, mail, t, s, from + 1);
    }
  }

  lemma {:induction false} OfStockConcat(a: seq<Order>, b: seq<Order>, s: int)
    ensures OfStock(a + b, s) == OfStock(a, s) + OfStock(b, s)
  {
    if a == [] {
      assert a + b == b;
    } else {
      assert (a + b)[1..] == a[1..] + b;
      OfStockConcat(a[1..], b, s);
    }
  }

  lemma {:induction false} OfOneStock(orders: seq<Order>, r: int, s: int)
    requires forall i :: 0 <= i < |orders| ==> orders[i].stock == r
    ensures OfStock(orders, s) == if r == s then orders else []
  {
    if orders != [] {
      OfOneStock(orders[1..], r, s);
      assert [orders[0]] + orders[1..] == orders;
    }
  }

  /** Of every stock, a pass sends just what may go from it, and nothing of any other stock. */
  lemma {:induction false} PassByStock(c: Config, mail: Mail, t: int, next: seq<nat>, n: nat, s: int)
    requires ValidConfig(c) && n <= |next|
    ensures
      OfStock(PassOrders(c, mail, t, next, n), s) == if 1 <= s <= n then Sendable(c, mail, t, s, next[s - 1]) else []
    ensures
      var orders := PassOrders(c, mail, t, next, n);
      && (forall i :: 0 <= i < |orders| ==> 1 <= orders[i].stock <= n)
      && (forall i, j :: 0 <= i < j < |orders| ==> orders[i].stock <= orders[j].stock)
  {
    hide Sendable, ValidConfig, OfStock;
    if n == 0 {
      OfOneStock([], s, s);
    } else {
      var sent := Sendable(c, mail, t, n, next[n - 1]);
      PassByStock(c, mail, t, next, n - 1, s);
      SendableOfStock(c, mail, t, n, next[n - 1]);
      OfStockConcat(PassOrders(c, mail, t, next, n - 1), sent, s);
      OfOneStock(sent, n, s);
    }
  }

  class TraderController {
    const config: Config
    const id: int
    const hooks: seq<map<int, Hook>>
    const info: SharedTradeInfo
    /** For each stock, the number of orders sent. */
    var next: seq<nat>

    constructor (config: Config, id: int, hooks: seq<map<int, Hook>>, info: SharedTradeInfo)
      ensures this.config == config && this.id == id && this.hooks == hooks && this.info == info
      ensures |next| == config.stocks && forall i :: 0 <= i < |next| ==> next[i] == 0
    {
      this.config, this.id, this.hooks, this.info := config, id, hooks, info;
      next := seq(config.stocks, i => 0);
    }

    /** The shared tables say what `mail` says this trader has heard, and have an entry for every hook. */
    ghost predicate Knows(mail: Mail)
      reads info
    {
      && Holds(config, hooks) && info.Valid() && |info.windowStart| == config.stocks
      && (forall s :: config.IsStock(s) ==>
            info.windowStart[s - 1] == mail.Start(id, s) && info.logs[s - 1] == mail.Log(id, s))
      && (forall k :: k in config.hooks && config.IsStock(k.0) ==>
            config.IsStock(config.hooks[k].stock) &&
            config.hooks[k].index in info.hookedTrade[config.hooks[k].stock - 1])
    }

    /**
     * Whether an order may go now, and as what: it may be held back, or cancelled by its hook or its
     * price. `limit` may be out of date.
     */
    method CheckOrder(o: Order, limit: int, s: int, ghost mail: Mail) returns (r: Option<Order>)
      requires Knows(mail) && config.IsStock(s)
      ensures r == if o.id >= limit then None else Decide(config, id, s, o, Known(config, mail, id, s, o))
      ensures
        var held := (s, o.id) in config.hooks;
        var h := if held then config.hooks[(s, o.id)] else Hook(0, 0, 0);
        var log := mail.Log(id, h.stock);
        var unknown := held && (h.index < 1 || h.index > |log| || log[h.index - 1].volume == -1);
        && (r.None? <==> o.id >= limit || unknown)
        && (r.Some? && held && log[h.index - 1].volume > h.arg ==> r.value == o.(kind := -1))
        && (r.Some? && (!held || log[h.index - 1].volume <= h.arg) ==>
              var outside := o.kind == 0 && (o.price < config.low(id, s) || o.price > config.high(id, s));
              r.value == if outside then o.(kind := -1) else o)
    {
      var order := o;
      if order.id >= limit {
        return None;
      }
      if o.id in hooks[s - 1] {
        var h := hooks[s - 1][o.id];
        assert (s, o.id) in config.hooks;
        var v := info.GetHookedVolume(h.stock, h.index);
        if v == -1 {
          return None;
        } else if v > h.arg {
          order := order.(kind := -1);
        }
      }
      if order.kind == 0 && (order.price < config.low(id, s) || order.price > config.high(id, s)) {
        order := order.(kind := -1);
      }
      return Some(order);
    }

    /** Lets the next order of a stock go, if it may. */
    method SendNext(s: int, limit: int, ghost mail: Mail) returns (r: Option<Order>)
      requires Knows(mail) && |next| == config.stocks && config.IsStock(s) && next[s - 1] < |config.Raw(id, s)|
      modifies this`next
      ensures
        var o := config.Raw(id, s)[old(next[s - 1])];
        r == if o.id >= limit then None else Decide(config, id, s, o, Known(config, mail, id, s, o))
      ensures next == if r.None? then old(next) else old(next)[s - 1 := old(next[s - 1]) + 1]
    {
      r := CheckOrder(config.Raw(id, s)[next[s - 1]], limit, s, mail);
      if r.Some? {
        next := next[s - 1 := next[s - 1] + 1];
      }
    }

    /** The orders of one stock go until one must wait. */
    method SendStock(s: int, ghost mail: Mail) returns (orders: seq<Order>)
      requires Knows(mail) && |next| == config.stocks && config.IsStock(s)
      modifies this`next
      ensures orders == Sendable(config, mail, id, s, old(next[s - 1]))
      ensures next == old(next)[s - 1 := old(next[s - 1]) + |orders|]
    {
      hide Decide, Known, Sendable, TraderController.Knows;
      KnownStart(this, s, mail);
      var limit := info.windowStart[s - 1] + config.window;
      ghost var from := next[s - 1];
      orders := [];
      while next[s - 1] < |config.Raw(id, s)|
        invariant |next| == config.stocks && next == old(next)[s - 1 := from + |orders|]
        invariant orders + Sendable(config, mail, id, s, from + |orders|) == Sendable(config, mail, id, s, from)
        decreases |config.Raw(id, s)| - next[s - 1]
      {
        SendableNext(config, mail, id, s, from + |orders|);
        var r := SendNext(s, limit, mail);
        if r.None? {
          return;
        }
        orders := orders + [r.value];
      }
      SendableNext(config, mail, id, s, from + |orders|);
    }

    /** One pass over the stocks. */
    method SendPass(ghost mail: Mail) returns (orders: seq<Order>)
      requires Knows(mail) && |next| == config.stocks
      modifies this`next
      ensures orders == PassOrders(config, mail, id, old(next), config.stocks)
      ensures
        ValidConfig(config) ==>
          && (forall s :: config.IsStock(s) ==> OfStock(orders, s) == Sendable(config, mail, id, s, old(next)[s - 1]))
          && (forall i :: 0 <= i < |orders| ==> config.IsStock(orders[i].stock))
          && (forall i, j :: 0 <= i < j < |orders| ==> orders[i].stock <= orders[j].stock)
      ensures |next| == config.stocks
      ensures
        forall i :: 0 <= i < |next| ==> next[i] == old(next[i]) + |Sendable(config, mail, id, i + 1, old(next[i]))|
    {
      hide Sendable, TraderController.Knows, ValidConfig, OfStock;
      orders := [];
      for i := 0 to config.stocks
        invariant |next| == config.stocks && orders == PassOrders(config, mail, id, old(next), i)
        invariant
          forall k :: 0 <= k < i ==> next[k] == old(next[k]) + |Sendable(config, mail, id, k + 1, old(next[k]))|
        invariant forall k :: i <= k < |next| ==> next[k] == old(next[k])
      {
        var sent := SendStock(i + 1, mail);
        orders := orders + sent;
      }
      if ValidConfig(config) {
        forall s
          ensures
            OfStock(orders, s) ==
            if config.IsStock(s) then Sendable(config, mail, id, s, old(next)[s - 1]) else []
        {
          PassByStock(config, mail, id, old(next), config.stocks, s);
        }
        PassByStock(config, mail, id, old(next), config.stocks, 1);
      }
    }
  }

  lemma {:induction false} KnownStart(ctl: TraderController, s: int, mail: Mail)
    requires ctl.Knows(mail) && ctl.config.IsStock(s)
    ensures |ctl.info.windowStart| == ctl.config.stocks && ctl.info.windowStart[s - 1] == mail.Start(ctl.id, s)
  {
  }

  /** The state after some steps from `q`. */
  function RunFrom(c: Config, q: State, steps: seq<Step>): State
    requires ValidSizes(c)
  {
    if steps == [] then q
    else Apply(c, RunFrom(c, q, steps[..|steps| - 1]), steps[|steps| - 1])
  }

  lemma {:induction false} RunFromOneMore(c: Config, q: State, steps: seq<Step>, step: Step)
    requires ValidSizes(c)
    ensures RunFrom(c, q, steps + [step]) == Apply(c, RunFrom(c, q, steps), step)
  {
    assert (steps + [step])[..|steps|] == steps;
  }

  lemma {:induction false} RunFromConcat(c: Config, q: State, a: seq<Step>, b: seq<Step>)
    requires ValidSizes(c)
    ensures RunFrom(c, q, a + b) == RunFrom(c, RunFrom(c, q, a), b)
  {
    hide Apply;
    if b == [] {
      assert a + [] == a;
    } else {
      RunFromConcat(c, q, a, b[..|b| - 1]);
      assert (a + b)[..|a + b| - 1] == a + b[..|b| - 1];
    }
  }

  lemma {:induction false} RunFromNone(c: Config, q: State)
    requires ValidSizes(c)
    ensures RunFrom(c, q, []) == q
  {
  }

  /** From a reachable state such steps reach a reachable state. */
  lemma {:induction false} RunFromRun(c: Config, schedule: seq<Step>, steps: seq<Step>)
    requires ValidSizes(c)
    ensures RunFrom(c, Run(c, schedule), steps) == Run(c, schedule + steps)
  {
    hide Apply;
    if steps == [] {
      assert schedule + [] == schedule;
    } else {
      RunFromRun(c, schedule, steps[..|steps| - 1]);
      assert (schedule + steps)[..|schedule + steps| - 1] == schedule + steps[..|steps| - 1];
    }
  }

  function Sends(t: int, s: int, n: nat): (steps: seq<Step>)
    ensures |steps| == n && forall i :: 0 <= i < n ==> steps[i] == Send(t, s)
  {
    seq(n, i => Send(t, s))
  }

  lemma {:induction false} SendParts(c: Config, q: State, t: int, s: int)
    requires ValidSizes(c) && Enabled(c, q, Send(t, s))
    ensures
      var n := Apply(c, q, Send(t, s));
      var o := System.CheckOrder(c, q.mail, t, s, c.Raw(t, s)[|q.flow.Sent(t, s)|]).value;
      && n.flow.Sent(t, s) == q.flow.Sent(t, s) + [o]
      && n.flow.Wire(t, c.Home(s)) == q.flow.Wire(t, c.Home(s)) + [o]
      && n.mail == q.mail && n.core == q.core
  {
  }

  /** What a send of a stock leaves alone: other stocks, and the wires to other exchanges. */
  lemma {:induction false} SendElsewhere(c: Config, q: State, t: int, s: int, r: int, e: int)
    requires ValidSizes(c)
    ensures
      var n := Apply(c, q, Send(t, s));
      && (r != s ==> n.flow.Sent(t, r) == q.flow.Sent(t, r))
      && (e != s % c.exchanges ==> n.flow.Wire(t, e) == q.flow.Wire(t, e))
  {
    hide Decide, Known;
  }

  lemma {:induction false} SendsFirst(c: Config, q: State, t: int, s: int, n: nat)
    requires ValidSizes(c)
    ensures RunFrom(c, q, Sends(t, s, n + 1)) == RunFrom(c, Apply(c, q, Send(t, s)), Sends(t, s, n))
  {
    hide Apply, RunFrom;
    RunFromNone(c, q);
    RunFromOneMore(c, q, [], Send(t, s));
    assert [] + [Send(t, s)] == [Send(t, s)] && [Send(t, s)] + Sends(t, s, n) == Sends(t, s, n + 1);
    RunFromConcat(c, q, [Send(t, s)], Sends(t, s, n));
  }

  /**
   * A pass over a stock is a run of send steps, which puts just these orders on the wire to the exchange
   * of the stock, and after which the stock can send nothing more.
   */
  lemma {:induction false} PassIsSends(c: Config, q: State, t: int, s: int)
    requires ValidSizes(c) && c.IsTrader(t) && c.IsStock(s)
    ensures
      var orders := Sendable(c, q.mail, t, s, |q.flow.Sent(t, s)|);
      var r := RunFrom(c, q, Sends(t, s, |orders|));
      && r.flow.Sent(t, s) == q.flow.Sent(t, s) + orders
      && (forall u :: u != s ==> r.flow.Sent(t, u) == q.flow.Sent(t, u))
      && (forall e :: r.flow.Wire(t, e) == q.flow.Wire(t, e) + if e == s % c.exchanges then orders else [])
      && r.mail == q.mail && r.core == q.core && !Enabled(c, r, Send(t, s))
    decreases |c.Raw(t, s)| - |q.flow.Sent(t, s)|
  {
    hide System.CheckOrder, Apply, RunFrom;
    if !Enabled(c, q, Send(t, s)) {
      RunFromNone(c, q);
      assert Sends(t, s, 0) == [];
    } else {
      var n := Apply(c, q, Send(t, s));
      SendParts(c, q, t, s);
      forall u, e
        ensures u != s ==> n.flow.Sent(t, u) == q.flow.Sent(t, u)
        ensures e != s % c.exchanges ==> n.flow.Wire(t, e) == q.flow.Wire(t, e)
      {
        SendElsewhere(c, q, t, s, u, e);
      }
      PassIsSends(c, n, t, s);
      var o := System.CheckOrder(c, q.mail, t, s, c.Raw(t, s)[|q.flow.Sent(t, s)|]).value;
      var later := Sendable(c, q.mail, t, s, |q.flow.Sent(t, s)| + 1);
      SendsFirst(c, q, t, s, |later|);
      assert q.flow.Sent(t, s) + [o] + later == q.flow.Sent(t, s) + ([o] + later);
      var w := q.flow.Wire(t, s % c.exchanges);
      assert w + [o] + later == w + ([o] + later);
    }
  }

  // ---------- a pass over all stocks ----------

  /** The orders of one pass that go to one exchange. */
  function ForExchange(orders: seq<Order>, exchanges: nat, e: int): seq<Order>
    requires exchanges > 0
  {
    if orders == [] then []
    else
      var before, o := ForExchange(orders[..|orders| - 1], exchanges, e), orders[|orders| - 1];
      if o.stock % exchanges == e then before + [o] else before
  }

  lemma {:induction false} ForExchangeConcat(a: seq<Order>, b: seq<Order>, exchanges: nat, e: int)
    requires exchanges > 0
    ensures ForExchange(a + b, exchanges, e) == ForExchange(a, exchanges, e) + ForExchange(b, exchanges, e)
  {
    if b == [] {
      assert a + b == a;
    } else {
      assert (a + b)[..|a + b| - 1] == a + b[..|b| - 1];
      ForExchangeConcat(a, b[..|b| - 1], exchanges, e);
    }
  }

  lemma {:induction false} ForExchangeOfStock(orders: seq<Order>, exchanges: nat, e: int, s: int)
    requires exchanges > 0 && forall i :: 0 <= i < |orders| ==> orders[i].stock == s
    ensures ForExchange(orders, exchanges, e) == if e == s % exchanges then orders else []
  {
    if orders != [] {
      ForExchangeOfStock(orders[..|orders| - 1], exchanges, e, s);
    }
  }

  /** What may go from a stock: order after order as checked, up to the first that must wait. */
  lemma {:induction false} SendableIs(c: Config, mail: Mail, t: int, s: int, from: nat)
    requires from <= |c.Raw(t, s)|
    ensures
      var raw, orders := c.Raw(t, s), Sendable(c, mail, t, s, from);
      && from + |orders| <= |raw|
      && (forall i :: 0 <= i < |orders| ==> System.CheckOrder(c, mail, t, s, raw[from + i]) == Some(orders[i]))
      && (from + |orders| < |raw| ==> System.CheckOrder(c, mail, t, s, raw[from + |orders|]).None?)
    decreases |c.Raw(t, s)| - from
  {
    hide System.CheckOrder;
    if from < |c.Raw(t, s)| && System.CheckOrder(c, mail, t, s, c.Raw(t, s)[from]).Some? {
      SendableIs(c, mail, t, s, from + 1);
    }
  }

  lemma {:induction false} PassOrdersNext(c: Config, mail: Mail, t: int, next: seq<nat>, n: nat)
    requires n <= |next|
    ensures
      PassOrders(c, mail, t, next, n) ==
      if n == 0 then [] else PassOrders(c, mail, t, next, n - 1) + Sendable(c, mail, t, n, next[n - 1])
  {
  }

  lemma {:induction false} ForNoExchange(exchanges: nat)
    requires exchanges > 0
    ensures forall e :: ForExchange([], exchanges, e) == []
  {
  }

  /** Sending one stock lets no other stock send again. */
  lemma {:induction false} StillWaiting(c: Config, p: State, r: State, t: int, n: nat)
    requires r.mail == p.mail && forall s :: s != n ==> r.flow.Sent(t, s) == p.flow.Sent(t, s)
    requires forall s :: 1 <= s < n ==> !Enabled(c, p, Send(t, s))
    ensures forall s :: 1 <= s < n ==> !Enabled(c, r, Send(t, s))
  {
    hide Decide, Known;
    forall s | 1 <= s < n
      ensures !Enabled(c, r, Send(t, s))
    {
      assert !Enabled(c, p, Send(t, s)) && r.flow.Sent(t, s) == p.flow.Sent(t, s);
    }
  }

  /**
   * A pass over the stocks 1 to `n` is a run of send steps. Every stock has then sent what could go from
   * it, the wire to each exchange has gained just the orders of the pass whose stock it serves, in the
   * order of the pass, and none of these stocks can send anything more.
   */
  lemma {:induction false} PassIsRun(c: Config, q: State, t: int, next: seq<nat>, n: nat) returns (steps: seq<Step>)
    requires ValidConfig(c) && c.IsTrader(t) && n <= c.stocks == |next|
    requires forall s :: c.IsStock(s) ==> next[s - 1] == |q.flow.Sent(t, s)|
    ensures forall i :: 0 <= i < |steps| ==> steps[i].Send? && steps[i].t == t
    ensures
      var r, orders := RunFrom(c, q, steps), PassOrders(c, q.mail, t, next, n);
      && r.mail == q.mail && r.core == q.core
      && (forall s :: r.flow.Sent(t, s) ==
            q.flow.Sent(t, s) + if 1 <= s <= n then Sendable(c, q.mail, t, s, |q.flow.Sent(t, s)|) else [])
      && (forall e :: r.flow.Wire(t, e) == q.flow.Wire(t, e) + ForExchange(orders, c.exchanges, e))
      && (forall s :: 1 <= s <= n ==> !Enabled(c, r, Send(t, s)))
  {
    hide Sendable, Apply, RunFrom, ForExchange, PassOrders, Enabled;
    PassOrdersNext(c, q.mail, t, next, n);
    if n == 0 {
      steps := [];
      RunFromNone(c, q);
      assert forall e :: q.flow.Wire(t, e) + ForExchange([], c.exchanges, e) == q.flow.Wire(t, e) by {
        ForNoExchange(c.exchanges);
      }
    } else {
      var before := PassIsRun(c, q, t, next, n - 1);
      var p := RunFrom(c, q, before);
      var sent := Sendable(c, q.mail, t, n, |q.flow.Sent(t, n)|);
      PassIsSends(c, p, t, n);
      steps := before + Sends(t, n, |sent|);
      RunFromConcat(c, q, before, Sends(t, n, |sent|));
      SendableOfStock(c, q.mail, t, n, |q.flow.Sent(t, n)|);
      var orders := PassOrders(c, q.mail, t, next, n - 1);
      forall e
        ensures
          ForExchange(orders + sent, c.exchanges, e) ==
          ForExchange(orders, c.exchanges, e) + if e == n % c.exchanges then sent else []
      {
        ForExchangeConcat(orders, sent, c.exchanges, e);
        ForExchangeOfStock(sent, c.exchanges, e, n);
      }
      StillWaiting(c, p, RunFrom(c, q, steps), t, n);
    }
  }
}
