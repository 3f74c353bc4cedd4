/** What holds for every schedule, and why the outcome does not depend on the schedule. */
module Schedule {
  import opened Types
  import opened Matching
  import opened MatchingLaws
  import opened Reorder
  import opened SlidingWindows
  import opened System
  import opened FlowControl
  import opened Protocol

  // ---------- safety of every schedule ----------

  lemma {:induction false} OnWireMember(wire: seq<Order>, s: int, o: Order)
    requires o in OfStock(wire, s)
    ensures o in wire
  {
    if wire[0].stock != s || o != wire[0] {
      OnWireMember(wire[1..], s, o);
    }
  }

  /** An order that was sent and has an id up to the number of polled orders is the one polled in that place. */
  lemma {:induction false} PolledInPlace(c: Config, f: Flow, t: int, s: int, i: nat)
    requires ValidConfig(c) && FlowInv(c, f) && i < |f.Sent(t, s)| && f.Sent(t, s)[i].id <= |f.Polled(s)|
    ensures 1 <= f.Sent(t, s)[i].id && f.Polled(s)[f.Sent(t, s)[i].id - 1] == f.Sent(t, s)[i]
  {
    assert SentInv(c, f, t, s) && PolledInv(c, f, s);
    assert c.Raw(t, s)[i].id >= 1;
    var o := f.Polled(s)[f.Sent(t, s)[i].id - 1];
    assert IsArrived(c, f, s, o);
    var u, j :| ArrivedAt(c, f, u, s, j, o);
    assert SentInv(c, f, u, s);
    OneHolder(c, f, s, t, i, u, j);
  }

  lemma {:induction false} SentInWindow(c: Config, f: Flow, t: int, s: int, i: nat)
    requires c.window > 0 && FlowInv(c, f) && i < |f.Sent(t, s)|
    ensures f.Sent(t, s)[i].id <= |f.Polled(s)| + c.window && |f.WindowOf(c, s).slots| == c.window
  {
    assert InWindow(c, f, t, s) && SlotsInv(c, f, s);
  }

  /** An order that was sent and not polled is on the wire to the exchange of its stock, or in its slot. */
  lemma {:induction false} StillOnItsWay(c: Config, f: Flow, t: int, s: int, i: nat)
    requires ValidSizes(c) && FlowInv(c, f) && i < |f.Sent(t, s)| && f.Sent(t, s)[i].id > |f.Polled(s)|
    ensures |f.WindowOf(c, s).slots| == c.window
    ensures
      var o := f.Sent(t, s)[i];
      o in f.Wire(t, s % c.exchanges) || f.WindowOf(c, s).slots[(o.id - 1) % c.window] == Some(o)
  {
    assert SentInv(c, f, t, s) && InWindow(c, f, t, s) && SlotsInv(c, f, s);
    hide FlowInv, OfStock;
    if i >= Arrived(c, f, t, s) {
      assert OnWire(c, f, t, s)[i - Arrived(c, f, t, s)] == f.Sent(t, s)[i];
      OnWireMember(f.Wire(t, c.Home(s)), s, f.Sent(t, s)[i]);
    }
  }

  /**
   * Flow control: in every state, every order that was sent and not polled has an id in the window
   * above the number of polled orders and is on its way, every other order that was sent was polled
   * as it was sent, in the place of its id, and what was polled is 1, 2, 3, ...
   */
  lemma {:induction false} FlowControlSafety(c: Config, schedule: seq<Step>, t: int, s: int, i: nat)
    requires ValidConfig(c) && i < |Run(c, schedule).flow.Sent(t, s)|
    ensures
      var f := Run(c, schedule).flow;
      var o, p := f.Sent(t, s)[i], |f.Polled(s)|;
      && o.id <= p + c.window
      && |f.WindowOf(c, s).slots| == c.window
      && (if o.id <= p then 1 <= o.id && f.Polled(s)[o.id - 1] == o
          else o in f.Wire(t, s % c.exchanges) || f.WindowOf(c, s).slots[(o.id - 1) % c.window] == Some(o))
      && PolledOrders(f.Polled(s), s)
  {
    hide Run, FlowInv, CoresInv, MailsInv, AllHonest, PolledOrders;
    RunKeeps(c, schedule);
    var f := Run(c, schedule).flow;
    PolledAreOrders(c, f, s);
    SentInWindow(c, f, t, s, i);
    if f.Sent(t, s)[i].id <= |f.Polled(s)| {
      PolledInPlace(c, f, t, s, i);
    } else {
      StillOnItsWay(c, f, t, s, i);
    }
  }

  /** In every state an arriving order finds its slot free, so nothing is overwritten. */
  lemma {:induction false} NothingOverwritten(c: Config, schedule: seq<Step>, t: int, e: int)
    requires ValidConfig(c) && Enabled(c, Run(c, schedule), Arrive(t, e))
    ensures
      var f := Run(c, schedule).flow;
      var w := f.WindowOf(c, f.Wire(t, e)[0].stock);
      |w.slots| == c.window && w.slots[(f.Wire(t, e)[0].id - 1) % c.window].None?
  {
    RunKeeps(c, schedule);
    hide Run, CoresInv, MailsInv, AllHonest, FlowInv;
    SlotIsFree(c, Run(c, schedule).flow, t, e);
  }

  lemma {:induction false} StartMovesForward(c: Config, q: State, step: Step, t: int, s: int)
    requires ValidSizes(c) && MailsInv(c, q.flow, q.core, q.mail) && c.IsTrader(t) && c.IsStock(s)
    ensures q.mail.Start(t, s) <= Apply(c, q, step).mail.Start(t, s)
  {
    hide MailsInv, DoSend, DoArrive, DoPoll, DoWork, DoHear, CheckOrder;
    if Enabled(c, q, step) && step.Hear? {
      HearKeepsOne(c, q.flow, q.core, q.mail, step.e, step.t, t, s);
    }
  }

  /** The window start a trader knows never moves back and never passes what was polled. */
  lemma {:induction false} WindowsMoveForward(c: Config, schedule: seq<Step>, step: Step, t: int, s: int)
    requires ValidConfig(c) && c.IsTrader(t) && c.IsStock(s)
    ensures
      var q := Run(c, schedule);
      q.mail.Start(t, s) <= Apply(c, q, step).mail.Start(t, s) <= |Apply(c, q, step).flow.Polled(s)| + 1
  {
    hide Run, CoresInv, MailsInv, AllHonest, FlowInv, Apply;
    RunKeeps(c, schedule);
    var q := Run(c, schedule);
    StepKeeps(c, q, step);
    StartBound(c, Apply(c, q, step), t, s);
    StartMovesForward(c, q, step, t, s);
  }

  /**
   * Every engine has committed exactly the polled orders before its batch, in order, and every
   * trader has received the trades of each stock in the order they were made.
   */
  lemma {:induction false} InOrderEverywhere(c: Config, schedule: seq<Step>, t: int, s: int)
    requires ValidConfig(c) && c.IsTrader(t) && c.IsStock(s)
    ensures
      var q := Run(c, schedule);
      var polled := q.flow.Polled(s);
      var n := |polled| - |q.core.PhaseOf(s).batch|;
      0 <= n && q.core.EngineOf(s) == EngineAfter(polled[..n]) && q.mail.Log(t, s) <= q.core.Trades(s)
  {
    RunKeeps(c, schedule);
    var q := Run(c, schedule);
    hide Run, CoresInv, MailsInv, AllHonest, FlowInv, EngineAfter;
    CoreAt(q.flow, q.core, s);
    HeardAt(c, q.flow, q.core, q.mail, t, s);
  }

  // ---------- schedule independence ----------

  predicate Comparable<T(==)>(x: seq<T>, y: seq<T>) {
    x <= y || y <= x
  }

  lemma {:induction false} LongerRunMoreTrades(x: seq<Order>, y: seq<Order>)
    requires x <= y
    ensures CommitAll(x).trades <= CommitAll(y).trades
    decreases |y|
  {
    hide Commit;
    if x != y {
      var z := y[..|y| - 1];
      LongerRunMoreTrades(x, z);
      assert y == z + [y[|y| - 1]];
    }
  }

  /** The orders a stock has committed. */
  function CommittedOf(q: State, s: int): seq<Order> {
    var polled := q.flow.Polled(s);
    if |q.core.PhaseOf(s).batch| <= |polled| then polled[..|polled| - |q.core.PhaseOf(s).batch|] else []
  }

  lemma {:induction false} PrefixesComparable<T>(x: seq<T>, y: seq<T>, m: nat, n: nat)
    requires Comparable(x, y) && m <= |x| && n <= |y|
    ensures if m <= n then x[..m] <= y[..n] else y[..n] <= x[..m]
  {
  }

  lemma {:induction false} CommittedTrades(q: State, s: int)
    requires CoresInv(q.flow, q.core)
    ensures q.core.Trades(s) == CommitAll(CommittedOf(q, s)).trades
    ensures |q.core.PhaseOf(s).batch| <= |q.flow.Polled(s)|
  {
    CoreAt(q.flow, q.core, s);
    hide CommitAll, CoresInv;
  }

  lemma {:induction false} ComparableTrades(q: State, r: State, s: int)
    requires CoresInv(q.flow, q.core) && CoresInv(r.flow, r.core) && Comparable(q.flow.Polled(s), r.flow.Polled(s))
    ensures Comparable(CommittedOf(q, s), CommittedOf(r, s)) && Comparable(q.core.Trades(s), r.core.Trades(s))
  {
    hide CommitAll, CoresInv;
    CommittedTrades(q, s);
    CommittedTrades(r, s);
    var x, y := CommittedOf(q, s), CommittedOf(r, s);
    PrefixesComparable(q.flow.Polled(s), r.flow.Polled(s), |x|, |y|);
    if |x| <= |y| {
      LongerRunMoreTrades(x, y);
    } else {
      LongerRunMoreTrades(y, x);
    }
  }

  /** Comparable trades give a held order the same volume to wait for, once both know it. */
  lemma {:induction false} SameVolume(x: seq<Trade>, y: seq<Trade>, index: int)
    requires Comparable(x, y) && HookedVolume(x, index) != -1 && HookedVolume(y, index) != -1
    ensures HookedVolume(x, index) == HookedVolume(y, index)
  {
  }

  lemma {:induction false} SourceOfArrived(c: Config, f: Flow, core: Core, s: int, o: Order) returns (t: int, i: nat)
    requires ListsInv(c, f) && AllHonest(c, f, core) && IsArrived(c, f, s, o)
    ensures i < |f.Sent(t, s)| <= |c.Raw(t, s)| && c.Raw(t, s)[i].id == o.id
    ensures Decide(c, t, s, c.Raw(t, s)[i], Produced(c, core, s, c.Raw(t, s)[i])) == Some(o)
  {
    hide Commit;
    var u, j :| ArrivedAt(c, f, u, s, j, o);
    t, i := u, j;
    assert SentInv(c, f, t, s) && Honest(c, f, core, t, s);
  }

  lemma {:induction false} OneRawHolder(c: Config, s: int, t: int, i: nat, u: int, j: nat)
    requires ValidConfig(c) && i < |c.Raw(t, s)| && j < |c.Raw(u, s)| && c.Raw(t, s)[i].id == c.Raw(u, s)[j].id
    ensures t == u && i == j
  {
  }

  /** Some trader with these price limits holds order `o` of stock `s`. */
  ghost predicate HeldAs(c: Config, s: int, o: Order, low: real, high: real) {
    exists t, i :: 0 <= i < |c.Raw(t, s)| && c.Raw(t, s)[i] == o && c.low(t, s) == low && c.high(t, s) == high
  }

  /**
   * The same orders, hooks and limits; who holds an order, how many traders and exchanges there are and
   * how large the windows are may differ.
   */
  ghost predicate SameInput(c: Config, d: Config) {
    && c.stocks == d.stocks && c.hooks == d.hooks
    && forall s, o, low, high :: HeldAs(c, s, o, low, high) <==> HeldAs(d, s, o, low, high)
  }

  /** An order held in one configuration is held in the other, by a trader with the same limits. */
  lemma {:induction false} SameHolder(c: Config, d: Config, s: int, t: int, i: nat) returns (u: int, j: nat)
    requires SameInput(c, d) && i < |c.Raw(t, s)|
    ensures j < |d.Raw(u, s)| && d.Raw(u, s)[j] == c.Raw(t, s)[i]
    ensures d.low(u, s) == c.low(t, s) && d.high(u, s) == c.high(t, s)
  {
    var o := c.Raw(t, s)[i];
    assert HeldAs(c, s, o, c.low(t, s), c.high(t, s));
    assert HeldAs(d, s, o, c.low(t, s), c.high(t, s));
    var v, k :|
      0 <= k < |d.Raw(v, s)| && d.Raw(v, s)[k] == o && d.low(v, s) == c.low(t, s) && d.high(v, s) == c.high(t, s);
    u, j := v, k;
  }

  /** Two runs whose trades are comparable send an order of a given id in the same way. */
  lemma {:induction false} SameDecision(c: Config, d: Config, q: State, r: State, s: int, o: Order, p: Order)
    requires ValidConfig(c) && ValidConfig(d) && SameInput(c, d) && Inv(c, q) && Inv(d, r)
    requires IsArrived(c, q.flow, s, o) && IsArrived(d, r.flow, s, p) && o.id == p.id
    requires forall x :: Comparable(q.core.Trades(x), r.core.Trades(x))
    ensures o == p
  {
    hide CoresInv, MailsInv, AllHonest, ListsInv, WiresHome, WindowsInv, StocksInv, IsArrived, Commit, HeldAs;
    var t, i := SourceOfArrived(c, q.flow, q.core, s, o);
    var u, j := SourceOfArrived(d, r.flow, r.core, s, p);
    var v, k := SameHolder(c, d, s, t, i);
    OneRawHolder(d, s, u, j, v, k);
    var raw := c.Raw(t, s)[i];
    if (s, raw.id) in c.hooks {
      var hook := c.hooks[(s, raw.id)];
      assert Comparable(q.core.Trades(hook.stock), r.core.Trades(hook.stock));
      SameVolume(q.core.Trades(hook.stock), r.core.Trades(hook.stock), hook.index);
    }
  }

  /** A step polls at most one more order of a stock, and that order had arrived with the next id. */
  lemma {:induction false} OneMorePolled(c: Config, q: State, step: Step, s: int)
    requires ValidConfig(c) && Inv(c, q)
    ensures
      var x, y := q.flow.Polled(s), Apply(c, q, step).flow.Polled(s);
      || y == x
      || (|y| == |x| + 1 && x <= y && y[|x|].id == |x| + 1 && IsArrived(c, q.flow, s, y[|x|]))
  {
    hide FlowInv, CoresInv, MailsInv, AllHonest, Receive, IsArrived;
    if Enabled(c, q, step) && step.Poll? && step.s == s {
      HeadIsNext(c, q.flow, s);
    }
  }

  ghost predicate ComparableStates(q: State, r: State) {
    forall s :: Comparable(q.flow.Polled(s), r.flow.Polled(s))
  }

  lemma {:induction false} SameNextOrder(c: Config, d: Config, q: State, r: State, s: int, o: Order, p: Order)
    requires ValidConfig(c) && ValidConfig(d) && SameInput(c, d) && Inv(c, q) && Inv(d, r) && ComparableStates(q, r)
    requires IsArrived(c, q.flow, s, o) && IsArrived(d, r.flow, s, p) && o.id == p.id
    ensures o == p
  {
    hide FlowInv, CoresInv, MailsInv, AllHonest, IsArrived, Commit, SameInput;
    forall z
      ensures Comparable(q.core.Trades(z), r.core.Trades(z))
    {
      ComparableTrades(q, r, z);
    }
    SameDecision(c, d, q, r, s, o, p);
  }

  /** One last step on each side cannot make comparable runs incomparable. */
  lemma {:induction false} LastSteps(c: Config, d: Config, q: State, r: State, a: Step, b: Step, s: int)
    requires ValidConfig(c) && ValidConfig(d) && SameInput(c, d) && Inv(c, q) && Inv(d, r) && ComparableStates(q, r)
    requires Comparable(Apply(c, q, a).flow.Polled(s), r.flow.Polled(s))
    requires Comparable(q.flow.Polled(s), Apply(d, r, b).flow.Polled(s))
    ensures Comparable(Apply(c, q, a).flow.Polled(s), Apply(d, r, b).flow.Polled(s))
  {
    hide Inv, Apply, IsArrived, SameInput;
    OneMorePolled(c, q, a, s);
    OneMorePolled(d, r, b, s);
    var x, y := q.flow.Polled(s), r.flow.Polled(s);
    var x', y' := Apply(c, q, a).flow.Polled(s), Apply(d, r, b).flow.Polled(s);
    if x' != x && y' != y && |x| == |y| {
      SameNextOrder(c, d, q, r, s, x'[|x|], y'[|y|]);
      assert x == y && x' == x + [x'[|x|]] && y' == y + [y'[|y|]];
    }
  }

  lemma {:induction false} PolledComparable(c: Config, d: Config, a: seq<Step>, b: seq<Step>, s: int)
    requires ValidConfig(c) && ValidConfig(d) && SameInput(c, d)
    ensures Comparable(Run(c, a).flow.Polled(s), Run(d, b).flow.Polled(s))
    decreases |a| + |b|
  {
    hide Apply, Inv, SameInput;
    if a == [] {
      assert Run(c, []).flow.Polled(s) == [];
    } else if b == [] {
      assert Run(d, []).flow.Polled(s) == [];
    } else {
      var a', b' := a[..|a| - 1], b[..|b| - 1];
      PolledComparable(c, d, a', b, s);
      PolledComparable(c, d, a, b', s);
      forall x
        ensures Comparable(Run(c, a').flow.Polled(x), Run(d, b').flow.Polled(x))
      {
        PolledComparable(c, d, a', b', x);
      }
      RunKeeps(c, a');
      RunKeeps(d, b');
      LastSteps(c, d, Run(c, a'), Run(d, b'), a[|a| - 1], b[|b| - 1], s);
    }
  }

  /**
   * Schedule independence: whatever two schedules do with the same orders, hooks and limits, on however
   * many machines and with whatever windows, the orders each stock commits and the trades it makes are
   * the same as far as both have got. With `d == c` these are two schedules of one system.
   */
  lemma {:induction false} ScheduleIndependence(c: Config, d: Config, a: seq<Step>, b: seq<Step>, s: int)
    requires ValidConfig(c) && ValidConfig(d) && SameInput(c, d)
    ensures
      var q, r := Run(c, a), Run(d, b);
      Comparable(CommittedOf(q, s), CommittedOf(r, s)) && Comparable(q.core.Trades(s), r.core.Trades(s))
  {
    hide Run, FlowInv, CoresInv, MailsInv, AllHonest, SameInput;
    PolledComparable(c, d, a, b, s);
    RunKeeps(c, a);
    RunKeeps(d, b);
    ComparableTrades(Run(c, a), Run(d, b), s);
  }

  // ---------- every law of the engine holds in the system ----------

  lemma {:induction false} DecidedIsValid(c: Config, t: int, s: int, o: Order, v: int)
    requires ValidOrder(o) && Decide(c, t, s, o, v).Some?
    ensures ValidOrder(Decide(c, t, s, o, v).value)
  {
  }

  lemma {:induction false} ArrivedIsValid(c: Config, f: Flow, core: Core, s: int, o: Order)
    requires ValidConfig(c) && ListsInv(c, f) && AllHonest(c, f, core) && IsArrived(c, f, s, o)
    ensures ValidOrder(o)
  {
    hide ListsInv, AllHonest, IsArrived, Decide, Produced;
    var t, i := SourceOfArrived(c, f, core, s, o);
    DecidedIsValid(c, t, s, c.Raw(t, s)[i], Produced(c, core, s, c.Raw(t, s)[i]));
  }

  lemma {:induction false} PolledValid(c: Config, q: State, s: int)
    requires ValidConfig(c) && FlowInv(c, q.flow) && AllHonest(c, q.flow, q.core)
    ensures forall j :: 0 <= j < |q.flow.Polled(s)| ==> ValidOrder(q.flow.Polled(s)[j])
  {
    hide ListsInv, WindowsInv, WiresHome, AllHonest, IsArrived;
    assert PolledInv(c, q.flow, s);
    forall j | 0 <= j < |q.flow.Polled(s)|
      ensures ValidOrder(q.flow.Polled(s)[j])
    {
      ArrivedIsValid(c, q.flow, q.core, s, q.flow.Polled(s)[j]);
    }
  }

  lemma {:induction false} PrefixInOrder(polled: seq<Order>, n: nat, s: int)
    requires PolledOrders(polled, s) && n <= |polled| && forall j :: 0 <= j < |polled| ==> ValidOrder(polled[j])
    ensures InOrder(polled[..n])
  {
  }

  /**
   * In every state of every schedule, the book and the trades of each stock are those of a run of
   * commits with ids 1, 2, 3, ..., so its book is uncrossed and all its trades obey the engine's laws.
   */
  lemma {:induction false} EngineLawsHold(c: Config, schedule: seq<Step>, s: int)
    requires ValidConfig(c)
    ensures
      var q := Run(c, schedule);
      var committed := CommittedOf(q, s);
      && InOrder(committed) && GoodBook(q.core.EngineOf(s).book, |committed| + 1)
      && q.core.EngineOf(s) == Engine([], |committed|, CommitAll(committed).book, CommitAll(committed).trades)
  {
    hide Run, FlowInv, CoresInv, MailsInv, AllHonest, CommitAll, ValidOrder, GoodBook, PolledOrders, InOrder;
    RunKeeps(c, schedule);
    var q := Run(c, schedule);
    CoreAt(q.flow, q.core, s);
    PolledValid(c, q, s);
    PolledAreOrders(c, q.flow, s);
    PrefixInOrder(q.flow.Polled(s), |CommittedOf(q, s)|, s);
    RunKeepsGood(CommittedOf(q, s));
  }
}
