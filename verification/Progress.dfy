/**
 * Where schedules end: every enabled step brings the system closer to a state with nothing left to
 * do, every order is committed unless a hook waits for a trade that is never made, and that final
 * state does not depend on the schedule either.
 */
module Progress {
  import opened Types
  import opened Matching
  import opened SlidingWindows
  import opened System
  import opened FlowControl
  import opened Protocol
  import opened Schedule
  import opened Decisions

  /** Nothing can happen any more. */
  ghost predicate Stuck(c: Config, q: State) {
    forall step :: !Enabled(c, q, step)
  }

  // ---------- what a final state looks like ----------

  lemma {:induction false} StuckThread(c: Config, q: State, s: int)
    requires Stuck(c, q) && c.IsStock(s)
    ensures q.core.PhaseOf(s) == Collecting([]) && !CanPoll(q.flow.WindowOf(c, s))
  {
    assert !Enabled(c, q, Poll(s)) && !Enabled(c, q, Acknowledge(s));
    assert !Enabled(c, q, Work(s)) && !Enabled(c, q, Emit(s)) && !Enabled(c, q, Resume(s));
  }

  lemma {:induction false} StuckNets(c: Config, q: State, t: int, e: int)
    requires Stuck(c, q) && c.IsTrader(t)
    ensures q.flow.Wire(t, e) == [] && Pending(q.mail, e, t) == []
  {
    assert !Enabled(c, q, Arrive(t, e)) && !Enabled(c, q, Forward(e)) && !Enabled(c, q, Hear(e, t));
  }

  /** In a final state every trader knows every trade and the whole of every window. */
  lemma {:induction false} StuckKnows(c: Config, q: State, t: int, s: int)
    requires CoresInv(q.flow, q.core) && MailsInv(c, q.flow, q.core, q.mail)
    requires Stuck(c, q) && c.IsTrader(t) && c.IsStock(s)
    ensures q.mail.Log(t, s) == q.core.Trades(s) && q.mail.Start(t, s) == |q.flow.Polled(s)| + 1
  {
    hide CoresInv, MailsInv, Stuck, Pending;
    StuckThread(c, q, s);
    StuckNets(c, q, t, c.Home(s));
    HeardAt(c, q.flow, q.core, q.mail, t, s);
    assert q.mail.Log(t, s) + [] + [] == q.mail.Log(t, s);
  }

  /** In a final state the next id of a stock has not been sent by the trader that holds it. */
  lemma {:induction false} StuckUnsent(c: Config, q: State, s: int, u: int, j: nat)
    requires ValidConfig(c) && FlowInv(c, q.flow) && Stuck(c, q)
    requires j < |c.Raw(u, s)| && c.Raw(u, s)[j].id == |q.flow.Polled(s)| + 1
    ensures j == |q.flow.Sent(u, s)|
  {
    var f := q.flow;
    assert c.IsTrader(u) && c.IsStock(s);
    StuckThread(c, q, s);
    StuckNets(c, q, u, c.Home(s));
    assert SentInv(c, f, u, s) && InWindow(c, f, u, s) && SlotsInv(c, f, s);
    assert Arrived(c, f, u, s) == |f.Sent(u, s)|;
    if j > |f.Sent(u, s)| {
      UnsentIsUnpolled(c, f, u, s);
    }
  }

  /** The trade that an order waits for has not been made. */
  ghost predicate Waits(c: Config, q: State, s: int, o: Order) {
    (s, o.id) in c.hooks &&
    var h := c.hooks[(s, o.id)];
    h.index < 1 || h.index > |q.core.EngineOf(h.stock).trades|
  }

  /** In a final state, whoever holds the next id of a stock waits for a trade that has not been made. */
  lemma {:induction false} StuckWaits(c: Config, q: State, s: int, u: int, j: nat)
    requires ValidConfig(c) && Inv(c, q) && Stuck(c, q)
    requires j < |c.Raw(u, s)| && c.Raw(u, s)[j].id == |q.flow.Polled(s)| + 1
    ensures Waits(c, q, s, c.Raw(u, s)[j])
  {
    var o := c.Raw(u, s)[j];
    assert c.IsTrader(u) && c.IsStock(s);
    assert !Enabled(c, q, Send(u, s));
    hide FlowInv, CoresInv, MailsInv, AllHonest, Stuck;
    StuckUnsent(c, q, s, u, j);
    StuckKnows(c, q, u, s);
    if (s, o.id) in c.hooks {
      StuckKnows(c, q, u, c.hooks[(s, o.id)].stock);
      TradesArePositive(c, q, c.hooks[(s, o.id)].stock);
    }
  }

  // ---------- a final state has everything any schedule can reach ----------

  lemma {:induction false} StuckTrades(c: Config, q: State, s: int)
    requires CoresInv(q.flow, q.core) && Stuck(c, q) && c.IsStock(s)
    ensures CommittedOf(q, s) == q.flow.Polled(s) && q.core.Trades(s) == CommitAll(q.flow.Polled(s)).trades
  {
    hide CoresInv, Stuck, CommitAll;
    StuckThread(c, q, s);
    CommittedTrades(q, s);
  }

  /** A final state that has polled at least as much has made at least the trades. */
  lemma {:induction false} FinalTrades(c: Config, q: State, r: State, s: int)
    requires CoresInv(q.flow, q.core) && CoresInv(r.flow, r.core) && Stuck(c, q) && c.IsStock(s)
    requires r.flow.Polled(s) <= q.flow.Polled(s)
    ensures r.core.Trades(s) <= q.core.Trades(s)
  {
    hide CoresInv, Stuck, CommitAll;
    StuckTrades(c, q, s);
    CommittedTrades(r, s);
    LongerRunMoreTrades(CommittedOf(r, s), q.flow.Polled(s));
  }

  /** The order another run polls next has also been decided in the final state, so it was polled there. */
  lemma {:induction false} FinalPolled(c: Config, d: Config, q: State, r: State, s: int, o: Order)
    requires ValidConfig(c) && ValidConfig(d) && SameInput(d, c) && Inv(c, q) && Inv(d, r) && Stuck(c, q)
    requires forall x :: r.flow.Polled(x) <= q.flow.Polled(x)
    requires IsArrived(d, r.flow, s, o) && o.id == |r.flow.Polled(s)| + 1
    ensures |r.flow.Polled(s)| < |q.flow.Polled(s)|
  {
    hide CoresInv, MailsInv, AllHonest, ListsInv, WiresHome, WindowsInv, StocksInv, Stuck, IsArrived, Commit, HeldAs;
    var u, j := SourceOfArrived(d, r.flow, r.core, s, o);
    var t, i := SameHolder(d, c, s, u, j);
    var raw := c.Raw(t, s)[i];
    if |r.flow.Polled(s)| == |q.flow.Polled(s)| {
      StuckWaits(c, q, s, t, i);
      var hook := c.hooks[(s, raw.id)];
      FinalTrades(c, q, r, hook.stock);
      assert false;
    }
  }

  lemma {:induction false} FinalStep(c: Config, d: Config, q: State, r: State, step: Step, s: int)
    requires ValidConfig(c) && ValidConfig(d) && SameInput(d, c) && Inv(c, q) && Inv(d, r) && Stuck(c, q)
    requires forall x :: r.flow.Polled(x) <= q.flow.Polled(x)
    requires Comparable(Apply(d, r, step).flow.Polled(s), q.flow.Polled(s))
    ensures Apply(d, r, step).flow.Polled(s) <= q.flow.Polled(s)
  {
    hide Inv, Apply, Stuck, IsArrived, SameInput;
    OneMorePolled(d, r, step, s);
    var y := Apply(d, r, step).flow.Polled(s);
    if y != r.flow.Polled(s) {
      FinalPolled(c, d, q, r, s, y[|r.flow.Polled(s)|]);
    }
  }

  /** What any schedule polls of the same input, a schedule that ends in a final state has polled too. */
  lemma {:induction false} FinalIsGreatest(c: Config, d: Config, a: seq<Step>, b: seq<Step>, s: int)
    requires ValidConfig(c) && ValidConfig(d) && SameInput(d, c) && Stuck(c, Run(c, a))
    ensures Run(d, b).flow.Polled(s) <= Run(c, a).flow.Polled(s)
    decreases |b|
  {
    hide Inv, Apply, Stuck, SameInput;
    if b == [] {
      assert Run(d, []).flow.Polled(s) == [];
    } else {
      var b' := b[..|b| - 1];
      forall x
        ensures Run(d, b').flow.Polled(x) <= Run(c, a).flow.Polled(x)
      {
        FinalIsGreatest(c, d, a, b', x);
      }
      RunKeeps(c, a);
      RunKeeps(d, b');
      PolledComparable(d, c, b, a, s);
      FinalStep(c, d, Run(c, a), Run(d, b'), b[|b| - 1], s);
    }
  }

  /**
   * All schedules that end, end with the same orders committed and the same trades made: the outcome
   * depends on the orders, the hooks and the limits alone.
   */
  lemma {:induction false} FinalOutcomeIsUnique(c: Config, d: Config, a: seq<Step>, b: seq<Step>, s: int)
    requires ValidConfig(c) && ValidConfig(d) && SameInput(c, d) && c.IsStock(s)
    requires Stuck(c, Run(c, a)) && Stuck(d, Run(d, b))
    ensures
      var q, r := Run(c, a), Run(d, b);
      CommittedOf(q, s) == CommittedOf(r, s) && q.core.EngineOf(s) == r.core.EngineOf(s)
  {
    hide Run, Stuck, FlowInv, CoresInv, MailsInv, AllHonest, CommitAll, HeldAs;
    assert SameInput(d, c);
    FinalIsGreatest(c, d, a, b, s);
    FinalIsGreatest(d, c, b, a, s);
    RunKeeps(c, a);
    RunKeeps(d, b);
    var q, r := Run(c, a), Run(d, b);
    StuckTrades(c, q, s);
    StuckTrades(d, r, s);
    CoreAt(q.flow, q.core, s);
    CoreAt(r.flow, r.core, s);
  }

  /** When a run has ended, every trader has received every trade of every stock, in order. */
  lemma {:induction false} FinalLogs(c: Config, schedule: seq<Step>, t: int, s: int)
    requires ValidConfig(c) && Stuck(c, Run(c, schedule)) && c.IsTrader(t) && c.IsStock(s)
    ensures
      var q := Run(c, schedule);
      q.mail.Log(t, s) == q.core.Trades(s) == CommitAll(CommittedOf(q, s)).trades
  {
    hide Run, Stuck, FlowInv, CoresInv, MailsInv, AllHonest, CommitAll;
    RunKeeps(c, schedule);
    var q := Run(c, schedule);
    StuckKnows(c, q, t, s);
    StuckTrades(c, q, s);
  }

  /** So the logs of all traders in all runs that end on the same input are the same. */
  lemma {:induction false} FinalLogsAreUnique(c: Config, d: Config, a: seq<Step>, b: seq<Step>, t: int, u: int, s: int)
    requires ValidConfig(c) && ValidConfig(d) && SameInput(c, d)
    requires Stuck(c, Run(c, a)) && Stuck(d, Run(d, b)) && c.IsTrader(t) && d.IsTrader(u) && c.IsStock(s)
    ensures Run(c, a).mail.Log(t, s) == Run(d, b).mail.Log(u, s)
  {
    hide Run, Stuck, CommitAll, CommittedOf, HeldAs;
    FinalLogs(c, a, t, s);
    FinalLogs(d, b, u, s);
    FinalOutcomeIsUnique(c, d, a, b, s);
  }

  // ---------- nothing is left behind ----------

  ghost predicate Held(c: Config, s: int, id: int) {
    exists t, i :: 0 <= i < |c.Raw(t, s)| && c.Raw(t, s)[i].id == id
  }

  /** The traders together hold every id of a stock up to the largest. */
  ghost predicate Dense(c: Config, s: int) {
    forall t, i, k :: 0 <= i < |c.Raw(t, s)| && 1 <= k <= c.Raw(t, s)[i].id ==> Held(c, s, k)
  }

  /** Some trader holds order `id` of stock `s`, and it waits for a trade that has not been made. */
  ghost predicate Blocked(c: Config, q: State, s: int, id: int) {
    exists t, i :: 0 <= i < |c.Raw(t, s)| && c.Raw(t, s)[i].id == id && Waits(c, q, s, c.Raw(t, s)[i])
  }

  lemma {:induction false} StuckBlocked(c: Config, q: State, s: int, t: int, i: nat)
    requires ValidConfig(c) && Inv(c, q) && Dense(c, s) && Stuck(c, q)
    requires i < |c.Raw(t, s)| && c.Raw(t, s)[i].id > |q.flow.Polled(s)|
    ensures Blocked(c, q, s, |q.flow.Polled(s)| + 1)
  {
    hide Inv, Stuck, Waits;
    assert Held(c, s, |q.flow.Polled(s)| + 1);
    var u, j :| 0 <= j < |c.Raw(u, s)| && c.Raw(u, s)[j].id == |q.flow.Polled(s)| + 1;
    StuckWaits(c, q, s, u, j);
  }

  /**
   * In a final state an order has been committed, in the place of its id, in the form that its hook and
   * its price prescribe, or the order that is next for its stock waits for a trade that was never made.
   */
  lemma {:induction false} FinalIsComplete(c: Config, schedule: seq<Step>, s: int, t: int, i: nat)
    requires ValidConfig(c) && Dense(c, s) && Stuck(c, Run(c, schedule)) && i < |c.Raw(t, s)|
    ensures
      var q, raw := Run(c, schedule), c.Raw(t, s)[i];
      var held := (s, raw.id) in c.hooks;
      var h := if held then c.hooks[(s, raw.id)] else Hook(0, 0, 0);
      var trades := q.core.EngineOf(h.stock).trades;
      var outside := raw.kind == 0 && (raw.price < c.low(t, s) || raw.price > c.high(t, s));
      || Blocked(c, q, s, |CommittedOf(q, s)| + 1)
      || (&& 1 <= raw.id <= |CommittedOf(q, s)| && (held ==> 1 <= h.index <= |trades|)
          && CommittedOf(q, s)[raw.id - 1] ==
             if outside || (held && trades[h.index - 1].volume > h.arg) then raw.(kind := -1) else raw)
  {
    hide Run, Stuck, FlowInv, CoresInv, MailsInv, AllHonest, Blocked, Dense, CommitAll;
    RunKeeps(c, schedule);
    var q := Run(c, schedule);
    assert c.IsStock(s);
    StuckTrades(c, q, s);
    if c.Raw(t, s)[i].id > |q.flow.Polled(s)| {
      StuckBlocked(c, q, s, t, i);
    } else {
      CommittedAsHeld(c, schedule, t, s, i);
    }
  }

  /** Without hooks, a final state has committed every order, as it is or cancelled by its price. */
  lemma {:induction false} AllCommittedWithoutHooks(c: Config, schedule: seq<Step>, s: int, t: int, i: nat)
    requires ValidConfig(c) && Dense(c, s) && Stuck(c, Run(c, schedule)) && i < |c.Raw(t, s)| && c.hooks == map[]
    ensures
      var committed, raw := CommittedOf(Run(c, schedule), s), c.Raw(t, s)[i];
      var outside := raw.kind == 0 && (raw.price < c.low(t, s) || raw.price > c.high(t, s));
      && 1 <= raw.id <= |committed|
      && committed[raw.id - 1] == if outside then raw.(kind := -1) else raw
  {
    hide Run, Stuck, CommittedOf, Dense;
    FinalIsComplete(c, schedule, s, t, i);
  }
}
