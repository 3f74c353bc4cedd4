/**
 * A trader's objects follow the step machine: they start in step with it, and hearing a message or
 * letting an order go keeps them in step, whatever all other threads do in between.
 */
module TraderMachine {
  import opened Types
  import opened Reorder
  import opened System
  import opened FlowControl
  import opened Protocol
  import opened Schedule
  import opened Progress
  import opened Matching
  import opened TradeReceivers
  import opened Traders

  /** Tables, log and positions of a trader are those of state `q`. */
  ghost predicate Follows(ctl: TraderController, rcv: TraderTradeReceiver, q: State)
    reads ctl, rcv, ctl.info, rcv.info
  {
    && rcv.info == ctl.info && rcv.Valid() && ctl.Knows(q.mail) && |ctl.next| == ctl.config.stocks
    && forall s :: ctl.config.IsStock(s) ==> ctl.next[s - 1] == |q.flow.Sent(ctl.id, s)|
  }

  lemma {:induction false} EveryHookAwaited(c: Config, hooks: seq<map<int, Hook>>, table: seq<map<int, int>>)
    requires |table| == c.stocks && Awaited(hooks, table) && Holds(c, hooks)
    ensures
      forall k :: k in c.hooks && c.IsStock(k.0) ==>
        c.IsStock(c.hooks[k].stock) && c.hooks[k].index in table[c.hooks[k].stock - 1]
  {
    forall k | k in c.hooks && c.IsStock(k.0)
      ensures c.IsStock(c.hooks[k].stock) && c.hooks[k].index in table[c.hooks[k].stock - 1]
    {
      var (s, o) := k;
      assert o in hooks[s - 1] && hooks[s - 1][o] == c.hooks[k];
    }
  }

  /** With the hooks loaded, a trader starts in step. */
  method StartTrader(config: Config, id: int, hooks: seq<map<int, Hook>>, table: seq<map<int, int>>)
    returns (ctl: TraderController, rcv: TraderTradeReceiver)
    requires |table| == config.stocks && Awaited(hooks, table) && Holds(config, hooks)
    ensures ctl.config == config && ctl.id == id && fresh(ctl) && fresh(rcv) && fresh(ctl.info)
    ensures Follows(ctl, rcv, INITIAL)
  {
    var info := new SharedTradeInfo(table);
    rcv := new TraderTradeReceiver(info);
    ctl := new TraderController(config, id, hooks, info);
    EveryHookAwaited(config, hooks, table);
  }

  /** What a message changes for the trader that hears it. */
  ghost predicate Changes(mail: Mail, next: Mail, t: int, m: Message) {
    forall s ::
      && next.Log(t, s) == mail.Log(t, s) + (if m.Traded? && m.Stock() == s then [m.trade] else [])
      && next.Start(t, s) == (if m.Ack? && m.Stock() == s then m.id + 1 else mail.Start(t, s))
  }

  method HearTrade(ctl: TraderController, rcv: TraderTradeReceiver, trade: Trade, ghost q: State, ghost r: State)
    requires Follows(ctl, rcv, q) && ctl.config.IsStock(trade.stock) && r.flow == q.flow
    requires Changes(q.mail, r.mail, ctl.id, Traded(trade))
    modifies rcv, rcv.info`hookedTrade, rcv.info`logs
    ensures Follows(ctl, rcv, r)
  {
    label before:
    rcv.ProcessTradeResult([trade]);
    forall s | ctl.config.IsStock(s)
      ensures ctl.info.logs[s - 1] == r.mail.Log(ctl.id, s) && ctl.info.windowStart[s - 1] == r.mail.Start(ctl.id, s)
    {
      assert old@before(rcv.InStep(s)) && rcv.InStep(s);
      OneMoreTrade(old(rcv.received), trade, s);
    }
  }

  method HearAck(ctl: TraderController, rcv: TraderTradeReceiver, s: int, id: int, ghost q: State, ghost r: State)
    requires Follows(ctl, rcv, q) && ctl.config.IsStock(s) && r.flow == q.flow
    requires Changes(q.mail, r.mail, ctl.id, Ack(s, id)) && id + 1 >= q.mail.Start(ctl.id, s)
    modifies rcv.info`windowStart
    ensures Follows(ctl, rcv, r)
  {
    ghost var starts, acks := ctl.info.windowStart, [(s, id)];
    assert acks[..0] == [] && Opened(starts, acks[..0]) == starts && MayOpen(starts, acks[..0]);
    rcv.ProcessOrderAck([(s, id)]);
    assert ctl.info.windowStart == starts[s - 1 := id + 1];
  }

  lemma {:induction false} HearChanges(c: Config, q: State, e: int, t: int)
    requires ValidConfig(c) && Inv(c, q) && c.IsTrader(t) && q.mail.Net(e, t) != []
    ensures
      var m := q.mail.Net(e, t)[0];
      var r := Apply(c, q, Hear(e, t));
      && r.flow == q.flow && Changes(q.mail, r.mail, t, m)
      && c.IsStock(m.Stock()) && (m.Ack? ==> m.id + 1 >= q.mail.Start(t, m.Stock()))
  {
    hide DoHear, FlowInv, CoresInv, MailsInv, AllHonest;
    var m := q.mail.Net(e, t)[0];
    FirstHome(c, q.flow, q.core, q.mail, e, t);
    HearKeepsOne(c, q.flow, q.core, q.mail, e, t, t, m.Stock());
    HearKnowledge(q.mail, e, t, t, m.Stock());
    forall s
      ensures
        && DoHear(q.mail, e, t).Log(t, s) == q.mail.Log(t, s) + (if m.Traded? && m.Stock() == s then [m.trade] else [])
        && DoHear(q.mail, e, t).Start(t, s) == (if m.Ack? && m.Stock() == s then m.id + 1 else q.mail.Start(t, s))
    {
      HearKnowledge(q.mail, e, t, t, s);
    }
  }

  /**
   * The receiver's thread takes the next message of a channel. In every reachable state its stock is
   * known and an acknowledgement does not move a window back, so no assertion on the way can fail.
   */
  method HearMessage(ctl: TraderController, rcv: TraderTradeReceiver, e: int, m: Message, ghost q: State)
    requires Follows(ctl, rcv, q) && ValidConfig(ctl.config) && Inv(ctl.config, q) && ctl.config.IsTrader(ctl.id)
    requires q.mail.Net(e, ctl.id) != [] && m == q.mail.Net(e, ctl.id)[0]
    modifies rcv, rcv.info
    ensures Follows(ctl, rcv, Apply(ctl.config, q, Hear(e, ctl.id)))
  {
    hide Inv, Apply, Changes;
    HearChanges(ctl.config, q, e, ctl.id);
    ghost var r := Apply(ctl.config, q, Hear(e, ctl.id));
    match m {
      case Ack(s, id) =>
        HearAck(ctl, rcv, s, id, q, r);
      case Traded(trade) =>
        HearTrade(ctl, rcv, trade, q, r);
    }
  }

  /**
   * The sender's thread looks at the next order of a stock, under a limit that may be out of date by
   * now. If it lets the order go, the machine can send it too, in the same form; and under an
   * up-to-date limit it lets go whatever the machine can send.
   */
  method SendMessage(ctl: TraderController, rcv: TraderTradeReceiver, s: int, limit: int, ghost q: State)
    returns (r: Option<Order>)
    requires Follows(ctl, rcv, q) && ValidSizes(ctl.config) && ctl.config.IsTrader(ctl.id) && ctl.config.IsStock(s)
    requires ctl.next[s - 1] < |ctl.config.Raw(ctl.id, s)| && limit <= q.mail.Start(ctl.id, s) + ctl.config.window
    modifies ctl`next
    ensures
      r.Some? ==>
        var n := Apply(ctl.config, q, Send(ctl.id, s));
        && Enabled(ctl.config, q, Send(ctl.id, s)) && Follows(ctl, rcv, n)
        && n.flow.Sent(ctl.id, s) == q.flow.Sent(ctl.id, s) + [r.value]
    ensures r.None? ==> Follows(ctl, rcv, q) && ctl.next == old(ctl.next)
    ensures r.Some? ==> ctl.next[s - 1] == old(ctl.next[s - 1]) + 1
    ensures
      var o := ctl.config.Raw(ctl.id, s)[old(ctl.next[s - 1])];
      r == if o.id >= limit then None else Decide(ctl.config, ctl.id, s, o, Known(ctl.config, q.mail, ctl.id, s, o))
    ensures
      limit == q.mail.Start(ctl.id, s) + ctl.config.window ==>
        (r.Some? <==> Enabled(ctl.config, q, Send(ctl.id, s)))
  {
    r := ctl.SendNext(s, limit, q.mail);
    if r.Some? {
      hide Decide, Known;
      SendParts(ctl.config, q, ctl.id, s);
      forall u
        ensures u != s ==> Apply(ctl.config, q, Send(ctl.id, s)).flow.Sent(ctl.id, u) == q.flow.Sent(ctl.id, u)
      {
        SendElsewhere(ctl.config, q, ctl.id, s, u, 0);
      }
    }
  }

  /** No step of another trader or of an exchange touches what a trader knows or has sent. */
  lemma {:induction false} OthersKeepFollowing(ctl: TraderController, rcv: TraderTradeReceiver, q: State, step: Step)
    requires Follows(ctl, rcv, q) && ValidSizes(ctl.config)
    requires !(step.Send? && step.t == ctl.id) && !(step.Hear? && step.t == ctl.id)
    ensures Follows(ctl, rcv, Apply(ctl.config, q, step))
  {
    var c, t, n := ctl.config, ctl.id, Apply(ctl.config, q, step);
    forall s
      ensures n.mail.Log(t, s) == q.mail.Log(t, s) && n.mail.Start(t, s) == q.mail.Start(t, s)
      ensures n.flow.Sent(t, s) == q.flow.Sent(t, s)
    {
      hide Decide, Known, Receive;
    }
  }

  /** Trader `t` has heard at least as much. */
  ghost predicate HeardMore(mail: Mail, later: Mail, t: int) {
    forall s :: mail.Start(t, s) <= later.Start(t, s) && mail.Log(t, s) <= later.Log(t, s)
  }

  /** Every step of a run only adds to what a trader has heard. */
  lemma {:induction false} StepHearsMore(c: Config, q: State, step: Step, t: int)
    requires ValidConfig(c) && Inv(c, q) && c.IsTrader(t)
    ensures HeardMore(q.mail, Apply(c, q, step).mail, t)
  {
    hide FlowInv, CoresInv, MailsInv, AllHonest, DoHear, Decide, Known, Receive;
    if Enabled(c, q, step) && step.Hear? {
      var m := q.mail.Net(step.e, step.t)[0];
      FirstHome(c, q.flow, q.core, q.mail, step.e, step.t);
      HearKeepsOne(c, q.flow, q.core, q.mail, step.e, step.t, t, m.Stock());
      forall s
        ensures q.mail.Start(t, s) <= DoHear(q.mail, step.e, step.t).Start(t, s)
        ensures q.mail.Log(t, s) <= DoHear(q.mail, step.e, step.t).Log(t, s)
      {
        HearKnowledge(q.mail, step.e, step.t, t, s);
      }
    }
  }

  /** An order that may go may still go after more has been heard, and in the same form. */
  lemma {:induction false} DecisionStands(c: Config, mail: Mail, later: Mail, t: int, s: int, o: Order)
    requires HeardMore(mail, later, t) && CheckOrder(c, mail, t, s, o).Some?
    ensures CheckOrder(c, later, t, s, o) == CheckOrder(c, mail, t, s, o)
  {
    if (s, o.id) in c.hooks {
      var h := c.hooks[(s, o.id)];
      assert mail.Log(t, h.stock) <= later.Log(t, h.stock);
    }
  }

  /** What a pass lets go is the beginning of what a later one would, so it may be put into the queues later. */
  lemma {:induction false} PassStands(c: Config, mail: Mail, later: Mail, t: int, s: int, from: nat)
    requires HeardMore(mail, later, t)
    ensures Sendable(c, mail, t, s, from) <= Sendable(c, later, t, s, from)
    decreases |c.Raw(t, s)| - from
  {
    hide CheckOrder, HeardMore;
    if from < |c.Raw(t, s)| && CheckOrder(c, mail, t, s, c.Raw(t, s)[from]).Some? {
      DecisionStands(c, mail, later, t, s, c.Raw(t, s)[from]);
      PassStands(c, mail, later, t, s, from + 1);
    }
  }

  // ---------- sending while the receiver's thread goes on ----------

  /** The messages, each with the exchange it comes from, are the next ones of their channels, in turn. */
  predicate NextMessages(mail: Mail, t: int, ms: seq<(int, Message)>)
    decreases |ms|
  {
    ms == [] ||
    var (e, m) := ms[0];
    mail.Net(e, t) != [] && m == mail.Net(e, t)[0] && NextMessages(DoHear(mail, e, t), t, ms[1..])
  }

  /** A trader's thread in the middle of its work: in step, with `ms` still to be heard. */
  ghost predicate Busy(ctl: TraderController, rcv: TraderTradeReceiver, q: State, ms: seq<(int, Message)>)
    reads ctl, rcv, ctl.info, rcv.info
  {
    && Follows(ctl, rcv, q) && ValidConfig(ctl.config) && Inv(ctl.config, q) && ctl.config.IsTrader(ctl.id)
    && NextMessages(q.mail, ctl.id, ms)
  }

  method HearOne(ctl: TraderController, rcv: TraderTradeReceiver, ms: seq<(int, Message)>, ghost q: State)
    requires Busy(ctl, rcv, q, ms) && ms != []
    modifies rcv, rcv.info
    ensures Busy(ctl, rcv, Apply(ctl.config, q, Hear(ms[0].0, ctl.id)), ms[1..])
  {
    hide Inv, DoHear, Follows;
    StepKeeps(ctl.config, q, Hear(ms[0].0, ctl.id));
    HearMessage(ctl, rcv, ms[0].0, ms[0].1, q);
  }

  lemma {:induction false} BusyParts(ctl: TraderController, rcv: TraderTradeReceiver, q: State,
                                     ms: seq<(int, Message)>, s: int)
    requires Busy(ctl, rcv, q, ms) && ctl.config.IsStock(s)
    ensures ValidSizes(ctl.config) && rcv.info == ctl.info
    ensures |ctl.next| == |ctl.info.windowStart| == ctl.config.stocks
    ensures ctl.next[s - 1] == |q.flow.Sent(ctl.id, s)| && ctl.info.windowStart[s - 1] == q.mail.Start(ctl.id, s)
  {
    hide Inv, NextMessages;
  }

  lemma {:induction false} HearKeepsSent(c: Config, q: State, e: int, t: int, s: int)
    requires ValidConfig(c) && Inv(c, q) && c.IsTrader(t) && c.IsStock(s)
    ensures
      var n := Apply(c, q, Hear(e, t));
      n.flow == q.flow && q.mail.Start(t, s) <= n.mail.Start(t, s)
  {
    hide FlowInv, CoresInv, MailsInv, AllHonest, DoHear;
    StartMovesForward(c, q, Hear(e, t), t, s);
  }

  /** The receiver's thread hears some of the messages. */
  method HearSome(ctl: TraderController, rcv: TraderTradeReceiver, ms: seq<(int, Message)>, n: nat, s: int,
                  ghost q: State)
    returns (ghost steps: seq<Step>)
    requires Busy(ctl, rcv, q, ms) && n <= |ms| && ctl.config.IsStock(s)
    modifies rcv, rcv.info
    ensures |steps| == n && forall i :: 0 <= i < n ==> steps[i] == Hear(ms[i].0, ctl.id)
    ensures
      var r := RunFrom(ctl.config, q, steps);
      && Busy(ctl, rcv, r, ms[n..]) && r.flow == q.flow
      && q.mail.Start(ctl.id, s) <= r.mail.Start(ctl.id, s)
  {
    hide Inv, Apply, Follows, NextMessages;
    steps := [];
    ghost var r := q;
    assert ms[0..] == ms;
    for i := 0 to n
      invariant |steps| == i && forall k :: 0 <= k < i ==> steps[k] == Hear(ms[k].0, ctl.id)
      invariant r == RunFrom(ctl.config, q, steps) && Busy(ctl, rcv, r, ms[i..]) && r.flow == q.flow
      invariant q.mail.Start(ctl.id, s) <= r.mail.Start(ctl.id, s)
    {
      ghost var step := Hear(ms[i].0, ctl.id);
      HearKeepsSent(ctl.config, r, ms[i].0, ctl.id, s);
      assert ms[i..][0] == ms[i] && ms[i..][1..] == ms[i + 1..];
      HearOne(ctl, rcv, ms[i..], r);
      RunFromOneMore(ctl.config, q, steps, step);
      steps, r := steps + [step], Apply(ctl.config, r, step);
    }
  }

  /** The next order of a stock may not go: its id is past the limit, or what its hook waits for has not been heard. */
  ghost predicate MustWait(c: Config, q: State, t: int, s: int, limit: int) {
    |q.flow.Sent(t, s)| < |c.Raw(t, s)| &&
    var o := c.Raw(t, s)[|q.flow.Sent(t, s)|];
    o.id >= limit || Decide(c, t, s, o, Known(c, q.mail, t, s, o)).None?
  }

  lemma {:induction false} BusyAfterSend(ctl: TraderController, rcv: TraderTradeReceiver, q: State, s: int,
                                         ms: seq<(int, Message)>)
    requires ValidConfig(ctl.config) && Inv(ctl.config, q) && ctl.config.IsTrader(ctl.id)
    requires NextMessages(q.mail, ctl.id, ms) && Enabled(ctl.config, q, Send(ctl.id, s))
    requires Follows(ctl, rcv, Apply(ctl.config, q, Send(ctl.id, s)))
    ensures Busy(ctl, rcv, Apply(ctl.config, q, Send(ctl.id, s)), ms)
    ensures Apply(ctl.config, q, Send(ctl.id, s)).mail == q.mail
  {
    hide Inv, Follows, Decide, Known, Enabled, Apply, NextMessages;
    SendParts(ctl.config, q, ctl.id, s);
    StepKeeps(ctl.config, q, Send(ctl.id, s));
  }

  /** One check, and what it does to a busy trader. */
  method SendBusy(ctl: TraderController, rcv: TraderTradeReceiver, s: int, limit: int, ms: seq<(int, Message)>,
                  ghost q: State)
    returns (r: Option<Order>, ghost steps: seq<Step>)
    requires Busy(ctl, rcv, q, ms) && ctl.config.IsStock(s) && ctl.next[s - 1] < |ctl.config.Raw(ctl.id, s)|
    requires limit <= q.mail.Start(ctl.id, s) + ctl.config.window
    modifies ctl`next
    ensures steps == if r.Some? then [Send(ctl.id, s)] else []
    ensures
      var n := RunFrom(ctl.config, q, steps);
      && Busy(ctl, rcv, n, ms) && n.mail == q.mail
      && n.flow.Sent(ctl.id, s) == q.flow.Sent(ctl.id, s) + if r.Some? then [r.value] else []
    ensures ctl.next[s - 1] == old(ctl.next[s - 1]) + if r.Some? then 1 else 0
    ensures r.None? ==> MustWait(ctl.config, q, ctl.id, s, limit)
  {
    hide Inv, Apply, NextMessages, Decide, Known, Enabled;
    r := SendMessage(ctl, rcv, s, limit, q);
    if r.Some? {
      steps := [Send(ctl.id, s)];
      RunFromOneMore(ctl.config, q, [], Send(ctl.id, s));
      assert [] + [Send(ctl.id, s)] == steps;
      BusyAfterSend(ctl, rcv, q, s, ms);
    } else {
      steps := [];
    }
  }

  /**
   * The sending loop of one stock, while the receiver's thread hears any number of messages before
   * each check. Under the limit read at the start it is a run of sends and hearings of the machine,
   * which sends just the orders that go, and it stops where nothing is left or the next order must
   * wait, under that limit, on what has been heard by then.
   */
  method SendStockHearing(ctl: TraderController, rcv: TraderTradeReceiver, s: int, ms: seq<(int, Message)>,
                          ghost q: State)
    returns (orders: seq<Order>, rest: seq<(int, Message)>, ghost steps: seq<Step>)
    requires Busy(ctl, rcv, q, ms) && ctl.config.IsStock(s)
    modifies ctl`next, rcv, rcv.info
    ensures
      var c, t, r := ctl.config, ctl.id, RunFrom(ctl.config, q, steps);
      && Busy(ctl, rcv, r, rest) && r.flow.Sent(t, s) == q.flow.Sent(t, s) + orders
      && (|r.flow.Sent(t, s)| >= |c.Raw(t, s)| || MustWait(c, r, t, s, q.mail.Start(t, s) + c.window))
    ensures forall i :: 0 <= i < |steps| ==> steps[i] == Send(ctl.id, s) || (steps[i].Hear? && steps[i].t == ctl.id)
  {
    hide Busy, MustWait, ValidConfig, RunFrom;
    BusyParts(ctl, rcv, q, ms, s);
    var limit := ctl.info.windowStart[s - 1] + ctl.config.window;
    orders, rest, steps := [], ms, [];
    RunFromNone(ctl.config, q);
    ghost var r := q;
    while true
      invariant r == RunFrom(ctl.config, q, steps) && Busy(ctl, rcv, r, rest)
      invariant r.flow.Sent(ctl.id, s) == q.flow.Sent(ctl.id, s) + orders
      invariant limit == q.mail.Start(ctl.id, s) + ctl.config.window <= r.mail.Start(ctl.id, s) + ctl.config.window
      invariant forall i :: 0 <= i < |steps| ==> steps[i] == Send(ctl.id, s) || (steps[i].Hear? && steps[i].t == ctl.id)
      invariant |ctl.next| == ctl.config.stocks
      decreases |ctl.config.Raw(ctl.id, s)| - ctl.next[s - 1]
    {
      BusyParts(ctl, rcv, r, rest, s);
      assert 0 <= 0 <= |rest|;
      var n :| 0 <= n <= |rest|;
      ghost var heard := HearSome(ctl, rcv, rest, n, s, r);
      RunFromConcat(ctl.config, q, steps, heard);
      steps, r, rest := steps + heard, RunFrom(ctl.config, r, heard), rest[n..];
      BusyParts(ctl, rcv, r, rest, s);
      if ctl.next[s - 1] >= |ctl.config.Raw(ctl.id, s)| {
        break;
      }
      var o;
      ghost var sent;
      o, sent := SendBusy(ctl, rcv, s, limit, rest, r);
      RunFromConcat(ctl.config, q, steps, sent);
      RunFromNone(ctl.config, r);
      ghost var before := r.flow.Sent(ctl.id, s);
      steps, r := steps + sent, RunFrom(ctl.config, r, sent);
      if o.None? {
        break;
      }
      assert r.flow.Sent(ctl.id, s) == before + [o.value];
      BusyParts(ctl, rcv, r, rest, s);
      orders := orders + [o.value];
    }
  }

  // ---------- the files of a finished run ----------

  /**
   * When a run has ended and the trader flushes its log, the file of a stock holds exactly the trades of the
   * committed orders.
   */
  method FlushFinal(ctl: TraderController, rcv: TraderTradeReceiver, ghost schedule: seq<Step>)
    requires ValidConfig(ctl.config) && ctl.config.IsTrader(ctl.id)
    requires Stuck(ctl.config, Run(ctl.config, schedule)) && Follows(ctl, rcv, Run(ctl.config, schedule))
    modifies rcv
    ensures |rcv.files| == ctl.config.stocks
    ensures
      forall s :: ctl.config.IsStock(s) ==>
        rcv.files[s - 1] == CommitAll(CommittedOf(Run(ctl.config, schedule), s)).trades
  {
    hide Run, Stuck, CommitAll, CommittedOf, TradesOfStock;
    ghost var q := Run(ctl.config, schedule);
    forall s | ctl.config.IsStock(s)
      ensures TradesOfStock(rcv.received, s) == CommitAll(CommittedOf(q, s)).trades
    {
      assert rcv.InStep(s);
      FinalLogs(ctl.config, schedule, ctl.id, s);
    }
    rcv.Flush();
  }
}
