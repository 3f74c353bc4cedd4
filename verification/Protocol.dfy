/**
 * The protocol around flow control: engines commit exactly what the windows give out, every trader
 * hears each stock's acknowledgements and trades in the order they were produced, and every order
 * was sent as the trade it waits for prescribes.
 */
module Protocol {
  import opened Types
  import opened BinaryHeap
  import opened Matching
  import opened MatchingLaws
  import opened Reorder
  import opened System
  import opened FlowControl

  // ---------- engines ----------

  function EngineAfter(orders: seq<Order>): Engine {
    Engine([], |orders|, CommitAll(orders).book, CommitAll(orders).trades)
  }

  /**
   * The batch is the end of what was polled, the engine has committed all before it, the outbox is the end of
   * its trades.
   */
  ghost predicate CoreInv(polled: seq<Order>, phase: Phase, engine: Engine) {
    var n := |polled| - |phase.batch|;
    && 0 <= n && phase.batch == polled[n..] && engine == EngineAfter(polled[..n])
    && |phase.Outbox()| <= |engine.trades|
    && phase.Outbox() == engine.trades[|engine.trades| - |phase.Outbox()|..]
  }

  /** The last id acknowledged so far. */
  function Acked(polled: seq<Order>, phase: Phase): int {
    if phase.Collecting? then |polled| - |phase.batch| else |polled|
  }

  lemma {:induction false} ReceiveNext(orders: seq<Order>, o: Order)
    requires o.id == |orders| + 1
    ensures Receive(EngineAfter(orders), o) == EngineAfter(orders + [o])
  {
    var e := EngineAfter(orders).(pending := [o]);
    assert Insert([], o, IdGreater) == [o];
    assert (orders + [o])[..|orders|] == orders;
    assert CommitNext(e) == EngineAfter(orders + [o]);
    assert Drain(CommitNext(e)) == CommitNext(e);
  }

  lemma {:induction false} MoreOrdersMoreTrades(orders: seq<Order>, o: Order)
    ensures CommitAll(orders + [o]).trades == CommitAll(orders).trades + Commit(CommitAll(orders).book, o).trades
  {
    assert (orders + [o])[..|orders|] == orders;
  }

  // ---------- messages ----------

  /** What trader `t` has still to hear from exchange `e`, next first. */
  function Pending(mail: Mail, e: int, t: int): seq<Message> {
    mail.Net(e, t) + if mail.Fan(e) > t && mail.Queue(e) != [] then mail.Queue(e)[1..] else mail.Queue(e)
  }

  function TradesIn(ms: seq<Message>, s: int): seq<Trade> {
    if ms == [] then []
    else if ms[0].Traded? && ms[0].Stock() == s then [ms[0].trade] + TradesIn(ms[1..], s)
    else TradesIn(ms[1..], s)
  }

  function AcksIn(ms: seq<Message>, s: int): seq<int> {
    if ms == [] then []
    else if ms[0].Ack? && ms[0].Stock() == s then [ms[0].id] + AcksIn(ms[1..], s)
    else AcksIn(ms[1..], s)
  }

  lemma {:induction false} InboxAppend(ms: seq<Message>, m: Message, s: int)
    ensures TradesIn(ms + [m], s) == TradesIn(ms, s) + if m.Traded? && m.Stock() == s then [m.trade] else []
    ensures AcksIn(ms + [m], s) == AcksIn(ms, s) + if m.Ack? && m.Stock() == s then [m.id] else []
  {
    if ms == [] {
      assert (ms + [m])[1..] == [];
    } else {
      assert (ms + [m])[1..] == ms[1..] + [m];
      InboxAppend(ms[1..], m, s);
    }
  }

  /** From `base` the acknowledged ids rise strictly and end at `last`. */
  predicate Rises(base: int, acks: seq<int>, last: int)
    decreases acks
  {
    if acks == [] then base == last else base < acks[0] && Rises(acks[0], acks[1..], last)
  }

  lemma {:induction false} RisesBound(base: int, acks: seq<int>, last: int)
    requires Rises(base, acks, last)
    ensures base <= last
    decreases acks
  {
    if acks != [] {
      RisesBound(acks[0], acks[1..], last);
    }
  }

  lemma {:induction false} RisesAppend(base: int, acks: seq<int>, last: int, next: int)
    requires Rises(base, acks, last) && last < next
    ensures Rises(base, acks + [next], next)
    decreases acks
  {
    if acks == [] {
      assert ([] + [next])[1..] == [];
    } else {
      RisesAppend(acks[0], acks[1..], last, next);
      assert (acks + [next])[1..] == acks[1..] + [next];
    }
  }

  /** What a trader has received, has still to hear, and has not been queued yet, is all that was produced. */
  ghost predicate TradesHeard(log: seq<Trade>, inbox: seq<Message>, s: int, outbox: seq<Trade>, trades: seq<Trade>) {
    log + TradesIn(inbox, s) + outbox == trades
  }

  /** The acknowledgements a trader has still to hear lead from its window start to the last one made. */
  ghost predicate AcksHeard(start: int, inbox: seq<Message>, s: int, acked: int) {
    Rises(start - 1, AcksIn(inbox, s), acked)
  }

  ghost predicate AllHome(c: Config, e: int, ms: seq<Message>) {
    forall i :: 0 <= i < |ms| ==> c.IsStock(ms[i].Stock()) && c.Home(ms[i].Stock()) == e
  }

  /** Messages travel only from the exchange that serves their stock; the fan-out is under way only over a message. */
  ghost predicate PostHome(c: Config, mail: Mail, e: int) {
    && AllHome(c, e, mail.Queue(e)) && (forall t :: AllHome(c, e, mail.Net(e, t)))
    && mail.Fan(e) < c.traders && (mail.Fan(e) > 0 ==> mail.Queue(e) != [])
  }

  // ---------- decisions ----------

  /** The volume that order `o` of stock `s` waits for, as it has been produced. */
  function Produced(c: Config, core: Core, s: int, o: Order): int {
    if (s, o.id) in c.hooks then
      HookedVolume(core.Trades(c.hooks[(s, o.id)].stock), c.hooks[(s, o.id)].index)
    else -1
  }

  /** Every order was sent as the produced trades prescribe. */
  ghost predicate Honest(c: Config, f: Flow, core: Core, t: int, s: int) {
    forall i :: 0 <= i < |f.Sent(t, s)| && i < |c.Raw(t, s)| ==>
      Decide(c, t, s, c.Raw(t, s)[i], Produced(c, core, s, c.Raw(t, s)[i])) == Some(f.Sent(t, s)[i])
  }

  // ---------- the invariant of the whole system ----------

  ghost predicate CoresInv(f: Flow, core: Core) {
    forall s :: CoreInv(f.Polled(s), core.PhaseOf(s), core.EngineOf(s))
  }

  ghost predicate Heard(c: Config, f: Flow, core: Core, mail: Mail, t: int, s: int) {
    var inbox := Pending(mail, c.Home(s), t);
    && TradesHeard(mail.Log(t, s), inbox, s, core.PhaseOf(s).Outbox(), core.Trades(s))
    && AcksHeard(mail.Start(t, s), inbox, s, Acked(f.Polled(s), core.PhaseOf(s)))
  }

  ghost predicate MailsInv(c: Config, f: Flow, core: Core, mail: Mail) {
    && (forall t, s :: c.IsTrader(t) && c.IsStock(s) ==> Heard(c, f, core, mail, t, s))
    && (forall e :: PostHome(c, mail, e))
  }

  ghost predicate AllHonest(c: Config, f: Flow, core: Core) {
    forall t, s :: Honest(c, f, core, t, s)
  }

  ghost predicate Inv(c: Config, q: State)
    requires c.window > 0
  {
    && FlowInv(c, q.flow) && CoresInv(q.flow, q.core)
    && MailsInv(c, q.flow, q.core, q.mail) && AllHonest(c, q.flow, q.core)
  }

  lemma {:induction false} InitialCores()
    ensures CoresInv(INITIAL.flow, INITIAL.core)
  {
    hide Commit;
    assert CommitAll([]) == Outcome(EMPTY_BOOK, []);
    assert CoreInv([], Collecting([]), NEW_ENGINE);
  }

  lemma {:induction false} InitialMails(c: Config)
    requires c.traders > 0
    ensures MailsInv(c, INITIAL.flow, INITIAL.core, INITIAL.mail)
  {
    hide Commit;
    forall t, s
      ensures Heard(c, INITIAL.flow, INITIAL.core, INITIAL.mail, t, s)
    {
      assert Pending(INITIAL.mail, c.Home(s), t) == [];
    }
  }

  lemma {:induction false} InitialInv(c: Config)
    requires ValidConfig(c)
    ensures Inv(c, INITIAL)
  {
    hide FlowInv, CoresInv, MailsInv;
    InitialFlow(c);
    InitialCores();
    InitialMails(c);
    forall t, s
      ensures Honest(c, INITIAL.flow, INITIAL.core, t, s)
    {
      assert INITIAL.flow.Sent(t, s) == [];
    }
  }

  // ---------- trades carry the stock of their orders ----------

  lemma {:induction false} SweepStock(side: Side, o: Order, recs: seq<Record>, n: nat, v: int, t: Trade)
    requires n <= |recs| && t in SweepFirst(side, o, recs, n, v).trades
    ensures t.stock == o.stock
  {
    if n > 0 && v > 0 && v >= recs[0].volume && t != TradeOf(side, o, recs[0], recs[0].volume) {
      SweepStock(side, o, recs[1..], n - 1, v - recs[0].volume, t);
    }
  }

  lemma {:induction false} CommitStock(b: Book, o: Order, t: Trade)
    requires t in Commit(b, o).trades
    ensures t.stock == o.stock
  {
    var side := if o.direction == 1 then Buy else Sell;
    TradesAreSwept(side, b, o, t);
    SweepStock(side, o, Opp(b, side), DepthOf(side, b, o), o.volume, t);
  }

  lemma {:induction false} RunStock(orders: seq<Order>, s: int, t: Trade)
    requires (forall i :: 0 <= i < |orders| ==> orders[i].stock == s) && t in CommitAll(orders).trades
    ensures t.stock == s
  {
    var prefix, o := orders[..|orders| - 1], orders[|orders| - 1];
    if t in CommitAll(prefix).trades {
      RunStock(prefix, s, t);
    } else {
      CommitStock(CommitAll(prefix).book, o, t);
    }
  }

  /** What the windows gave out: ids in order, all of the stock. */
  ghost predicate PolledOrders(polled: seq<Order>, s: int) {
    forall j :: 0 <= j < |polled| ==> polled[j].id == j + 1 && polled[j].stock == s
  }

  lemma {:induction false} PolledAreOrders(c: Config, f: Flow, s: int)
    requires c.window > 0 && FlowInv(c, f)
    ensures PolledOrders(f.Polled(s), s)
  {
    assert PolledInv(c, f, s);
    forall j | 0 <= j < |f.Polled(s)|
      ensures f.Polled(s)[j].id == j + 1 && f.Polled(s)[j].stock == s
    {
      var t, i :| ArrivedAt(c, f, t, s, i, f.Polled(s)[j]);
      assert SentInv(c, f, t, s);
    }
  }

  lemma {:induction false} EngineStock(polled: seq<Order>, phase: Phase, engine: Engine, s: int, t: Trade)
    requires PolledOrders(polled, s) && CoreInv(polled, phase, engine) && t in engine.trades
    ensures t.stock == s
  {
    RunStock(polled[..|polled| - |phase.batch|], s, t);
  }

  // ---------- sending ----------

  /** What a trader knows of a hooked trade is what was produced. */
  lemma {:induction false} KnownIsProduced(c: Config, q: State, t: int, s: int, o: Order)
    requires MailsInv(c, q.flow, q.core, q.mail) && c.IsTrader(t) && (s, o.id) in c.hooks
    requires c.IsStock(c.hooks[(s, o.id)].stock) && Known(c, q.mail, t, s, o) != -1
    ensures Produced(c, q.core, s, o) == Known(c, q.mail, t, s, o)
  {
    hide Commit;
    assert Heard(c, q.flow, q.core, q.mail, t, c.hooks[(s, o.id)].stock);
  }

  lemma {:induction false} StartBound(c: Config, q: State, t: int, s: int)
    requires MailsInv(c, q.flow, q.core, q.mail) && CoresInv(q.flow, q.core) && c.IsTrader(t) && c.IsStock(s)
    ensures q.mail.Start(t, s) <= |q.flow.Polled(s)| + 1
  {
    hide Commit;
    assert Heard(c, q.flow, q.core, q.mail, t, s);
    assert CoreInv(q.flow.Polled(s), q.core.PhaseOf(s), q.core.EngineOf(s));
    var acks := AcksIn(Pending(q.mail, c.Home(s), t), s);
    RisesBound(q.mail.Start(t, s) - 1, acks, Acked(q.flow.Polled(s), q.core.PhaseOf(s)));
  }

  lemma {:induction false} CoreAt(f: Flow, core: Core, s: int)
    requires CoresInv(f, core)
    ensures CoreInv(f.Polled(s), core.PhaseOf(s), core.EngineOf(s))
  {
    hide CoreInv;
  }

  lemma {:induction false} SamePolled(c: Config, f: Flow, g: Flow, core: Core, mail: Mail)
    requires CoresInv(f, core) && MailsInv(c, f, core, mail) && g.polled == f.polled
    ensures CoresInv(g, core) && MailsInv(c, g, core, mail)
  {
    hide CoreInv, PostHome;
    forall s
      ensures CoreInv(g.Polled(s), core.PhaseOf(s), core.EngineOf(s))
    {
      CoreAt(f, core, s);
      assert g.Polled(s) == f.Polled(s);
    }
    forall t, s | c.IsTrader(t) && c.IsStock(s)
      ensures Heard(c, g, core, mail, t, s)
    {
      assert Heard(c, f, core, mail, t, s) && g.Polled(s) == f.Polled(s);
    }
  }

  lemma {:induction false} SendKeepsHonest(c: Config, f: Flow, core: Core, t: int, s: int, o: Order)
    requires AllHonest(c, f, core) && |f.Sent(t, s)| < |c.Raw(t, s)|
    requires Decide(c, t, s, c.Raw(t, s)[|f.Sent(t, s)|], Produced(c, core, s, c.Raw(t, s)[|f.Sent(t, s)|])) == Some(o)
    ensures AllHonest(c, DoSend(c, f, t, s, o), core)
  {
    hide Commit;
    var g := DoSend(c, f, t, s, o);
    forall u, r
      ensures Honest(c, g, core, u, r)
    {
      assert Honest(c, f, core, u, r);
      assert g.Sent(u, r) == f.Sent(u, r) + if (u, r) == (t, s) then [o] else [];
    }
  }

  /** An order that passes the check is decided as produced, and its id is inside the window. */
  lemma {:induction false} CheckedOrder(c: Config, q: State, t: int, s: int)
    requires ValidConfig(c) && CoresInv(q.flow, q.core) && MailsInv(c, q.flow, q.core, q.mail) && CanSend(c, q, t, s)
    ensures
      var raw := c.Raw(t, s)[|q.flow.Sent(t, s)|];
      var o := CheckOrder(c, q.mail, t, s, raw);
      MaySend(c, q.flow, t, s, o.value) && Decide(c, t, s, raw, Produced(c, q.core, s, raw)) == o
  {
    hide Commit, CoresInv, MailsInv;
    var raw := c.Raw(t, s)[|q.flow.Sent(t, s)|];
    StartBound(c, q, t, s);
    if (s, raw.id) in c.hooks {
      KnownIsProduced(c, q, t, s, raw);
    }
  }

  lemma {:induction false} SendKeeps(c: Config, q: State, t: int, s: int)
    requires ValidConfig(c) && Inv(c, q) && Enabled(c, q, Send(t, s))
    ensures Inv(c, Apply(c, q, Send(t, s))) && Grows(c, q.flow, Apply(c, q, Send(t, s)).flow)
  {
    hide FlowInv, CoresInv, MailsInv, AllHonest, Commit;
    var o := CheckOrder(c, q.mail, t, s, c.Raw(t, s)[|q.flow.Sent(t, s)|]).value;
    CheckedOrder(c, q, t, s);
    SendKeepsFlow(c, q.flow, t, s, o);
    SendKeepsHonest(c, q.flow, q.core, t, s, o);
    SamePolled(c, q.flow, DoSend(c, q.flow, t, s, o), q.core, q.mail);
  }

  // ---------- arriving and polling ----------

  lemma {:induction false} SameSentHonest(c: Config, f: Flow, g: Flow, core: Core)
    requires AllHonest(c, f, core) && g.sent == f.sent
    ensures AllHonest(c, g, core)
  {
    forall t, s
      ensures Honest(c, g, core, t, s)
    {
      assert Honest(c, f, core, t, s) && g.Sent(t, s) == f.Sent(t, s);
    }
  }

  lemma {:induction false} ArriveKeeps(c: Config, q: State, t: int, e: int)
    requires ValidConfig(c) && Inv(c, q) && Enabled(c, q, Arrive(t, e))
    ensures Inv(c, Apply(c, q, Arrive(t, e))) && Grows(c, q.flow, Apply(c, q, Arrive(t, e)).flow)
  {
    hide FlowInv, CoresInv, MailsInv, AllHonest, Commit;
    var g := DoArrive(c, q.flow, t, e);
    ArriveKeepsFlow(c, q.flow, t, e);
    SamePolled(c, q.flow, g, q.core, q.mail);
    SameSentHonest(c, q.flow, g, q.core);
  }

  lemma {:induction false} PollKeepsCore(polled: seq<Order>, phase: Phase, engine: Engine, o: Order)
    requires CoreInv(polled, phase, engine) && phase.Collecting?
    ensures CoreInv(polled + [o], Collecting(phase.batch + [o]), engine)
    ensures Acked(polled + [o], Collecting(phase.batch + [o])) == Acked(polled, phase)
  {
    var n := |polled| - |phase.batch|;
    assert (polled + [o])[n..] == polled[n..] + [o] && (polled + [o])[..n] == polled[..n];
  }

  /** A step of one stock's thread that queues nothing and acknowledges nothing. */
  lemma {:induction false} QuietThread(c: Config, q: State, n: State, s: int)
    requires CoresInv(q.flow, q.core) && MailsInv(c, q.flow, q.core, q.mail) && n.mail == q.mail
    requires forall r :: r != s ==> n.flow.Polled(r) == q.flow.Polled(r)
    requires forall r :: r != s ==> n.core.PhaseOf(r) == q.core.PhaseOf(r) && n.core.EngineOf(r) == q.core.EngineOf(r)
    requires CoreInv(n.flow.Polled(s), n.core.PhaseOf(s), n.core.EngineOf(s))
    requires Acked(n.flow.Polled(s), n.core.PhaseOf(s)) == Acked(q.flow.Polled(s), q.core.PhaseOf(s))
    requires q.core.PhaseOf(s).Outbox() == [] && n.core.Trades(s) == q.core.Trades(s) + n.core.PhaseOf(s).Outbox()
    ensures CoresInv(n.flow, n.core) && MailsInv(c, n.flow, n.core, n.mail)
  {
    hide CoreInv;
    forall r
      ensures CoreInv(n.flow.Polled(r), n.core.PhaseOf(r), n.core.EngineOf(r))
    {
      CoreAt(q.flow, q.core, r);
    }
    forall t, r | c.IsTrader(t) && c.IsStock(r)
      ensures Heard(c, n.flow, n.core, n.mail, t, r)
    {
      assert Heard(c, q.flow, q.core, q.mail, t, r);
      if r == s {
        var heard := q.mail.Log(t, s) + TradesIn(Pending(q.mail, c.Home(s), t), s);
        assert heard + [] == heard;
      }
    }
  }

  lemma {:induction false} PollThread(c: Config, q: State, s: int)
    requires ValidSizes(c) && CoresInv(q.flow, q.core) && MailsInv(c, q.flow, q.core, q.mail) && Enabled(c, q, Poll(s))
    ensures
      var n := Apply(c, q, Poll(s));
      CoresInv(n.flow, n.core) && MailsInv(c, n.flow, n.core, n.mail)
  {
    hide CoresInv, MailsInv, CoreInv;
    var w := q.flow.WindowOf(c, s);
    var o := w.slots[w.head].value;
    CoreAt(q.flow, q.core, s);
    PollKeepsCore(q.flow.Polled(s), q.core.PhaseOf(s), q.core.EngineOf(s), o);
    var f, core := DoPoll(c, q.flow, s), WithPhase(q.core, s, Collecting(q.core.PhaseOf(s).batch + [o]));
    assert f.Polled(s) == q.flow.Polled(s) + [o] && core.PhaseOf(s) == Collecting(q.core.PhaseOf(s).batch + [o]);
    QuietThread(c, q, State(f, core, q.mail), s);
  }

  /** More trades change no decision that was made. */
  lemma {:induction false} MoreTradesHonest(c: Config, f: Flow, core: Core, next: Core, t: int, s: int)
    requires Honest(c, f, core, t, s) && forall r :: core.Trades(r) <= next.Trades(r)
    ensures Honest(c, f, next, t, s)
  {
    forall i | 0 <= i < |f.Sent(t, s)| && i < |c.Raw(t, s)|
      ensures Decide(c, t, s, c.Raw(t, s)[i], Produced(c, next, s, c.Raw(t, s)[i])) == Some(f.Sent(t, s)[i])
    {
      var o := c.Raw(t, s)[i];
      if (s, o.id) in c.hooks {
        var target := c.hooks[(s, o.id)].stock;
        assert core.Trades(target) <= next.Trades(target);
        assert Produced(c, core, s, o) != -1;
      }
    }
  }

  lemma {:induction false} SameTradesHonest(c: Config, f: Flow, core: Core, next: Core)
    requires AllHonest(c, f, core) && next.engines == core.engines
    ensures AllHonest(c, f, next)
  {
    forall t, s
      ensures Honest(c, f, next, t, s)
    {
      MoreTradesHonest(c, f, core, next, t, s);
    }
  }

  lemma {:induction false} PollKeeps(c: Config, q: State, s: int)
    requires ValidConfig(c) && Inv(c, q) && Enabled(c, q, Poll(s))
    ensures Inv(c, Apply(c, q, Poll(s))) && Grows(c, q.flow, Apply(c, q, Poll(s)).flow)
  {
    hide FlowInv, CoresInv, MailsInv, AllHonest, Commit;
    var n := Apply(c, q, Poll(s));
    PollKeepsFlow(c, q.flow, s);
    PollThread(c, q, s);
    SameSentHonest(c, q.flow, n.flow, q.core);
    SameTradesHonest(c, n.flow, q.core, n.core);
  }

  // ---------- queueing a message ----------

  lemma {:induction false} QueuedPending(mail: Mail, e: int, m: Message, d: int, t: int)
    requires mail.Fan(e) > t ==> mail.Queue(e) != []
    ensures Pending(Queued(mail, e, m), d, t) == Pending(mail, d, t) + if d == e then [m] else []
  {
    if d == e && mail.Queue(e) != [] {
      assert (mail.Queue(e) + [m])[1..] == mail.Queue(e)[1..] + [m];
    }
  }

  lemma {:induction false} QueuedHome(c: Config, mail: Mail, e: int, m: Message, d: int)
    requires PostHome(c, mail, d) && c.IsStock(m.Stock()) && c.Home(m.Stock()) == e
    ensures PostHome(c, Queued(mail, e, m), d)
  {
    var next := Queued(mail, e, m);
    assert next.Queue(d) == mail.Queue(d) + if d == e then [m] else [];
    forall t
      ensures AllHome(c, d, next.Net(d, t))
    {
      assert AllHome(c, d, mail.Net(d, t)) && next.Net(d, t) == mail.Net(d, t);
    }
  }

  /** What one stock's thread must see to when it queues message `m` and goes from `phase` to `next`. */
  ghost predicate MayQueue(polled: seq<Order>, phase: Phase, next: Phase, s: int, m: Message) {
    && m.Stock() == s && next.batch == phase.batch
    && (if m.Ack? then next.Outbox() == phase.Outbox() else phase.Outbox() == [m.trade] + next.Outbox())
    && (if m.Ack? then Acked(polled, phase) < m.id == Acked(polled, next)
        else Acked(polled, next) == Acked(polled, phase))
  }

  lemma {:induction false} QueuedHeardSame(log: seq<Trade>, inbox: seq<Message>, m: Message, s: int,
                                           outbox: seq<Trade>, trades: seq<Trade>, start: int, acked: int)
    requires TradesHeard(log, inbox, s, outbox, trades) && AcksHeard(start, inbox, s, acked) && m.Stock() != s
    ensures TradesHeard(log, inbox + [m], s, outbox, trades) && AcksHeard(start, inbox + [m], s, acked)
  {
    InboxAppend(inbox, m, s);
    assert TradesIn(inbox, s) + [] == TradesIn(inbox, s);
    assert AcksIn(inbox, s) + [] == AcksIn(inbox, s);
  }

  lemma {:induction false} QueuedHeard(log: seq<Trade>, inbox: seq<Message>, m: Message, s: int, trades: seq<Trade>,
                                       start: int, polled: seq<Order>, phase: Phase, next: Phase)
    requires TradesHeard(log, inbox, s, phase.Outbox(), trades) && AcksHeard(start, inbox, s, Acked(polled, phase))
    requires MayQueue(polled, phase, next, s, m)
    ensures TradesHeard(log, inbox + [m], s, next.Outbox(), trades)
    ensures AcksHeard(start, inbox + [m], s, Acked(polled, next))
  {
    InboxAppend(inbox, m, s);
    if m.Ack? {
      assert TradesIn(inbox, s) + [] == TradesIn(inbox, s);
      RisesAppend(start - 1, AcksIn(inbox, s), Acked(polled, phase), m.id);
    } else {
      assert AcksIn(inbox, s) + [] == AcksIn(inbox, s);
      assert log + (TradesIn(inbox, s) + [m.trade]) + next.Outbox() ==
             log + TradesIn(inbox, s) + ([m.trade] + next.Outbox());
    }
  }

  lemma {:induction false} QueueingHeard(c: Config, q: State, s: int, next: Phase, m: Message, t: int, r: int)
    requires MailsInv(c, q.flow, q.core, q.mail) && c.IsTrader(t) && c.IsStock(r)
    requires MayQueue(q.flow.Polled(s), q.core.PhaseOf(s), next, s, m)
    ensures Heard(c, q.flow, WithPhase(q.core, s, next), Queued(q.mail, c.Home(s), m), t, r)
  {
    var e, core := c.Home(s), WithPhase(q.core, s, next);
    assert Heard(c, q.flow, q.core, q.mail, t, r) && PostHome(c, q.mail, e);
    QueuedPending(q.mail, e, m, c.Home(r), t);
    var inbox := Pending(q.mail, c.Home(r), t);
    assert core.Trades(r) == q.core.Trades(r);
    if r == s {
      QueuedHeard(q.mail.Log(t, s), inbox, m, s, q.core.Trades(s), q.mail.Start(t, s),
                  q.flow.Polled(s), q.core.PhaseOf(s), next);
    } else {
      var phase := q.core.PhaseOf(r);
      assert core.PhaseOf(r) == phase && inbox + [] == inbox;
      QueuedHeardSame(q.mail.Log(t, r), inbox, m, r, phase.Outbox(), q.core.Trades(r), q.mail.Start(t, r),
                      Acked(q.flow.Polled(r), phase));
    }
  }

  /** A step of one stock's thread that queues message `m`. */
  lemma {:induction false} QueueingThread(c: Config, q: State, s: int, next: Phase, m: Message)
    requires CoresInv(q.flow, q.core) && MailsInv(c, q.flow, q.core, q.mail) && c.IsStock(s)
    requires MayQueue(q.flow.Polled(s), q.core.PhaseOf(s), next, s, m)
    requires CoreInv(q.flow.Polled(s), next, q.core.EngineOf(s))
    ensures
      var core, mail := WithPhase(q.core, s, next), Queued(q.mail, c.Home(s), m);
      CoresInv(q.flow, core) && MailsInv(c, q.flow, core, mail)
  {
    hide CoreInv, PostHome, Heard;
    var core, mail := WithPhase(q.core, s, next), Queued(q.mail, c.Home(s), m);
    forall r
      ensures CoreInv(q.flow.Polled(r), core.PhaseOf(r), core.EngineOf(r))
    {
      CoreAt(q.flow, q.core, r);
    }
    forall t, r | c.IsTrader(t) && c.IsStock(r)
      ensures Heard(c, q.flow, core, mail, t, r)
    {
      QueueingHeard(c, q, s, next, m, t, r);
    }
    forall e
      ensures PostHome(c, mail, e)
    {
      QueuedHome(c, q.mail, c.Home(s), m, e);
    }
  }

  lemma {:induction false} AcknowledgeCore(polled: seq<Order>, phase: Phase, engine: Engine, s: int)
    requires PolledOrders(polled, s) && CoreInv(polled, phase, engine) && phase.Collecting? && phase.batch != []
    ensures CoreInv(polled, Working(phase.batch, []), engine)
    ensures MayQueue(polled, phase, Working(phase.batch, []), s, Ack(s, phase.batch[|phase.batch| - 1].id))
  {
    hide EngineAfter;
    assert phase.batch[|phase.batch| - 1] == polled[|polled| - 1];
  }

  lemma {:induction false} AcknowledgeThread(c: Config, q: State, s: int)
    requires ValidSizes(c) && CoresInv(q.flow, q.core) && MailsInv(c, q.flow, q.core, q.mail)
    requires PolledOrders(q.flow.Polled(s), s) && Enabled(c, q, Acknowledge(s))
    ensures
      var n := Apply(c, q, Acknowledge(s));
      CoresInv(n.flow, n.core) && MailsInv(c, n.flow, n.core, n.mail)
  {
    hide CoresInv, MailsInv, CoreInv, MayQueue, PolledOrders;
    var phase := q.core.PhaseOf(s);
    CoreAt(q.flow, q.core, s);
    AcknowledgeCore(q.flow.Polled(s), phase, q.core.EngineOf(s), s);
    QueueingThread(c, q, s, Working(phase.batch, []), Ack(s, phase.batch[|phase.batch| - 1].id));
  }

  lemma {:induction false} AcknowledgeKeeps(c: Config, q: State, s: int)
    requires ValidConfig(c) && Inv(c, q) && Enabled(c, q, Acknowledge(s))
    ensures Inv(c, Apply(c, q, Acknowledge(s)))
  {
    hide FlowInv, CoresInv, MailsInv, AllHonest, Commit;
    PolledAreOrders(c, q.flow, s);
    AcknowledgeThread(c, q, s);
    SameTradesHonest(c, q.flow, q.core, Apply(c, q, Acknowledge(s)).core);
  }

  lemma {:induction false} EmitCore(polled: seq<Order>, phase: Phase, engine: Engine, s: int)
    requires PolledOrders(polled, s) && CoreInv(polled, phase, engine) && phase.Working? && phase.outbox != []
    ensures CoreInv(polled, Working(phase.batch, phase.outbox[1..]), engine)
    ensures MayQueue(polled, phase, Working(phase.batch, phase.outbox[1..]), s, Traded(phase.outbox[0]))
  {
    hide EngineAfter;
    assert phase.outbox[0] in engine.trades;
    assert phase.outbox == [phase.outbox[0]] + phase.outbox[1..];
    EngineStock(polled, phase, engine, s, phase.outbox[0]);
  }

  lemma {:induction false} EmitThread(c: Config, q: State, s: int)
    requires ValidSizes(c) && CoresInv(q.flow, q.core) && MailsInv(c, q.flow, q.core, q.mail)
    requires PolledOrders(q.flow.Polled(s), s) && Enabled(c, q, Emit(s))
    ensures
      var n := Apply(c, q, Emit(s));
      CoresInv(n.flow, n.core) && MailsInv(c, n.flow, n.core, n.mail)
  {
    hide CoresInv, MailsInv, CoreInv, MayQueue, PolledOrders;
    var phase := q.core.PhaseOf(s);
    CoreAt(q.flow, q.core, s);
    EmitCore(q.flow.Polled(s), phase, q.core.EngineOf(s), s);
    QueueingThread(c, q, s, Working(phase.batch, phase.outbox[1..]), Traded(phase.outbox[0]));
  }

  lemma {:induction false} EmitKeeps(c: Config, q: State, s: int)
    requires ValidConfig(c) && Inv(c, q) && Enabled(c, q, Emit(s))
    ensures Inv(c, Apply(c, q, Emit(s)))
  {
    hide FlowInv, CoresInv, MailsInv, AllHonest, Commit;
    PolledAreOrders(c, q.flow, s);
    EmitThread(c, q, s);
    SameTradesHonest(c, q.flow, q.core, Apply(c, q, Emit(s)).core);
  }

  // ---------- working ----------

  lemma {:induction false} WorkKeepsCore(polled: seq<Order>, core: Core, s: int)
    requires CoreInv(polled, core.PhaseOf(s), core.EngineOf(s))
    requires core.PhaseOf(s).Working? && core.PhaseOf(s).batch != []
    requires forall j :: 0 <= j < |polled| ==> polled[j].id == j + 1
    ensures
      var next := DoWork(core, s);
      && CoreInv(polled, next.PhaseOf(s), next.EngineOf(s)) && next.PhaseOf(s).Working?
      && next.Trades(s) == core.Trades(s) + next.PhaseOf(s).Outbox()
  {
    hide Commit;
    var n := |polled| - |core.PhaseOf(s).batch|;
    var o := polled[n];
    assert polled[..n + 1] == polled[..n] + [o];
    assert core.PhaseOf(s).batch[0] == o && core.PhaseOf(s).batch[1..] == polled[n + 1..];
    ReceiveNext(polled[..n], o);
    MoreOrdersMoreTrades(polled[..n], o);
  }

  lemma {:induction false} WorkKeepsHonest(c: Config, f: Flow, core: Core, s: int)
    requires AllHonest(c, f, core) && core.PhaseOf(s).batch != [] && core.Trades(s) <= DoWork(core, s).Trades(s)
    ensures AllHonest(c, f, DoWork(core, s))
  {
    hide Commit;
    forall r
      ensures core.Trades(r) <= DoWork(core, s).Trades(r)
    {
    }
    forall t, r
      ensures Honest(c, f, DoWork(core, s), t, r)
    {
      MoreTradesHonest(c, f, core, DoWork(core, s), t, r);
    }
  }

  lemma {:induction false} WorkThread(c: Config, q: State, s: int)
    requires ValidSizes(c) && CoresInv(q.flow, q.core) && MailsInv(c, q.flow, q.core, q.mail)
    requires PolledOrders(q.flow.Polled(s), s) && Enabled(c, q, Work(s))
    ensures
      var n := Apply(c, q, Work(s));
      && CoresInv(n.flow, n.core) && MailsInv(c, n.flow, n.core, n.mail)
      && q.core.Trades(s) <= n.core.Trades(s)
  {
    hide EngineAfter, Receive, CoresInv, MailsInv, CoreInv;
    CoreAt(q.flow, q.core, s);
    WorkKeepsCore(q.flow.Polled(s), q.core, s);
    QuietThread(c, q, q.(core := DoWork(q.core, s)), s);
  }

  lemma {:induction false} WorkKeeps(c: Config, q: State, s: int)
    requires ValidConfig(c) && Inv(c, q) && Enabled(c, q, Work(s))
    ensures Inv(c, Apply(c, q, Work(s)))
  {
    hide FlowInv, CoresInv, MailsInv, AllHonest, Commit, Receive;
    PolledAreOrders(c, q.flow, s);
    WorkThread(c, q, s);
    WorkKeepsHonest(c, q.flow, q.core, s);
  }

  lemma {:induction false} ResumeThread(c: Config, q: State, s: int)
    requires ValidSizes(c) && CoresInv(q.flow, q.core) && MailsInv(c, q.flow, q.core, q.mail)
    requires Enabled(c, q, Resume(s))
    ensures
      var n := Apply(c, q, Resume(s));
      CoresInv(n.flow, n.core) && MailsInv(c, n.flow, n.core, n.mail)
  {
    hide EngineAfter, CoresInv, MailsInv;
    CoreAt(q.flow, q.core, s);
    QuietThread(c, q, Apply(c, q, Resume(s)), s);
  }

  lemma {:induction false} ResumeKeeps(c: Config, q: State, s: int)
    requires ValidConfig(c) && Inv(c, q) && Enabled(c, q, Resume(s))
    ensures Inv(c, Apply(c, q, Resume(s)))
  {
    hide FlowInv, CoresInv, MailsInv, AllHonest, Commit;
    ResumeThread(c, q, s);
    SameTradesHonest(c, q.flow, q.core, Apply(c, q, Resume(s)).core);
  }

  // ---------- forwarding and hearing ----------

  lemma {:induction false} ForwardParts(c: Config, mail: Mail, e: int, d: int, t: int)
    requires mail.Queue(e) != []
    ensures
      var next, fan := DoForward(c, mail, e), mail.Fan(e);
      var wraps := d == e && fan + 1 >= c.traders;
      && next.Net(d, t) == mail.Net(d, t) + (if d == e && t == fan then [mail.Queue(e)[0]] else [])
      && next.Queue(d) == (if wraps then mail.Queue(e)[1..] else mail.Queue(d))
      && next.Fan(d) == (if wraps then 0 else if d == e then fan + 1 else mail.Fan(d))
  {
    assert mail.Net(d, t) + [] == mail.Net(d, t);
  }

  /** Forwarding moves a message along; what each trader has still to hear stays the same. */
  lemma {:induction false} ForwardPending(c: Config, mail: Mail, e: int, d: int, t: int)
    requires mail.Queue(e) != [] && mail.Fan(e) < c.traders && c.IsTrader(t)
    ensures Pending(DoForward(c, mail, e), d, t) == Pending(mail, d, t)
  {
    hide DoForward;
    ForwardParts(c, mail, e, d, t);
    if d == e && t == mail.Fan(e) {
      var net, queue := mail.Net(e, t), mail.Queue(e);
      assert queue == [queue[0]] + queue[1..];
      assert (net + [queue[0]]) + queue[1..] == net + ([queue[0]] + queue[1..]);
    } else {
      assert mail.Net(d, t) + [] == mail.Net(d, t);
    }
  }

  lemma {:induction false} ForwardHome(c: Config, mail: Mail, e: int, d: int)
    requires mail.Queue(e) != [] && PostHome(c, mail, e) && PostHome(c, mail, d)
    ensures PostHome(c, DoForward(c, mail, e), d)
  {
    forall t
      ensures AllHome(c, d, DoForward(c, mail, e).Net(d, t))
    {
      assert AllHome(c, d, mail.Net(d, t)) && AllHome(c, e, mail.Queue(e));
      ForwardParts(c, mail, e, d, t);
    }
    ForwardParts(c, mail, e, d, 0);
  }

  lemma {:induction false} ForwardMail(c: Config, f: Flow, core: Core, mail: Mail, e: int)
    requires MailsInv(c, f, core, mail) && mail.Queue(e) != []
    ensures MailsInv(c, f, core, DoForward(c, mail, e))
  {
    hide Commit;
    var next := DoForward(c, mail, e);
    assert PostHome(c, mail, e);
    forall t, r | c.IsTrader(t) && c.IsStock(r)
      ensures Heard(c, f, core, next, t, r)
    {
      assert Heard(c, f, core, mail, t, r);
      ForwardPending(c, mail, e, c.Home(r), t);
    }
    forall d
      ensures PostHome(c, next, d)
    {
      ForwardHome(c, mail, e, d);
    }
  }

  /** Hearing takes exactly the first message that was still to be heard. */
  lemma {:induction false} HearPending(mail: Mail, e: int, t: int, d: int, u: int)
    requires mail.Net(e, t) != []
    ensures Pending(mail, e, t) == [mail.Net(e, t)[0]] + Pending(DoHear(mail, e, t), e, t)
    ensures (d, u) != (e, t) ==> Pending(DoHear(mail, e, t), d, u) == Pending(mail, d, u)
  {
    assert mail.Net(e, t) == [mail.Net(e, t)[0]] + mail.Net(e, t)[1..];
  }

  lemma {:induction false} HearHome(c: Config, mail: Mail, e: int, t: int, d: int)
    requires mail.Net(e, t) != [] && PostHome(c, mail, d)
    ensures PostHome(c, DoHear(mail, e, t), d)
  {
    var next := DoHear(mail, e, t);
    forall u
      ensures AllHome(c, d, next.Net(d, u))
    {
      assert AllHome(c, d, mail.Net(d, u));
      assert next.Net(d, u) == if (d, u) == (e, t) then mail.Net(e, t)[1..] else mail.Net(d, u);
    }
  }

  lemma {:induction false} FirstHeard(log: seq<Trade>, m: Message, rest: seq<Message>, s: int,
                                      outbox: seq<Trade>, trades: seq<Trade>, start: int, acked: int)
    requires TradesHeard(log, [m] + rest, s, outbox, trades) && AcksHeard(start, [m] + rest, s, acked)
    ensures TradesHeard(log + (if m.Traded? && m.Stock() == s then [m.trade] else []), rest, s, outbox, trades)
    ensures AcksHeard(if m.Ack? && m.Stock() == s then m.id + 1 else start, rest, s, acked)
    ensures m.Ack? && m.Stock() == s ==> start < m.id + 1
  {
    assert ([m] + rest)[1..] == rest;
    if m.Traded? && m.Stock() == s {
      assert log + ([m.trade] + TradesIn(rest, s)) + outbox == (log + [m.trade]) + TradesIn(rest, s) + outbox;
    } else {
      assert log + [] == log;
      if m.Ack? && m.Stock() == s {
        assert ([m.id] + AcksIn(rest, s))[1..] == AcksIn(rest, s);
      }
    }
  }

  lemma {:induction false} HeardAt(c: Config, f: Flow, core: Core, mail: Mail, t: int, s: int)
    requires MailsInv(c, f, core, mail) && c.IsTrader(t) && c.IsStock(s)
    ensures Heard(c, f, core, mail, t, s)
  {
    hide Heard, PostHome;
  }

  lemma {:induction false} FirstHome(c: Config, f: Flow, core: Core, mail: Mail, e: int, t: int)
    requires MailsInv(c, f, core, mail) && mail.Net(e, t) != []
    ensures c.IsStock(mail.Net(e, t)[0].Stock()) && c.Home(mail.Net(e, t)[0].Stock()) == e
  {
    hide Heard;
    assert PostHome(c, mail, e);
    assert AllHome(c, e, mail.Net(e, t));
  }

  lemma {:induction false} HearKnowledge(mail: Mail, e: int, t: int, u: int, r: int)
    requires mail.Net(e, t) != []
    ensures
      var next, m := DoHear(mail, e, t), mail.Net(e, t)[0];
      && next.Log(u, r) == mail.Log(u, r) + (if u == t && m.Traded? && m.Stock() == r then [m.trade] else [])
      && next.Start(u, r) == (if u == t && m.Ack? && m.Stock() == r then m.id + 1 else mail.Start(u, r))
  {
    assert mail.Log(u, r) + [] == mail.Log(u, r);
  }

  /** Hearing a message keeps what is known in step with what was produced, and never moves a window back. */
  lemma {:induction false} HearKeepsOne(c: Config, f: Flow, core: Core, mail: Mail, e: int, t: int, u: int, r: int)
    requires MailsInv(c, f, core, mail) && mail.Net(e, t) != [] && c.IsTrader(u) && c.IsStock(r)
    ensures Heard(c, f, core, DoHear(mail, e, t), u, r)
    ensures mail.Start(u, r) <= DoHear(mail, e, t).Start(u, r)
  {
    hide MailsInv, TradesHeard, AcksHeard, Pending, DoHear;
    var next, m := DoHear(mail, e, t), mail.Net(e, t)[0];
    HeardAt(c, f, core, mail, u, r);
    FirstHome(c, f, core, mail, e, t);
    HearPending(mail, e, t, c.Home(r), u);
    HearKnowledge(mail, e, t, u, r);
    if c.Home(r) == e && u == t {
      FirstHeard(mail.Log(t, r), m, Pending(next, e, t), r, core.PhaseOf(r).Outbox(), core.Trades(r),
                 mail.Start(t, r), Acked(f.Polled(r), core.PhaseOf(r)));
    } else {
      assert mail.Log(u, r) + [] == mail.Log(u, r);
    }
  }

  lemma {:induction false} HearMail(c: Config, f: Flow, core: Core, mail: Mail, e: int, t: int)
    requires MailsInv(c, f, core, mail) && mail.Net(e, t) != []
    ensures MailsInv(c, f, core, DoHear(mail, e, t))
  {
    hide Heard, PostHome, DoHear;
    forall u, r | c.IsTrader(u) && c.IsStock(r)
      ensures Heard(c, f, core, DoHear(mail, e, t), u, r)
    {
      HearKeepsOne(c, f, core, mail, e, t, u, r);
    }
    forall d
      ensures PostHome(c, DoHear(mail, e, t), d)
    {
      HearHome(c, mail, e, t, d);
    }
  }

  // ---------- every schedule ----------

  /** Every step keeps the invariant, and nothing that was sent, arrived or polled is taken back. */
  lemma {:induction false} StepKeeps(c: Config, q: State, step: Step)
    requires ValidConfig(c) && Inv(c, q)
    ensures Inv(c, Apply(c, q, step)) && Grows(c, q.flow, Apply(c, q, step).flow)
  {
    hide FlowInv, CoresInv, MailsInv, AllHonest, Commit;
    if Enabled(c, q, step) {
      match step
      case Send(t, s) => SendKeeps(c, q, t, s);
      case Arrive(t, e) => ArriveKeeps(c, q, t, e);
      case Poll(s) => PollKeeps(c, q, s);
      case Acknowledge(s) => AcknowledgeKeeps(c, q, s);
      case Work(s) => WorkKeeps(c, q, s);
      case Emit(s) => EmitKeeps(c, q, s);
      case Resume(s) => ResumeKeeps(c, q, s);
      case Forward(e) => ForwardMail(c, q.flow, q.core, q.mail, e);
      case Hear(e, t) => HearMail(c, q.flow, q.core, q.mail, e, t);
    }
  }

  lemma {:induction false} RunKeeps(c: Config, schedule: seq<Step>)
    requires ValidConfig(c)
    ensures Inv(c, Run(c, schedule))
  {
    hide Inv, Apply;
    if schedule == [] {
      InitialInv(c);
    } else {
      RunKeeps(c, schedule[..|schedule| - 1]);
      StepKeeps(c, Run(c, schedule[..|schedule| - 1]), schedule[|schedule| - 1]);
    }
  }
}
