/**
 * The whole system as steps: traders send their orders under a window, exchanges collect, commit
 * and broadcast, and every channel is a lossless FIFO. A schedule is any sequence of steps; a step
 * that is not enabled leaves the state as it is.
 */
module System {
  import opened Types
  import opened Reorder
  import opened SlidingWindows

  /** A held order waits for trade number `index` (from 1) of `stock` and is cancelled when its volume exceeds `arg`. */
  datatype Hook = Hook(stock: int, index: int, arg: int)

  function Get<K, V>(m: map<K, V>, k: K, default: V): V {
    if k in m then m[k] else default
  }

  /** The input: who sends what, in which order, and which orders are held. */
  datatype Config = Config(
    traders: nat, exchanges: nat, stocks: nat, window: nat,
    raw: map<(int, int), seq<Order>>, hooks: map<(int, int), Hook>,
    low: (int, int) -> real, high: (int, int) -> real)
  {
    /** The exchange that serves a stock. */
    function Home(s: int): int {
      if exchanges == 0 then 0 else s % exchanges
    }

    /** The orders of stock `s` that trader `t` holds, in ascending id. */
    function Raw(t: int, s: int): seq<Order> {
      Get(raw, (t, s), [])
    }

    predicate IsStock(s: int) {
      1 <= s <= stocks
    }

    predicate IsTrader(t: int) {
      0 <= t < traders
    }
  }

  // ---------- the state: what has not been touched yet has its initial value ----------

  /** Orders on their way: sent by the traders, on the wires, in the windows, and given out by them. */
  datatype Flow = Flow(
    sent: map<(int, int), seq<Order>>, wires: map<(int, int), seq<Order>>,
    windows: map<int, Window<Order>>, polled: map<int, seq<Order>>)
  {
    /** What trader `t` has sent for stock `s` so far, as it was sent. */
    function Sent(t: int, s: int): seq<Order> {
      Get(sent, (t, s), [])
    }

    /** What is on the wire from trader `t` to exchange `e`, next to arrive first. */
    function Wire(t: int, e: int): seq<Order> {
      Get(wires, (t, e), [])
    }

    function WindowOf(c: Config, s: int): Window<Order> {
      Get(windows, s, EmptyWindow(c.window))
    }

    /** Every order of stock `s` that its window has given out, oldest first. */
    function Polled(s: int): seq<Order> {
      Get(polled, s, [])
    }
  }

  /** The thread of one stock either collects a batch of orders, or works off a batch it has acknowledged. */
  datatype Phase = Collecting(batch: seq<Order>) | Working(batch: seq<Order>, outbox: seq<Trade>)
  {
    function Outbox(): seq<Trade> {
      if Working? then outbox else []
    }
  }

  datatype Core = Core(phases: map<int, Phase>, engines: map<int, Engine>)
  {
    function PhaseOf(s: int): Phase {
      Get(phases, s, Collecting([]))
    }

    function EngineOf(s: int): Engine {
      Get(engines, s, NEW_ENGINE)
    }

    function Trades(s: int): seq<Trade> {
      EngineOf(s).trades
    }
  }

  datatype Message = Ack(of: int, id: int) | Traded(trade: Trade)
  {
    function Stock(): int {
      if Ack? then of else trade.stock
    }
  }

  /** Acknowledgements and trades on their way back, and what the traders know. */
  datatype Mail = Mail(
    queues: map<int, seq<Message>>, fans: map<int, nat>, nets: map<(int, int), seq<Message>>,
    starts: map<(int, int), int>, logs: map<(int, int), seq<Trade>>)
  {
    function Queue(e: int): seq<Message> {
      Get(queues, e, [])
    }

    /** How many traders have already been sent the first message of the queue. */
    function Fan(e: int): nat {
      Get(fans, e, 0)
    }

    function Net(e: int, t: int): seq<Message> {
      Get(nets, (e, t), [])
    }

    /** The start of the window of stock `s`, as trader `t` knows it. */
    function Start(t: int, s: int): int {
      Get(starts, (t, s), 1)
    }

    /** The trades of stock `s` that trader `t` has received. */
    function Log(t: int, s: int): seq<Trade> {
      Get(logs, (t, s), [])
    }
  }

  datatype State = State(flow: Flow, core: Core, mail: Mail)

  const INITIAL :=
    State(Flow(map[], map[], map[], map[]), Core(map[], map[]), Mail(map[], map[], map[], map[], map[]))

  // ---------- deciding whether an order may go (check_order) ----------

  /** The volume of trade number `index`, or -1 while it is unknown. */
  function HookedVolume(log: seq<Trade>, index: int): int {
    if 1 <= index <= |log| then log[index - 1].volume else -1
  }

  /** The order as it is sent once the volume `v` it may wait for is known; `None` while it must wait. */
  function Decide(c: Config, t: int, s: int, o: Order, v: int): Option<Order> {
    var hooked := (s, o.id) in c.hooks;
    if hooked && v == -1 then None
    else
      var held := if hooked && v > c.hooks[(s, o.id)].arg then o.(kind := -1) else o;
      var outside := held.price < c.low(t, s) || held.price > c.high(t, s);
      Some(if held.kind == 0 && outside then held.(kind := -1) else held)
  }

  /** The volume that order `o` of stock `s` waits for, as trader `t` knows it. */
  function Known(c: Config, mail: Mail, t: int, s: int, o: Order): int {
    if (s, o.id) in c.hooks then
      HookedVolume(mail.Log(t, c.hooks[(s, o.id)].stock), c.hooks[(s, o.id)].index)
    else -1
  }

  function CheckOrder(c: Config, mail: Mail, t: int, s: int, o: Order): Option<Order> {
    if o.id >= mail.Start(t, s) + c.window then None else Decide(c, t, s, o, Known(c, mail, t, s, o))
  }

  // ---------- steps ----------

  datatype Step =
    | Send(t: int, s: int)      // trader t lets its next order of stock s go
    | Arrive(t: int, e: int)    // exchange e stores the next order from trader t in its slot
    | Poll(s: int)              // stock s takes the order in its head slot
    | Acknowledge(s: int)       // stock s stops polling and acknowledges the last order of its batch
    | Work(s: int)              // stock s hands one order to its engine
    | Emit(s: int)              // stock s queues one trade of that order
    | Resume(s: int)            // stock s is done with its batch
    | Forward(e: int)           // exchange e sends the first queued message to one more trader
    | Hear(e: int, t: int)      // trader t processes the next message from exchange e

  predicate CanSend(c: Config, q: State, t: int, s: int) {
    && c.IsTrader(t) && c.IsStock(s) && |q.flow.Sent(t, s)| < |c.Raw(t, s)|
    && CheckOrder(c, q.mail, t, s, c.Raw(t, s)[|q.flow.Sent(t, s)|]).Some?
  }

  predicate Enabled(c: Config, q: State, step: Step) {
    match step
    case Send(t, s) => CanSend(c, q, t, s)
    case Arrive(t, e) => c.IsTrader(t) && q.flow.Wire(t, e) != []
    case Poll(s) => c.IsStock(s) && q.core.PhaseOf(s).Collecting? && CanPoll(q.flow.WindowOf(c, s))
    case Acknowledge(s) => c.IsStock(s) && q.core.PhaseOf(s).Collecting? && q.core.PhaseOf(s).batch != []
    case Work(s) =>
      c.IsStock(s) && q.core.PhaseOf(s).Working? && q.core.PhaseOf(s).batch != [] && q.core.PhaseOf(s).outbox == []
    case Emit(s) => c.IsStock(s) && q.core.PhaseOf(s).Working? && q.core.PhaseOf(s).outbox != []
    case Resume(s) => c.IsStock(s) && q.core.PhaseOf(s) == Working([], [])
    case Forward(e) => q.mail.Queue(e) != []
    case Hear(e, t) => c.IsTrader(t) && q.mail.Net(e, t) != []
  }

  function DoSend(c: Config, f: Flow, t: int, s: int, o: Order): Flow {
    f.(sent := f.sent[(t, s) := f.Sent(t, s) + [o]],
       wires := f.wires[(t, c.Home(s)) := f.Wire(t, c.Home(s)) + [o]])
  }

  /** The store is unconditional: that the slot is free is for the invariant to show. */
  function DoArrive(c: Config, f: Flow, t: int, e: int): Flow
    requires c.window > 0 && f.Wire(t, e) != []
  {
    var o := f.Wire(t, e)[0];
    var w := f.WindowOf(c, o.stock);
    var k := SlotOf(o.id, c.window);
    f.(wires := f.wires[(t, e) := f.Wire(t, e)[1..]],
       windows := f.windows[o.stock := if k < |w.slots| then PutAt(w, o, k) else w])
  }

  function DoPoll(c: Config, f: Flow, s: int): Flow
    requires CanPoll(f.WindowOf(c, s))
  {
    var w := f.WindowOf(c, s);
    f.(windows := f.windows[s := Polled(w)], polled := f.polled[s := f.Polled(s) + [w.slots[w.head].value]])
  }

  function Queued(mail: Mail, e: int, m: Message): Mail {
    mail.(queues := mail.queues[e := mail.Queue(e) + [m]])
  }

  function WithPhase(core: Core, s: int, phase: Phase): Core {
    core.(phases := core.phases[s := phase])
  }

  function DoWork(core: Core, s: int): Core
    requires core.PhaseOf(s).batch != []
  {
    var batch, before := core.PhaseOf(s).batch, core.EngineOf(s);
    var after := Receive(before, batch[0]);
    var produced := if |before.trades| <= |after.trades| then after.trades[|before.trades|..] else [];
    Core(core.phases[s := Working(batch[1..], produced)], core.engines[s := after])
  }

  function DoForward(c: Config, mail: Mail, e: int): Mail
    requires mail.Queue(e) != []
  {
    var fan := mail.Fan(e);
    var sent := mail.(nets := mail.nets[(e, fan) := mail.Net(e, fan) + [mail.Queue(e)[0]]]);
    if fan + 1 < c.traders then sent.(fans := mail.fans[e := fan + 1])
    else sent.(fans := mail.fans[e := 0], queues := mail.queues[e := mail.Queue(e)[1..]])
  }

  function DoHear(mail: Mail, e: int, t: int): Mail
    requires mail.Net(e, t) != []
  {
    var heard := mail.(nets := mail.nets[(e, t) := mail.Net(e, t)[1..]]);
    match mail.Net(e, t)[0]
    case Ack(s, id) => heard.(starts := mail.starts[(t, s) := id + 1])
    case Traded(trade) => heard.(logs := mail.logs[(t, trade.stock) := mail.Log(t, trade.stock) + [trade]])
  }

  predicate ValidSizes(c: Config) {
    c.traders > 0 && c.exchanges > 0 && c.window > 0
  }

  function Apply(c: Config, q: State, step: Step): State
    requires ValidSizes(c)
  {
    if !Enabled(c, q, step) then q
    else
      match step
      case Send(t, s) =>
        q.(flow := DoSend(c, q.flow, t, s, CheckOrder(c, q.mail, t, s, c.Raw(t, s)[|q.flow.Sent(t, s)|]).value))
      case Arrive(t, e) => q.(flow := DoArrive(c, q.flow, t, e))
      case Poll(s) =>
        var w := q.flow.WindowOf(c, s);
        State(DoPoll(c, q.flow, s),
              WithPhase(q.core, s, Collecting(q.core.PhaseOf(s).batch + [w.slots[w.head].value])), q.mail)
      case Acknowledge(s) =>
        var batch := q.core.PhaseOf(s).batch;
        State(q.flow, WithPhase(q.core, s, Working(batch, [])),
              Queued(q.mail, c.Home(s), Ack(s, batch[|batch| - 1].id)))
      case Work(s) => q.(core := DoWork(q.core, s))
      case Emit(s) =>
        var phase := q.core.PhaseOf(s);
        State(q.flow, WithPhase(q.core, s, Working(phase.batch, phase.outbox[1..])),
              Queued(q.mail, c.Home(s), Traded(phase.outbox[0])))
      case Resume(s) => q.(core := WithPhase(q.core, s, Collecting([])))
      case Forward(e) => q.(mail := DoForward(c, q.mail, e))
      case Hear(e, t) => q.(mail := DoHear(q.mail, e, t))
  }

  /** The state after a schedule. */
  function Run(c: Config, schedule: seq<Step>): State
    requires ValidSizes(c)
  {
    if schedule == [] then INITIAL
    else Apply(c, Run(c, schedule[..|schedule| - 1]), schedule[|schedule| - 1])
  }
}
