/** Every enabled step lowers a rank, so no schedule goes on for ever and every schedule can be finished. */
module Termination {
  import opened Types
  import opened SlidingWindows
  import opened System
  import opened FlowControl
  import opened Protocol
  import opened Progress

  // ---------- sums ----------

  function Sum(v: seq<nat>): nat {
    if v == [] then 0 else v[0] + Sum(v[1..])
  }

  function Sum2(m: seq<seq<nat>>): nat {
    if m == [] then 0 else Sum(m[0]) + Sum2(m[1..])
  }

  lemma {:induction false} SumLess(v: seq<nat>, w: seq<nat>, k: nat)
    requires |v| == |w| && k < |v| && w[k] < v[k] && forall i :: 0 <= i < |v| && i != k ==> w[i] == v[i]
    ensures Sum(w) < Sum(v)
  {
    if k == 0 {
      assert w[1..] == v[1..];
    } else {
      SumLess(v[1..], w[1..], k - 1);
    }
  }

  lemma {:induction false} Sum2Less(m: seq<seq<nat>>, n: seq<seq<nat>>, k: nat)
    requires |m| == |n| && k < |m| && Sum(n[k]) < Sum(m[k]) && forall i :: 0 <= i < |m| && i != k ==> n[i] == m[i]
    ensures Sum2(n) < Sum2(m)
  {
    if k == 0 {
      assert n[1..] == m[1..];
    } else {
      Sum2Less(m[1..], n[1..], k - 1);
    }
  }

  // ---------- the rank of a state ----------

  function Minus(a: nat, b: nat): nat {
    if a >= b then a - b else 0
  }

  function PhaseRank(phase: Phase): nat {
    match phase
    case Collecting(batch) => if batch == [] then 0 else 2 * |batch| + 2
    case Working(batch, _) => 2 * |batch| + 1
  }

  function UnsentRow(c: Config, f: Flow, t: int): seq<nat> {
    seq(c.stocks, i requires 0 <= i => Minus(|c.Raw(t, i + 1)|, |f.Sent(t, i + 1)|))
  }

  function Unsent(c: Config, f: Flow): seq<seq<nat>> {
    seq(c.traders, t requires 0 <= t => UnsentRow(c, f, t))
  }

  function WireRow(c: Config, f: Flow, t: int): seq<nat> {
    seq(c.exchanges, e requires 0 <= e => |f.Wire(t, e)|)
  }

  function OnWires(c: Config, f: Flow): seq<seq<nat>> {
    seq(c.traders, t requires 0 <= t => WireRow(c, f, t))
  }

  function InWindows(c: Config, f: Flow): seq<nat> {
    seq(c.stocks, i requires 0 <= i => Occupied(f.WindowOf(c, i + 1).slots))
  }

  function Threads(c: Config, core: Core): seq<nat> {
    seq(c.stocks, i requires 0 <= i => PhaseRank(core.PhaseOf(i + 1)))
  }

  function Outboxes(c: Config, core: Core): seq<nat> {
    seq(c.stocks, i requires 0 <= i => |core.PhaseOf(i + 1).Outbox()|)
  }

  function ToForward(c: Config, mail: Mail): seq<nat> {
    seq(c.exchanges, e requires 0 <= e => Minus(c.traders * |mail.Queue(e)|, mail.Fan(e)))
  }

  function NetRow(c: Config, mail: Mail, e: int): seq<nat> {
    seq(c.traders, t requires 0 <= t => |mail.Net(e, t)|)
  }

  function ToHear(c: Config, mail: Mail): seq<seq<nat>> {
    seq(c.exchanges, e requires 0 <= e => NetRow(c, mail, e))
  }

  /** What is still to do, the earliest stage first: a later stage never gives work to an earlier one. */
  datatype Rank = Rank(
    unsent: nat, onWires: nat, inWindows: nat, threads: nat, outboxes: nat, toForward: nat, toHear: nat)

  function RankOf(c: Config, q: State): Rank {
    Rank(Sum2(Unsent(c, q.flow)), Sum2(OnWires(c, q.flow)), Sum(InWindows(c, q.flow)),
         Sum(Threads(c, q.core)), Sum(Outboxes(c, q.core)), Sum(ToForward(c, q.mail)), Sum2(ToHear(c, q.mail)))
  }

  predicate Lower(a: Rank, b: Rank) {
    || a.unsent < b.unsent
    || (a.unsent == b.unsent &&
        (|| a.onWires < b.onWires
         || (a.onWires == b.onWires &&
             (|| a.inWindows < b.inWindows
              || (a.inWindows == b.inWindows &&
                  (|| a.threads < b.threads
                   || (a.threads == b.threads &&
                       (|| a.outboxes < b.outboxes
                        || (a.outboxes == b.outboxes &&
                            (|| a.toForward < b.toForward
                             || (a.toForward == b.toForward && a.toHear < b.toHear)))))))))))
  }

  // ---------- each step lowers the rank ----------

  lemma {:induction false} SendLowers(c: Config, f: Flow, t: int, s: int, o: Order)
    requires c.IsTrader(t) && c.IsStock(s) && |f.Sent(t, s)| < |c.Raw(t, s)|
    ensures Sum2(Unsent(c, DoSend(c, f, t, s, o))) < Sum2(Unsent(c, f))
  {
    var g := DoSend(c, f, t, s, o);
    SumLess(UnsentRow(c, f, t), UnsentRow(c, g, t), s - 1);
    forall u | 0 <= u < c.traders && u != t
      ensures UnsentRow(c, g, u) == UnsentRow(c, f, u)
    {
    }
    Sum2Less(Unsent(c, f), Unsent(c, g), t);
  }

  lemma {:induction false} ArriveLowers(c: Config, f: Flow, t: int, e: int)
    requires c.window > 0 && c.IsTrader(t) && 0 <= e < c.exchanges && f.Wire(t, e) != []
    ensures Unsent(c, DoArrive(c, f, t, e)) == Unsent(c, f)
    ensures Sum2(OnWires(c, DoArrive(c, f, t, e))) < Sum2(OnWires(c, f))
  {
    var g := DoArrive(c, f, t, e);
    forall u | 0 <= u < c.traders
      ensures UnsentRow(c, g, u) == UnsentRow(c, f, u)
      ensures u != t ==> WireRow(c, g, u) == WireRow(c, f, u)
    {
    }
    SumLess(WireRow(c, f, t), WireRow(c, g, t), e);
    Sum2Less(OnWires(c, f), OnWires(c, g), t);
  }

  lemma {:induction false} PollLowers(c: Config, f: Flow, s: int)
    requires c.IsStock(s) && CanPoll(f.WindowOf(c, s))
    ensures
      var g := DoPoll(c, f, s);
      Unsent(c, g) == Unsent(c, f) && OnWires(c, g) == OnWires(c, f) && Sum(InWindows(c, g)) < Sum(InWindows(c, f))
  {
    var g, w := DoPoll(c, f, s), f.WindowOf(c, s);
    forall u | 0 <= u < c.traders
      ensures UnsentRow(c, g, u) == UnsentRow(c, f, u) && WireRow(c, g, u) == WireRow(c, f, u)
    {
    }
    OccupiedLess(w.slots, w.head);
    SumLess(InWindows(c, f), InWindows(c, g), s - 1);
  }

  lemma {:induction false} ThreadLowers(c: Config, core: Core, next: Core, s: int)
    requires c.IsStock(s) && PhaseRank(next.PhaseOf(s)) < PhaseRank(core.PhaseOf(s))
    requires forall r :: r != s ==> next.PhaseOf(r) == core.PhaseOf(r)
    ensures Sum(Threads(c, next)) < Sum(Threads(c, core))
  {
    SumLess(Threads(c, core), Threads(c, next), s - 1);
  }

  lemma {:induction false} EmitLowers(c: Config, core: Core, s: int)
    requires c.IsStock(s) && core.PhaseOf(s).Working? && core.PhaseOf(s).outbox != []
    ensures
      var next := WithPhase(core, s, Working(core.PhaseOf(s).batch, core.PhaseOf(s).outbox[1..]));
      Threads(c, next) == Threads(c, core) && Sum(Outboxes(c, next)) < Sum(Outboxes(c, core))
  {
    var next := WithPhase(core, s, Working(core.PhaseOf(s).batch, core.PhaseOf(s).outbox[1..]));
    SumLess(Outboxes(c, core), Outboxes(c, next), s - 1);
  }

  lemma {:induction false} FanLowers(traders: nat, n: nat, fan: nat)
    requires n > 0 && fan < traders
    ensures Minus(traders * n, fan + 1) < Minus(traders * n, fan)
    ensures fan + 1 == traders ==> Minus(traders * (n - 1), 0) < Minus(traders * n, fan)
  {
    assert traders * n == traders * (n - 1) + traders;
    assert traders * (n - 1) >= 0;
  }

  lemma {:induction false} ForwardLowers(c: Config, mail: Mail, e: int)
    requires 0 <= e < c.exchanges && mail.Queue(e) != [] && mail.Fan(e) < c.traders
    ensures Sum(ToForward(c, DoForward(c, mail, e))) < Sum(ToForward(c, mail))
  {
    hide DoForward, Minus, Sum;
    var next := DoForward(c, mail, e);
    FanLowers(c.traders, |mail.Queue(e)|, mail.Fan(e));
    forall d
      ensures d != e ==> next.Queue(d) == mail.Queue(d) && next.Fan(d) == mail.Fan(d)
    {
      ForwardParts(c, mail, e, d, 0);
    }
    ForwardParts(c, mail, e, e, 0);
    SumLess(ToForward(c, mail), ToForward(c, next), e);
  }

  lemma {:induction false} HearLowers(c: Config, mail: Mail, e: int, t: int)
    requires 0 <= e < c.exchanges && c.IsTrader(t) && mail.Net(e, t) != []
    ensures ToForward(c, DoHear(mail, e, t)) == ToForward(c, mail)
    ensures Sum2(ToHear(c, DoHear(mail, e, t))) < Sum2(ToHear(c, mail))
  {
    var next := DoHear(mail, e, t);
    SumLess(NetRow(c, mail, e), NetRow(c, next, e), t);
    forall d | 0 <= d < c.exchanges && d != e
      ensures NetRow(c, next, d) == NetRow(c, mail, d)
    {
    }
    Sum2Less(ToHear(c, mail), ToHear(c, next), e);
  }

  lemma {:induction false} WireInRange(c: Config, f: Flow, t: int, e: int)
    requires ValidSizes(c) && FlowInv(c, f) && f.Wire(t, e) != []
    ensures 0 <= e < c.exchanges
  {
    hide ListsInv, WindowsInv, StocksInv;
    assert WireHome(c, f, t, e);
    assert c.Home(f.Wire(t, e)[0].stock) == e;
  }

  lemma {:induction false} MailInRange(c: Config, f: Flow, core: Core, mail: Mail, e: int, t: int)
    requires ValidSizes(c) && MailsInv(c, f, core, mail) && (mail.Queue(e) != [] || mail.Net(e, t) != [])
    ensures 0 <= e < c.exchanges && mail.Fan(e) < c.traders
  {
    hide Heard;
    assert PostHome(c, mail, e);
    assert AllHome(c, e, mail.Queue(e)) && AllHome(c, e, mail.Net(e, t));
    assert c.Home((mail.Queue(e) + mail.Net(e, t))[0].Stock()) == e;
  }

  lemma {:induction false} FlowStepLowers(c: Config, q: State, step: Step)
    requires ValidConfig(c) && FlowInv(c, q.flow) && Enabled(c, q, step) && (step.Send? || step.Arrive? || step.Poll?)
    ensures Lower(RankOf(c, Apply(c, q, step)), RankOf(c, q))
  {
    hide FlowInv, CheckOrder, Unsent, OnWires, InWindows, Threads, Outboxes, ToForward, ToHear;
    match step
    case Send(t, s) => SendLowers(c, q.flow, t, s, CheckOrder(c, q.mail, t, s, c.Raw(t, s)[|q.flow.Sent(t, s)|]).value);
    case Arrive(t, e) =>
      WireInRange(c, q.flow, t, e);
      ArriveLowers(c, q.flow, t, e);
    case Poll(s) => PollLowers(c, q.flow, s);
    case _ =>
  }

  lemma {:induction false} ThreadStepLowers(c: Config, q: State, step: Step)
    requires ValidSizes(c) && Enabled(c, q, step)
    requires step.Acknowledge? || step.Work? || step.Emit? || step.Resume?
    ensures Lower(RankOf(c, Apply(c, q, step)), RankOf(c, q))
  {
    hide Unsent, OnWires, InWindows, Threads, Outboxes, ToForward, ToHear;
    if step.Emit? {
      EmitLowers(c, q.core, step.s);
    } else {
      ThreadLowers(c, q.core, Apply(c, q, step).core, step.s);
    }
  }

  lemma {:induction false} MailStepLowers(c: Config, q: State, step: Step)
    requires ValidSizes(c) && MailsInv(c, q.flow, q.core, q.mail)
    requires Enabled(c, q, step) && (step.Forward? || step.Hear?)
    ensures Lower(RankOf(c, Apply(c, q, step)), RankOf(c, q))
  {
    hide MailsInv, Unsent, OnWires, InWindows, Threads, Outboxes, ToForward, ToHear, DoForward, DoHear;
    if step.Forward? {
      MailInRange(c, q.flow, q.core, q.mail, step.e, 0);
      ForwardLowers(c, q.mail, step.e);
    } else {
      MailInRange(c, q.flow, q.core, q.mail, step.e, step.t);
      HearLowers(c, q.mail, step.e, step.t);
    }
  }

  /** In every reachable state, every step that can happen lowers the rank. */
  lemma {:induction false} StepLowers(c: Config, q: State, step: Step)
    requires ValidConfig(c) && Inv(c, q) && Enabled(c, q, step)
    ensures Lower(RankOf(c, Apply(c, q, step)), RankOf(c, q))
  {
    hide FlowInv, CoresInv, MailsInv, AllHonest, RankOf, Apply, Lower;
    match step
    case Send(_, _) => FlowStepLowers(c, q, step);
    case Arrive(_, _) => FlowStepLowers(c, q, step);
    case Poll(_) => FlowStepLowers(c, q, step);
    case Forward(_) => MailStepLowers(c, q, step);
    case Hear(_, _) => MailStepLowers(c, q, step);
    case _ => ThreadStepLowers(c, q, step);
  }

  // ---------- no schedule goes on for ever ----------

  function FirstSteps(steps: nat -> Step, n: nat): seq<Step> {
    if n == 0 then [] else FirstSteps(steps, n - 1) + [steps(n - 1)]
  }

  lemma {:induction false} NextStepLowers(c: Config, schedule: seq<Step>, step: Step)
    requires ValidConfig(c) && Enabled(c, Run(c, schedule), step)
    ensures Lower(RankOf(c, Run(c, schedule + [step])), RankOf(c, Run(c, schedule)))
  {
    hide Inv, RankOf, Apply, Lower, Enabled;
    RunKeeps(c, schedule);
    assert (schedule + [step])[..|schedule|] == schedule;
    StepLowers(c, Run(c, schedule), step);
  }

  lemma {:induction false} EndsFrom(c: Config, steps: nat -> Step, n: nat, rank: Rank) returns (m: nat)
    requires ValidConfig(c) && rank == RankOf(c, Run(c, FirstSteps(steps, n)))
    ensures m >= n && !Enabled(c, Run(c, FirstSteps(steps, m)), steps(m))
    decreases rank.unsent, rank.onWires, rank.inWindows, rank.threads, rank.outboxes, rank.toForward, rank.toHear
  {
    hide RankOf, Apply, Enabled;
    if !Enabled(c, Run(c, FirstSteps(steps, n)), steps(n)) {
      m := n;
    } else {
      NextStepLowers(c, FirstSteps(steps, n), steps(n));
      m := EndsFrom(c, steps, n + 1, RankOf(c, Run(c, FirstSteps(steps, n + 1))));
    }
  }

  /** Whatever steps are tried one after another, at some point the next one cannot happen. */
  lemma {:induction false} NoEndlessRun(c: Config, steps: nat -> Step)
    requires ValidConfig(c)
    ensures exists n: nat :: !Enabled(c, Run(c, FirstSteps(steps, n)), steps(n))
  {
    hide RankOf, Apply, Enabled;
    var m := EndsFrom(c, steps, 0, RankOf(c, Run(c, FirstSteps(steps, 0))));
  }

  lemma {:induction false} FinishFrom(c: Config, schedule: seq<Step>, rank: Rank) returns (rest: seq<Step>)
    requires ValidConfig(c) && rank == RankOf(c, Run(c, schedule))
    ensures Stuck(c, Run(c, schedule + rest))
    decreases rank.unsent, rank.onWires, rank.inWindows, rank.threads, rank.outboxes, rank.toForward, rank.toHear
  {
    hide RankOf, Apply, Enabled, Run;
    if Stuck(c, Run(c, schedule)) {
      rest := [];
      assert schedule + [] == schedule;
    } else {
      var step :| Enabled(c, Run(c, schedule), step);
      NextStepLowers(c, schedule, step);
      rest := FinishFrom(c, schedule + [step], RankOf(c, Run(c, schedule + [step])));
      assert schedule + ([step] + rest) == schedule + [step] + rest;
      rest := [step] + rest;
    }
  }

  /** Every schedule can be continued to a final state. */
  lemma {:induction false} EveryRunCanFinish(c: Config, schedule: seq<Step>)
    requires ValidConfig(c)
    ensures exists rest :: Stuck(c, Run(c, schedule + rest))
  {
    hide RankOf, Run, Stuck;
    var rest := FinishFrom(c, schedule, RankOf(c, Run(c, schedule)));
  }
}
