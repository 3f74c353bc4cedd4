/**
 * How an order is decided, in plain terms: when it may go, and as what it is sent and committed,
 * depending on its hook and on the price limits of its trader.
 */
module Decisions {
  import opened Types
  import opened Matching
  import opened MatchingLaws
  import opened Reorder
  import opened System
  import opened FlowControl
  import opened Protocol
  import opened Schedule

  /**
   * A send is possible exactly when the trader has a next order whose id lies below its window start
   * plus the window, and the trade that the order may wait for has been heard.
   */
  lemma {:induction false} SendIsPossible(c: Config, q: State, t: int, s: int)
    ensures
      var sent := |q.flow.Sent(t, s)|;
      Enabled(c, q, Send(t, s)) <==>
      && 0 <= t < c.traders && 1 <= s <= c.stocks && sent < |c.Raw(t, s)|
      && c.Raw(t, s)[sent].id < q.mail.Start(t, s) + c.window
      && ((s, c.Raw(t, s)[sent].id) in c.hooks ==>
            var h := c.hooks[(s, c.Raw(t, s)[sent].id)];
            var log := q.mail.Log(t, h.stock);
            1 <= h.index <= |log| && log[h.index - 1].volume != -1)
  {
  }

  /**
   * What a send sends, and where: the raw order, cancelled if the volume it waited for is too large or
   * if it is a limit order outside the limits.
   */
  lemma {:induction false} SendSends(c: Config, q: State, t: int, s: int)
    requires ValidSizes(c) && Enabled(c, q, Send(t, s))
    ensures
      var n, raw := Apply(c, q, Send(t, s)), c.Raw(t, s)[|q.flow.Sent(t, s)|];
      var held := (s, raw.id) in c.hooks;
      var h := if held then c.hooks[(s, raw.id)] else Hook(0, 0, 0);
      var log := q.mail.Log(t, h.stock);
      var abandoned := held && 1 <= h.index <= |log| && log[h.index - 1].volume > h.arg;
      var outside := raw.kind == 0 && (raw.price < c.low(t, s) || raw.price > c.high(t, s));
      var o := if abandoned || outside then raw.(kind := -1) else raw;
      && n.flow.Sent(t, s) == q.flow.Sent(t, s) + [o]
      && n.flow.Wire(t, s % c.exchanges) == q.flow.Wire(t, s % c.exchanges) + [o]
  {
  }

  lemma {:induction false} SentIsRaw(c: Config, f: Flow, t: int, s: int)
    requires c.window > 0 && FlowInv(c, f)
    ensures |f.Sent(t, s)| <= |c.Raw(t, s)|
  {
    assert SentInv(c, f, t, s);
  }

  /**
   * In every reachable state, every order was sent in the form that its hook and its price prescribe:
   * the trade that it waited for has been made; if the volume of that trade is above `arg`, the order
   * was cancelled; if not, it went as it is, unless it is a limit order outside the trader's limits.
   */
  lemma {:induction false} SentAsHeld(c: Config, schedule: seq<Step>, t: int, s: int, i: nat)
    requires ValidConfig(c) && i < |Run(c, schedule).flow.Sent(t, s)|
    ensures i < |c.Raw(t, s)|
    ensures
      var q := Run(c, schedule);
      var raw, sent := c.Raw(t, s)[i], q.flow.Sent(t, s)[i];
      var held := (s, raw.id) in c.hooks;
      var h := if held then c.hooks[(s, raw.id)] else Hook(0, 0, 0);
      var trades := q.core.EngineOf(h.stock).trades;
      var outside := raw.kind == 0 && (raw.price < c.low(t, s) || raw.price > c.high(t, s));
      && (held ==> 1 <= h.index <= |trades|)
      && (held && trades[h.index - 1].volume > h.arg ==> sent == raw.(kind := -1))
      && (!held || trades[h.index - 1].volume <= h.arg ==> sent == if outside then raw.(kind := -1) else raw)
  {
    hide Run, FlowInv, CoresInv, MailsInv, ListsInv;
    RunKeeps(c, schedule);
    SentIsRaw(c, Run(c, schedule).flow, t, s);
    var q := Run(c, schedule);
    assert Honest(c, q.flow, q.core, t, s);
  }

  /** What was polled with the id of a held order is that order, as decided. */
  lemma {:induction false} PolledAsDecided(c: Config, q: State, s: int, t: int, i: nat)
    requires ValidConfig(c) && FlowInv(c, q.flow) && AllHonest(c, q.flow, q.core)
    requires i < |c.Raw(t, s)| && 1 <= c.Raw(t, s)[i].id <= |q.flow.Polled(s)|
    ensures
      var raw := c.Raw(t, s)[i];
      Decide(c, t, s, raw, Produced(c, q.core, s, raw)) == Some(q.flow.Polled(s)[raw.id - 1])
  {
    hide ListsInv, WindowsInv, WiresHome, AllHonest, IsArrived, Decide, Produced;
    assert PolledInv(c, q.flow, s);
    var o := q.flow.Polled(s)[c.Raw(t, s)[i].id - 1];
    var u, j := SourceOfArrived(c, q.flow, q.core, s, o);
    OneRawHolder(c, s, t, i, u, j);
  }

  /**
   * In every reachable state, an order of a trader whose id has been committed is committed in the
   * place of its id, in the form that its hook and its price prescribe.
   */
  lemma {:induction false} CommittedAsHeld(c: Config, schedule: seq<Step>, t: int, s: int, i: nat)
    requires ValidConfig(c) && i < |c.Raw(t, s)|
    requires c.Raw(t, s)[i].id <= |CommittedOf(Run(c, schedule), s)|
    ensures 1 <= c.Raw(t, s)[i].id
    ensures
      var q, raw := Run(c, schedule), c.Raw(t, s)[i];
      var committed := CommittedOf(q, s)[raw.id - 1];
      var held := (s, raw.id) in c.hooks;
      var h := if held then c.hooks[(s, raw.id)] else Hook(0, 0, 0);
      var trades := q.core.EngineOf(h.stock).trades;
      var outside := raw.kind == 0 && (raw.price < c.low(t, s) || raw.price > c.high(t, s));
      && (held ==> 1 <= h.index <= |trades|)
      && (held && trades[h.index - 1].volume > h.arg ==> committed == raw.(kind := -1))
      && (!held || trades[h.index - 1].volume <= h.arg ==>
            committed == if outside then raw.(kind := -1) else raw)
  {
    hide Run, FlowInv, CoresInv, MailsInv, AllHonest;
    RunKeeps(c, schedule);
    var q := Run(c, schedule);
    PolledAsDecided(c, q, s, t, i);
  }

  /** Every trade that was made has a volume, so the mark for a volume that is not known is never a volume. */
  lemma {:induction false} TradesArePositive(c: Config, q: State, s: int)
    requires ValidConfig(c) && Inv(c, q)
    ensures forall i :: 0 <= i < |q.core.EngineOf(s).trades| ==> q.core.EngineOf(s).trades[i].volume > 0
  {
    hide FlowInv, CoresInv, MailsInv, AllHonest, CommitAll, ValidOrder, PolledOrders, InOrder;
    CoreAt(q.flow, q.core, s);
    PolledValid(c, q, s);
    PolledAreOrders(c, q.flow, s);
    PrefixInOrder(q.flow.Polled(s), |CommittedOf(q, s)|, s);
    var trades := q.core.EngineOf(s).trades;
    forall i | 0 <= i < |trades|
      ensures trades[i].volume > 0
    {
      MakerPricing(CommittedOf(q, s), trades[i]);
    }
  }
}
