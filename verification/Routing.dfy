/** Every order and every message travels only to and from the one exchange that serves its stock. */
module Routing {
  import opened Types
  import opened System
  import opened FlowControl
  import opened Protocol
  import opened Exchanges
  import Schedule

  /** The stocks of all exchanges, as each of them works them out. */
  method AllStocks(stocks: nat, exchanges: nat) returns (codes: seq<seq<int>>)
    requires exchanges > 0
    ensures |codes| == exchanges
    ensures forall e, s :: 0 <= e < exchanges ==> (s in codes[e] <==> 1 <= s <= stocks && s % exchanges == e)
  {
    codes := [];
    for e := 0 to exchanges
      invariant |codes| == e
      invariant forall d, s :: 0 <= d < e ==> (s in codes[d] <==> 1 <= s <= stocks && s % exchanges == d)
    {
      var served := StocksOf(stocks, exchanges, e);
      codes := codes + [served];
    }
  }

  /** Every stock is served by exactly one exchange. */
  lemma {:induction false} OneExchange(stocks: nat, exchanges: nat, codes: seq<seq<int>>, s: int)
    requires 1 <= s <= stocks && |codes| == exchanges > 0
    requires forall e, r :: 0 <= e < exchanges ==> (r in codes[e] <==> 1 <= r <= stocks && r % exchanges == e)
    ensures exists e :: 0 <= e < exchanges && s in codes[e]
    ensures forall d, e :: 0 <= d < exchanges && 0 <= e < exchanges && s in codes[d] && s in codes[e] ==> d == e
  {
    assert 0 <= s % exchanges < exchanges && s in codes[s % exchanges];
  }

  /** In every reachable state, an order on a wire to an exchange is for a stock that this exchange serves. */
  lemma {:induction false} OrdersAreRouted(c: Config, schedule: seq<Step>, t: int, e: int, i: nat)
    requires ValidConfig(c) && i < |Run(c, schedule).flow.Wire(t, e)|
    ensures
      var s := Run(c, schedule).flow.Wire(t, e)[i].stock;
      1 <= s <= c.stocks && s % c.exchanges == e
  {
    hide Run, CoresInv, MailsInv, AllHonest;
    RunKeeps(c, schedule);
    assert WireHome(c, Run(c, schedule).flow, t, e);
  }

  /** In every reachable state, what is on a wire to an exchange is for a stock in the list of that exchange. */
  lemma {:induction false} RoutedToServer(c: Config, schedule: seq<Step>, codes: seq<seq<int>>, t: int, e: int, i: nat)
    requires ValidConfig(c) && |codes| == c.exchanges && i < |Run(c, schedule).flow.Wire(t, e)|
    requires forall d, s :: 0 <= d < c.exchanges ==> (s in codes[d] <==> 1 <= s <= c.stocks && s % c.exchanges == d)
    ensures 0 <= e < c.exchanges && Run(c, schedule).flow.Wire(t, e)[i].stock in codes[e]
  {
    hide Run;
    OrdersAreRouted(c, schedule, t, e, i);
  }

  /** In every reachable state, a message that an exchange has queued or sent is for a stock that it serves. */
  lemma {:induction false} MessagesAreRouted(c: Config, schedule: seq<Step>, e: int, t: int, m: Message)
    requires ValidConfig(c)
    requires m in Run(c, schedule).mail.Queue(e) || m in Run(c, schedule).mail.Net(e, t)
    ensures
      var s := if m.Ack? then m.of else m.trade.stock;
      1 <= s <= c.stocks && s % c.exchanges == e
  {
    hide Run, FlowInv, CoresInv, AllHonest;
    RunKeeps(c, schedule);
    assert PostHome(c, Run(c, schedule).mail, e);
  }

  /** An order that was sent and has not arrived is on the wire to the exchange of its stock. */
  lemma {:induction false} SentOnItsWire(c: Config, schedule: seq<Step>, t: int, s: int, i: nat)
    requires ValidConfig(c) && i < |Run(c, schedule).flow.Sent(t, s)|
    ensures
      var f := Run(c, schedule).flow;
      i >= Arrived(c, f, t, s) ==> f.Sent(t, s)[i] in f.Wire(t, s % c.exchanges)
  {
    hide Run, CoresInv, MailsInv, AllHonest;
    RunKeeps(c, schedule);
    var f := Run(c, schedule).flow;
    assert SentInv(c, f, t, s);
    if i >= Arrived(c, f, t, s) {
      assert OnWire(c, f, t, s)[i - Arrived(c, f, t, s)] == f.Sent(t, s)[i];
      Schedule.OnWireMember(f.Wire(t, c.Home(s)), s, f.Sent(t, s)[i]);
    }
  }
}
