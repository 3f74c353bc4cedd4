/**
 * What a trader learns: window starts and hooked volumes (src/trader/trader_controller.h), and the
 * numbered, batched log of trades (src/trader/trade_receiver.cpp).
 */
module TradeReceivers {
  import opened Types
  import opened System

  /** A table of hooked trades that is up to date with the trades received. */
  ghost predicate TableOf(table: map<int, int>, log: seq<Trade>) {
    forall k :: k in table ==> table[k] == HookedVolume(log, k)
  }

  /** One more trade fills at most one entry of the table, and that entry was still unknown. */
  lemma {:induction false} TableGrows(table: map<int, int>, log: seq<Trade>, t: Trade)
    requires TableOf(table, log)
    ensures |log| + 1 in table ==> table[|log| + 1] == -1
    ensures TableOf(if |log| + 1 in table then table[|log| + 1 := t.volume] else table, log + [t])
  {
    var next := if |log| + 1 in table then table[|log| + 1 := t.volume] else table;
    forall k | k in next
      ensures next[k] == HookedVolume(log + [t], k)
    {
    }
  }

  class SharedTradeInfo {
    var windowStart: seq<int>
    var hookedTrade: seq<map<int, int>>
    /** For each stock, the trades that have been reported, in order. */
    ghost var logs: seq<seq<Trade>>

    /** Every table of hooked trades is up to date with the trades reported. */
    ghost predicate Valid()
      reads this
    {
      && |windowStart| == |hookedTrade| == |logs|
      && forall i :: 0 <= i < |logs| ==> TableOf(hookedTrade[i], logs[i])
    }

    ghost predicate IsStock(s: int)
      reads this
    {
      1 <= s <= |hookedTrade|
    }

    constructor (hookedTrade: seq<map<int, int>>)
      requires forall i, k :: 0 <= i < |hookedTrade| && k in hookedTrade[i] ==> hookedTrade[i][k] == -1
      ensures Valid() && this.hookedTrade == hookedTrade
      ensures forall i :: 0 <= i < |windowStart| ==> windowStart[i] == 1 && logs[i] == []
    {
      this.hookedTrade := hookedTrade;
      windowStart := seq(|hookedTrade|, i => 1);
      logs := seq(|hookedTrade|, i => []);
    }

    /** Moves a window forward; a window never moves back. */
    method UpdateWindowStart(s: int, start: int)
      requires Valid() && IsStock(s) && start >= windowStart[s - 1]
      modifies this`windowStart
      ensures Valid() && windowStart == old(windowStart)[s - 1 := start]
    {
      windowStart := windowStart[s - 1 := start];
    }

    /**
     * Reports trade `t`, the next one of its stock. That its entry is written only once follows from
     * its number being the next one.
     */
    method UpdateIfHooked(s: int, index: int, volume: int, ghost t: Trade)
      requires Valid() && IsStock(s) && index == |logs[s - 1]| + 1 && volume == t.volume
      modifies this`hookedTrade, this`logs
      ensures Valid() && logs == old(logs)[s - 1 := old(logs[s - 1]) + [t]]
      ensures |hookedTrade| == old(|hookedTrade|)
      ensures forall i :: 0 <= i < |hookedTrade| ==> hookedTrade[i].Keys == old(hookedTrade[i]).Keys
    {
      hide TableOf;
      TableGrows(hookedTrade[s - 1], logs[s - 1], t);
      if index in hookedTrade[s - 1] {
        assert hookedTrade[s - 1][index] == -1;
        hookedTrade := hookedTrade[s - 1 := hookedTrade[s - 1][index := volume]];
      }
      logs := logs[s - 1 := logs[s - 1] + [t]];
    }

    /** The volume of a hooked trade once it has been reported, and -1 before. */
    method GetHookedVolume(s: int, index: int) returns (volume: int)
      requires Valid() && IsStock(s) && index in hookedTrade[s - 1]
      ensures volume == HookedVolume(logs[s - 1], index)
    {
      volume := hookedTrade[s - 1][index];
    }
  }

  const TRADE_BUF_THRESHOLD := 100

  /** The trades of one stock, in order. */
  function TradesOfStock(trades: seq<Trade>, s: int): seq<Trade> {
    if trades == [] then []
    else
      var before, last := TradesOfStock(trades[..|trades| - 1], s), trades[|trades| - 1];
      if last.stock == s then before + [last] else before
  }

  lemma {:induction false} OneMoreTrade(trades: seq<Trade>, t: Trade, s: int)
    ensures
      TradesOfStock(trades + [t], s) ==
      if t.stock == s then TradesOfStock(trades, s) + [t] else TradesOfStock(trades, s)
  {
    assert (trades + [t])[..|trades|] == trades;
  }

  /** Window starts after acknowledgements (stock, id), taken in turn. */
  function Opened(starts: seq<int>, acks: seq<(int, int)>): (r: seq<int>)
    ensures |r| == |starts|
  {
    if acks == [] then starts
    else
      var before, last := Opened(starts, acks[..|acks| - 1]), acks[|acks| - 1];
      if 1 <= last.0 <= |before| then before[last.0 - 1 := last.1 + 1] else before
  }

  /** No acknowledgement moves a window back. */
  predicate MayOpen(starts: seq<int>, acks: seq<(int, int)>) {
    acks == [] ||
    var before, last := acks[..|acks| - 1], acks[|acks| - 1];
    MayOpen(starts, before) && 1 <= last.0 <= |starts| && last.1 + 1 >= Opened(starts, before)[last.0 - 1]
  }

  lemma {:induction false} MayOpenPrefix(starts: seq<int>, acks: seq<(int, int)>, n: nat)
    requires MayOpen(starts, acks) && n <= |acks|
    ensures MayOpen(starts, acks[..n])
  {
    if n == |acks| {
      assert acks[..n] == acks;
    } else {
      MayOpenPrefix(starts, acks[..|acks| - 1], n);
      assert acks[..|acks| - 1][..n] == acks[..n];
    }
  }

  class TraderTradeReceiver {
    const info: SharedTradeInfo
    var files: seq<seq<Trade>>
    var buffers: seq<seq<Trade>>
    var indexes: seq<int>
    /** Everything received so far, in order. */
    ghost var received: seq<Trade>

    /** File and buffer hold the trades of stock `s`, the next trade has the next number, and all have been reported. */
    ghost predicate InStep(s: int)
      requires 1 <= s <= |files| == |buffers| == |indexes| == |info.logs|
      reads this, info
    {
      && files[s - 1] + buffers[s - 1] == TradesOfStock(received, s)
      && |buffers[s - 1]| < 100
      && indexes[s - 1] == |TradesOfStock(received, s)| + 1
      && info.logs[s - 1] == TradesOfStock(received, s)
    }

    ghost predicate Valid()
      reads this, info
    {
      && info.Valid() && |files| == |buffers| == |indexes| == |info.logs|
      && forall s :: 1 <= s <= |files| ==> InStep(s)
    }

    constructor (info: SharedTradeInfo)
      requires info.Valid()
      requires forall i :: 0 <= i < |info.logs| ==> info.logs[i] == []
      ensures Valid() && this.info == info && received == []
    {
      this.info := info;
      files := seq(|info.hookedTrade|, i => []);
      buffers := seq(|info.hookedTrade|, i => []);
      indexes := seq(|info.hookedTrade|, i => 1);
      received := [];
    }

    /** Numbers one trade, passes its volume on if it is hooked, and logs it. */
    method ProcessTrade(t: Trade)
      requires Valid() && info.IsStock(t.stock)
      modifies this, info`hookedTrade, info`logs
      ensures Valid() && received == old(received) + [t] && |files| == old(|files|)
      ensures forall i :: 0 <= i < |files| ==> info.hookedTrade[i].Keys == old(info.hookedTrade[i]).Keys
      ensures
        var file, buffer := old(files)[t.stock - 1], old(buffers)[t.stock - 1] + [t];
        && files == old(files)[t.stock - 1 := if |buffer| == 100 then file + buffer else file]
        && buffers == old(buffers)[t.stock - 1 := if |buffer| == 100 then [] else buffer]
    {
      var s := t.stock;
      ghost var log := TradesOfStock(received, s);
      hide TradesOfStock, HookedVolume, TableOf;
      assert InStep(s);
      info.UpdateIfHooked(s, indexes[s - 1], t.volume, t);
      indexes := indexes[s - 1 := indexes[s - 1] + 1];
      buffers := buffers[s - 1 := buffers[s - 1] + [t]];
      assert files[s - 1] + buffers[s - 1] == log + [t];
      if |buffers[s - 1]| >= TRADE_BUF_THRESHOLD {
        files := files[s - 1 := files[s - 1] + buffers[s - 1]];
        buffers := buffers[s - 1 := []];
      }
      received := received + [t];
      OneMoreTrade(old(received), t, s);
      assert files[s - 1] + buffers[s - 1] == log + [t];
      forall r | 1 <= r <= |files| && r != s
        ensures InStep(r)
      {
        assert old(InStep(r));
        OneMoreTrade(old(received), t, r);
      }
    }

    method ProcessTradeResult(trades: seq<Trade>)
      requires Valid() && forall i :: 0 <= i < |trades| ==> info.IsStock(trades[i].stock)
      modifies this, info`hookedTrade, info`logs
      ensures Valid() && received == old(received) + trades && |files| == old(|files|)
      ensures forall i :: 0 <= i < |files| ==> info.hookedTrade[i].Keys == old(info.hookedTrade[i]).Keys
    {
      for i := 0 to |trades|
        invariant Valid() && received == old(received) + trades[..i] && |files| == old(|files|)
        invariant forall k :: 0 <= k < |files| ==> info.hookedTrade[k].Keys == old(info.hookedTrade[k]).Keys
      {
        assert trades[..i + 1] == trades[..i] + [trades[i]];
        ProcessTrade(trades[i]);
        assert received == old(received) + trades[..i + 1];
      }
      assert trades[..|trades|] == trades;
    }

    /** Each acknowledgement, in turn, opens the window behind the acknowledged order. */
    method ProcessOrderAck(acks: seq<(int, int)>)
      requires Valid() && MayOpen(info.windowStart, acks)
      modifies info`windowStart
      ensures Valid() && info.windowStart == Opened(old(info.windowStart), acks)
    {
      for n := 0 to |acks|
        invariant Valid() && info.windowStart == Opened(old(info.windowStart), acks[..n])
      {
        assert acks[..n + 1][..n] == acks[..n];
        MayOpenPrefix(old(info.windowStart), acks, n + 1);
        label before:
        info.UpdateWindowStart(acks[n].0, acks[n].1 + 1);
        forall s | 1 <= s <= |files|
          ensures InStep(s)
        {
          assert old@before(InStep(s));
        }
      }
      assert acks[..|acks|] == acks;
    }

    /** Writes out what is buffered, so that every file holds exactly the trades received for its stock. */
    method Flush()
      requires Valid()
      modifies this
      ensures Valid() && received == old(received) && |files| == old(|files|)
      ensures forall s :: 1 <= s <= |files| ==> buffers[s - 1] == [] && files[s - 1] == TradesOfStock(received, s)
    {
      for i := 0 to |files|
        invariant Valid() && received == old(received) && |files| == old(|files|)
        invariant forall k :: 0 <= k < i ==> buffers[k] == []
      {
        label before:
        files := files[i := files[i] + buffers[i]];
        buffers := buffers[i := []];
        forall s | 1 <= s <= |files|
          ensures InStep(s)
        {
          assert old@before(InStep(s));
          assert files[i] + [] == files[i];
        }
      }
      forall s | 1 <= s <= |files|
        ensures files[s - 1] == TradesOfStock(received, s)
      {
        assert InStep(s);
        assert files[s - 1] + [] == files[s - 1];
      }
    }
  }
}
