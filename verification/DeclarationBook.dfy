/** The declaration book of one stock: two vectors kept as heaps (src/exchange/stock_decl_book.hpp). */
module DeclarationBooks {
  import opened Types
  import opened BinaryHeap
  import opened Matching

  lemma {:induction false} WrapAdds(a: int, b: int)
    ensures Wrap32(Wrap32(a) + b) == Wrap32(a + b)
  {
  }

  /** The order of the records in the vector does not matter to their total. */
  lemma {:induction false} TotalVolumeOfPermutation(v: seq<Record>, s: seq<Record>)
    requires multiset(v) == multiset(s)
    ensures TotalVolume(v) == TotalVolume(s)
  {
    SizeOf(v, s);
    if v != [] {
      var j := InMultiset(v, s, 0);
      var others := s[..j] + s[j + 1..];
      assert s == s[..j] + ([s[j]] + s[j + 1..]);
      assert multiset(s) == multiset(others) + multiset{s[j]};
      TailMultiset(v);
      TotalVolumeOfPermutation(v[1..], others);
      TotalVolumeConcat(s[..j], [s[j]] + s[j + 1..]);
      TotalVolumeConcat(s[..j], s[j + 1..]);
      assert ([s[j]] + s[j + 1..])[1..] == s[j + 1..];
    }
  }

  /** The 32-bit sum of the volumes of a vector of records. */
  method SumVolumes(v: seq<Record>, ghost s: seq<Record>) returns (sum: int)
    requires multiset(v) == multiset(s)
    ensures sum == Wrap32(TotalVolume(s))
  {
    sum := 0;
    for i := 0 to |v|
      invariant sum == Wrap32(TotalVolume(v[..i]))
    {
      assert v[..i + 1] == v[..i] + [v[i]];
      TotalVolumeConcat(v[..i], [v[i]]);
      WrapAdds(TotalVolume(v[..i]), v[i].volume);
      sum := Wrap32(sum + v[i].volume);
    }
    assert v[..|v|] == v;
    TotalVolumeOfPermutation(v, s);
  }

  /** Volume plays no part in the priority of a record. */
  lemma {:induction false} VolumeIsUnranked(side: Side, r: Record, volume: int)
    ensures forall y :: Less(side)(y, r.(volume := volume)) <==> Less(side)(y, r)
    ensures forall y :: Less(side)(r.(volume := volume), y) <==> Less(side)(r, y)
  {
  }

  /** Changing the top bid's volume keeps a heap and every place in the list. */
  lemma {:induction false} TopBidChanges(v: seq<Record>, s: seq<Record>, volume: int)
    requires Represents(v, s, BuyLess) && v != []
    ensures
      && |s| == |v| && s[0] == v[0]
      && Represents(v[0 := v[0].(volume := volume)], s[0 := s[0].(volume := volume)], BuyLess)
  {
    LessIsOrder(Buy);
    TopIsFirst(v, s, BuyLess);
    VolumeIsUnranked(Buy, v[0], volume);
    ReplaceTopRefines(v, s, v[0].(volume := volume), BuyLess);
  }

  /** Changing the top ask's volume keeps a heap and every place in the list. */
  lemma {:induction false} TopAskChanges(v: seq<Record>, s: seq<Record>, volume: int)
    requires Represents(v, s, SellLess) && v != []
    ensures
      && |s| == |v| && s[0] == v[0]
      && Represents(v[0 := v[0].(volume := volume)], s[0 := s[0].(volume := volume)], SellLess)
  {
    LessIsOrder(Sell);
    TopIsFirst(v, s, SellLess);
    VolumeIsUnranked(Sell, v[0], volume);
    ReplaceTopRefines(v, s, v[0].(volume := volume), SellLess);
  }

  class DeclarationBook {
    var buyDecls: seq<Record>
    var sellDecls: seq<Record>
    ghost var bids: seq<Record>
    ghost var asks: seq<Record>

    /** Each vector is a heap that stands for the price-time list of its side. */
    ghost predicate Valid()
      reads this
    {
      Represents(buyDecls, bids, BuyLess) && Represents(sellDecls, asks, SellLess)
    }

    ghost function Model(): Book
      reads this
    {
      Book(bids, asks)
    }

    constructor ()
      ensures Valid() && Model() == EMPTY_BOOK
    {
      buyDecls, sellDecls := [], [];
      bids, asks := [], [];
    }

    method InsertBuy(br: Record)
      requires Valid() && br.volume != 0
      requires forall i :: 0 <= i < |bids| ==> bids[i].id != br.id
      modifies this
      ensures Valid() && bids == Insert(old(bids), br, BuyLess) && asks == old(asks)
    {
      LessIsOrder(Buy);
      var v := PushHeap(buyDecls + [br], BuyLess);
      PushRefines(buyDecls, bids, br, v, BuyLess);
      buyDecls, bids := v, Insert(bids, br, BuyLess);
    }

    method InsertSell(sr: Record)
      requires Valid() && sr.volume != 0
      requires forall i :: 0 <= i < |asks| ==> asks[i].id != sr.id
      modifies this
      ensures Valid() && asks == Insert(old(asks), sr, SellLess) && bids == old(bids)
    {
      LessIsOrder(Sell);
      var v := PushHeap(sellDecls + [sr], SellLess);
      PushRefines(sellDecls, asks, sr, v, SellLess);
      sellDecls, asks := v, Insert(asks, sr, SellLess);
    }

    method QueryBuyFirst() returns (r: Option<Record>)
      requires Valid()
      ensures r == if bids == [] then None else Some(bids[0])
    {
      LessIsOrder(Buy);
      TopIsFirst(buyDecls, bids, BuyLess);
      if |buyDecls| == 0 {
        return None;
      }
      return Some(buyDecls[0]);
    }

    method QuerySellFirst() returns (r: Option<Record>)
      requires Valid()
      ensures r == if asks == [] then None else Some(asks[0])
    {
      LessIsOrder(Sell);
      TopIsFirst(sellDecls, asks, SellLess);
      if |sellDecls| == 0 {
        return None;
      }
      return Some(sellDecls[0]);
    }

    method RemoveBuyFirst()
      requires Valid() && bids != []
      modifies this
      ensures Valid() && bids == old(bids)[1..] && asks == old(asks)
    {
      LessIsOrder(Buy);
      SizeOf(buyDecls, bids);
      var v := PopHeap(buyDecls, BuyLess);
      PopRefines(buyDecls, bids, v, BuyLess);
      buyDecls, bids := v[..|v| - 1], bids[1..];
    }

    method RemoveSellFirst()
      requires Valid() && asks != []
      modifies this
      ensures Valid() && asks == old(asks)[1..] && bids == old(bids)
    {
      LessIsOrder(Sell);
      SizeOf(sellDecls, asks);
      var v := PopHeap(sellDecls, SellLess);
      PopRefines(sellDecls, asks, v, SellLess);
      sellDecls, asks := v[..|v| - 1], asks[1..];
    }

    /** The write through the pointer that `queryBuyFirst` returned: the best bid loses volume in place. */
    method ReduceBuyFirst(volume: int)
      requires Valid() && bids != []
      modifies this
      ensures Valid() && asks == old(asks)
      ensures bids == old(bids)[0 := old(bids)[0].(volume := old(bids)[0].volume - volume)]
    {
      SizeOf(buyDecls, bids);
      var top := buyDecls[0].(volume := buyDecls[0].volume - volume);
      TopBidChanges(buyDecls, bids, top.volume);
      buyDecls, bids := buyDecls[0 := top], bids[0 := top];
    }

    method ReduceSellFirst(volume: int)
      requires Valid() && asks != []
      modifies this
      ensures Valid() && bids == old(bids)
      ensures asks == old(asks)[0 := old(asks)[0].(volume := old(asks)[0].volume - volume)]
    {
      SizeOf(sellDecls, asks);
      var top := sellDecls[0].(volume := sellDecls[0].volume - volume);
      TopAskChanges(sellDecls, asks, top.volume);
      sellDecls, asks := sellDecls[0 := top], asks[0 := top];
    }

    method TotalBuyVolume() returns (total: int)
      requires Valid()
      ensures total == Wrap32(TotalVolume(bids))
    {
      total := SumVolumes(buyDecls, bids);
    }

    method TotalSellVolume() returns (total: int)
      requires Valid()
      ensures total == Wrap32(TotalVolume(asks))
    {
      total := SumVolumes(sellDecls, asks);
    }
  }
}
