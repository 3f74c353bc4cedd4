/**
 * Replaying a stock's orders from the cache files in ten chunks (src/common/loader.hpp), against
 * walking the sorted list in memory (src/trader/trader_controller.cpp).
 */
module OrderGenerators {
  import opened Types
  import opened Loader

  datatype Matrices = Matrices(direction: seq<int>, kind: seq<int>, price: seq<real>, volume: seq<int>)
  {
    predicate Sized(n: int) {
      |direction| == |kind| == |price| == |volume| == n
    }
  }

  /** The order of a list entry, read from the matrices at its coordinates. */
  function OrderOf(d: Dims, m: Matrices, t: int, e: SortStruct): Order
    requires
      var x, y, z := GetX(e.coor), GetY(e.coor), GetZ(e.coor);
      d.Cell(x, y, z) && m.Sized(d.nx * d.Plane())
  {
    var x, y, z := GetX(e.coor), GetY(e.coor), GetZ(e.coor);
    LinearBound(d, x, y, z);
    var i := d.Linear(x, y, z);
    Order(t + 1, e.id, m.direction[i], m.kind[i], m.price[i], m.volume[i])
  }

  /** The cache of one stock: five columns. */
  datatype Cache = Cache(ids: seq<int>, m: Matrices)
  {
    predicate Valid() {
      m.Sized(|ids|)
    }

    function At(stock: int, i: nat): Order
      requires Valid() && i < |ids|
    {
      Order(stock, ids[i], m.direction[i], m.kind[i], m.price[i], m.volume[i])
    }

    function Slice(lo: nat, hi: nat): (r: Cache)
      requires Valid() && lo <= hi <= |ids|
      ensures r.Valid() && |r.ids| == hi - lo
      ensures forall s, i :: 0 <= i < hi - lo ==> r.At(s, i) == At(s, lo + i)
    {
      Cache(ids[lo..hi], Matrices(m.direction[lo..hi], m.kind[lo..hi], m.price[lo..hi], m.volume[lo..hi]))
    }
  }

  /** Writes the cache of stock list `t`: the orders of the sorted list, in order. */
  method Dump(d: Dims, m: Matrices, ids: seq<int>, t: int, list: seq<SortStruct>) returns (cache: Cache)
    requires d.Even() && d.Packs() && 0 <= t < d.stocks
    requires |ids| == d.nx * d.Plane() && m.Sized(|ids|) && IsSortedList(d, ids, t, list) && |list| == d.Size()
    ensures cache.Valid() && |cache.ids| == |list|
    ensures
      forall i :: 0 <= i < |list| ==>
        && d.Cell(GetX(list[i].coor), GetY(list[i].coor), GetZ(list[i].coor))
        && cache.At(t + 1, i) == OrderOf(d, m, t, list[i])
  {
    cache := Cache([], Matrices([], [], [], []));
    for i := 0 to d.Size()
      invariant cache.Valid() && |cache.ids| == i
      invariant
        forall k :: 0 <= k < i ==>
          && d.Cell(GetX(list[k].coor), GetY(list[k].coor), GetZ(list[k].coor))
          && cache.At(t + 1, k) == OrderOf(d, m, t, list[k])
    {
      EntriesLeadBack(d, ids, t, list, i);
      var o := OrderOf(d, m, t, list[i]);
      var c := cache.m;
      cache := Cache(cache.ids + [list[i].id],
                     Matrices(c.direction + [o.direction], c.kind + [o.kind],
                              c.price + [o.price], c.volume + [o.volume]));
    }
  }

  const NUM_PARTITION := 10

  /** What is returned when a stock has no more orders. */
  const NO_ORDER := Order(0, 0, 0, -1, 0.0, 0)

  lemma {:induction false} ChunkBound(partition: int, length: nat, total: nat)
    requires 0 <= partition <= NUM_PARTITION && length == total / NUM_PARTITION
    ensures 0 <= partition * length <= NUM_PARTITION * length <= total
  {
    assert (NUM_PARTITION - partition) * length >= 0;
  }

  class OrderGenerator {
    const stock: int
    const cache: Cache
    const length: nat
    var chunk: Cache
    var readPos: nat
    var startIdx: nat
    var curPartition: nat

    /** The chunk read last is in memory, and no more than the whole of it has been used. */
    ghost predicate Valid()
      reads this
    {
      && cache.Valid() && length == |cache.ids| / NUM_PARTITION
      && 1 <= curPartition <= NUM_PARTITION && readPos == curPartition * length <= |cache.ids| && startIdx <= length
      && 0 <= (curPartition - 1) * length == readPos - length
      && chunk == cache.Slice(readPos - length, readPos)
    }

    /** How many orders have been used. */
    ghost function Used(): int
      reads this
    {
      (curPartition - 1) * length + startIdx
    }

    constructor (stock: int, cache: Cache)
      requires cache.Valid()
      ensures Valid() && Used() == 0 && this.stock == stock && this.cache == cache
    {
      this.stock, this.cache := stock, cache;
      length := |cache.ids| / NUM_PARTITION;
      chunk := cache.Slice(0, |cache.ids| / NUM_PARTITION);
      readPos, startIdx, curPartition := |cache.ids| / NUM_PARTITION, 0, 1;
    }

    /** Reads the next chunk, unless all have been read. */
    method LoadData() returns (ok: bool)
      requires Valid() && startIdx == length
      modifies this
      ensures Valid() && Used() == old(Used())
      ensures ok <==> old(curPartition) < NUM_PARTITION
      ensures ok ==> startIdx == 0
      ensures !ok ==> startIdx == length && curPartition == NUM_PARTITION
    {
      if curPartition >= NUM_PARTITION {
        return false;
      }
      ChunkBound(curPartition + 1, length, |cache.ids|);
      assert (curPartition + 1) * length == curPartition * length + length;
      assert (curPartition + 1 - 1) * length == curPartition * length;
      curPartition := curPartition + 1;
      chunk := cache.Slice(readPos, readPos + length);
      readPos := readPos + length;
      startIdx := 0;
      return true;
    }

    lemma {:induction false} UsedBound()
      requires Valid()
      ensures 0 <= Used() <= NUM_PARTITION * length <= |cache.ids|
      ensures startIdx < length ==> Used() < NUM_PARTITION * length
      ensures startIdx == length && curPartition == NUM_PARTITION ==> Used() == NUM_PARTITION * length
    {
      ChunkBound(curPartition, length, |cache.ids|);
      ChunkBound(NUM_PARTITION, length, |cache.ids|);
    }

    /** The chunk in memory is as long as all chunks, and holds the order to be used next. */
    lemma {:induction false} InChunk()
      requires Valid()
      ensures |chunk.ids| == length && chunk.Valid() && cache.Valid() && 0 <= Used()
      ensures startIdx < length ==> Used() < |cache.ids| && chunk.At(stock, startIdx) == cache.At(stock, Used())
    {
      UsedBound();
      if startIdx < length {
        assert chunk.At(stock, startIdx) == cache.At(stock, readPos - length + startIdx);
      }
    }

    /**
     * The order to be used next; without a commit, the same order every time. With empty chunks there
     * is nothing to read behind a successful load: `None` stands for that read beyond the buffer.
     */
    method GenerateOrder() returns (o: Option<Order>)
      requires Valid()
      modifies this
      ensures Valid() && Used() == old(Used())
      ensures 0 <= Used() <= NUM_PARTITION * length <= |cache.ids|
      ensures
        length > 0 ==>
          && o == Some(if Used() < NUM_PARTITION * length then cache.At(stock, Used()) else NO_ORDER)
          && (Used() < NUM_PARTITION * length ==> startIdx < length)
      ensures
        0 < length && Used() < 10 * length ==>
          && o.Some? && o.value.stock == stock && o.value.id == cache.ids[Used()]
          && o.value.direction == cache.m.direction[Used()] && o.value.kind == cache.m.kind[Used()]
          && o.value.price == cache.m.price[Used()] && o.value.volume == cache.m.volume[Used()]
      ensures 0 < length && Used() == 10 * length ==> o.Some? && o.value.kind == -1
      ensures length == 0 ==> o == if old(curPartition) < NUM_PARTITION then None else Some(NO_ORDER)
    {
      UsedBound();
      if startIdx >= length {
        var ok := LoadData();
        if !ok {
          return Some(NO_ORDER);
        }
        UsedBound();
      }
      InChunk();
      hide OrderGenerator.Valid, OrderGenerator.Used;
      if startIdx >= |chunk.ids| {
        return None;
      }
      var i := startIdx;
      o := Some(Order(stock, chunk.ids[i], chunk.m.direction[i], chunk.m.kind[i], chunk.m.price[i], chunk.m.volume[i]));
    }

    method Commit()
      requires Valid() && startIdx < length
      modifies this`startIdx
      ensures Valid() && Used() == old(Used()) + 1
    {
      startIdx := startIdx + 1;
    }
  }

  /** The orders up to the first that is marked cancelled. */
  function UpToCancelled(orders: seq<Order>): (r: seq<Order>)
    ensures r <= orders
  {
    if orders == [] || orders[0].kind == -1 then [] else [orders[0]] + UpToCancelled(orders[1..])
  }

  /** All orders of a cache. */
  function OrdersOf(cache: Cache, stock: int, lo: nat, hi: nat): (r: seq<Order>)
    requires cache.Valid() && lo <= hi <= |cache.ids|
    ensures |r| == hi - lo && forall i :: 0 <= i < hi - lo ==> r[i] == cache.At(stock, lo + i)
    decreases hi - lo
  {
    if lo == hi then [] else [cache.At(stock, lo)] + OrdersOf(cache, stock, lo + 1, hi)
  }

  /** What the chunks let a trader read of a stock: whole chunks only, up to the first order marked cancelled. */
  function Readable(cache: Cache, stock: int): seq<Order>
    requires cache.Valid()
  {
    UpToCancelled(OrdersOf(cache, stock, 0, |cache.ids| / NUM_PARTITION * NUM_PARTITION))
  }

  lemma {:induction false} CancelledNext(orders: seq<Order>)
    ensures
      var r := UpToCancelled(orders);
      && (forall i :: 0 <= i < |r| ==> r[i].kind != -1)
      && (|r| < |orders| ==> orders[|r|].kind == -1)
  {
    if orders != [] && orders[0].kind != -1 {
      CancelledNext(orders[1..]);
    }
  }

  lemma {:induction false} NothingCancelled(orders: seq<Order>)
    ensures UpToCancelled(orders) == orders <==> forall i :: 0 <= i < |orders| ==> orders[i].kind != -1
  {
    CancelledNext(orders);
  }

  // ---------- against the walk in memory ----------

  /** The coordinates of every entry are those of a cell. */
  ghost predicate InRange(d: Dims, list: seq<SortStruct>) {
    forall i :: 0 <= i < |list| ==> d.Cell(GetX(list[i].coor), GetY(list[i].coor), GetZ(list[i].coor))
  }

  lemma {:induction false} ListInRange(d: Dims, ids: seq<int>, t: int, list: seq<SortStruct>)
    requires d.Even() && d.Packs() && 0 <= t < d.stocks && |ids| == d.nx * d.Plane() && IsSortedList(d, ids, t, list)
    ensures InRange(d, list) && |list| == d.Size()
  {
    ListSize(d, ids, t, list);
    forall i | 0 <= i < |list|
      ensures d.Cell(GetX(list[i].coor), GetY(list[i].coor), GetZ(list[i].coor))
    {
      EntriesLeadBack(d, ids, t, list, i);
    }
  }

  /** The orders that the walk in memory generates from the sorted list of a stock, in order. */
  ghost function Walk(d: Dims, m: Matrices, t: int, list: seq<SortStruct>): (orders: seq<Order>)
    requires m.Sized(d.nx * d.Plane()) && InRange(d, list)
    ensures |orders| == |list| && forall i :: 0 <= i < |list| ==> orders[i] == OrderOf(d, m, t, list[i])
  {
    if list == [] then [] else [OrderOf(d, m, t, list[0])] + Walk(d, m, t, list[1..])
  }

  /** A cache that `Dump` wrote holds the walk. */
  lemma {:induction false} DumpIsWalk(d: Dims, m: Matrices, t: int, list: seq<SortStruct>, cache: Cache)
    requires m.Sized(d.nx * d.Plane()) && InRange(d, list) && cache.Valid() && |cache.ids| == |list|
    requires forall i :: 0 <= i < |list| ==> cache.At(t + 1, i) == OrderOf(d, m, t, list[i])
    ensures OrdersOf(cache, t + 1, 0, |list|) == Walk(d, m, t, list)
  {
    hide OrderOf;
    var orders, walk := OrdersOf(cache, t + 1, 0, |list|), Walk(d, m, t, list);
    assert forall i :: 0 <= i < |list| ==> orders[i] == walk[i];
  }

  /**
   * The chunks hold something, and what can be replayed from them is the whole walk, if and only if the
   * number of orders is a positive multiple of ten and none of them is marked cancelled.
   */
  lemma {:induction false} ReplayIsWalk(walk: seq<Order>, cache: Cache, stock: int)
    requires cache.Valid() && |cache.ids| == |walk| && OrdersOf(cache, stock, 0, |walk|) == walk
    ensures Readable(cache, stock) == UpToCancelled(walk[..|walk| / 10 * 10])
    ensures
      |walk| / 10 > 0 && Readable(cache, stock) == walk <==>
      |walk| > 0 && |walk| % 10 == 0 && forall i :: 0 <= i < |walk| ==> walk[i].kind != -1
  {
    hide OrdersOf, UpToCancelled;
    var n := |walk| / NUM_PARTITION * NUM_PARTITION;
    assert OrdersOf(cache, stock, 0, n) == walk[..n];
    NothingCancelled(walk[..n]);
    assert |walk| % NUM_PARTITION == 0 ==> walk[..n] == walk;
  }

  /** From the matrices to a generator: load and sort the ids, write the cache, open it. */
  method LoadGenerator(d: Dims, m: Matrices, ids: seq<int>, t: int) returns (list: seq<SortStruct>, gen: OrderGenerator)
    requires d.Even() && d.Packs() && 0 <= t < d.stocks && |ids| == d.nx * d.Plane() && m.Sized(|ids|)
    ensures IsSortedList(d, ids, t, list) && InRange(d, list)
    ensures fresh(gen) && gen.Valid() && gen.Used() == 0 && gen.stock == t + 1 && |gen.cache.ids| == |list|
    ensures
      var walk := Walk(d, m, t, list);
      && OrdersOf(gen.cache, t + 1, 0, |list|) == walk
      && (gen.length > 0 && Readable(gen.cache, t + 1) == walk <==>
          |walk| > 0 && |walk| % 10 == 0 && forall i :: 0 <= i < |walk| ==> walk[i].kind != -1)
  {
    hide IsSortedList, InRange, OrderOf, OrdersOf, Walk, Readable;
    var rows := LoadOrderIds(d, ids);
    list := rows[t];
    ListInRange(d, ids, t, list);
    var cache := Dump(d, m, ids, t, list);
    gen := new OrderGenerator(t + 1, cache);
    DumpIsWalk(d, m, t, list, cache);
    ReplayIsWalk(Walk(d, m, t, list), cache, t + 1);
  }
}
