/**
 * Which cell of the matrices every order comes from, with all positions written out: stock
 * `x % stocks + 1` holds exactly one order for each of its cells (x, y, z), with the values at
 * `x * (ny * nz) + y * nz + z` of the five matrices.
 */
module Cells {
  import opened Types
  import opened BinaryHeap
  import opened Loader
  import opened OrderGenerators
  import opened System
  import opened LoadedConfigs

  /** Where the loader puts a cell: the list of its stock, and the position in it. */
  lemma {:induction false} CellIsFilled(d: Dims, data: seq<int>, rows: seq<seq<SortStruct>>, x: int, y: int, z: int)
    requires d.Even() && |data| == d.nx * d.Plane() && |rows| == d.stocks
    requires forall t :: 0 <= t < d.stocks ==> IsList(d, data, t, rows[t])
    requires 0 <= x < d.nx && 0 <= y < d.ny && 0 <= z < d.nz
    ensures
      var list := rows[x % d.stocks];
      var k, p := x / d.stocks * (d.ny * d.nz) + y * d.nz + z, x * (d.ny * d.nz) + y * d.nz + z;
      && |list| == d.nx * (d.ny * d.nz) / d.stocks && 0 <= k < |list| && 0 <= p < |data|
      && list[k].id == data[p]
      && (x < 1024 && y < 1024 && z < 1024 ==>
            (GetX(list[k].coor), GetY(list[k].coor), GetZ(list[k].coor)) == (x, y, z))
  {
    assert d.Cell(x, y, z) && d.Row(x) == x % d.stocks;
    LinearBound(d, x, y, z);
    PackRoundTrip(x, y, z);
  }

  /** The order of an entry, with the position of its cell written out. */
  lemma {:induction false} OrderOfCell(d: Dims, m: Matrices, t: int, e: SortStruct)
    requires d.Cell(GetX(e.coor), GetY(e.coor), GetZ(e.coor)) && m.Sized(d.nx * d.Plane())
    ensures
      var x, y, z := GetX(e.coor), GetY(e.coor), GetZ(e.coor);
      var p := x * (d.ny * d.nz) + y * d.nz + z;
      && 0 <= p < d.nx * d.Plane() && d.Linear(x, y, z) == p
      && OrderOf(d, m, t, e) == Order(t + 1, e.id, m.direction[p], m.kind[p], m.price[p], m.volume[p])
  {
    hide GetX, GetY, GetZ;
    LinearBound(d, GetX(e.coor), GetY(e.coor), GetZ(e.coor));
  }

  /** What an entry of a stock's sorted list stands for: a cell of the stock, and the order with its values. */
  lemma {:induction false} EntryIsCell(d: Dims, m: Matrices, ids: seq<int>, t: int, list: seq<SortStruct>, k: nat)
    requires d.Even() && d.Packs() && 0 <= t < d.stocks && |ids| == d.nx * d.Plane() && m.Sized(|ids|)
    requires IsSortedList(d, ids, t, list) && InRange(d, list) && k < |list|
    ensures
      var x, y, z := GetX(list[k].coor), GetY(list[k].coor), GetZ(list[k].coor);
      var p := x * (d.ny * d.nz) + y * d.nz + z;
      && 0 <= x < d.nx && 0 <= y < d.ny && 0 <= z < d.nz && x % d.stocks == t && 0 <= p < |ids|
      && Walk(d, m, t, list)[k] ==
         Order(x % d.stocks + 1, ids[p], m.direction[p], m.kind[p], m.price[p], m.volume[p])
  {
    hide IsSortedList, Walk, OrderOf, GetX, GetY, GetZ, Dims.Linear, Dims.Plane;
    EntriesLeadBack(d, ids, t, list, k);
    OrderOfCell(d, m, t, list[k]);
  }

  /** A cell is in the list of its stock once, and only once. */
  lemma {:induction false} CellIsListed(d: Dims, ids: seq<int>, x: int, y: int, z: int, list: seq<SortStruct>)
    returns (k: nat)
    requires d.Even() && d.Packs() && |ids| == d.nx * d.Plane()
    requires 0 <= x < d.nx && 0 <= y < d.ny && 0 <= z < d.nz && IsSortedList(d, ids, x % d.stocks, list)
    ensures k < |list| && (GetX(list[k].coor), GetY(list[k].coor), GetZ(list[k].coor)) == (x, y, z)
    ensures
      forall j :: 0 <= j < |list| && (GetX(list[j].coor), GetY(list[j].coor), GetZ(list[j].coor)) == (x, y, z) ==>
        j == k
  {
    hide IsSortedList;
    EveryCellListed(d, ids, x, y, z, list);
    var e := Entry(d, ids, x, y, z);
    k :| 0 <= k < |list| && list[k] == e;
    PackRoundTrip(x, y, z);
    NoRepeatsInList(d, ids, x % d.stocks, list);
    forall j | 0 <= j < |list| && (GetX(list[j].coor), GetY(list[j].coor), GetZ(list[j].coor)) == (x, y, z)
      ensures j == k
    {
      EntriesLeadBack(d, ids, x % d.stocks, list, j);
      assert list[j] == list[k];
    }
  }

  /** The lists are in ascending order of ids, and of coordinates where ids are equal. */
  lemma {:induction false} WalkAscends(d: Dims, m: Matrices, ids: seq<int>, t: int, list: seq<SortStruct>,
                                       i: nat, j: nat)
    requires d.Even() && d.Packs() && 0 <= t < d.stocks && |ids| == d.nx * d.Plane() && m.Sized(|ids|)
    requires IsSortedList(d, ids, t, list) && InRange(d, list) && i < j < |list|
    ensures Walk(d, m, t, list)[i].id <= Walk(d, m, t, list)[j].id
    ensures list[i].id == list[j].id ==> list[i].coor <= list[j].coor
  {
    assert !Before(list[j], list[i]);
  }

  /** For every cell, a generator over the cache gives exactly one order, with the values of the cell. */
  lemma {:induction false} CellIsGenerated(d: Dims, m: Matrices, ids: seq<int>, x: int, y: int, z: int,
                                           list: seq<SortStruct>, cache: Cache) returns (k: nat)
    requires d.Even() && d.Packs() && |ids| == d.nx * d.Plane() && m.Sized(|ids|)
    requires 0 <= x < d.nx && 0 <= y < d.ny && 0 <= z < d.nz && IsSortedList(d, ids, x % d.stocks, list)
    requires InRange(d, list) && cache.Valid() && |cache.ids| == |list|
    requires OrdersOf(cache, x % d.stocks + 1, 0, |list|) == Walk(d, m, x % d.stocks, list)
    ensures k < |list|
    ensures
      var p := x * (d.ny * d.nz) + y * d.nz + z;
      && 0 <= p < |ids|
      && (cache.ids[k], cache.m.direction[k], cache.m.kind[k], cache.m.price[k], cache.m.volume[k]) ==
         (ids[p], m.direction[p], m.kind[p], m.price[p], m.volume[p])
    ensures
      forall j :: 0 <= j < |list| && (GetX(list[j].coor), GetY(list[j].coor), GetZ(list[j].coor)) == (x, y, z) ==>
        j == k
  {
    hide IsSortedList, Walk, OrdersOf, InRange;
    k := CellIsListed(d, ids, x, y, z, list);
    EntryIsCell(d, m, ids, x % d.stocks, list, k);
    assert OrdersOf(cache, x % d.stocks + 1, 0, |list|)[k] == cache.At(x % d.stocks + 1, k);
  }

  /** For every cell, a trader with loaded matrices holds exactly one order, with the values of the cell. */
  lemma {:induction false} CellIsHeld(c: Config, d: Dims, parts: seq<Part>, lists: seq<seq<seq<SortStruct>>>,
                                      t: int, x: int, y: int, z: int) returns (k: nat)
    requires GoodParts(d, parts) && LoadedFrom(c, d, parts, lists) && 0 <= t < |parts|
    requires 0 <= x < d.nx && 0 <= y < d.ny && 0 <= z < d.nz
    ensures k < |c.Raw(t, x % d.stocks + 1)|
    ensures
      var part, p := parts[t], x * (d.ny * d.nz) + y * d.nz + z;
      && 0 <= p < |part.ids|
      && c.Raw(t, x % d.stocks + 1)[k] ==
         Order(x % d.stocks + 1, part.ids[p], part.m.direction[p], part.m.kind[p], part.m.price[p], part.m.volume[p])
    ensures
      var list := lists[t][x % d.stocks];
      && |list| == |c.Raw(t, x % d.stocks + 1)|
      && forall j :: 0 <= j < |list| && (GetX(list[j].coor), GetY(list[j].coor), GetZ(list[j].coor)) == (x, y, z) ==>
           j == k
  {
    hide IsSortedList, Walk, InRange, Distinct;
    var s := x % d.stocks;
    assert 0 <= s < d.stocks && GoodPart(d, parts[t]);
    k := CellIsListed(d, parts[t].ids, x, y, z, lists[t][s]);
    EntryIsCell(d, parts[t].m, parts[t].ids, s, lists[t][s], k);
  }
}
