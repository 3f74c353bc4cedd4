/** The matrices of the traders, once loaded, are an input that the step machine accepts. */
module LoadedConfigs {
  import opened Types
  import opened Loader
  import opened OrderGenerators
  import opened System
  import opened FlowControl

  /** The matrices of one trader. */
  datatype Part = Part(ids: seq<int>, m: Matrices)

  ghost predicate Sized(d: Dims, p: Part) {
    |p.ids| == d.nx * d.Plane() && p.m.Sized(|p.ids|)
  }

  function IdAt(d: Dims, p: Part, x: int, y: int, z: int): int
    requires d.Cell(x, y, z) && |p.ids| == d.nx * d.Plane()
  {
    Entry(d, p.ids, x, y, z).id
  }

  /** Ids start at 1 and live orders have a volume. */
  ghost predicate GoodPart(d: Dims, p: Part) {
    && Sized(d, p)
    && forall i :: 0 <= i < |p.ids| ==>
         p.ids[i] >= 1 && ValidOrder(Order(0, p.ids[i], p.m.direction[i], p.m.kind[i], p.m.price[i], p.m.volume[i]))
  }

  /** No id is used twice for a stock, within a part or across two. */
  ghost predicate Distinct(d: Dims, p: Part, q: Part, same: bool)
    requires Sized(d, p) && Sized(d, q) && d.stocks > 0
  {
    forall x, y, z, u, v, w ::
      d.Cell(x, y, z) && d.Cell(u, v, w) && d.Row(x) == d.Row(u) && IdAt(d, p, x, y, z) == IdAt(d, q, u, v, w) ==>
        same && (x, y, z) == (u, v, w)
  }

  lemma {:induction false} OrderAt(d: Dims, p: Part, s: int, list: seq<SortStruct>, i: nat)
    requires d.Even() && d.Packs() && GoodPart(d, p) && 0 <= s < d.stocks && IsSortedList(d, p.ids, s, list)
    requires InRange(d, list) && i < |list|
    ensures
      var o := Walk(d, p.m, s, list)[i];
      o.stock == s + 1 && o.id == list[i].id >= 1 && ValidOrder(o)
  {
    EntriesLeadBack(d, p.ids, s, list, i);
  }

  lemma {:induction false} ListAscends(d: Dims, p: Part, s: int, list: seq<SortStruct>, i: nat, j: nat)
    requires d.Even() && d.Packs() && Sized(d, p) && 0 <= s < d.stocks && IsSortedList(d, p.ids, s, list)
    requires Distinct(d, p, p, true) && i < j < |list|
    ensures list[i].id < list[j].id
  {
    NoRepeatsInList(d, p.ids, s, list);
    EntriesLeadBack(d, p.ids, s, list, i);
    EntriesLeadBack(d, p.ids, s, list, j);
  }

  lemma {:induction false} ListsDiffer(d: Dims, p: Part, q: Part, s: int, a: seq<SortStruct>, b: seq<SortStruct>,
                                       i: nat, j: nat)
    requires d.Even() && d.Packs() && Sized(d, p) && Sized(d, q) && 0 <= s < d.stocks
    requires IsSortedList(d, p.ids, s, a) && IsSortedList(d, q.ids, s, b)
    requires Distinct(d, p, q, false) && i < |a| && j < |b|
    ensures a[i].id != b[j].id
  {
    EntriesLeadBack(d, p.ids, s, a, i);
    EntriesLeadBack(d, q.ids, s, b, j);
  }

  // ---------- the configuration ----------

  ghost predicate GoodParts(d: Dims, parts: seq<Part>) {
    && d.Even() && d.Packs()
    && (forall t :: 0 <= t < |parts| ==> GoodPart(d, parts[t]))
    && (forall t, u :: 0 <= t < |parts| && 0 <= u < |parts| ==> Distinct(d, parts[t], parts[u], t == u))
  }

  /** Each trader holds, for each stock, the walk over its sorted list of that stock. */
  ghost predicate LoadedFrom(c: Config, d: Dims, parts: seq<Part>, lists: seq<seq<seq<SortStruct>>>)
    requires GoodParts(d, parts)
  {
    && c.traders == |parts| == |lists| && c.stocks == d.stocks
    && (forall t :: 0 <= t < |parts| ==> |lists[t]| == d.stocks)
    && (forall t, s :: 0 <= t < |parts| && 0 <= s < d.stocks ==>
          && IsSortedList(d, parts[t].ids, s, lists[t][s]) && InRange(d, lists[t][s])
          && c.Raw(t, s + 1) == Walk(d, parts[t].m, s, lists[t][s]))
    && (forall t, s :: c.Raw(t, s) != [] ==> c.IsTrader(t) && c.IsStock(s))
  }

  lemma {:induction false} RawIsWalk(c: Config, d: Dims, parts: seq<Part>, lists: seq<seq<seq<SortStruct>>>, t: int,
                                     s: int)
    requires GoodParts(d, parts) && LoadedFrom(c, d, parts, lists) && c.Raw(t, s) != []
    ensures c.IsTrader(t) && c.IsStock(s) && 0 <= t < |parts| == |lists| && 1 <= s <= d.stocks == |lists[t]|
    ensures GoodPart(d, parts[t])
    ensures IsSortedList(d, parts[t].ids, s - 1, lists[t][s - 1]) && InRange(d, lists[t][s - 1])
    ensures c.Raw(t, s) == Walk(d, parts[t].m, s - 1, lists[t][s - 1])
  {
    assert c.Raw(t, s - 1 + 1) == c.Raw(t, s);
  }

  lemma {:induction false} RawOrder(c: Config, d: Dims, parts: seq<Part>, lists: seq<seq<seq<SortStruct>>>, t: int,
                                    s: int, i: nat)
    requires GoodParts(d, parts) && LoadedFrom(c, d, parts, lists) && i < |c.Raw(t, s)|
    ensures c.Raw(t, s)[i].stock == s && c.Raw(t, s)[i].id >= 1 && ValidOrder(c.Raw(t, s)[i])
    ensures 0 <= t < |lists| && 1 <= s <= |lists[t]| && i < |lists[t][s - 1]|
    ensures c.Raw(t, s)[i].id == lists[t][s - 1][i].id && c.IsTrader(t) && c.IsStock(s)
  {
    hide LoadedFrom, IsSortedList, InRange, GoodPart, ValidOrder, Distinct;
    RawIsWalk(c, d, parts, lists, t, s);
    OrderAt(d, parts[t], s - 1, lists[t][s - 1], i);
  }

  lemma {:induction false} RawAscends(c: Config, d: Dims, parts: seq<Part>, lists: seq<seq<seq<SortStruct>>>, t: int,
                                      s: int, i: nat, j: nat)
    requires GoodParts(d, parts) && LoadedFrom(c, d, parts, lists) && i < j < |c.Raw(t, s)|
    ensures c.Raw(t, s)[i].id < c.Raw(t, s)[j].id
  {
    RawIsWalk(c, d, parts, lists, t, s);
    hide LoadedFrom, IsSortedList, InRange, ValidOrder, Distinct, Walk;
    RawOrder(c, d, parts, lists, t, s, i);
    RawOrder(c, d, parts, lists, t, s, j);
    assert Distinct(d, parts[t], parts[t], t == t);
    ListAscends(d, parts[t], s - 1, lists[t][s - 1], i, j);
  }

  lemma {:induction false} RawsDiffer(c: Config, d: Dims, parts: seq<Part>, lists: seq<seq<seq<SortStruct>>>, t: int,
                                      u: int, s: int, i: nat, j: nat)
    requires GoodParts(d, parts) && LoadedFrom(c, d, parts, lists) && t != u && i < |c.Raw(t, s)| && j < |c.Raw(u, s)|
    ensures c.Raw(t, s)[i].id != c.Raw(u, s)[j].id
  {
    RawIsWalk(c, d, parts, lists, t, s);
    RawIsWalk(c, d, parts, lists, u, s);
    hide LoadedFrom, IsSortedList, InRange, ValidOrder, Distinct, Walk;
    RawOrder(c, d, parts, lists, t, s, i);
    RawOrder(c, d, parts, lists, u, s, j);
    assert Distinct(d, parts[t], parts[u], t == u);
    ListsDiffer(d, parts[t], parts[u], s - 1, lists[t][s - 1], lists[u][s - 1], i, j);
  }

  /** Traders that hold what the loader lists, with ids that are distinct per stock, are a valid input. */
  lemma {:induction false} LoadedIsValid(c: Config, d: Dims, parts: seq<Part>, lists: seq<seq<seq<SortStruct>>>)
    requires GoodParts(d, parts) && LoadedFrom(c, d, parts, lists) && ValidSizes(c)
    requires forall k :: k in c.hooks ==> c.IsStock(c.hooks[k].stock)
    ensures ValidConfig(c)
  {
    hide GoodParts, LoadedFrom, ValidOrder;
    forall t, s, i | 0 <= i < |c.Raw(t, s)|
      ensures c.Raw(t, s)[i].stock == s && c.Raw(t, s)[i].id >= 1 && ValidOrder(c.Raw(t, s)[i])
    {
      RawOrder(c, d, parts, lists, t, s, i);
    }
    forall t, s | c.Raw(t, s) != []
      ensures c.IsTrader(t) && c.IsStock(s)
    {
      RawOrder(c, d, parts, lists, t, s, 0);
    }
    forall t, s, i, j | 0 <= i < j < |c.Raw(t, s)|
      ensures c.Raw(t, s)[i].id < c.Raw(t, s)[j].id
    {
      RawAscends(c, d, parts, lists, t, s, i, j);
    }
    forall t, u, s, i, j | t != u && 0 <= i < |c.Raw(t, s)| && 0 <= j < |c.Raw(u, s)|
      ensures c.Raw(t, s)[i].id != c.Raw(u, s)[j].id
    {
      RawsDiffer(c, d, parts, lists, t, u, s, i, j);
    }
  }
}
