/**
 * Loading the order matrices (src/common/loader.hpp, src/common/type.hpp): the cells of a matrix are
 * dealt out to the stocks, with packed coordinates, and each stock's cells are sorted by order id.
 */
module Loader {
  import opened BinaryHeap

  // ---------- packed coordinates ----------

  /** `& 0x3ff` is the remainder by 1024 and the shifts are by powers of two. */
  function Pack(x: nat, y: nat, z: nat): nat {
    (x % 1024) * 1048576 + (y % 1024) * 1024 + z % 1024
  }

  function GetX(p: nat): nat {
    p / 1048576 % 1024
  }

  function GetY(p: nat): nat {
    p / 1024 % 1024
  }

  function GetZ(p: nat): nat {
    p % 1024
  }

  /** A packed coordinate gives back the low ten bits of each part: the part itself exactly when it is below 1024. */
  lemma {:induction false} PackRoundTrip(x: nat, y: nat, z: nat)
    ensures GetX(Pack(x, y, z)) == x % 1024 && GetY(Pack(x, y, z)) == y % 1024 && GetZ(Pack(x, y, z)) == z % 1024
    ensures
      (GetX(Pack(x, y, z)), GetY(Pack(x, y, z)), GetZ(Pack(x, y, z))) == (x, y, z) <==>
      x < 1024 && y < 1024 && z < 1024
  {
    var p, a, b, c := Pack(x, y, z), x % 1024, y % 1024, z % 1024;
    assert p == 1024 * (a * 1024 + b) + c;
    assert p / 1024 == a * 1024 + b;
    assert p / 1048576 == a;
  }

  // ---------- positions in a mixed radix ----------

  /** Packed coordinates compare by x, then y, then z. */
  lemma {:induction false} PackOrders(x: nat, y: nat, z: nat, u: nat, v: nat, w: nat)
    requires x < 1024 && y < 1024 && z < 1024 && u < 1024 && v < 1024 && w < 1024
    ensures Pack(x, y, z) < Pack(u, v, w) <==> x < u || (x == u && (y < v || (y == v && z < w)))
  {
  }

  lemma {:induction false} MulAtLeast(n: nat, d: int)
    ensures d >= 1 ==> n * d >= n
    ensures d <= -1 ==> n * d <= -(n as int)
  {
  }

  lemma {:induction false} RadixUnique(a: int, b: int, c: int, d: int, n: nat)
    requires 0 <= b < n && 0 <= d < n && a * n + b == c * n + d
    ensures a == c && b == d
  {
    MulAtLeast(n, a - c);
    assert n * (a - c) == d - b;
  }

  lemma {:induction false} RadixBound(a: int, b: int, m: int, n: nat)
    requires 0 <= a < m && 0 <= b < n
    ensures 0 <= a * n + b < m * n
  {
    MulAtLeast(n, m - a);
    assert n * (m - a) == m * n - a * n;
    if a >= 1 {
      MulAtLeast(n, a);
    }
    assert n * a == a * n;
  }

  lemma {:induction false} DivOf(a: int, b: int, n: nat)
    requires 0 <= b < n
    ensures (a * n + b) / n == a && (a * n + b) % n == b
  {
    var v := a * n + b;
    RadixUnique(v / n, v % n, a, b, n);
  }

  lemma {:induction false} QuotientBelow(x: int, m: int, n: nat)
    requires n > 0 && x < m * n
    ensures x / n < m
  {
    MulAtLeast(n, x / n - m + 1);
    assert n * (x / n - m) == n * (x / n) - m * n;
    MulAtLeast(n, m - x / n);
  }

  // ---------- which slot of which stock a cell goes to ----------

  datatype Dims = Dims(nx: nat, ny: nat, nz: nat, stocks: nat)
  {
    /** Cells in one plane of the matrix. */
    function Plane(): nat {
      ny * nz
    }

    predicate Cell(x: int, y: int, z: int) {
      0 <= x < nx && 0 <= y < ny && 0 <= z < nz
    }

    /** The position of a cell in the matrix. */
    function Linear(x: int, y: int, z: int): int {
      x * Plane() + (y * nz + z)
    }

    /** The slots each stock has. */
    function Size(): nat {
      if stocks == 0 then 0 else nx * Plane() / stocks
    }

    function Row(x: int): int
      requires stocks > 0
    {
      x % stocks
    }

    function Slot(x: int, y: int, z: int): int
      requires stocks > 0
    {
      x / stocks * Plane() + (y * nz + z)
    }

    predicate Even() {
      stocks > 0 && nx % stocks == 0
    }

    /** Every coordinate fits its ten bits. */
    predicate Packs() {
      nx <= 1024 && ny <= 1024 && nz <= 1024
    }
  }

  lemma {:induction false} LinearBound(d: Dims, x: int, y: int, z: int)
    requires d.Cell(x, y, z)
    ensures 0 <= y * d.nz + z < d.Plane() && 0 <= d.Linear(x, y, z) < d.nx * d.Plane()
  {
    RadixBound(y, z, d.ny, d.nz);
    RadixBound(x, y * d.nz + z, d.nx, d.Plane());
  }

  lemma {:induction false} LinearUnique(d: Dims, x: int, y: int, z: int, u: int, v: int, w: int)
    requires d.Cell(x, y, z) && d.Cell(u, v, w) && d.Linear(x, y, z) == d.Linear(u, v, w)
    ensures x == u && y == v && z == w
  {
    LinearBound(d, x, y, z);
    LinearBound(d, u, v, w);
    RadixUnique(x, y * d.nz + z, u, v * d.nz + w, d.Plane());
    RadixUnique(y, z, v, w, d.nz);
  }

  lemma {:induction false} EvenSize(d: Dims)
    requires d.Even()
    ensures d.nx == d.nx / d.stocks * d.stocks && d.Size() == d.nx / d.stocks * d.Plane()
  {
    var k := d.nx / d.stocks;
    assert d.nx == k * d.stocks;
    assert d.nx * d.Plane() == k * d.Plane() * d.stocks;
    DivOf(k * d.Plane(), 0, d.stocks);
  }

  /** When the stocks divide the first dimension, every cell has a slot of its own stock's list. */
  lemma {:induction false} SlotInRange(d: Dims, x: int, y: int, z: int)
    requires d.Even() && d.Cell(x, y, z)
    ensures 0 <= d.Row(x) < d.stocks && 0 <= d.Slot(x, y, z) < d.Size()
  {
    EvenSize(d);
    LinearBound(d, x, y, z);
    var k := d.nx / d.stocks;
    QuotientBelow(x, k, d.stocks);
    RadixBound(x / d.stocks, y * d.nz + z, k, d.Plane());
  }

  /** No two cells share a slot. */
  lemma {:induction false} SlotUnique(d: Dims, x: int, y: int, z: int, u: int, v: int, w: int)
    requires d.stocks > 0 && d.Cell(x, y, z) && d.Cell(u, v, w)
    requires d.Row(x) == d.Row(u) && d.Slot(x, y, z) == d.Slot(u, v, w)
    ensures x == u && y == v && z == w
  {
    LinearBound(d, x, y, z);
    LinearBound(d, u, v, w);
    RadixUnique(x / d.stocks, y * d.nz + z, u / d.stocks, v * d.nz + w, d.Plane());
    RadixUnique(y, z, v, w, d.nz);
    assert x == x / d.stocks * d.stocks + x % d.stocks;
    assert u == u / d.stocks * d.stocks + u % d.stocks;
  }

  /** The cell that slot `k` of stock list `t` is for. */
  function CellAt(d: Dims, t: int, k: int): (int, int, int)
    requires d.stocks > 0 && d.Plane() > 0
  {
    (k / d.Plane() * d.stocks + t, k % d.Plane() / d.nz, k % d.Plane() % d.nz)
  }

  lemma {:induction false} InPlane(r: int, ny: nat, nz: nat)
    requires 0 <= r < ny * nz
    ensures nz > 0 && 0 <= r / nz < ny && 0 <= r % nz < nz && r / nz * nz + r % nz == r
  {
    assert nz == 0 ==> ny * nz == 0;
    QuotientBelow(r, ny, nz);
  }

  lemma {:induction false} InRow(q: int, t: int, rows: nat, n: nat)
    requires 0 <= q < rows && 0 <= t < n
    ensures 0 <= q * n + t < rows * n && (q * n + t) / n == q && (q * n + t) % n == t
  {
    RadixBound(q, t, rows, n);
    DivOf(q, t, n);
  }

  /** No slot stays empty: each is the slot of a cell of its stock. */
  lemma {:induction false} SlotIsUsed(d: Dims, t: int, k: int)
    requires d.Even() && d.Plane() > 0 && 0 <= t < d.stocks && 0 <= k < d.Size()
    ensures
      var (x, y, z) := CellAt(d, t, k);
      d.Cell(x, y, z) && d.Row(x) == t && d.Slot(x, y, z) == k
  {
    EvenSize(d);
    var rows, p := d.nx / d.stocks, d.Plane();
    InPlane(k % p, d.ny, d.nz);
    InPlane(k, rows, p);
    InRow(k / p, t, rows, d.stocks);
  }

  lemma {:induction false} MulLess(a: int, b: int, p: nat)
    requires a < b && p > 0
    ensures a * p < b * p
  {
    MulAtLeast(p, b - a);
    assert p * (b - a) == b * p - a * p;
  }

  lemma {:induction false} UnevenQuotient(n: nat, p: nat, s: nat)
    requires s > 0 && p > 0
    ensures n * p / s < (n / s + 1) * p
  {
    var m := n / s + 1;
    assert n < m * s;
    MulLess(n, m * s, p);
    assert m * s * p == m * p * s;
    QuotientBelow(n * p, m * p, s);
  }

  lemma {:induction false} LastInPlane(ny: nat, nz: nat)
    requires ny * nz > 0
    ensures ny >= 1 && nz >= 1 && (ny - 1) * nz + (nz - 1) == ny * nz - 1
  {
    assert ny == 0 || nz == 0 ==> ny * nz == 0;
    assert (ny - 1) * nz == ny * nz - nz;
  }

  /** Exactly then: when the stocks do not divide the first dimension, some cell falls outside its list. */
  lemma {:induction false} UnevenOverflows(d: Dims)
    requires d.stocks > 0 && d.Plane() > 0 && d.nx % d.stocks != 0
    ensures
      var x := d.nx / d.stocks * d.stocks;
      d.Cell(x, d.ny - 1, d.nz - 1) && d.Slot(x, d.ny - 1, d.nz - 1) >= d.Size()
  {
    var q, p := d.nx / d.stocks, d.Plane();
    var x := q * d.stocks;
    assert x + d.nx % d.stocks == d.nx;
    DivOf(q, 0, d.stocks);
    LastInPlane(d.ny, d.nz);
    UnevenQuotient(d.nx, p, d.stocks);
    assert (q + 1) * p == q * p + p;
  }

  // ---------- filling and sorting ----------

  datatype SortStruct = SortStruct(id: int, coor: nat)

  /** `SortStruct::operator<`. */
  predicate Before(a: SortStruct, b: SortStruct) {
    if a.id != b.id then a.id < b.id else a.coor < b.coor
  }

  function Entry(d: Dims, data: seq<int>, x: int, y: int, z: int): SortStruct
    requires d.Cell(x, y, z) && |data| == d.nx * d.Plane()
  {
    LinearBound(d, x, y, z);
    SortStruct(data[d.Linear(x, y, z)], Pack(x, y, z))
  }

  /** The unsorted list of stock list `t`: in each slot the entry of its cell. */
  ghost predicate IsList(d: Dims, data: seq<int>, t: int, list: seq<SortStruct>)
    requires d.Even() && |data| == d.nx * d.Plane() && 0 <= t < d.stocks
  {
    && |list| == d.Size()
    && forall x, y, z :: d.Cell(x, y, z) && d.Row(x) == t ==>
         0 <= d.Slot(x, y, z) < |list| && list[d.Slot(x, y, z)] == Entry(d, data, x, y, z)
  }

  ghost predicate Ascending(s: seq<SortStruct>) {
    forall i, j :: 0 <= i < j < |s| ==> !Before(s[j], s[i])
  }

  /** Puts `x` before the first element that comes after it. */
  function InsertSorted(s: seq<SortStruct>, x: SortStruct): seq<SortStruct> {
    if s == [] || Before(x, s[0]) then [x] + s else [s[0]] + InsertSorted(s[1..], x)
  }

  lemma {:induction false} InsertSortedAdds(s: seq<SortStruct>, x: SortStruct)
    ensures multiset(InsertSorted(s, x)) == multiset(s) + multiset{x}
    ensures forall e :: e in InsertSorted(s, x) ==> e == x || e in s
  {
    if s != [] && !Before(x, s[0]) {
      InsertSortedAdds(s[1..], x);
      assert s == [s[0]] + s[1..];
    }
  }

  lemma {:induction false} InsertSortedIsSorted(s: seq<SortStruct>, x: SortStruct)
    requires Ascending(s)
    ensures Ascending(InsertSorted(s, x))
  {
    if s != [] && !Before(x, s[0]) {
      InsertSortedIsSorted(s[1..], x);
      var r := InsertSorted(s[1..], x);
      InsertSortedAdds(s[1..], x);
      forall j | 0 <= j < |r|
        ensures !Before(r[j], s[0])
      {
        assert r[j] in r;
      }
    } else if s != [] {
      forall j | 0 <= j < |s|
        ensures !Before(s[j], x)
      {
        assert j > 0 ==> !Before(s[j], s[0]);
      }
    }
  }

  /** `std::sort`: the same elements, in ascending order. */
  method Sort(s: seq<SortStruct>) returns (r: seq<SortStruct>)
    ensures multiset(r) == multiset(s) && Ascending(r)
  {
    r := [];
    for i := 0 to |s|
      invariant multiset(r) == multiset(s[..i]) && Ascending(r)
    {
      assert s[..i + 1] == s[..i] + [s[i]];
      InsertSortedIsSorted(r, s[i]);
      InsertSortedAdds(r, s[i]);
      r := InsertSorted(r, s[i]);
    }
    assert s[..|s|] == s;
  }

  /** Every cell before position `n` of the matrix is in its slot. */
  ghost predicate Filled(d: Dims, data: seq<int>, rows: seq<seq<SortStruct>>, n: int)
    requires d.Even() && |data| == d.nx * d.Plane()
  {
    && |rows| == d.stocks && (forall t :: 0 <= t < d.stocks ==> |rows[t]| == d.Size())
    && forall x, y, z :: d.Cell(x, y, z) && d.Linear(x, y, z) < n ==>
         && 0 <= d.Row(x) < d.stocks && 0 <= d.Slot(x, y, z) < d.Size()
         && rows[d.Row(x)][d.Slot(x, y, z)] == Entry(d, data, x, y, z)
  }

  lemma {:induction false} WriteFills(d: Dims, data: seq<int>, rows: seq<seq<SortStruct>>, x: int, y: int, z: int)
    requires d.Even() && |data| == d.nx * d.Plane() && d.Cell(x, y, z) && Filled(d, data, rows, d.Linear(x, y, z))
    ensures 0 <= d.Row(x) < |rows| && 0 <= d.Slot(x, y, z) < |rows[d.Row(x)]|
    ensures
      var t := d.Row(x);
      Filled(d, data, rows[t := rows[t][d.Slot(x, y, z) := Entry(d, data, x, y, z)]], d.Linear(x, y, z) + 1)
  {
    SlotInRange(d, x, y, z);
    var t, k := d.Row(x), d.Slot(x, y, z);
    var next := rows[t := rows[t][k := Entry(d, data, x, y, z)]];
    forall u, v, w | d.Cell(u, v, w) && d.Linear(u, v, w) < d.Linear(x, y, z) + 1
      ensures 0 <= d.Row(u) < d.stocks && 0 <= d.Slot(u, v, w) < d.Size()
      ensures next[d.Row(u)][d.Slot(u, v, w)] == Entry(d, data, u, v, w)
    {
      SlotInRange(d, u, v, w);
      if d.Linear(u, v, w) == d.Linear(x, y, z) {
        LinearUnique(d, u, v, w, x, y, z);
      } else if d.Row(u) == t && d.Slot(u, v, w) == k {
        SlotUnique(d, u, v, w, x, y, z);
      }
    }
  }

  lemma {:induction false} FilledNone(d: Dims, data: seq<int>, rows: seq<seq<SortStruct>>)
    requires d.Even() && |data| == d.nx * d.Plane()
    requires |rows| == d.stocks && forall t :: 0 <= t < d.stocks ==> |rows[t]| == d.Size()
    ensures Filled(d, data, rows, d.Linear(0, 0, 0))
  {
    forall x, y, z | d.Cell(x, y, z)
      ensures d.Linear(x, y, z) >= 0
    {
      LinearBound(d, x, y, z);
    }
  }

  lemma {:induction false} AllFilled(d: Dims, data: seq<int>, rows: seq<seq<SortStruct>>)
    requires d.Even() && |data| == d.nx * d.Plane() && Filled(d, data, rows, d.Linear(d.nx, 0, 0))
    ensures |rows| == d.stocks && forall t :: 0 <= t < d.stocks ==> IsList(d, data, t, rows[t])
  {
    forall x, y, z | d.Cell(x, y, z)
      ensures d.Linear(x, y, z) < d.Linear(d.nx, 0, 0)
    {
      LinearBound(d, x, y, z);
    }
  }

  /** The nested loops over the matrix: every stock list gets exactly the entries of its cells. */
  method FillLists(d: Dims, data: seq<int>) returns (rows: seq<seq<SortStruct>>)
    requires d.Even() && |data| == d.nx * d.Plane()
    ensures |rows| == d.stocks && forall t :: 0 <= t < d.stocks ==> IsList(d, data, t, rows[t])
  {
    rows := seq(d.stocks, i => seq(d.Size(), j => SortStruct(0, 0)));
    assert Filled(d, data, rows, d.Linear(0, 0, 0)) by {
      FilledNone(d, data, rows);
    }
    for x := 0 to d.nx
      invariant Filled(d, data, rows, d.Linear(x, 0, 0))
    {
      for y := 0 to d.ny
        invariant Filled(d, data, rows, d.Linear(x, y, 0))
      {
        for z := 0 to d.nz
          invariant Filled(d, data, rows, d.Linear(x, y, z))
        {
          WriteFills(d, data, rows, x, y, z);
          var t := x % d.stocks;
          rows := rows[t := rows[t][d.Slot(x, y, z) := Entry(d, data, x, y, z)]];
        }
        assert d.Linear(x, y, d.nz) == d.Linear(x, y + 1, 0) by {
          assert y * d.nz + d.nz == (y + 1) * d.nz;
        }
      }
      assert d.Linear(x, d.ny, 0) == d.Linear(x + 1, 0, 0) by {
        assert x * d.Plane() + d.Plane() == (x + 1) * d.Plane();
      }
    }
    AllFilled(d, data, rows);
  }

  /** Each stock's list, sorted. */
  ghost predicate IsSortedList(d: Dims, data: seq<int>, t: int, list: seq<SortStruct>)
    requires d.Even() && |data| == d.nx * d.Plane() && 0 <= t < d.stocks
  {
    Ascending(list) && exists u :: IsList(d, data, t, u) && multiset(list) == multiset(u)
  }

  method LoadOrderIds(d: Dims, data: seq<int>) returns (rows: seq<seq<SortStruct>>)
    requires d.Even() && |data| == d.nx * d.Plane()
    ensures |rows| == d.stocks && forall t :: 0 <= t < d.stocks ==> IsSortedList(d, data, t, rows[t])
  {
    var lists := FillLists(d, data);
    rows := [];
    for t := 0 to d.stocks
      invariant |rows| == t && forall u :: 0 <= u < t ==> IsSortedList(d, data, u, rows[u])
    {
      var sorted := Sort(lists[t]);
      assert IsSortedList(d, data, t, sorted);
      rows := rows + [sorted];
    }
  }

  lemma {:induction false} PositiveFactor(a: int, b: nat)
    requires a * b > 0
    ensures b > 0
  {
    assert b == 0 ==> a * b == 0;
  }

  lemma {:induction false} SlotsExist(d: Dims, t: int, k: int)
    requires d.Even() && 0 <= t < d.stocks && 0 <= k < d.Size()
    ensures d.Plane() > 0
  {
    EvenSize(d);
    PositiveFactor(d.nx / d.stocks, d.Plane());
  }

  /** The entry in a slot is that of the cell the slot is for, and its coordinates unpack to that cell. */
  lemma {:induction false} EntryInSlot(d: Dims, data: seq<int>, t: int, u: seq<SortStruct>, k: nat)
    requires d.Even() && d.Packs() && |data| == d.nx * d.Plane() && 0 <= t < d.stocks
    requires IsList(d, data, t, u) && k < |u|
    ensures
      d.Plane() > 0 &&
      var (x, y, z) := CellAt(d, t, k);
      && d.Cell(x, y, z) && d.Row(x) == t && d.Slot(x, y, z) == k && u[k] == Entry(d, data, x, y, z)
      && (GetX(u[k].coor), GetY(u[k].coor), GetZ(u[k].coor)) == (x, y, z)
  {
    SlotsExist(d, t, k);
    SlotIsUsed(d, t, k);
    var (x, y, z) := CellAt(d, t, k);
    PackRoundTrip(x, y, z);
  }

  /**
   * Every entry of a stock's sorted list leads back to a cell of that stock: its coordinates are in
   * range, its stock is right, and its id is the one in the matrix. So the checks made when an
   * order is generated always pass.
   */
  lemma {:induction false} EntriesLeadBack(d: Dims, data: seq<int>, t: int, list: seq<SortStruct>, i: nat)
    requires d.Even() && |data| == d.nx * d.Plane() && 0 <= t < d.stocks && IsSortedList(d, data, t, list) && i < |list|
    requires d.Packs()
    ensures
      var x, y, z := GetX(list[i].coor), GetY(list[i].coor), GetZ(list[i].coor);
      && d.Cell(x, y, z) && d.Row(x) == t && list[i] == Entry(d, data, x, y, z)
      && 0 <= d.Linear(x, y, z) < |data| && list[i].id == data[d.Linear(x, y, z)]
  {
    var u :| IsList(d, data, t, u) && multiset(list) == multiset(u);
    var k := InMultiset(list, u, i);
    EntryInSlot(d, data, t, u, k);
    var (x, y, z) := CellAt(d, t, k);
    LinearBound(d, x, y, z);
  }

  // ---------- no cell is listed twice ----------

  lemma {:induction false} NoRepeatsInList(d: Dims, data: seq<int>, t: int, list: seq<SortStruct>)
    requires d.Even() && d.Packs() && |data| == d.nx * d.Plane() && 0 <= t < d.stocks && IsSortedList(d, data, t, list)
    ensures NoRepeats(list)
  {
    var u :| IsList(d, data, t, u) && multiset(list) == multiset(u);
    forall i, j | 0 <= i < j < |u|
      ensures u[i] != u[j]
    {
      EntryInSlot(d, data, t, u, i);
      EntryInSlot(d, data, t, u, j);
    }
    forall i, j | 0 <= i < j < |list|
      ensures list[i] != list[j]
    {
      CountedOnce(u, list[i]);
      if list[i] == list[j] {
        CountedTwice(list, i, j);
      }
    }
  }

  lemma {:induction false} ListSize(d: Dims, data: seq<int>, t: int, list: seq<SortStruct>)
    requires d.Even() && |data| == d.nx * d.Plane() && 0 <= t < d.stocks && IsSortedList(d, data, t, list)
    ensures |list| == d.Size()
  {
    var u :| IsList(d, data, t, u) && multiset(list) == multiset(u);
    SizeOf(list, u);
  }

  /** And every cell of the stock is in its list. */
  lemma {:induction false} EveryCellListed(d: Dims, data: seq<int>, x: int, y: int, z: int, list: seq<SortStruct>)
    requires d.Even() && |data| == d.nx * d.Plane() && d.Cell(x, y, z) && IsSortedList(d, data, d.Row(x), list)
    ensures Entry(d, data, x, y, z) in list
  {
    var u :| IsList(d, data, d.Row(x), u) && multiset(list) == multiset(u);
    var j := InMultiset(u, list, d.Slot(x, y, z));
  }
}
