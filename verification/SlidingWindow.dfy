/** The per-stock window of arrived orders (src/common/sliding_window.hpp) and its drain (src/exchange/exchange.cpp). */
module SlidingWindows {
  import opened Types

  /** A window as a value: what each slot holds, and the slot to be polled next. */
  datatype Window<T> = Window(slots: seq<Option<T>>, head: nat)

  function EmptyWindow<T>(capacity: nat): Window<T> {
    Window(seq(capacity, i => None), 0)
  }

  predicate CanPoll<T>(w: Window<T>) {
    w.head < |w.slots| && w.slots[w.head].Some?
  }

  function PutAt<T>(w: Window<T>, x: T, index: nat): Window<T>
    requires index < |w.slots|
  {
    w.(slots := w.slots[index := Some(x)])
  }

  function Polled<T>(w: Window<T>): Window<T>
    requires CanPoll(w)
  {
    Window(w.slots[w.head := None], (w.head + 1) % |w.slots|)
  }

  /** The slot of an order id: ids start at 1. */
  function SlotOf(id: int, capacity: nat): (k: nat)
    requires capacity > 0
    ensures k < capacity
  {
    (id - 1) % capacity
  }

  /** How many slots hold something. */
  function Occupied<T>(slots: seq<Option<T>>): nat {
    if slots == [] then 0 else (if slots[0].Some? then 1 else 0) + Occupied(slots[1..])
  }

  lemma {:induction false} OccupiedLess<T>(slots: seq<Option<T>>, k: nat)
    requires k < |slots| && slots[k].Some?
    ensures Occupied(slots[k := None]) < Occupied(slots)
  {
    var t := slots[k := None];
    if k == 0 {
      assert t[1..] == slots[1..];
    } else {
      assert t[1..] == slots[1..][k - 1 := None];
      OccupiedLess(slots[1..], k - 1);
    }
  }

  datatype Drained<T> = Drained(items: seq<T>, window: Window<T>)

  /** Polling until the head slot is empty. */
  function PollAll<T>(w: Window<T>): Drained<T>
    decreases Occupied(w.slots)
  {
    if !CanPoll(w) then Drained([], w)
    else
      OccupiedLess(w.slots, w.head);
      var rest := PollAll(Polled(w));
      Drained([w.slots[w.head].value] + rest.items, rest.window)
  }

  lemma {:induction false} PollAllStep<T>(w: Window<T>)
    ensures !CanPoll(w) ==> PollAll(w) == Drained([], w)
    ensures
      CanPoll(w) ==>
        && Occupied(Polled(w).slots) < Occupied(w.slots)
        && PollAll(w) == Drained([w.slots[w.head].value] + PollAll(Polled(w)).items, PollAll(Polled(w)).window)
  {
    if CanPoll(w) {
      OccupiedLess(w.slots, w.head);
    }
  }

  class SlidingWindow<T(0)> {
    const data: array<T>
    const available: array<bool>
    var head: nat

    ghost predicate Valid()
      reads this, data, available
    {
      data.Length == available.Length && head < data.Length && data as object != available
    }

    ghost function Model(): (w: Window<T>)
      requires Valid()
      reads this, data, available
      ensures |w.slots| == data.Length && w.head == head
      ensures forall i :: 0 <= i < data.Length ==> w.slots[i] == if available[i] then Some(data[i]) else None
    {
      Window(seq(data.Length, i requires 0 <= i < data.Length reads this, data, available =>
        if i < available.Length && available[i] then Some(data[i]) else None), head)
    }

    constructor (capacity: nat)
      requires capacity > 0
      ensures Valid() && Model() == EmptyWindow(capacity) && fresh(data) && fresh(available)
    {
      data := new T[capacity];
      available := new bool[capacity](i => false);
      head := 0;
      new;
      assert Model().slots == EmptyWindow<T>(capacity).slots;
    }

    /** Stores an order in its slot, which must be free. */
    method Put(t: T, index: nat)
      requires Valid() && index < data.Length && !available[index]
      modifies data, available
      ensures Valid() && Model() == PutAt(old(Model()), t, index)
      ensures data[index] == t && available[index]
      ensures
        forall i :: 0 <= i < data.Length && i != index ==>
          data[i] == old(data[i]) && available[i] == old(available[i])
    {
      data[index] := t;
      available[index] := true;
      assert Model().slots == PutAt(old(Model()), t, index).slots;
    }

    /** Takes the order in the head slot, if it has arrived. */
    method Poll() returns (r: Option<T>)
      requires Valid()
      modifies this`head, available
      ensures Valid()
      ensures r.Some? <==> CanPoll(old(Model()))
      ensures r.None? ==> Model() == old(Model())
      ensures r.Some? ==> r == old(Model()).slots[old(head)] && Model() == Polled(old(Model()))
      ensures r.Some? <==> old(available[head])
      ensures
        old(available[head]) ==>
          && r == Some(data[old(head)]) && head == (old(head) + 1) % data.Length && !available[old(head)]
          && forall i :: 0 <= i < data.Length && i != old(head) ==> available[i] == old(available[i])
    {
      if !available[head] {
        assert Model() == old(Model());
        return None;
      }
      r := Some(data[head]);
      available[head] := false;
      head := (head + 1) % data.Length;
      assert Model().slots == Polled(old(Model())).slots;
    }
  }
}
