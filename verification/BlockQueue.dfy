/** The bounded queue between threads (src/common/block_queue.hpp): a ring of slots that refines a bounded FIFO. */
module BlockQueues {
  import opened Types

  /** The slot after slot `i` of a ring of `n`. */
  function Next(i: nat, n: nat): (r: nat)
    requires i < n
    ensures r == if i + 1 == n then 0 else i + 1
  {
    (i + 1) % n
  }

  class BlockQueue<T(0)> {
    const queue: array<T>
    var head: nat
    var tail: nat
    var size: nat
    /** What has been put and not yet taken, oldest first. */
    ghost var contents: seq<T>

    /** The slot of the element `i` places behind the head. */
    function Slot(i: nat): nat
      reads this
    {
      if head + i < queue.Length then head + i else head + i - queue.Length
    }

    ghost predicate Valid()
      reads this, queue
    {
      && size == |contents| <= queue.Length
      && (if queue.Length == 0 then head == tail == 0 else head < queue.Length && tail < queue.Length)
      && (queue.Length > 0 ==> tail == if size == queue.Length then head else Slot(size))
      && forall i :: 0 <= i < size ==> 0 <= Slot(i) < queue.Length && queue[Slot(i)] == contents[i]
    }

    constructor (capacity: nat)
      ensures Valid() && contents == [] && queue.Length == capacity && fresh(queue)
    {
      queue := new T[capacity];
      head, tail, size, contents := 0, 0, 0, [];
    }

    method Offer(t: T) returns (accepted: bool)
      requires Valid()
      modifies this, queue
      ensures Valid()
      ensures accepted <==> |old(contents)| < queue.Length
      ensures contents == if accepted then old(contents) + [t] else old(contents)
    {
      if size >= queue.Length {
        return false;
      }
      queue[tail] := t;
      tail := Next(tail, queue.Length);
      size := size + 1;
      contents := contents + [t];
      return true;
    }

    method Poll() returns (r: Option<T>)
      requires Valid()
      modifies this
      ensures Valid()
      ensures r == if old(contents) == [] then None else Some(old(contents)[0])
      ensures contents == if old(contents) == [] then [] else old(contents)[1..]
    {
      if size == 0 {
        return None;
      }
      r := Some(queue[head]);
      assert Slot(0) == head;
      head := Next(head, queue.Length);
      size := size - 1;
      contents := contents[1..];
    }

    /** The blocking forms run once their wait condition holds, and then always succeed. */
    method Put(t: T)
      requires Valid() && size < queue.Length
      modifies this, queue
      ensures Valid() && contents == old(contents) + [t]
    {
      var accepted := Offer(t);
    }

    method Take() returns (t: T)
      requires Valid() && size > 0
      modifies this
      ensures Valid() && old(contents) == [t] + contents
    {
      var r := Poll();
      t := r.value;
    }
  }

  /**
   * The sender's loop (src/exchange/trade_sender.cpp): everything queued goes to every channel, in
   * queue order.
   */
  method Broadcast<T(0)>(q: BlockQueue<T>, nets: seq<seq<T>>) returns (nets': seq<seq<T>>)
    requires q.Valid()
    modifies q
    ensures q.Valid() && q.contents == []
    ensures |nets'| == |nets| && forall t :: 0 <= t < |nets| ==> nets'[t] == nets[t] + old(q.contents)
  {
    nets' := nets;
    ghost var all := q.contents;
    ghost var done := [];
    while q.size > 0
      invariant q.Valid() && |nets'| == |nets| && done + q.contents == all
      invariant forall t :: 0 <= t < |nets| ==> nets'[t] == nets[t] + done
      decreases q.size
    {
      ghost var before, rest := nets', q.contents;
      var msg := q.Take();
      assert rest == [msg] + q.contents;
      assert done + rest == (done + [msg]) + q.contents;
      for idx := 0 to |nets|
        invariant |nets'| == |nets|
        invariant forall t :: 0 <= t < idx ==> nets'[t] == nets[t] + (done + [msg])
        invariant forall t :: idx <= t < |nets| ==> nets'[t] == nets[t] + done
      {
        assert nets'[idx] + [msg] == nets[idx] + (done + [msg]);
        nets' := nets'[idx := nets'[idx] + [msg]];
      }
      done := done + [msg];
    }
    assert q.contents == [];
  }
}
