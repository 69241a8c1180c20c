/**
 The ring of slots of demo/threadsync.c: the value it holds at each moment, what the two critical
 sections do to that value, and the in-place code that does it.
 */
module RingBuffer {

  datatype Ring = Ring(slots: seq<int>, head: nat, tail: nat, count: nat) {

    ghost predicate Valid() {
      && head < |slots| && tail < |slots| && count <= |slots|
      && tail == if head + count < |slots| then head + count else head + count - |slots|
    }

    /** The queue the ring stands for, oldest first. */
    function Contents(): (q: seq<int>)
      requires head < |slots| && count <= |slots|
      ensures |q| == count
    {
      seq(count, i requires 0 <= i < count => slots[if head + i < |slots| then head + i else head + i - |slots|])
    }

    function Put(item: int): Ring
      requires tail < |slots|
    {
      Ring(slots[tail := item], head, (tail + 1) % |slots|, count + 1)
    }

    function Take(): Ring
      requires head < |slots| && count > 0
    {
      Ring(slots, (head + 1) % |slots|, tail, count - 1)
    }
  }

  lemma Wrap(x: nat, n: nat)
    requires x < n
    ensures (x + 1) % n == if x + 1 == n then 0 else x + 1
  {
    if x + 1 < n {
      assert (x + 1) % n == x + 1;
    }
  }

  /** Storing at the tail appends to the queue. */
  lemma PutAppends(r: Ring, item: int)
    requires r.Valid() && r.count < |r.slots|
    ensures r.Put(item).Valid() && r.Put(item).Contents() == r.Contents() + [item]
  {
    Wrap(r.tail, |r.slots|);
  }

  /** The slot under the head is the front of the queue, and stepping the head removes just that. */
  lemma TakeRemovesFront(r: Ring)
    requires r.Valid() && r.count > 0
    ensures r.Take().Valid() && r.Contents() == [r.slots[r.head]] + r.Take().Contents()
  {
    Wrap(r.head, |r.slots|);
  }

  class Buffer {
    var buffer: array<int>
    var count: nat
    var head: nat
    var tail: nat

    ghost function Value(): Ring
      reads this, buffer
    {
      Ring(buffer[..], head, tail, count)
    }

    constructor (slots: nat)
      requires slots >= 1
      ensures Value().Valid() && Value().Contents() == [] && buffer.Length == slots && fresh(buffer)
    {
      buffer := new int[slots];
      count, head, tail := 0, 0, 0;
    }

    /** The body of buffer_put once the wait loop is left. */
    method Put(item: int)
      requires Value().Valid() && count < buffer.Length
      modifies this, buffer
      ensures buffer == old(buffer) && Value() == old(Value()).Put(item)
      ensures Value().Valid() && Value().Contents() == old(Value().Contents()) + [item]
    {
      PutAppends(Value(), item);
      buffer[tail] := item;
      tail := (tail + 1) % buffer.Length;
      count := count + 1;
    }

    /** The body of buffer_take once the wait loop is left. */
    method Take() returns (item: int, left: nat)
      requires Value().Valid() && count > 0
      modifies this
      ensures buffer == old(buffer) && Value() == old(Value()).Take()
      ensures Value().Valid() && old(Value().Contents()) == [item] + Value().Contents()
      ensures left == |Value().Contents()|
    {
      TakeRemovesFront(Value());
      item := buffer[head];
      head := (head + 1) % buffer.Length;
      count := count - 1;
      left := count;
    }
  }
}
