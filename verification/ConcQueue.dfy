/** The cockpit's queue: a circular buffer behind one lock. Each method is one locked section. */
module ConcQueue {
  import opened Wrappers

  datatype PushStatus = Accepted | Full | Closed

  /** The `count` elements that start at `head`. */
  function Window<T>(slots: seq<T>, head: nat, count: nat): (s: seq<T>)
    requires head < |slots| && count <= |slots|
    ensures |s| == count && forall i :: 0 <= i < count ==> s[i] == slots[Wrap(head + i, |slots|)]
  {
    seq(count, i requires 0 <= i < count => slots[Wrap(head + i, |slots|)])
  }

  function Wrap(i: nat, n: nat): (r: nat)
    requires i < 2 * n
    ensures r < n
  {
    if i < n then i else i - n
  }

  /** The program computes it with a remainder. */
  lemma WrapIs(i: nat, n: nat)
    requires i < 2 * n
    ensures i % n == Wrap(i, n)
  {
    if i >= n {
      assert (i - n) % n == i - n;
      assert i == 1 * n + (i - n);
    }
  }

  class BoundedQueue<T(0)> {
    const slots: array<T>
    const capacity: nat
    var head: nat
    var tail: nat
    var count: nat
    var closed: bool

    ghost predicate Valid()
      reads this, slots
    {
      && 0 < capacity == slots.Length && head < capacity && count <= capacity
      && tail == Wrap(head + count, capacity)
    }

    function Contents(): seq<T>
      requires Valid()
      reads this, slots
    {
      Window(slots[..], head, count)
    }

    /** Throws on a capacity of 0. */
    constructor (capacity: nat)
      requires capacity > 0
      ensures Valid() && fresh(slots) && Contents() == [] && !closed && this.capacity == capacity
    {
      this.capacity := capacity;
      slots := new T[capacity];
      head, tail, count, closed := 0, 0, 0, false;
    }

    method Emplace(value: T)
      requires Valid() && count < capacity
      modifies this`tail, this`count, slots
      ensures Valid() && Contents() == old(Contents()) + [value]
    {
      ghost var was := Contents();
      slots[tail] := value;
      tail := (tail + 1) % capacity;
      count := count + 1;
      WrapIs(old(tail) + 1, capacity);
      ghost var now := Contents();
      forall i | 0 <= i < |was| ensures now[i] == was[i] {
        assert Wrap(head + i, capacity) != old(tail);
      }
      assert now == was + [value];
    }

    method Take() returns (value: T)
      requires Valid() && count > 0
      modifies this`head, this`count
      ensures Valid() && old(Contents()) == [value] + Contents()
    {
      ghost var was := Contents();
      value := slots[head];
      head := (head + 1) % capacity;
      count := count - 1;
      WrapIs(old(head) + 1, capacity);
      assert Contents() == was[1..];
    }

    /** Once it has the lock and room, or the queue is closed. */
    method Push(value: T) returns (status: PushStatus)
      requires Valid() && (count < capacity || closed)
      modifies this`tail, this`count, slots
      ensures Valid() && status == if closed then Closed else Accepted
      ensures Contents() == old(Contents()) + if status.Accepted? then [value] else []
    {
      if closed {
        return Closed;
      }
      Emplace(value);
      return Accepted;
    }

    method TryPush(value: T) returns (status: PushStatus)
      requires Valid()
      modifies this`tail, this`count, slots
      ensures Valid()
      ensures status == if closed then Closed else if |old(Contents())| == capacity then Full else Accepted
      ensures Contents() == old(Contents()) + if status.Accepted? then [value] else []
    {
      if closed {
        return Closed;
      }
      if count == capacity {
        return Full;
      }
      Emplace(value);
      return Accepted;
    }

    /** Once it has the lock and an item, or the queue is closed. Closing discards nothing. */
    method Pop() returns (value: Option<T>)
      requires Valid() && (count > 0 || closed)
      modifies this`head, this`count
      ensures Valid() && old(Contents()) == (if value.Some? then [value.value] else []) + Contents()
      ensures value.None? ==> closed && Contents() == []
    {
      if count == 0 {
        return None;
      }
      var v := Take();
      return Some(v);
    }

    method TryPop() returns (value: Option<T>)
      requires Valid()
      modifies this`head, this`count
      ensures Valid() && old(Contents()) == (if value.Some? then [value.value] else []) + Contents()
      ensures value.None? ==> Contents() == []
    {
      if count == 0 {
        return None;
      }
      var v := Take();
      return Some(v);
    }

    method Close()
      requires Valid()
      modifies this`closed
      ensures Valid() && closed && Contents() == old(Contents())
    {
      closed := true;
    }

    method Size() returns (n: nat)
      requires Valid()
      ensures n == |Contents()|
    {
      return count;
    }
  }
}
