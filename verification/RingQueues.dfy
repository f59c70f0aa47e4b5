/** A fixed-size ring that forgets the oldest value. */
module RingQueues {

  /** The last `n` values, oldest first. */
  function Last<T>(s: seq<T>, n: nat): (r: seq<T>)
    ensures |r| == if |s| <= n then |s| else n
  {
    if |s| <= n then s else s[|s| - n..]
  }

  lemma LastAppend<T>(s: seq<T>, n: nat, x: T)
    requires n > 0
    ensures Last(s + [x], n) == (if |s| < n then Last(s, n) else Last(s, n)[1..]) + [x]
  {
  }

  /** The ring read from its oldest value on. */
  function Read<T>(list: seq<T>, tail: nat, size: nat): seq<T>
    requires tail <= |list| && size <= |list|
  {
    if size < |list| then list[..size] else list[tail..] + list[..tail]
  }

  lemma Grows<T>(list: seq<T>, size: nat, value: T)
    requires size < |list|
    ensures Read(list[size := value], if size + 1 < |list| then size + 1 else 0, size + 1) ==
            Read(list, size, size) + [value]
  {
  }

  lemma Turns<T>(list: seq<T>, tail: nat, value: T)
    requires tail < |list|
    ensures Read(list[tail := value], if tail + 1 < |list| then tail + 1 else 0, |list|) ==
            Read(list, tail, |list|)[1..] + [value]
  {
  }

  lemma Wraps(tail: nat, capacity: nat)
    requires tail < capacity
    ensures (tail + 1) % capacity == if tail + 1 < capacity then tail + 1 else 0
  {
  }

  class RingQueue<T(0)> {
    const capacity: nat
    const list: array<T>
    var tail: nat
    var size: nat
    /** Everything pushed so far. */
    ghost var pushed: seq<T>

    ghost predicate Valid()
      reads this, list
    {
      && capacity > 0 && list.Length == capacity && tail < capacity
      && size == (if |pushed| < capacity then |pushed| else capacity)
      && (size < capacity ==> tail == size)
      && Read(list[..], tail, size) == Last(pushed, capacity)
    }

    constructor (capacity: nat)
      requires capacity > 0
      ensures Valid() && fresh(list) && pushed == [] && this.capacity == capacity
    {
      this.capacity := capacity;
      list := new T[capacity];
      tail := 0;
      size := 0;
      pushed := [];
    }

    method Push(value: T)
      requires Valid()
      modifies this, list
      ensures Valid() && pushed == old(pushed) + [value]
    {
      hide Last, Read;
      ghost var was, at := list[..], tail;
      LastAppend(pushed, capacity, value);
      if size < capacity {
        Grows(was, size, value);
      } else {
        Turns(was, at, value);
      }
      list[tail] := value;
      assert list[..] == was[at := value];
      Wraps(at, capacity);
      tail := (tail + 1) % capacity;
      size := size + 1;
      if size >= capacity {
        size := capacity;
      }
      pushed := pushed + [value];
    }

    /** The last values, not in the order they came. */
    method GetElements() returns (elements: seq<T>)
      requires Valid()
      ensures multiset(elements) == multiset(Last(pushed, capacity))
    {
      elements := list[..size];
      if size == capacity {
        assert elements == list[..tail] + list[tail..];
        assert list[..][tail..] == list[tail..] && list[..][..tail] == list[..tail];
      }
    }
  }
}
