/** The growing circular queue behind the task queues (BaseQueue). */
module BaseQueue {

  /** The place of element `i`. */
  function Place(begin: nat, i: nat, capacity: nat): (p: nat)
    requires begin < capacity && i < capacity
    ensures p < capacity
  {
    if begin + i < capacity then begin + i else begin + i - capacity
  }

  function Count(begin: nat, end: nat, overlap: bool, capacity: nat): (n: nat)
    requires begin < capacity && end < capacity
    ensures n <= capacity
  {
    if overlap then capacity else if begin <= end then end - begin else capacity - begin + end
  }

  /** The elements in order. */
  function Elements<T>(data: seq<T>, begin: nat, n: nat): (s: seq<T>)
    requires begin < |data| && n <= |data|
    ensures |s| == n
  {
    seq(n, i requires 0 <= i < n => data[Place(begin, i, |data|)])
  }

  /** The growth step: the block from `begin` to the end moves to the end of the larger array, or, if the
      queue starts at 0, stays where it is. */
  function Grown<T>(data: seq<T>, more: seq<T>, begin: nat): seq<T>
    requires begin < |data| <= |data| + |more|
  {
    var all := data + more;
    if begin == 0 then all
    else all[..|all| - (|data| - begin)] + data[begin..]
  }

  /** Growing a full queue keeps the elements and their order. */
  lemma GrownKeepsElements<T>(data: seq<T>, more: seq<T>, begin: nat)
    requires begin < |data| && more != []
    ensures var grown := Grown(data, more, begin);
      && |grown| == |data| + |more|
      && Elements(grown, if begin == 0 then 0 else begin + |more|, |data|) == Elements(data, begin, |data|)
  {
    var grown := Grown(data, more, begin);
    var b := if begin == 0 then 0 else begin + |more|;
    forall i | 0 <= i < |data|
      ensures grown[Place(b, i, |grown|)] == data[Place(begin, i, |data|)]
    {
      if begin != 0 && begin + i < |data| {
        assert grown[b + i] == data[begin..][i];
      }
    }
  }

  lemma BlockOf<T>(data: seq<T>, more: seq<T>, begin: nat)
    requires begin < |data|
    ensures (data + more)[begin..|data|] == data[begin..]
  {
  }

  /** Writing behind the last element appends, taking the first element drops it. */
  lemma EnqueueAppends<T>(data: seq<T>, begin: nat, n: nat, x: T)
    requires begin < |data| && n < |data|
    ensures Elements(data[Place(begin, n, |data|) := x], begin, n + 1) == Elements(data, begin, n) + [x]
  {
  }

  lemma DequeueDrops<T>(data: seq<T>, begin: nat, n: nat)
    requires begin < |data| && 0 < n <= |data|
    ensures Elements(data, begin, n)[0] == data[begin]
    ensures Elements(data, if begin + 1 == |data| then 0 else begin + 1, n - 1) == Elements(data, begin, n)[1..]
  {
  }

  class BaseQueue<T(0)> {
    const emptyType: T
    var data: array<T>
    var queueBegin: nat
    var queueEnd: nat
    var overlap: bool

    constructor (initialCapacity: nat, emptyType: T)
      requires initialCapacity > 0
      ensures Valid() && fresh(data) && Contents() == [] && this.emptyType == emptyType
    {
      this.emptyType := emptyType;
      queueBegin, queueEnd, overlap := 0, 0, false;
      data := new T[initialCapacity];
    }

    /** `overlap` tells a full queue from an empty one. */
    ghost predicate Valid()
      reads this
    {
      queueBegin < data.Length && queueEnd < data.Length && (overlap ==> queueBegin == queueEnd)
    }

    function Size(): (n: nat)
      reads this
      requires Valid()
    {
      Count(queueBegin, queueEnd, overlap, data.Length)
    }

    ghost function Contents(): (s: seq<T>)
      reads this, data
      requires Valid()
      ensures |s| == Size()
    {
      Elements(data[..], queueBegin, Size())
    }

    predicate IsEmpty()
      reads this
    {
      !overlap && queueEnd == queueBegin
    }

    /** realloc: a larger array with the old elements at its start. */
    method Reallocate(capacity: nat) returns (ghost more: seq<T>)
      requires data.Length <= capacity
      modifies this`data
      ensures fresh(data) && data.Length == capacity && data[..] == old(data[..]) + more
    {
      var larger := new T[capacity];
      forall k | 0 <= k < data.Length {
        larger[k] := data[k];
      }
      more := larger[data.Length..];
      assert larger[..data.Length] == data[..];
      data := larger;
    }

    /** memmove: the block from `begin` to `end` moves to the end of the array. */
    method MoveUp(begin: nat, end: nat)
      requires begin <= end <= data.Length
      modifies data
      ensures data[..] == old(data[..])[..data.Length - (end - begin)] + old(data[..])[begin..end]
    {
      var to := data.Length - (end - begin);
      forall k | 0 <= k < end - begin {
        data[to + k] := data[begin + k];
      }
    }

    /** The growth of a full queue by at least half. */
    method Resize(requiredSize: nat)
      requires Valid() && overlap && requiredSize == data.Length + 1
      modifies this
      ensures Valid() && fresh(data) && !overlap && Size() == old(Size()) < data.Length
      ensures Contents() == old(Contents())
    {
      hide Elements, Grown;
      ghost var before, begin := data[..], queueBegin;
      var count := Size();
      var capacity := count + count / 2;
      if requiredSize > capacity {
        capacity := requiredSize;
      }
      ghost var more := Grow(capacity);
      GrownKeepsElements(before, more, begin);
    }

    /** The larger array of a full queue, with the indices moved. */
    method Grow(newCapacity: nat) returns (ghost more: seq<T>)
      requires Valid() && overlap && data.Length < newCapacity
      modifies this
      ensures fresh(data) && data.Length == newCapacity == old(data.Length) + |more| && !overlap
      ensures data[..] == Grown(old(data[..]), more, old(queueBegin))
      ensures queueBegin == if old(queueBegin) == 0 then 0 else old(queueBegin) + |more|
      ensures queueEnd == if old(queueEnd) == 0 then old(data.Length) else old(queueEnd)
    {
      var oldCapacity := data.Length;
      ghost var before := data[..];
      more := Reallocate(newCapacity);
      if queueEnd != 0 {
        var moveAmount := oldCapacity - queueBegin;
        BlockOf(before, more, queueBegin);
        MoveUp(queueBegin, oldCapacity);
        queueBegin := newCapacity - moveAmount;
      } else {
        queueEnd := oldCapacity;
      }
      overlap := false;
    }

    method Enqueue(element: T)
      requires Valid()
      modifies this, data
      ensures Valid() && (data == old(data) || fresh(data))
      ensures Contents() == old(Contents()) + [element]
    {
      hide Elements;
      if overlap {
        Resize(Size() + 1);
      }
      ghost var before := data[..];
      EnqueueAppends(before, queueBegin, Size(), element);
      data[queueEnd] := element;
      assert data[..] == before[queueEnd := element];
      queueEnd := queueEnd + 1;
      if queueEnd == data.Length {
        queueEnd := 0;
      }
      if queueEnd == queueBegin {
        overlap := true;
      }
    }

    method Dequeue() returns (element: T)
      requires Valid()
      modifies this
      ensures Valid() && data == old(data)
      ensures if old(Contents()) == [] then element == emptyType && Contents() == []
              else element == old(Contents())[0] && Contents() == old(Contents())[1..]
    {
      hide Elements;
      if IsEmpty() {
        return emptyType;
      }
      DequeueDrops(data[..], queueBegin, Size());
      element := data[queueBegin];
      queueBegin := queueBegin + 1;
      overlap := false;
      if queueBegin == data.Length {
        queueBegin := 0;
      }
    }

    method Get(index: nat) returns (element: T)
      requires Valid() && index < Size()
      ensures element == Contents()[index]
    {
      Wrap(queueBegin + index, data.Length);
      element := data[(queueBegin + index) % data.Length];
    }
  }

  lemma Wrap(p: nat, capacity: nat)
    requires 0 < capacity && p < 2 * capacity
    ensures p % capacity == if p < capacity then p else p - capacity
  {
  }
}
