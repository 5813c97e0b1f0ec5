/**
 The bounded queue under every buffer of an endpoint: a ring of `size` slots of
 which one always stays free.
 */
module CircularQueue {
  import opened TileLinkMsg

  class CircularQueue<T(0)> {
    const size: nat
    const data: array<T>
    var front: nat
    var rear: nat

    ghost predicate Valid()
      reads this
    {
      data.Length == size && size >= 2 && front < size && rear < size
    }

    function Length(): nat
      requires Valid()
      reads this
    {
      if front <= rear then rear - front else rear + size - front
    }

    /** Slot of the k-th element, as the ring iteration visits it. */
    function Slot(k: nat): nat
      requires Valid() && k <= Length()
      reads this
    {
      if front + k < size then front + k else front + k - size
    }

    /** The ring iteration steps from slot to slot and stops after the last element. */
    lemma SlotStep(k: nat)
      requires Valid() && k <= Length()
      ensures Slot(0) == front && (Slot(k) == rear <==> k == Length())
      ensures k < Length() ==> Slot(k + 1) == if Slot(k) + 1 == size then 0 else Slot(k) + 1
    {
    }

    ghost function Contents(): (s: seq<T>)
      requires Valid()
      reads this, data
      ensures |s| == Length()
      ensures forall k :: 0 <= k < |s| ==> s[k] == data[Slot(k)]
    {
      seq(Length(), k requires Valid() && 0 <= k < Length() reads this, data => data[Slot(k)])
    }

    constructor (size: nat)
      requires size >= 2
      ensures Valid() && this.size == size && fresh(data)
      ensures Contents() == []
    {
      this.size := size;
      data := new T[size];
      front, rear := 0, 0;
    }

    /** Steps an index round the ring. */
    method Advance(i: nat) returns (j: nat)
      requires Valid() && i < size
      ensures j == if i + 1 == size then 0 else i + 1
    {
      j := (i + 1) % size;
    }

    method IsEmpty() returns (empty: bool)
      requires Valid()
      ensures empty <==> Contents() == []
    {
      empty := front == rear;
    }

    method IsFull() returns (full: bool)
      requires Valid()
      ensures full <==> |Contents()| == size - 1
    {
      var next := Advance(rear);
      full := next == front;
    }

    method Enqueue(x: T) returns (ok: bool)
      requires Valid()
      modifies this`rear, data
      ensures Valid()
      ensures ok <==> |old(Contents())| < size - 1
      ensures Contents() == if ok then old(Contents()) + [x] else old(Contents())
    {
      var full := IsFull();
      if full {
        return false;
      }
      data[rear] := x;
      rear := Advance(rear);
      return true;
    }

    method Dequeue() returns (x: Option<T>)
      requires Valid()
      modifies this`front
      ensures Valid()
      ensures old(Contents()) == [] ==> x == None && Contents() == []
      ensures old(Contents()) != [] ==> x == Some(old(Contents())[0]) && Contents() == old(Contents())[1..]
    {
      x := None;
      if front != rear {
        x := Some(data[front]);
        front := Advance(front);
      }
    }

    method GetFront() returns (x: Option<T>)
      requires Valid()
      ensures x == if Contents() == [] then None else Some(Contents()[0])
    {
      x := if front == rear then None else Some(data[front]);
    }

    /** Overwrites the slot that holds the k-th element. */
    method Update(i: nat, ghost k: nat, x: T)
      requires Valid() && k < Length() && i == Slot(k)
      modifies data
      ensures Contents() == old(Contents())[k := x]
    {
      data[i] := x;
    }
  }
}
