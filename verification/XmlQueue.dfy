/** `goxml` helpers: the growing ring buffer behind path traversal refines a plain queue. */
module XmlQueue {

  datatype Slot<T> = Vacant | Held(value: T)

  /** Where the `i`-th queued value sits in a ring of `n` cells that starts at `head`. */
  function Cell(head: nat, i: nat, n: nat): nat {
    if head + i < n then head + i else head + i - n
  }

  class Fifo<T> {
    var data: array<Slot<T>>
    var head: nat
    var tail: nat
    ghost var queue: seq<T>

    /** The ring holds the queue and always has a free cell, so `head == tail` means empty. */
    ghost predicate Valid()
      reads this, data
    {
      && (data.Length == 0 ==> head == 0 && tail == 0 && queue == [])
      && (data.Length > 0 ==> head < data.Length && |queue| < data.Length && tail == Cell(head, |queue|, data.Length))
      && forall i :: 0 <= i < |queue| ==> data[Cell(head, i, data.Length)] == Held(queue[i])
    }

    constructor ()
      ensures Valid() && queue == [] && fresh(data)
    {
      data := new Slot<T>[0];
      head, tail, queue := 0, 0, [];
    }

    method Len() returns (n: nat)
      requires Valid()
      ensures n == |queue|
    {
      if tail >= head {
        return tail - head;
      }
      return data.Length - head + tail;
    }

    /** Copies the ring into a larger array, in order from its start. */
    method Grow()
      requires Valid()
      modifies this
      ensures Valid() && fresh(data) && queue == old(queue) && |queue| + 1 < data.Length
    {
      var c := data.Length * 2;
      if c == 0 {
        c := 4;
      }
      var buf := new Slot<T>[c](_ => Vacant);
      var count := Len();
      if tail >= head {
        forall i | 0 <= i < count {
          buf[i] := data[head + i];
        }
      } else {
        var hindex := data.Length - head;
        forall i | 0 <= i < hindex {
          buf[i] := data[head + i];
        }
        forall i | hindex <= i < count {
          buf[i] := data[i - hindex];
        }
      }
      forall i | 0 <= i < count ensures buf[i] == Held(queue[i]) {
        assert data[Cell(head, i, data.Length)] == Held(queue[i]);
      }
      data, head, tail := buf, 0, count;
    }

    method Add(value: T)
      requires Valid()
      modifies this, data
      ensures Valid() && queue == old(queue) + [value] && (data == old(data) || fresh(data))
    {
      var n := Len();
      if n + 1 >= data.Length {
        Grow();
      }
      data[tail] := Held(value);
      tail := tail + 1;
      if tail == data.Length {
        tail := 0;
      }
      queue := queue + [value];
    }

    method Remove() returns (value: T)
      requires Valid() && queue != []
      modifies this, data
      ensures Valid() && data == old(data) && [value] + queue == old(queue)
    {
      assert data[Cell(head, 0, data.Length)] == Held(queue[0]);
      value := data[head].value;
      data[head] := Vacant;
      head := head + 1;
      if head == data.Length {
        head := 0;
      }
      queue := queue[1..];
    }
  }
}
