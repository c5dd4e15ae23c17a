/**
The intrusive FIFO of libpager/queue.h: items linked through their own `next` field, with a head
pointer and a pointer to the link that the next item will be hung on.
*/
module Queue {

  class Item {
    var next: Item?

    constructor ()
      ensures next == null
    {
      next := null;
    }
  }

  class Queue {
    var head: Item?
    /** The item whose `next` is the link to hang the next item on; null when that link is `head`. */
    var tail: Item?
    ghost var items: seq<Item>

    ghost predicate Valid()
      reads this, items
    {
      && head == Link(0)
      && tail == (if items == [] then null else items[|items| - 1])
      && (forall i :: 0 <= i < |items| ==> items[i].next == Link(i + 1))
      && (forall i, j :: 0 <= i < j < |items| ==> items[i] != items[j])
    }

    ghost function Link(i: nat): Item?
      reads this
    {
      if i < |items| then items[i] else null
    }

    constructor ()
      ensures Valid() && items == []
    {
      head, tail, items := null, null, [];
    }

    method Enqueue(r: Item)
      requires Valid() && r !in items
      modifies this, r, tail
      ensures Valid() && items == old(items) + [r]
    {
      if tail == null {
        head := r;
      } else {
        tail.next := r;
      }
      tail := r;
      r.next := null;
      items := items + [r];
    }

    /** The first item, or null when there is none. */
    method Dequeue() returns (r: Item?)
      requires Valid()
      modifies this, head
      ensures Valid()
      ensures if old(items) == [] then r == null && items == []
              else r == old(items)[0] && items == old(items)[1..] && r.next == null
    {
      r := head;
      if r == null {
        return;
      }
      head := head.next;
      if head == null {
        tail := null;
      }
      items := items[1..];
      r.next := null;
    }

    method Empty() returns (b: bool)
      requires Valid()
      ensures b == (items == [])
    {
      b := head == null;
    }
  }
}
