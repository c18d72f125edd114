/** The bucket chains: a doubly linked list with append, pop and a forward iterator. */
module MileLists {
  import opened Wrappers

  class Item<T> {
    var data: T
    var next: Item?<T>
    var prev: Item?<T>

    constructor (data: T, prev: Item?<T>)
      ensures this.data == data && next == null && this.prev == prev
    {
      this.data, next, this.prev := data, null, prev;
    }
  }

  ghost predicate LinkedAt<T>(items: seq<Item<T>>, i: nat)
    requires i < |items|
    reads items
  {
    && items[i].next == (if i + 1 < |items| then items[i + 1] else null)
    && items[i].prev == (if i > 0 then items[i - 1] else null)
  }

  ghost predicate Linked<T>(items: seq<Item<T>>)
    reads items
  {
    && (forall i, j :: 0 <= i < j < |items| ==> items[i] != items[j])
    && (forall i :: 0 <= i < |items| ==> LinkedAt(items, i))
  }

  class MileList<T> {
    var head: Item?<T>
    var tail: Item?<T>
    ghost var items: seq<Item<T>>

    ghost predicate Valid()
      reads this, items
    {
      && Linked(items)
      && (if items == [] then head == null && tail == null else head == items[0] && tail == items[|items| - 1])
    }

    ghost function Contents(): seq<T>
      reads this, items
    {
      seq(|items|, i requires 0 <= i < |items| reads this, items => items[i].data)
    }

    constructor ()
      ensures Valid() && Contents() == []
    {
      head, tail, items := null, null, [];
    }

    method Add(data: T)
      requires Valid()
      modifies this, items
      ensures Valid() && Contents() == old(Contents()) + [data]
      ensures |items| == |old(items)| + 1 && items[..|old(items)|] == old(items) && fresh(items[|old(items)|])
    {
      if head == null {
        head := new Item(data, null);
        tail := head;
        items := [head];
      } else {
        ghost var was, n := items, |items|;
        assert LinkedAt(was, n - 1);
        var item := new Item(data, tail);
        tail.next := item;
        tail := item;
        items := items + [item];
        forall i | 0 <= i < n ensures LinkedAt(items, i) { assert old(LinkedAt(was, i)); }
      }
    }

    /** Remove the tail and return its data. */
    method Pop() returns (r: Option<T>)
      requires Valid()
      modifies this, items
      ensures Valid()
      ensures old(Contents()) == [] ==> r.None? && Contents() == []
      ensures old(Contents()) != [] ==> r.Some? && old(Contents()) == Contents() + [r.value]
    {
      if head == null { return None; }
      ghost var was, n := items, |items|;
      assert LinkedAt(was, n - 1) && (n > 1 ==> LinkedAt(was, n - 2));
      assert old(Contents()) == old(Contents())[..n - 1] + [tail.data];
      r := Some(tail.data);
      tail := tail.prev;
      if tail == null {
        head := null;
        items := [];
      } else {
        tail.next := null;
        items := items[..|items| - 1];
        forall i | 0 <= i < n - 1 ensures LinkedAt(items, i) { assert old(LinkedAt(was, i)); }
      }
    }

    /** for (it->First(); !it->IsDone(); it->Next()): the data in the order they were added. */
    method Visit() returns (visited: seq<T>)
      requires Valid()
      ensures visited == Contents()
    {
      visited := [];
      var current := head;
      while current != null
        invariant |visited| <= |items| && visited == Contents()[..|visited|]
        invariant current == if |visited| < |items| then items[|visited|] else null
        decreases |items| - |visited|
      {
        assert LinkedAt(items, |visited|);
        visited := visited + [current.data];
        current := current.next;
      }
    }
  }
}
