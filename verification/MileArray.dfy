/** A growing array with an in-place max-heap: BuildHeap and the recursive sift-down Heapify. */
module MileArrays {
  import opened Rows
  import opened Wrappers

  // ----- sift-down on a sequence -----

  /** The child Heapify descends to, or `root` when neither child is greater. */
  function Greatest<T>(cmp: (T, T) -> int, s: seq<T>, root: nat): (m: nat)
    requires root < |s|
    ensures m < |s| && (m == root || m == 2 * root + 1 || m == 2 * root + 2)
  {
    if 2 * root + 1 >= |s| then root
    else
      var m := if cmp(s[2 * root + 1], s[root]) == 1 then 2 * root + 1 else root;
      if 2 * root + 2 < |s| && cmp(s[2 * root + 2], s[m]) == 1 then 2 * root + 2 else m
  }

  function Swap<T>(s: seq<T>, i: nat, j: nat): (r: seq<T>)
    requires i < |s| && j < |s|
    ensures |r| == |s|
  {
    s[i := s[j]][j := s[i]]
  }

  function Sift<T>(cmp: (T, T) -> int, s: seq<T>, root: nat): (r: seq<T>)
    ensures |r| == |s|
    decreases |s| - root
  {
    if root >= |s| then s
    else
      var m := Greatest(cmp, s, root);
      if m == root then s else Sift(cmp, Swap(s, root, m), m)
  }

  lemma {:induction false} SiftPermutes<T>(cmp: (T, T) -> int, s: seq<T>, root: nat)
    ensures multiset(Sift(cmp, s, root)) == multiset(s)
    decreases |s| - root
  {
    if root < |s| {
      var m := Greatest(cmp, s, root);
      if m != root {
        SiftPermutes(cmp, Swap(s, root, m), m);
        assert multiset(Swap(s, root, m)) == multiset(s);
      }
    }
  }

  function Parent(c: nat): nat
    requires c > 0
  {
    (c - 1) / 2
  }

  /** The element at `i` is not greater than the one at `j`. */
  ghost predicate NotAbove<T(!new)>(cmp: (T, T) -> int, s: seq<T>, i: nat, j: nat) {
    i < |s| && j < |s| && cmp(s[i], s[j]) <= 0
  }

  /** From `lo` on, no element is greater than its parent. */
  ghost predicate HeapFrom<T(!new)>(cmp: (T, T) -> int, s: seq<T>, lo: nat) {
    forall c {:trigger NotAbove(cmp, s, c, Parent(c))} ::
        0 < c < |s| && lo <= Parent(c) ==> NotAbove(cmp, s, c, Parent(c))
  }

  /** A heap from `lo`, except that `hole` may be smaller than its children. */
  ghost predicate HeapBut<T(!new)>(cmp: (T, T) -> int, s: seq<T>, lo: nat, hole: nat) {
    && (forall c {:trigger NotAbove(cmp, s, c, Parent(c))} ::
          0 < c < |s| && lo <= Parent(c) && Parent(c) != hole ==> NotAbove(cmp, s, c, Parent(c)))
    && (0 < hole && lo <= Parent(hole) ==>
          forall c :: 0 < c < |s| && Parent(c) == hole ==> NotAbove(cmp, s, c, Parent(hole)))
  }

  ghost predicate AllSortable<T(!new)>(sortable: T -> bool, s: seq<T>) {
    forall i :: 0 <= i < |s| ==> sortable(s[i])
  }

  /** What Heapify's two comparisons establish. */
  lemma GreatestIsAbove<T(!new)>(ops: RowOps<T>, s: seq<T>, root: nat, c: nat)
    requires Preorder(ops.cmp, ops.sortable) && AllSortable(ops.sortable, s) && root < |s|
    requires c == root || (0 < c < |s| && Parent(c) == root)
    ensures NotAbove(ops.cmp, s, c, Greatest(ops.cmp, s, root))
  {
    assert ops.sortable(s[root]) && ops.sortable(s[c]);
    if 2 * root + 1 < |s| { assert ops.sortable(s[2 * root + 1]); }
    if 2 * root + 2 < |s| { assert ops.sortable(s[2 * root + 2]); }
  }

  /** Sinking the hole one level: the greater child comes up and the hole moves to its place. */
  lemma SinkOnce<T(!new)>(ops: RowOps<T>, s: seq<T>, lo: nat, hole: nat, m: nat)
    requires Preorder(ops.cmp, ops.sortable) && AllSortable(ops.sortable, s)
    requires lo <= hole < |s| && HeapBut(ops.cmp, s, lo, hole)
    requires m == Greatest(ops.cmp, s, hole) && m != hole
    ensures AllSortable(ops.sortable, Swap(s, hole, m)) && HeapBut(ops.cmp, Swap(s, hole, m), lo, m)
  {
    hide Preorder;
    var cmp, t := ops.cmp, Swap(s, hole, m);
    assert Parent(m) == hole;
    forall c | 0 < c < |t| && lo <= Parent(c) && Parent(c) != m ensures NotAbove(cmp, t, c, Parent(c)) {
      if c == hole {
        assert NotAbove(cmp, s, m, Parent(hole));
      } else if Parent(c) == hole {
        if c == m { GreatestIsAbove(ops, s, hole, hole); } else { GreatestIsAbove(ops, s, hole, c); }
      } else {
        assert NotAbove(cmp, s, c, Parent(c));
      }
    }
    forall c | 0 < c < |t| && Parent(c) == m ensures NotAbove(cmp, t, c, Parent(m)) {
      assert NotAbove(cmp, s, c, Parent(c));
    }
  }

  lemma {:induction false} SiftHeaps<T(!new)>(ops: RowOps<T>, s: seq<T>, lo: nat, root: nat)
    requires Preorder(ops.cmp, ops.sortable) && AllSortable(ops.sortable, s)
    requires lo <= root < |s| && HeapBut(ops.cmp, s, lo, root)
    ensures HeapFrom(ops.cmp, Sift(ops.cmp, s, root), lo)
    decreases |s| - root
  {
    var m := Greatest(ops.cmp, s, root);
    hide Preorder;
    if m != root {
      SinkOnce(ops, s, lo, root, m);
      SiftHeaps(ops, Swap(s, root, m), lo, m);
    } else {
      forall c | 0 < c < |s| && lo <= Parent(c) ensures NotAbove(ops.cmp, s, c, Parent(c)) {
        if Parent(c) == root { GreatestIsAbove(ops, s, root, c); }
      }
    }
  }

  /** The root of a heap is greatest. */
  lemma {:induction false} RootIsGreatest<T(!new)>(ops: RowOps<T>, s: seq<T>, i: nat)
    requires Preorder(ops.cmp, ops.sortable) && AllSortable(ops.sortable, s)
    requires HeapFrom(ops.cmp, s, 0) && i < |s|
    ensures NotAbove(ops.cmp, s, i, 0)
  {
    assert ops.sortable(s[i]) && ops.sortable(s[0]);
    if i > 0 {
      RootIsGreatest(ops, s, Parent(i));
      assert NotAbove(ops.cmp, s, i, Parent(i));
      assert ops.sortable(s[Parent(i)]);
    }
  }

  // ----- the class -----

  class MileArray<T(!new,0)> {
    var data: array<T>
    var num: nat

    ghost predicate Valid()
      reads this
    {
      num <= data.Length && data.Length >= 1
    }

    ghost function Contents(): seq<T>
      reads this, data
      requires Valid()
    {
      data[..num]
    }

    constructor ()
      ensures Valid() && fresh(data) && Contents() == []
    {
      data := new T[1000];
      num := 0;
    }

    method Add(x: T)
      requires Valid()
      modifies this, data
      ensures Valid() && (data == old(data) || fresh(data))
      ensures Contents() == old(Contents()) + [x]
    {
      if num == data.Length {
        var tmp := new T[data.Length * 2];
        forall i | 0 <= i < data.Length { tmp[i] := data[i]; }
        assert tmp[..num] == data[..num];
        data := tmp;
      }
      data[num] := x;
      num := num + 1;
    }

    method Get(i: nat) returns (x: Option<T>)
      requires Valid()
      ensures x == if i < |Contents()| then Some(Contents()[i]) else None
    {
      if i >= num { return None; }
      x := Some(data[i]);
    }

    method Set(i: nat, x: T)
      requires Valid()
      modifies data
      ensures Valid() && Contents() == if i < num then old(Contents())[i := x] else old(Contents())
    {
      if i < num { data[i] := x; }
    }

    method Heapify(root: nat, cmp: (T, T) -> int)
      requires Valid()
      modifies data
      ensures Valid() && Contents() == Sift(cmp, old(Contents()), root)
      decreases num - root
    {
      var max := root;
      if root * 2 + 1 >= num {
        return;
      } else if cmp(data[root * 2 + 1], data[max]) == 1 {
        max := root * 2 + 1;
      }
      if root * 2 + 2 < num && cmp(data[root * 2 + 2], data[max]) == 1 {
        max := root * 2 + 2;
      }
      assert max == Greatest(cmp, Contents(), root);
      if max != root {
        var tmp := data[max];
        data[max] := data[root];
        data[root] := tmp;
        assert Contents() == Swap(old(Contents()), root, max);
        Heapify(max, cmp);
      }
    }

    /** A permuted max-heap when all rows are sortable; always a permutation. */
    method BuildHeap(ghost ops: RowOps<T>, cmp: (T, T) -> int)
      requires Valid() && cmp == ops.cmp && Preorder(ops.cmp, ops.sortable)
      modifies data
      ensures Valid() && multiset(Contents()) == multiset(old(Contents()))
      ensures AllSortable(ops.sortable, old(Contents())) ==> HeapFrom(cmp, Contents(), 0)
    {
      if num >= 2 {
        var i := (num - 2) / 2;
        while i >= 0
          invariant -1 <= i <= (num - 2) / 2
          invariant multiset(Contents()) == multiset(old(Contents()))
          invariant AllSortable(ops.sortable, old(Contents())) ==> HeapFrom(cmp, Contents(), i + 1)
        {
          ghost var before := Contents();
          Heapify(i, cmp);
          hide Preorder, Sift;
          SiftPermutes(cmp, before, i);
          if AllSortable(ops.sortable, old(Contents())) {
            SortablePermutes(ops.sortable, old(Contents()), before);
            SiftHeaps(ops, before, i, i);
          }
          i := i - 1;
        }
      }
    }
  }

  lemma SortablePermutes<T(!new)>(sortable: T -> bool, s: seq<T>, t: seq<T>)
    requires AllSortable(sortable, s) && multiset(s) == multiset(t)
    ensures AllSortable(sortable, t)
  {
    forall i | 0 <= i < |t| ensures sortable(t[i]) {
      assert t[i] in multiset(s);
    }
  }
}
