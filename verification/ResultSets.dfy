/** DISTINCT ... ORDER BY ... LIMIT and DISTINCT ... LIMIT over a stream of rows. */
module ResultSets {
  import opened Rows
  import opened MileArrays
  import HashTables
  import opened Wrappers

  // ----- what the ordered result set keeps -----

  ghost predicate NotFull(limit: nat, n: nat) { limit == 0 || n < limit }

  /** Every kept row is ordered at or before `r`. */
  ghost predicate AtOrAbove<T(!new)>(ops: RowOps<T>, kept: multiset<T>, r: T) {
    forall a :: a in kept ==> ops.cmp(a, r) <= 0
  }

  /** `kept` answers the query over `seen`: one row for each of min(limit, classes seen) classes, and, when
      the rows can be ordered, no row left out is ordered before a row kept. */
  ghost predicate TopK<T(!new)>(ops: RowOps<T>, limit: nat, seen: seq<T>, kept: multiset<T>) {
    && Different(ops.eq, kept)
    && (forall a :: a in kept ==> Has(ops.eq, multiset(seen), a))
    && |kept| == (if NotFull(limit, ClassCount(ops.eq, seen)) then ClassCount(ops.eq, seen) else limit)
    && (NotFull(limit, |kept|) ==> forall r :: r in seen ==> Has(ops.eq, kept, r))
    && (AllSortable(ops.sortable, seen) ==> forall r :: r in seen ==> Has(ops.eq, kept, r) || AtOrAbove(ops, kept, r))
  }

  /** The hash set covers the kept rows and holds nothing but classes seen; it may lack rejected rows and
      still hold evicted ones. */
  ghost predicate SetBetween<T(!new)>(eq: (T, T) -> bool, seen: seq<T>, stored: multiset<T>, kept: multiset<T>) {
    && (forall a :: a in kept ==> Has(eq, stored, a))
    && (forall y :: y in stored ==> Has(eq, multiset(seen), y))
  }

  lemma SeenClass<T(!new)>(ops: RowOps<T>, seen: seq<T>, stored: multiset<T>, kept: multiset<T>, x: T)
    requires Lawful(ops) && SetBetween(ops.eq, seen, stored, kept) && Has(ops.eq, stored, x)
    ensures Has(ops.eq, multiset(seen), x)
  {
    var y :| y in stored && ops.eq(y, x);
    HasEqual(ops.eq, multiset(seen), y, x);
  }

  lemma SetBetweenGrows<T(!new)>(eq: (T, T) -> bool, seen: seq<T>, x: T, stored: multiset<T>, kept: multiset<T>)
    requires SetBetween(eq, seen, stored, kept)
    ensures SetBetween(eq, seen + [x], stored, kept)
  {
    forall y | y in stored ensures Has(eq, multiset(seen + [x]), y) { HasAdd(eq, multiset(seen), x, y); }
  }

  /** A row whose class was seen before changes nothing. */
  lemma SeenAgain<T(!new)>(ops: RowOps<T>, limit: nat, seen: seq<T>, kept: multiset<T>, x: T)
    requires Lawful(ops) && TopK(ops, limit, seen, kept) && Has(ops.eq, multiset(seen), x)
    ensures TopK(ops, limit, seen + [x], kept)
  {
    var eq := ops.eq;
    ClassCountSnoc(eq, seen, x);
    forall a | a in kept ensures Has(eq, multiset(seen + [x]), a) { HasAdd(eq, multiset(seen), x, a); }
    var y :| y in multiset(seen) && eq(y, x);
    HasEqual(eq, kept, y, x);
    if AllSortable(ops.sortable, seen + [x]) {
      SortablePrefix(ops.sortable, seen, x);
      if !Has(eq, kept, x) { EqualBound(ops, seen, kept, y, x); }
    }
  }

  lemma SortablePrefix<T(!new)>(sortable: T -> bool, seen: seq<T>, x: T)
    requires AllSortable(sortable, seen + [x])
    ensures AllSortable(sortable, seen) && sortable(x)
  {
    assert (seen + [x])[|seen|] == x;
    forall i | 0 <= i < |seen| ensures sortable(seen[i]) { assert (seen + [x])[i] == seen[i]; }
  }

  lemma KeptSortable<T(!new)>(ops: RowOps<T>, seen: seq<T>, kept: multiset<T>, a: T)
    requires Lawful(ops) && AllSortable(ops.sortable, seen) && a in kept
    requires forall b :: b in kept ==> Has(ops.eq, multiset(seen), b)
    ensures ops.sortable(a)
  {
    var y :| y in multiset(seen) && ops.eq(y, a);
    var i :| 0 <= i < |seen| && seen[i] == y;
  }

  lemma EqualBound<T(!new)>(ops: RowOps<T>, seen: seq<T>, kept: multiset<T>, y: T, x: T)
    requires Lawful(ops) && ops.eq(y, x) && AtOrAbove(ops, kept, y)
              && ops.sortable(x) && AllSortable(ops.sortable, seen)
    requires forall b :: b in kept ==> Has(ops.eq, multiset(seen), b)
    ensures AtOrAbove(ops, kept, x)
  {
    forall a | a in kept ensures ops.cmp(a, x) <= 0 { KeptSortable(ops, seen, kept, a); }
  }

  /** A new class while there is room. */
  lemma Appended<T(!new)>(ops: RowOps<T>, limit: nat, seen: seq<T>, kept: multiset<T>, x: T, y: T)
    requires Lawful(ops) && TopK(ops, limit, seen, kept) && NotFull(limit, |kept|)
    requires !Has(ops.eq, kept, x) && ops.eq(y, x)
    ensures TopK(ops, limit, seen + [x], kept + multiset{y})
  {
    var eq, kept' := ops.eq, kept + multiset{y};
    if Has(eq, multiset(seen), x) {
      var z :| z in multiset(seen) && eq(z, x);
      HasEqual(eq, kept, z, x);
      assert false;
    }
    ClassCountSnoc(eq, seen, x);
    forall a | a in kept' ensures Has(eq, multiset(seen + [x]), a) { HasAdd(eq, multiset(seen), x, a); }
    forall r | r in seen + [x] ensures Has(eq, kept', r) { HasAdd(eq, kept, y, r); }
    DifferentAdd(eq, kept, x, y);
  }

  lemma DifferentAdd<T(!new)>(eq: (T, T) -> bool, kept: multiset<T>, x: T, y: T)
    requires Equivalence(eq) && Different(eq, kept) && !Has(eq, kept, x) && eq(y, x)
    ensures Different(eq, kept + multiset{y})
  {
    forall a | a in kept ensures !eq(a, y) && !eq(y, a) {
    }
    forall a ensures (kept + multiset{y})[a] <= 1 {
      if a == y && a in kept { assert false; }
    }
  }

  lemma DifferentRemove<T(!new)>(ops: RowOps<T>, kept: multiset<T>, root: T, x: T, y: T)
    requires Lawful(ops) && Different(ops.eq, kept) && !Has(ops.eq, kept, x) && ops.eq(y, x)
    ensures Different(ops.eq, kept - multiset{root} + multiset{y}) && ops.eq(x, y)
  {
    assert forall a :: a in kept - multiset{root} ==> a in kept;
    DifferentAdd(ops.eq, kept - multiset{root}, x, y);
  }

  /** A new class that is not ordered before any kept row, when there is no room. */
  lemma Rejected<T(!new)>(ops: RowOps<T>, limit: nat, seen: seq<T>, kept: multiset<T>, x: T)
    requires Lawful(ops) && TopK(ops, limit, seen, kept) && !NotFull(limit, |kept|)
    requires AllSortable(ops.sortable, seen + [x]) ==> AtOrAbove(ops, kept, x)
    ensures TopK(ops, limit, seen + [x], kept)
  {
    ClassCountSnoc(ops.eq, seen, x);
    forall a | a in kept ensures Has(ops.eq, multiset(seen + [x]), a) { HasAdd(ops.eq, multiset(seen), x, a); }
    if AllSortable(ops.sortable, seen + [x]) { SortablePrefix(ops.sortable, seen, x); }
  }

  /** A new class ordered before the greatest kept row takes that row's place. */
  lemma Replaced<T(!new)>(ops: RowOps<T>, limit: nat, seen: seq<T>, kept: multiset<T>, root: T, x: T, y: T)
    requires Lawful(ops) && TopK(ops, limit, seen, kept) && !NotFull(limit, |kept|)
    requires root in kept && !Has(ops.eq, kept, x) && ops.eq(y, x)
    requires AllSortable(ops.sortable, seen + [x]) ==> AtOrAbove(ops, kept, root) && ops.cmp(x, root) == -1
    ensures TopK(ops, limit, seen + [x], kept - multiset{root} + multiset{y})
  {
    hide Lawful, Different, Has, AtOrAbove;
    var eq, kept' := ops.eq, kept - multiset{root} + multiset{y};
    ClassCountSnoc(eq, seen, x);
    DifferentRemove(ops, kept, root, x, y);
    forall a | a in kept' ensures Has(eq, multiset(seen + [x]), a) { HasAdd(eq, multiset(seen), x, a); }
    if AllSortable(ops.sortable, seen + [x]) {
      SortablePrefix(ops.sortable, seen, x);
      forall r | r in seen + [x] ensures Has(eq, kept', r) || AtOrAbove(ops, kept', r) {
        assert r in seen || r == x;
        ReplacedCovers(ops, seen, kept, root, x, y, r);
      }
    }
  }

  lemma ReplacedCovers<T(!new)>(ops: RowOps<T>, seen: seq<T>, kept: multiset<T>, root: T, x: T, y: T, r: T)
    requires Lawful(ops) && AllSortable(ops.sortable, seen) && ops.sortable(x) && (r in seen || r == x)
    requires forall b :: b in kept ==> Has(ops.eq, multiset(seen), b)
    requires root in kept && AtOrAbove(ops, kept, root) && ops.cmp(x, root) == -1 && ops.eq(y, x)
    requires r in seen ==> Has(ops.eq, kept, r) || AtOrAbove(ops, kept, r)
    ensures Has(ops.eq, kept - multiset{root} + multiset{y}, r)
              || AtOrAbove(ops, kept - multiset{root} + multiset{y}, r)
  {
    HasAdd(ops.eq, kept - multiset{root}, y, r);
    hide Has, AtOrAbove, Lawful;
    if !Has(ops.eq, kept - multiset{root} + multiset{y}, r) { ReplacedBound(ops, seen, kept, root, x, y, r); }
  }

  lemma CmpTrans<T(!new)>(ops: RowOps<T>, a: T, b: T, c: T)
    requires Lawful(ops) && ops.sortable(a) && ops.sortable(b) && ops.sortable(c)
    requires ops.cmp(a, b) <= 0 && ops.cmp(b, c) <= 0
    ensures ops.cmp(a, c) <= 0
  {}

  lemma CmpEqual<T(!new)>(ops: RowOps<T>, a: T, b: T)
    requires Lawful(ops) && ops.eq(a, b)
    ensures ops.sortable(a) == ops.sortable(b) && (ops.sortable(a) ==> ops.cmp(a, b) == 0)
  {}

  lemma SortableRow<T(!new)>(sortable: T -> bool, seen: seq<T>, r: T)
    requires AllSortable(sortable, seen) && r in seen
    ensures sortable(r)
  {}

  lemma ReplacedBound<T(!new)>(ops: RowOps<T>, seen: seq<T>, kept: multiset<T>, root: T, x: T, y: T, r: T)
    requires Lawful(ops) && AllSortable(ops.sortable, seen) && ops.sortable(x) && r in seen
    requires forall b :: b in kept ==> Has(ops.eq, multiset(seen), b)
    requires root in kept && AtOrAbove(ops, kept, root) && ops.cmp(x, root) == -1 && ops.eq(y, x)
    requires Has(ops.eq, kept, r) || AtOrAbove(ops, kept, r)
    requires !Has(ops.eq, kept - multiset{root}, r)
    ensures AtOrAbove(ops, kept - multiset{root} + multiset{y}, r)
  {
    hide Lawful, AllSortable;
    SortableRow(ops.sortable, seen, r);
    CmpEqual(ops, y, x);
    KeptSortable(ops, seen, kept, root);
    assert ops.cmp(root, r) <= 0 by {
      if Has(ops.eq, kept, r) {
        var z :| z in kept && ops.eq(z, r);
        if z != root { assert false; }
        CmpEqual(ops, root, r);
      }
    }
    forall a | a in kept - multiset{root} + multiset{y} ensures ops.cmp(a, r) <= 0 {
      if a == y {
        CmpTrans(ops, y, x, root);
        CmpTrans(ops, y, root, r);
      } else {
        KeptSortable(ops, seen, kept, a);
        CmpTrans(ops, a, root, r);
      }
    }
  }

  /** The set after adding a row of x's class. */
  lemma SetBetweenAdd<T(!new)>(ops: RowOps<T>, seen: seq<T>, stored: multiset<T>,
                        kept: multiset<T>, kept': multiset<T>, x: T, y: T)
    requires Lawful(ops) && SetBetween(ops.eq, seen, stored, kept) && ops.eq(y, x)
    requires forall a :: a in kept' ==> a in kept || a == y
    ensures SetBetween(ops.eq, seen + [x], stored + multiset{y}, kept')
  {
    hide Preorder, HashAgrees;
    forall a | a in kept' ensures Has(ops.eq, stored + multiset{y}, a) { HasAdd(ops.eq, stored, y, a); }
    forall z | z in stored + multiset{y} ensures Has(ops.eq, multiset(seen + [x]), z)
        { HasAdd(ops.eq, multiset(seen), x, z); }
  }

  lemma NotStoredNotKept<T(!new)>(ops: RowOps<T>, seen: seq<T>, stored: multiset<T>, kept: multiset<T>, x: T)
    requires Lawful(ops) && SetBetween(ops.eq, seen, stored, kept) && !Has(ops.eq, stored, x)
    ensures !Has(ops.eq, kept, x)
  {
    if a :| a in kept && ops.eq(a, x) {
      HasEqual(ops.eq, stored, a, x);
      assert false;
    }
  }

  /** The root of the heap bounds every kept row. */
  lemma RootBounds<T(!new)>(ops: RowOps<T>, seen: seq<T>, s: seq<T>)
    requires Lawful(ops) && AllSortable(ops.sortable, seen) && s != [] && HeapFrom(ops.cmp, s, 0)
    requires forall a :: a in multiset(s) ==> Has(ops.eq, multiset(seen), a)
    ensures AllSortable(ops.sortable, s) && AtOrAbove(ops, multiset(s), s[0])
  {
    forall i | 0 <= i < |s| ensures ops.sortable(s[i]) { KeptSortable(ops, seen, multiset(s), s[i]); }
    forall a | a in multiset(s) ensures ops.cmp(a, s[0]) <= 0 {
      var i :| 0 <= i < |s| && s[i] == a;
      RootIsGreatest(ops, s, i);
    }
  }

  /** When the root is at or before x, so is every kept row. */
  lemma RootRejects<T(!new)>(ops: RowOps<T>, seen: seq<T>, s: seq<T>, x: T)
    requires Lawful(ops) && AllSortable(ops.sortable, s) && ops.sortable(x) && s != []
    requires AtOrAbove(ops, multiset(s), s[0]) && ops.cmp(x, s[0]) != -1
    ensures AtOrAbove(ops, multiset(s), x)
  {
    forall a | a in multiset(s) ensures ops.cmp(a, x) <= 0 {
      var i :| 0 <= i < |s| && s[i] == a;
      assert ops.cmp(a, s[0]) <= 0 && ops.cmp(s[0], x) <= 0;
    }
  }

  /** Replacing the root and sifting down keeps the heap and exchanges one row. */
  lemma ReplaceRoot<T(!new)>(ops: RowOps<T>, s: seq<T>, y: T)
    requires Lawful(ops) && s != []
    ensures multiset(Sift(ops.cmp, s[0 := y], 0)) == multiset(s) - multiset{s[0]} + multiset{y}
    ensures AllSortable(ops.sortable, s[0 := y]) && HeapFrom(ops.cmp, s, 0) ==>
              HeapFrom(ops.cmp, Sift(ops.cmp, s[0 := y], 0), 0)
  {
    SiftPermutes(ops.cmp, s[0 := y], 0);
    if AllSortable(ops.sortable, s[0 := y]) && HeapFrom(ops.cmp, s, 0) {
      hide Preorder;
      var t := s[0 := y];
      forall c | 0 < c < |t| && Parent(c) != 0 ensures NotAbove(ops.cmp, t, c, Parent(c)) {
        assert NotAbove(ops.cmp, s, c, Parent(c));
      }
      SiftHeaps(ops, t, 0, 0);
    }
  }

  // ----- one call of AddResult, branch by branch -----

  ghost predicate Keeps<T(!new)>(ops: RowOps<T>, limit: nat, seen: seq<T>, stored: multiset<T>, kept: multiset<T>) {
    SetBetween(ops.eq, seen, stored, kept) && TopK(ops, limit, seen, kept)
  }

  /** The heap property is only claimed for rows that can be ordered. */
  ghost predicate Heaped<T(!new)>(ops: RowOps<T>, seen: seq<T>, s: seq<T>) {
    AllSortable(ops.sortable, seen) ==> HeapFrom(ops.cmp, s, 0)
  }

  lemma HeapedGrows<T(!new)>(ops: RowOps<T>, seen: seq<T>, s: seq<T>, x: T)
    requires Heaped(ops, seen, s)
    ensures Heaped(ops, seen + [x], s)
  {
    if AllSortable(ops.sortable, seen + [x]) { SortablePrefix(ops.sortable, seen, x); }
  }

  lemma CloneIsEqual<T(!new)>(ops: RowOps<T>, x: T)
    requires Lawful(ops)
    ensures ops.eq(ops.clone(x), x)
  {}

  lemma LawfulEquality<T(!new)>(ops: RowOps<T>)
    requires Lawful(ops)
    ensures Equivalence(ops.eq) && HashAgrees(ops.eq, ops.hash)
  {}

  lemma KeepsNothing<T(!new)>(ops: RowOps<T>, limit: nat)
    ensures Keeps(ops, limit, [], multiset([]), multiset([]))
  {}

  lemma LawfulOrder<T(!new)>(ops: RowOps<T>)
    requires Lawful(ops)
    ensures Preorder(ops.cmp, ops.sortable)
  {}

  lemma SortableOrder<T(!new)>(ops: RowOps<T>, seen: seq<T>, s: seq<T>, x: T)
    requires Lawful(ops) && AllSortable(ops.sortable, seen) && ops.sortable(x) && s != []
    requires forall a :: a in multiset(s) ==> Has(ops.eq, multiset(seen), a)
    ensures ops.cmp(x, s[0]) != -2
  {
    KeptSortable(ops, seen, multiset(s), s[0]);
  }

  /** Rows that can all be ordered are never reported. */
  lemma NotIncomparable<T(!new)>(ops: RowOps<T>, limit: nat, seen: seq<T>, stored: multiset<T>, s: seq<T>, x: T)
    requires Lawful(ops) && Keeps(ops, limit, seen, stored, multiset(s)) && s != []
    ensures AllSortable(ops.sortable, seen + [x]) ==> ops.cmp(x, s[0]) != -2
  {
    if AllSortable(ops.sortable, seen + [x]) {
      SortablePrefix(ops.sortable, seen, x);
      SortableOrder(ops, seen, s, x);
    }
  }

  lemma WithinLimit<T(!new)>(ops: RowOps<T>, limit: nat, seen: seq<T>, stored: multiset<T>, s: seq<T>)
    requires Keeps(ops, limit, seen, stored, multiset(s))
    ensures limit != 0 ==> |s| <= limit
  {
    assert |multiset(s)| == |s|;
  }

  lemma KnownRow<T(!new)>(ops: RowOps<T>, limit: nat, seen: seq<T>, stored: multiset<T>, kept: multiset<T>, x: T)
    requires Lawful(ops) && Keeps(ops, limit, seen, stored, kept) && Has(ops.eq, stored, x)
    ensures Keeps(ops, limit, seen + [x], stored, kept)
    ensures forall s :: Heaped(ops, seen, s) ==> Heaped(ops, seen + [x], s)
  {
    SeenClass(ops, seen, stored, kept, x);
    SeenAgain(ops, limit, seen, kept, x);
    SetBetweenGrows(ops.eq, seen, x, stored, kept);
    forall s | Heaped(ops, seen, s) ensures Heaped(ops, seen + [x], s) { HeapedGrows(ops, seen, s, x); }
  }

  lemma NewRow<T(!new)>(ops: RowOps<T>, limit: nat, seen: seq<T>, stored: multiset<T>, s: seq<T>, x: T, y: T)
    requires Lawful(ops) && Keeps(ops, limit, seen, stored, multiset(s)) && NotFull(limit, |s|)
    requires !Has(ops.eq, stored, x) && ops.eq(y, x)
    ensures !Has(ops.eq, stored, y)
    ensures Keeps(ops, limit, seen + [x], stored + multiset{y}, multiset(s + [y]))
  {
    HasEqual(ops.eq, stored, y, x);
    hide Lawful;
    NotStoredNotKept(ops, seen, stored, multiset(s), x);
    Appended(ops, limit, seen, multiset(s), x, y);
    SetBetweenAdd(ops, seen, stored, multiset(s), multiset(s) + multiset{y}, x, y);
    assert multiset(s + [y]) == multiset(s) + multiset{y};
  }

  /** What BuildHeap does to the kept rows: the same rows, now a heap if they can be ordered. */
  lemma BuiltHeap<T(!new)>(ops: RowOps<T>, limit: nat, seen: seq<T>, stored: multiset<T>, s: seq<T>, t: seq<T>)
    requires Lawful(ops) && Keeps(ops, limit, seen, stored, multiset(s)) && multiset(t) == multiset(s)
    requires AllSortable(ops.sortable, s) ==> HeapFrom(ops.cmp, t, 0)
    ensures Keeps(ops, limit, seen, stored, multiset(t)) && Heaped(ops, seen, t) && |t| == |s|
  {
    assert |t| == |multiset(t)| == |multiset(s)| == |s|;
    if AllSortable(ops.sortable, seen) {
      forall i | 0 <= i < |s| ensures ops.sortable(s[i]) {
        assert s[i] in multiset(s);
        KeptSortable(ops, seen, multiset(s), s[i]);
      }
    }
  }

  lemma RejectedRow<T(!new)>(ops: RowOps<T>, limit: nat, seen: seq<T>, stored: multiset<T>, s: seq<T>, x: T)
    requires Lawful(ops) && Keeps(ops, limit, seen, stored, multiset(s)) && !NotFull(limit, |s|)
    requires s != [] && Heaped(ops, seen, s) && ops.cmp(x, s[0]) != -1
    ensures Keeps(ops, limit, seen + [x], stored, multiset(s)) && Heaped(ops, seen + [x], s)
  {
    SetBetweenGrows(ops.eq, seen, x, stored, multiset(s));
    if AllSortable(ops.sortable, seen + [x]) {
      SortablePrefix(ops.sortable, seen, x);
      RootBounds(ops, seen, s);
      RootRejects(ops, seen, s, x);
    }
    hide Lawful;
    Rejected(ops, limit, seen, multiset(s), x);
  }

  lemma ReplacedRow<T(!new)>(ops: RowOps<T>, limit: nat, seen: seq<T>, stored: multiset<T>, s: seq<T>, x: T, y: T)
    requires Lawful(ops) && Keeps(ops, limit, seen, stored, multiset(s)) && !NotFull(limit, |s|)
    requires s != [] && Heaped(ops, seen, s) && ops.cmp(x, s[0]) == -1
    requires !Has(ops.eq, stored, x) && ops.eq(y, x)
    ensures !Has(ops.eq, stored, y)
    ensures var s' := Sift(ops.cmp, s[0 := y], 0);
            |s'| == |s| && Keeps(ops, limit, seen + [x], stored + multiset{y}, multiset(s'))
                && Heaped(ops, seen + [x], s')
  {
    HasEqual(ops.eq, stored, y, x);
    var s' := Sift(ops.cmp, s[0 := y], 0);
    ReplaceRoot(ops, s, y);
    NotStoredNotKept(ops, seen, stored, multiset(s), x);
    if AllSortable(ops.sortable, seen + [x]) {
      SortablePrefix(ops.sortable, seen, x);
      RootBounds(ops, seen, s);
      assert AllSortable(ops.sortable, s[0 := y]);
    }
    hide Lawful, Sift;
    Replaced(ops, limit, seen, multiset(s), s[0], x, y);
    SetBetweenAdd(ops, seen, stored, multiset(s), multiset(s'), x, y);
  }

  // ----- the classes -----

  const SUCCESS := 0
  const INCOMPARABLE := -2
  const EXCEED_LIMIT := 1

  class DistOrdRS<T(!new,0)> {
    const ops: RowOps<T>
    const limit: nat
    const stored: HashTables.HashSet<T>
    const arr: MileArray<T>
    var heaped: bool
    ghost var seen: seq<T>

    ghost predicate Valid()
      reads this, stored, stored.buckets, arr, arr.data
    {
      Answers(seen)
    }

    /** The state answers the query over `rows`. */
    ghost predicate Answers(rows: seq<T>)
      reads this, stored, stored.buckets, arr, arr.data
    {
      && (arr.data as object) != stored.buckets
      && Lawful(ops) && stored.Valid() && arr.Valid() && stored.eq == ops.eq
      && Keeps(ops, limit, rows, multiset(stored.Stored()), multiset(arr.Contents()))
      && (heaped ==> !NotFull(limit, |arr.Contents()|) && Heaped(ops, rows, arr.Contents()))
    }

    constructor (ops: RowOps<T>, limit: nat)
      requires Lawful(ops)
      ensures Valid() && seen == [] && this.ops == ops && this.limit == limit
      ensures fresh(stored) && fresh(stored.buckets) && fresh(arr) && fresh(arr.data)
    {
      hide Lawful, Keeps, HeapFrom, HashTables.WellFormed, Equivalence, HashAgrees, Preorder;
      LawfulEquality(ops);
      KeepsNothing(ops, limit);
      this.ops := ops;
      this.limit := limit;
      stored := new HashTables.HashSet(ops.eq, ops.hash);
      arr := new MileArray();
      heaped := false;
      seen := [];
    }

    /** Whatever the order of arrival, the array answers the query over all rows added so far. */
    method AddResult(data: T) returns (rc: int, ghost top: Option<T>)
      requires Valid()
      modifies this, stored, stored.buckets, arr, arr.data
      ensures Valid() && seen == old(seen) + [data]
      ensures arr.data == old(arr.data) || fresh(arr.data)
      ensures top.Some? <==> old(!NotFull(limit, arr.num) && !Has(ops.eq, multiset(stored.Stored()), data))
      ensures Verdict(data, rc, top, old(multiset(arr.Contents())))
      ensures AllSortable(ops.sortable, seen) ==> rc == SUCCESS
    {
      hide Lawful, Keeps, Heaped, Has, HashTables.WellFormed, Equivalence, HashAgrees;
      ghost var rows := seen;
      var known := stored.Contains(data);
      if known {
        KnownRow(ops, limit, rows, multiset(stored.Stored()), multiset(arr.Contents()), data);
        seen := seen + [data];
        return SUCCESS, None;
      }
      WithinLimit(ops, limit, rows, multiset(stored.Stored()), arr.Contents());
      if arr.num == limit && limit != 0 {
        rc, top := AddToFull(rows, data);
      } else {
        AddWithRoom(rows, data);
        rc, top := SUCCESS, None;
      }
      seen := seen + [data];
    }

    /** The rows CreateIterator's iterator visits. */
    method Collect() returns (kept: seq<T>)
      requires Valid()
      ensures TopK(ops, limit, seen, multiset(kept))
    {
      hide Lawful, TopK, Heaped, HashTables.WellFormed, Equivalence, HashAgrees;
      kept := arr.data[..arr.num];
    }

    method AddWithRoom(ghost rows: seq<T>, data: T)
      requires Answers(rows) && !Has(ops.eq, multiset(stored.Stored()), data) && NotFull(limit, arr.num)
      modifies stored, stored.buckets, arr, arr.data
      ensures Answers(rows + [data]) && (arr.data == old(arr.data) || fresh(arr.data))
    {
      hide Lawful, Keeps, Heaped, Has, HashTables.WellFormed, Equivalence, HashAgrees;
      var copy := ops.clone(data);
      CloneIsEqual(ops, data);
      NewRow(ops, limit, rows, multiset(stored.Stored()), arr.Contents(), data, copy);
      stored.Add(copy);
      arr.Add(copy);
    }

    /** `rc` reports whether the row could be compared with `top`, the kept row it was compared with, if any;
        a row that could not be changes nothing kept. */
    ghost predicate Verdict(data: T, rc: int, top: Option<T>, kept: multiset<T>)
      reads this, arr, arr.data
      requires arr.Valid()
    {
      && (top.Some? ==> top.value in kept)
      && rc == (if top.Some? && ops.cmp(data, top.value) == -2 then INCOMPARABLE else SUCCESS)
      && (rc == INCOMPARABLE ==> multiset(arr.Contents()) == kept)
    }

    method AddToFull(ghost rows: seq<T>, data: T) returns (rc: int, ghost top: Option<T>)
      requires Answers(rows) && !Has(ops.eq, multiset(stored.Stored()), data) && !NotFull(limit, arr.num)
      modifies this`heaped, stored, stored.buckets, arr, arr.data
      ensures Answers(rows + [data]) && arr.data == old(arr.data)
      ensures top.Some? && Verdict(data, rc, top, old(multiset(arr.Contents())))
      ensures AllSortable(ops.sortable, rows + [data]) ==> rc == SUCCESS
    {
      hide Lawful, Keeps, Heaped, Has, HashTables.WellFormed, Equivalence, HashAgrees, Preorder, HeapFrom, AllSortable;
      if !heaped {
        ghost var s := arr.Contents();
        LawfulOrder(ops);
        arr.BuildHeap(ops, ops.cmp);
        heaped := true;
        BuiltHeap(ops, limit, rows, multiset(stored.Stored()), s, arr.Contents());
      }
      var root := arr.Get(0);
      var first := root.value;
      var order := ops.cmp(data, first);
      top := Some(first);
      assert first == arr.Contents()[0] && first in multiset(arr.Contents());
      NotIncomparable(ops, limit, rows, multiset(stored.Stored()), arr.Contents(), data);
      if order == -1 {
        ReplaceTop(rows, data);
        return SUCCESS, top;
      }
      RejectedRow(ops, limit, rows, multiset(stored.Stored()), arr.Contents(), data);
      rc := if order == -2 then INCOMPARABLE else SUCCESS;
    }

    method ReplaceTop(ghost rows: seq<T>, data: T)
      requires Answers(rows) && heaped && !Has(ops.eq, multiset(stored.Stored()), data)
      requires ops.cmp(data, arr.Contents()[0]) == -1
      modifies stored, stored.buckets, arr.data
      ensures Answers(rows + [data])
    {
      hide Lawful, Keeps, Heaped, Has, HashTables.WellFormed, Equivalence, HashAgrees, Sift;
      var copy := ops.clone(data);
      CloneIsEqual(ops, data);
      ReplacedRow(ops, limit, rows, multiset(stored.Stored()), arr.Contents(), data, copy);
      arr.Set(0, copy);
      arr.Heapify(0, ops.cmp);
      stored.Add(copy);
    }
  }

  // ----- DISTINCT ... LIMIT -----

  /** x's class occurred while fewer than `limit` classes had been seen. */
  ghost predicate Early<T(!new)>(eq: (T, T) -> bool, limit: nat, seen: seq<T>, x: T) {
    exists i :: 0 <= i < |seen| && eq(seen[i], x) && NotFull(limit, ClassCount(eq, seen[..i]))
  }

  /** The kept classes are exactly the first `limit` classes of the stream. */
  ghost predicate FirstK<T(!new)>(eq: (T, T) -> bool, limit: nat, seen: seq<T>, kept: multiset<T>) {
    && (forall x :: Has(eq, kept, x) <==> Early(eq, limit, seen, x))
    && |kept| == (if NotFull(limit, ClassCount(eq, seen)) then ClassCount(eq, seen) else limit)
  }

  lemma EarlySnoc<T(!new)>(eq: (T, T) -> bool, limit: nat, seen: seq<T>, x: T, y: T)
    ensures Early(eq, limit, seen + [x], y) <==>
            Early(eq, limit, seen, y) || (eq(x, y) && NotFull(limit, ClassCount(eq, seen)))
  {
    var all := seen + [x];
    assert all[..|seen|] == seen && all[|seen|] == x;
    if i :| 0 <= i < |seen| && eq(seen[i], y) && NotFull(limit, ClassCount(eq, seen[..i])) {
      assert all[..i] == seen[..i] && all[i] == seen[i];
    }
    if i :| 0 <= i < |all| && eq(all[i], y) && NotFull(limit, ClassCount(eq, all[..i])) {
      if i < |seen| { assert all[..i] == seen[..i]; }
    }
  }

  /** While there is room every class seen is early. */
  lemma {:induction false} RoomMeansEarly<T(!new)>(eq: (T, T) -> bool, limit: nat, seen: seq<T>, x: T)
    requires NotFull(limit, ClassCount(eq, seen)) && Has(eq, multiset(seen), x)
    ensures Early(eq, limit, seen, x)
  {
    var y :| y in multiset(seen) && eq(y, x);
    var i :| 0 <= i < |seen| && seen[i] == y;
    PrefixCount(eq, seen, i);
  }

  lemma {:induction false} PrefixCount<T(!new)>(eq: (T, T) -> bool, s: seq<T>, i: nat)
    requires i <= |s|
    ensures ClassCount(eq, s[..i]) <= ClassCount(eq, s)
  {
    if i == |s| {
      assert s[..i] == s;
    } else {
      PrefixCount(eq, s[..|s| - 1], i);
      assert s[..|s| - 1][..i] == s[..i];
    }
  }

  lemma FirstKStep<T(!new)>(eq: (T, T) -> bool, limit: nat, seen: seq<T>, kept: multiset<T>, x: T, y: T)
    requires Equivalence(eq) && FirstK(eq, limit, seen, kept) && eq(y, x) && eq(x, y)
    ensures !NotFull(limit, |kept|) || Has(eq, kept, x) ==> FirstK(eq, limit, seen + [x], kept)
    ensures NotFull(limit, |kept|) && !Has(eq, kept, x) ==> FirstK(eq, limit, seen + [x], kept + multiset{y})
  {
    hide Equivalence, Early, ClassCount, Has;
    ClassCountSnoc(eq, seen, x);
    if Has(eq, kept, x) { EarlyIsSeen(eq, limit, seen, x); }
    if NotFull(limit, |kept|) && Has(eq, multiset(seen), x) { RoomMeansEarly(eq, limit, seen, x); }
    forall z ensures Early(eq, limit, seen + [x], z) <==>
                     Early(eq, limit, seen, z) || (eq(x, z) && NotFull(limit, ClassCount(eq, seen)))
      ensures Has(eq, kept + multiset{y}, z) <==> Has(eq, kept, z) || eq(x, z)
      ensures eq(x, z) ==> (Has(eq, kept, x) <==> Has(eq, kept, z))
    {
      EarlySnoc(eq, limit, seen, x, z);
      HasAdd(eq, kept, y, z);
      SameClass(eq, x, y, z);
      if eq(x, z) { HasEqual(eq, kept, x, z); }
    }
  }

  lemma SameClass<T(!new)>(eq: (T, T) -> bool, x: T, y: T, z: T)
    requires Equivalence(eq) && eq(x, y)
    ensures eq(x, z) <==> eq(y, z)
  {}

  lemma EarlyIsSeen<T(!new)>(eq: (T, T) -> bool, limit: nat, seen: seq<T>, x: T)
    requires Early(eq, limit, seen, x)
    ensures Has(eq, multiset(seen), x)
  {
    var i :| 0 <= i < |seen| && eq(seen[i], x);
    assert seen[i] in multiset(seen);
  }

  class DistinctRS<T(!new)> {
    const ops: RowOps<T>
    const limit: nat
    const stored: HashTables.HashSet<T>
    var num: nat
    ghost var seen: seq<T>

    ghost predicate Valid()
      reads this, stored, stored.buckets
    {
      && Lawful(ops) && stored.Valid() && stored.eq == ops.eq
      && num == |stored.Stored()|
      && FirstK(ops.eq, limit, seen, multiset(stored.Stored()))
    }

    constructor (ops: RowOps<T>, limit: nat)
      requires Lawful(ops)
      ensures Valid() && seen == [] && this.ops == ops && this.limit == limit
      ensures fresh(stored) && fresh(stored.buckets)
    {
      this.ops := ops;
      this.limit := limit;
      stored := new HashTables.HashSet(ops.eq, ops.hash);
      num := 0;
      seen := [];
    }

    method AddResult(data: T) returns (rc: int)
      requires Valid()
      modifies this, stored, stored.buckets
      ensures Valid() && seen == old(seen) + [data]
      ensures rc == if old(NotFull(limit, num)) then SUCCESS else EXCEED_LIMIT
    {
      hide Lawful, FirstK, Has, HashTables.WellFormed, Equivalence, HashAgrees;
      ghost var rows, was := seen, multiset(stored.Stored());
      var copy := ops.clone(data);
      CloneIsEqual(ops, data);
      FirstKWithin(ops, limit, rows, stored.Stored(), data, copy);
      seen := seen + [data];
      if num == limit && limit != 0 { return EXCEED_LIMIT; }
      var known := stored.Contains(data);
      if known { return SUCCESS; }
      stored.Add(copy);
      num := num + 1;
      assert |multiset(stored.Stored())| == |was| + 1;
      return SUCCESS;
    }

    /** The rows CreateIterator's iterator visits. */
    method Collect() returns (kept: seq<T>)
      requires Valid()
      ensures FirstK(ops.eq, limit, seen, multiset(kept))
    {
      hide Lawful, FirstK, Equivalence, HashAgrees;
      kept := HashTables.Visit(stored.buckets[..]);
    }
  }

  lemma FirstKWithin<T(!new)>(ops: RowOps<T>, limit: nat, seen: seq<T>, s: seq<T>, x: T, y: T)
    requires Lawful(ops) && FirstK(ops.eq, limit, seen, multiset(s)) && ops.eq(y, x)
    ensures limit != 0 ==> |s| <= limit
    ensures |multiset(s)| == |s|
    ensures !NotFull(limit, |s|) || Has(ops.eq, multiset(s), x) ==> FirstK(ops.eq, limit, seen + [x], multiset(s))
    ensures NotFull(limit, |s|) && !Has(ops.eq, multiset(s), x) ==>
              !Has(ops.eq, multiset(s), y) && FirstK(ops.eq, limit, seen + [x], multiset(s) + multiset{y})
  {
    assert |multiset(s)| == |s|;
    assert ops.eq(x, y);
    FirstKStep(ops.eq, limit, seen, multiset(s), x, y);
    HasEqual(ops.eq, multiset(s), y, x);
  }

  // ----- whole queries -----

  /** Any sequence of AddResult calls on a fresh ordered result set. */
  method DistinctOrderedQuery<T(!new,0)>(ops: RowOps<T>, limit: nat, rows: seq<T>) returns (kept: seq<T>)
    requires Lawful(ops)
    ensures TopK(ops, limit, rows, multiset(kept))
  {
    hide Lawful, TopK, DistOrdRS.Valid;
    var rs := new DistOrdRS(ops, limit);
    for i := 0 to |rows|
      invariant rs.Valid() && rs.ops == ops && rs.limit == limit && rs.seen == rows[..i]
      invariant fresh(rs) && fresh(rs.stored) && fresh(rs.stored.buckets) && fresh(rs.arr) && fresh(rs.arr.data)
    {
      var _, _ := rs.AddResult(rows[i]);
      assert rows[..i + 1] == rows[..i] + [rows[i]];
    }
    assert rows[..|rows|] == rows;
    kept := rs.Collect();
  }

  /** Any sequence of AddResult calls on a fresh unordered result set. */
  method DistinctQuery<T(!new)>(ops: RowOps<T>, limit: nat, rows: seq<T>) returns (kept: seq<T>)
    requires Lawful(ops)
    ensures FirstK(ops.eq, limit, rows, multiset(kept))
  {
    hide Lawful, FirstK, DistinctRS.Valid;
    var rs := new DistinctRS(ops, limit);
    for i := 0 to |rows|
      invariant rs.Valid() && rs.ops == ops && rs.limit == limit && rs.seen == rows[..i]
      invariant fresh(rs) && fresh(rs.stored) && fresh(rs.stored.buckets)
    {
      var _ := rs.AddResult(rows[i]);
      assert rows[..i + 1] == rows[..i] + [rows[i]];
    }
    assert rows[..|rows|] == rows;
    kept := rs.Collect();
  }
}
