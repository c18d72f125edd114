/** The row operations the result sets are parameterised by, and the laws they obey. */
module Rows {

  /** Equals, HashCoding, Clonable and Comparator. Comparing gives -1, 0 or 1, or -2 for two rows that cannot be
      compared, as columns of different types cannot. `sortable` is for stating properties only: it may name any
      rows that can all be compared with one another. */
  datatype RowOps<!T(!new)> = RowOps(
    eq: (T, T) -> bool,
    hash: T -> nat,
    clone: T -> T,
    cmp: (T, T) -> int,
    sortable: T -> bool)

  ghost predicate Equivalence<T(!new)>(eq: (T, T) -> bool) {
    && (forall x :: eq(x, x))
    && (forall x, y :: eq(x, y) ==> eq(y, x))
    && (forall x, y, z :: eq(x, y) && eq(y, z) ==> eq(x, z))
  }

  ghost predicate HashAgrees<T(!new)>(eq: (T, T) -> bool, hash: T -> nat) {
    forall x, y :: eq(x, y) ==> hash(x) == hash(y)
  }

  ghost predicate Preorder<T(!new)>(cmp: (T, T) -> int, sortable: T -> bool) {
    && (forall x, y :: sortable(x) && sortable(y) ==> cmp(x, y) == -1 || cmp(x, y) == 0 || cmp(x, y) == 1)
    && (forall x, y :: sortable(x) && sortable(y) ==> (cmp(x, y) == 1 <==> cmp(y, x) == -1))
    && (forall x, y, z :: sortable(x) && sortable(y) && sortable(z) && cmp(x, y) <= 0 && cmp(y, z) <= 0 ==>
        cmp(x, z) <= 0)
  }

  ghost predicate Lawful<T(!new)>(ops: RowOps<T>) {
    && Equivalence(ops.eq) && HashAgrees(ops.eq, ops.hash) && Preorder(ops.cmp, ops.sortable)
    && (forall x, y :: ops.eq(x, y) ==> ops.sortable(x) == ops.sortable(y))
    && (forall x, y :: ops.eq(x, y) && ops.sortable(x) ==> ops.cmp(x, y) == 0)
    && (forall x :: ops.eq(ops.clone(x), x))
  }

  /** Some row of `m` is Equal to `x`. */
  ghost predicate Has<T(!new)>(eq: (T, T) -> bool, m: multiset<T>, x: T) {
    exists y :: y in m && eq(y, x)
  }

  /** Rows of different classes, each once. */
  ghost predicate Different<T(!new)>(eq: (T, T) -> bool, m: multiset<T>) {
    && (forall x, y :: x in m && y in m && eq(x, y) ==> x == y)
    && (forall x :: m[x] <= 1)
  }

  /** The number of classes of Equal rows in `s`. */
  ghost function ClassCount<T(!new)>(eq: (T, T) -> bool, s: seq<T>): nat {
    if s == [] then 0
    else ClassCount(eq, s[..|s| - 1]) + if Has(eq, multiset(s[..|s| - 1]), s[|s| - 1]) then 0 else 1
  }

  lemma ClassCountSnoc<T(!new)>(eq: (T, T) -> bool, s: seq<T>, x: T)
    ensures ClassCount(eq, s + [x]) == ClassCount(eq, s) + if Has(eq, multiset(s), x) then 0 else 1
  {
    assert (s + [x])[..|s|] == s;
  }

  lemma HasAdd<T(!new)>(eq: (T, T) -> bool, m: multiset<T>, x: T, y: T)
    ensures Has(eq, m + multiset{x}, y) <==> Has(eq, m, y) || eq(x, y)
  {
    if eq(x, y) { assert x in m + multiset{x}; }
    if z :| z in m && eq(z, y) { assert z in m + multiset{x}; }
  }

  lemma HasEqual<T(!new)>(eq: (T, T) -> bool, m: multiset<T>, x: T, y: T)
    requires Equivalence(eq) && eq(x, y)
    ensures Has(eq, m, x) <==> Has(eq, m, y)
  {}

  // ----- which rows may be called sortable -----

  /** What Equals, HashCoding, Clonable and Comparator promise each other, without naming sortable rows:
      comparing is an order on any rows that can all be compared, and does not tell Equal rows apart. */
  ghost predicate Comparing<T(!new)>(ops: RowOps<T>) {
    && Equivalence(ops.eq) && HashAgrees(ops.eq, ops.hash) && (forall x :: ops.eq(ops.clone(x), x))
    && OrderWhereComparable(ops.cmp)
    && (forall x, y, z :: ops.eq(x, y) ==> ops.cmp(x, z) == ops.cmp(y, z) && ops.cmp(z, x) == ops.cmp(z, y))
  }

  ghost predicate OrderWhereComparable<T(!new)>(cmp: (T, T) -> int) {
    && (forall x :: cmp(x, x) == 0 || cmp(x, x) == -2)
    && (forall x, y :: cmp(x, y) == -2 || cmp(x, y) == -1 || cmp(x, y) == 0 || cmp(x, y) == 1)
    && (forall x, y :: cmp(x, y) == 1 <==> cmp(y, x) == -1)
    && (forall x, y, z :: -2 < cmp(x, y) <= 0 && -2 < cmp(y, z) <= 0 ==> cmp(x, z) <= 0)
  }

  /** Any two rows of `s` can be compared. */
  ghost predicate AllComparable<T(!new)>(ops: RowOps<T>, s: seq<T>) {
    forall x, y :: x in s && y in s ==> ops.cmp(x, y) != -2
  }

  /** Whatever rows come, if they can all be compared they may be called sortable. */
  lemma ComparableRows<T(!new)>(ops: RowOps<T>, s: seq<T>)
    requires Comparing(ops) && AllComparable(ops, s) && forall x :: ops.sortable(x) <==> Has(ops.eq, multiset(s), x)
    ensures Lawful(ops) && forall x :: x in s ==> ops.sortable(x)
  {
    forall x, y | ops.sortable(x) && ops.sortable(y) ensures ops.cmp(x, y) != -2 { LikeComparable(ops, s, x, y); }
    assert Preorder(ops.cmp, ops.sortable) by { hide Has, Equivalence, HashAgrees, AllComparable; }
    forall x, y | ops.eq(x, y) ensures ops.sortable(x) == ops.sortable(y) { HasEqual(ops.eq, multiset(s), x, y); }
    forall x, y | ops.eq(x, y) && ops.sortable(x) ensures ops.cmp(x, y) == 0 {
      assert ops.cmp(x, x) == ops.cmp(x, y);
    }
    forall x | x in s ensures ops.sortable(x) { assert x in multiset(s) && ops.eq(x, x); }
  }

  lemma LikeComparable<T(!new)>(ops: RowOps<T>, s: seq<T>, x: T, y: T)
    requires Comparing(ops) && AllComparable(ops, s) && Has(ops.eq, multiset(s), x) && Has(ops.eq, multiset(s), y)
    ensures ops.cmp(x, y) != -2
  {
    hide Equivalence, HashAgrees, OrderWhereComparable;
    var a :| a in multiset(s) && ops.eq(a, x);
    var b :| b in multiset(s) && ops.eq(b, y);
    assert ops.cmp(a, b) == ops.cmp(x, b) == ops.cmp(x, y);
  }
}
