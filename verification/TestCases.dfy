/**
 * The registry of test cases: registration keeps death test cases in front, a
 * shuffle permutes each of the two groups, and unshuffling undoes it.
 */
module TestCases {
  import Filters
  import opened Sequences
  import opened Wrappers

  const DEATH_TEST_CASE := "*DeathTest:*DeathTest/*"

  ghost predicate IsDeath(name: string) { Filters.SomePattern(DEATH_TEST_CASE, name) }

  // ----- Fisher-Yates -----

  function SwapAt<T>(v: seq<T>, i: nat, j: nat): (r: seq<T>)
    requires i < |v| && j < |v|
    ensures |r| == |v| && r[i] == v[j] && r[j] == v[i]
  {
    v[i := v[j]][j := v[i]]
  }

  /** What the generator hands out: the number used for a range of width w is below w. */
  ghost predicate Draws(draws: seq<nat>) { forall w :: 0 <= w < |draws| ==> draws[w] <= w }

  /** The outcome for given draws; draws[w - 1] is the one made for a range of width w. */
  ghost function Shuffled<T>(v: seq<T>, lo: nat, draws: seq<nat>): (r: seq<T>)
    requires lo + |draws| <= |v| && Draws(draws)
    ensures |r| == |v|
    decreases |draws|
  {
    if |draws| < 2 then v
    else
      var last := |draws| - 1;
      Shuffled(SwapAt(v, lo + draws[last], lo + last), lo, draws[..last])
  }

  /** The first draw picks what goes last, the others shuffle the rest. */
  lemma ShuffledOnce<T>(v: seq<T>, lo: nat, draws: seq<nat>)
    requires lo + |draws| <= |v| && Draws(draws) && draws != []
    ensures Draws(draws[..|draws| - 1])
    ensures Shuffled(v, lo, draws)
         == Shuffled(SwapAt(v, lo + draws[|draws| - 1], lo + |draws| - 1), lo, draws[..|draws| - 1])
  {
    hide SwapAt;
    if |draws| == 1 { assert v == SwapAt(v, lo, lo) by { SwapSame(v, lo); } }
  }

  lemma SwapSame<T>(v: seq<T>, i: nat)
    requires i < |v|
    ensures SwapAt(v, i, i) == v
  {}

  /** The whole of `v` was shuffled. */
  ghost predicate ShuffledBy<T>(v: seq<T>, draws: seq<nat>, r: seq<T>) {
    |draws| == |v| && Draws(draws) && r == Shuffled(v, 0, draws)
  }

  /** `r` rearranges `v` inside [lo, hi) and nowhere else. */
  ghost predicate Rearranged<T>(v: seq<T>, r: seq<T>, lo: nat, hi: nat)
    requires lo <= hi <= |v|
  {
    && |r| == |v| && multiset(r[lo..hi]) == multiset(v[lo..hi])
    && r[..lo] == v[..lo] && r[hi..] == v[hi..]
  }

  lemma SwapRearranges<T>(v: seq<T>, lo: nat, hi: nat, i: nat, j: nat)
    requires lo <= hi <= |v| && lo <= i < hi && lo <= j < hi
    ensures Rearranged(v, SwapAt(v, i, j), lo, hi)
  {
    var s := v[lo..hi];
    assert SwapAt(v, i, j)[lo..hi] == SwapAt(s, i - lo, j - lo);
  }

  /** Rearranging all but the last position rearranges the range. */
  lemma Widen<T>(v: seq<T>, r: seq<T>, lo: nat, hi: nat)
    requires lo < hi <= |v| && Rearranged(v, r, lo, hi - 1)
    ensures Rearranged(v, r, lo, hi) && r[hi - 1] == v[hi - 1]
  {
    assert r[hi - 1] == r[hi - 1..][0] == v[hi - 1..][0];
    assert r[lo..hi] == r[lo..hi - 1] + [r[hi - 1]];
    assert v[lo..hi] == v[lo..hi - 1] + [v[hi - 1]];
    assert r[hi..] == r[hi - 1..][1..];
  }

  lemma Narrow<T>(v: seq<T>, r: seq<T>, lo: nat, hi: nat)
    requires lo < hi <= |v| && Rearranged(v, r, lo, hi) && r[hi - 1] == v[hi - 1]
    ensures Rearranged(v, r, lo, hi - 1)
  {
    LastOff(r, lo, hi);
    LastOff(v, lo, hi);
    assert r[hi - 1..] == [r[hi - 1]] + r[hi..];
    assert v[hi - 1..] == [v[hi - 1]] + v[hi..];
  }

  lemma LastOff<T>(s: seq<T>, lo: nat, hi: nat)
    requires lo < hi <= |s|
    ensures multiset(s[lo..hi - 1]) == multiset(s[lo..hi]) - multiset{s[hi - 1]}
  {
    assert s[lo..hi] == s[lo..hi - 1] + [s[hi - 1]];
  }

  lemma Chain<T>(u: seq<T>, v: seq<T>, r: seq<T>, lo: nat, hi: nat)
    requires lo <= hi <= |u| && Rearranged(u, v, lo, hi) && Rearranged(v, r, lo, hi)
    ensures Rearranged(u, r, lo, hi)
  {}

  /** A shuffle rearranges its range; the last position holds the element drawn first. */
  lemma {:induction false} ShuffledRearranges<T>(v: seq<T>, lo: nat, draws: seq<nat>)
    requires lo + |draws| <= |v| && Draws(draws)
    ensures Rearranged(v, Shuffled(v, lo, draws), lo, lo + |draws|)
    ensures draws != [] ==> Shuffled(v, lo, draws)[lo + |draws| - 1] == v[lo + draws[|draws| - 1]]
    decreases |draws|
  {
    hide SwapAt, Shuffled, Rearranged;
    if draws == [] {
      NothingShuffled(v, lo);
    } else {
      var last, hi := |draws| - 1, lo + |draws|;
      var drawn := lo + draws[last];
      var w, r := SwapAt(v, drawn, hi - 1), Shuffled(v, lo, draws);
      ShuffledOnce(v, lo, draws);
      SwapRearranges(v, lo, hi, drawn, hi - 1);
      ShuffledRearranges(w, lo, draws[..last]);
      assert Rearranged(w, r, lo, hi - 1);
      Widen(w, r, lo, hi);
      Chain(v, w, r, lo, hi);
    }
  }

  lemma NothingShuffled<T>(v: seq<T>, lo: nat)
    requires lo <= |v|
    ensures Shuffled(v, lo, []) == v && Rearranged(v, v, lo, lo)
  {}

  /** No order is out of reach: every rearrangement of the range is some draws' outcome. */
  lemma {:induction false} EveryOrderIsDrawn<T>(v: seq<T>, r: seq<T>, lo: nat, hi: nat) returns (draws: seq<nat>)
    requires lo <= hi <= |v| && Rearranged(v, r, lo, hi)
    ensures |draws| == hi - lo && Draws(draws) && Shuffled(v, lo, draws) == r
    decreases hi
  {
    hide SwapAt, Shuffled, Rearranged;
    if hi == lo {
      draws := [];
      NothingShuffled(v, lo);
      NothingRearranged(v, r, lo);
    } else {
      var d := FindLast(v, r, lo, hi);
      var w := SwapAt(v, lo + d, hi - 1);
      SwapRearranges(v, lo, hi, lo + d, hi - 1);
      SameRange(v, w, r, lo, hi);
      Narrow(w, r, lo, hi);
      var rest := EveryOrderIsDrawn(w, r, lo, hi - 1);
      draws := rest + [d];
      assert draws[..hi - lo - 1] == rest;
      ShuffledOnce(v, lo, draws);
    }
  }

  lemma NothingRearranged<T>(v: seq<T>, r: seq<T>, lo: nat)
    requires lo <= |v| && Rearranged(v, r, lo, lo)
    ensures v == r
  {
    assert v == v[..lo] + v[lo..] && r == r[..lo] + r[lo..];
  }

  lemma FindLast<T>(v: seq<T>, r: seq<T>, lo: nat, hi: nat) returns (d: nat)
    requires lo < hi <= |v| && Rearranged(v, r, lo, hi)
    ensures |r| == |v| && d < hi - lo && v[lo + d] == r[hi - 1]
  {
    assert r[lo..hi][hi - lo - 1] in multiset(v[lo..hi]);
    d :| 0 <= d < hi - lo && v[lo..hi][d] == r[hi - 1];
  }

  lemma SameRange<T>(v: seq<T>, w: seq<T>, r: seq<T>, lo: nat, hi: nat)
    requires lo <= hi <= |v| && Rearranged(v, w, lo, hi) && Rearranged(v, r, lo, hi)
    ensures |w| == |r| == |v| && Rearranged(w, r, lo, hi)
  {}

  /** And each by one choice of draws only, so uniform draws give every order the same chance. */
  lemma {:induction false} OrdersAreDrawnOnce<T>(v: seq<T>, lo: nat, a: seq<nat>, b: seq<nat>)
    requires Distinct(v) && |a| == |b| && lo + |a| <= |v| && Draws(a) && Draws(b)
    requires Shuffled(v, lo, a) == Shuffled(v, lo, b)
    ensures a == b
    decreases |a|
  {
    hide SwapAt, Shuffled, Rearranged;
    if a != [] {
      var last := |a| - 1;
      ShuffledRearranges(v, lo, a);
      ShuffledRearranges(v, lo, b);
      assert v[lo + a[last]] == v[lo + b[last]];
      ShuffledOnce(v, lo, a);
      ShuffledOnce(v, lo, b);
      SwapDistinct(v, lo + a[last], lo + last);
      OrdersAreDrawnOnce(SwapAt(v, lo + a[last], lo + last), lo, a[..last], b[..last]);
      assert a == a[..last] + [a[last]] && b == b[..last] + [b[last]];
    }
  }

  lemma SwapDistinct<T>(v: seq<T>, i: nat, j: nat)
    requires Distinct(v) && i < |v| && j < |v|
    ensures Distinct(SwapAt(v, i, j))
  {}

  // ----- orders over the registered test cases -----

  function Identity(n: nat): seq<nat> { seq(n, i => i) }

  /** `order` lists every index below n once, those below `split` before all others. */
  ghost predicate Order(order: seq<nat>, n: nat, split: nat) {
    && split <= n && multiset(order) == multiset(Identity(n))
    && |order| == n
    && (forall i :: 0 <= i < n ==> order[i] < n && (i < split <==> order[i] < split))
  }

  /** Shuffling either group keeps an order. */
  lemma ShuffledOrder(v: seq<nat>, r: seq<nat>, split: nat, lo: nat, hi: nat)
    requires Order(v, |v|, split) && lo <= hi <= |v| && Rearranged(v, r, lo, hi)
    requires (lo == 0 && hi == split) || (lo == split && hi == |v|)
    ensures Order(r, |v|, split)
  {
    hide Rearranged;
    SameElements(v, r, lo, hi);
    forall i | 0 <= i < |v| ensures r[i] < |v| && (i < split <==> r[i] < split) {
      var j := CameFrom(v, r, lo, hi, i);
      assert v[j] < |v| && (j < split <==> v[j] < split);
    }
  }

  lemma SameElements<T>(v: seq<T>, r: seq<T>, lo: nat, hi: nat)
    requires lo <= hi <= |v| && Rearranged(v, r, lo, hi)
    ensures |r| == |v| && multiset(r) == multiset(v)
  {
    assert v == v[..lo] + v[lo..hi] + v[hi..];
    assert r == r[..lo] + r[lo..hi] + r[hi..];
  }

  /** Every element of a rearrangement was inside the range or outside it before, too. */
  lemma CameFrom<T>(v: seq<T>, r: seq<T>, lo: nat, hi: nat, i: nat) returns (j: nat)
    requires lo <= hi <= |v| && Rearranged(v, r, lo, hi) && i < |v|
    ensures j < |v| && v[j] == r[i] && (if lo <= i < hi then lo <= j < hi else j == i)
  {
    if lo <= i < hi {
      assert r[lo..hi][i - lo] in multiset(v[lo..hi]);
      var k :| 0 <= k < hi - lo && v[lo..hi][k] == r[i];
      j := lo + k;
    } else if i < lo {
      j := i;
      assert r[..lo][i] == v[..lo][i];
    } else {
      j := i;
      assert r[hi..][i - hi] == v[hi..][i - hi];
    }
  }

  ghost predicate Within(order: seq<nat>, n: nat) { forall i :: 0 <= i < |order| ==> order[i] < n }

  /** The elements at the given indices. */
  ghost function Picked<T>(t: seq<T>, order: seq<nat>): (r: seq<T>)
    requires Within(order, |t|)
    ensures |r| == |order| && forall i :: 0 <= i < |r| ==> r[i] == t[order[i]]
  {
    seq(|order|, i requires 0 <= i < |order| => t[order[i]])
  }

  /** Rearranged indices pick the same elements. */
  lemma {:induction false} PickedPermutes<T>(t: seq<T>, a: seq<nat>, b: seq<nat>)
    requires multiset(a) == multiset(b)
    requires forall i :: 0 <= i < |a| ==> a[i] < |t|
    requires forall i :: 0 <= i < |b| ==> b[i] < |t|
    ensures multiset(Picked(t, a)) == multiset(Picked(t, b))
    decreases |a|
  {
    if a == [] {
      assert |multiset(b)| == 0;
    } else {
      var n := |a| - 1;
      var k := FindAndCut(a, b);
      var rest := b[..k] + b[k + 1..];
      PickedPermutes(t, a[..n], rest);
      assert Picked(t, a) == Picked(t, a[..n]) + [t[a[n]]];
      PickedCut(t, b, k, rest);
    }
  }

  lemma FindAndCut(a: seq<nat>, b: seq<nat>) returns (k: nat)
    requires multiset(a) == multiset(b) && a != []
    ensures k < |b| && b[k] == a[|a| - 1]
    ensures multiset(a[..|a| - 1]) == multiset(b[..k] + b[k + 1..])
  {
    var n := |a| - 1;
    assert a[n] in multiset(b);
    k :| 0 <= k < |b| && b[k] == a[n];
    CutOne(a, n);
    assert a[..n] + a[n + 1..] == a[..n];
    CutOne(b, k);
  }

  lemma CutOne<T>(s: seq<T>, k: nat)
    requires k < |s|
    ensures multiset(s[..k] + s[k + 1..]) == multiset(s) - multiset{s[k]}
  {
    assert s == s[..k] + [s[k]] + s[k + 1..];
  }

  lemma PickedCut<T>(t: seq<T>, b: seq<nat>, k: nat, rest: seq<nat>)
    requires k < |b| && rest == b[..k] + b[k + 1..]
    requires forall i :: 0 <= i < |b| ==> b[i] < |t|
    ensures forall i :: 0 <= i < |rest| ==> rest[i] < |t|
    ensures multiset(Picked(t, b)) == multiset(Picked(t, rest)) + multiset{t[b[k]]}
  {
    var front, back := Picked(t, b[..k]), Picked(t, b[k + 1..]);
    assert Picked(t, b) == front + [t[b[k]]] + back;
    assert Picked(t, rest) == front + back;
  }

  lemma OrderVisitsAll<T>(t: seq<T>, order: seq<nat>, split: nat)
    requires Order(order, |t|, split)
    ensures multiset(Picked(t, order)) == multiset(t)
  {
    PickedPermutes(t, order, Identity(|t|));
    assert Picked(t, Identity(|t|)) == t;
  }

  // ----- death test cases first -----

  /** The registered names of one kind, in registration order. */
  ghost function Only(names: seq<string>, death: bool): seq<string> {
    if names == [] then []
    else
      var n := |names| - 1;
      Only(names[..n], death) + if IsDeath(names[n]) == death then [names[n]] else []
  }

  ghost function DeathFirst(names: seq<string>): seq<string> { Only(names, true) + Only(names, false) }

  lemma OnlySnoc(names: seq<string>, n: string, death: bool)
    ensures Only(names + [n], death) == Only(names, death) + if IsDeath(n) == death then [n] else []
  {
    assert (names + [n])[..|names|] == names;
  }

  lemma DeathByFilter(name: string)
    ensures IsDeath(name) == Filters.SomePattern(DEATH_TEST_CASE, name)
  {}

  lemma SameNames(names: seq<string>, name: string)
    ensures name in DeathFirst(names) <==> name in names
  {
    DeathFirstPermutes(names);
    assert name in DeathFirst(names) <==> name in multiset(DeathFirst(names));
  }

  /** Where a new name goes. */
  lemma Registered(names: seq<string>, name: string)
    requires Distinct(names) && name !in names
    ensures Distinct(names + [name])
    ensures var k := |Only(names, true)|;
      && |Only(names + [name], true)| == (if IsDeath(name) then k + 1 else k) <= |DeathFirst(names + [name])|
      && DeathFirst(names + [name])
         == var at := if IsDeath(name) then k else |DeathFirst(names)|;
            DeathFirst(names)[..at] + [name] + DeathFirst(names)[at..]
  {
    hide IsDeath, Only;
    OnlySnoc(names, name, true);
    OnlySnoc(names, name, false);
  }

  lemma OrderLength(order: seq<nat>, n: nat, split: nat)
    requires Order(order, n, split)
    ensures |order| == n && split <= n
  {}

  lemma SplitWithin(names: seq<string>)
    ensures |Only(names, true)| <= |DeathFirst(names)|
  {}

  lemma OrderWithin(order: seq<nat>, n: nat, split: nat)
    requires Order(order, n, split)
    ensures |order| == n && forall i :: 0 <= i < n ==> order[i] < n
  {}

  lemma IdentityOrder(n: nat, split: nat)
    requires split <= n
    ensures Order(Identity(n), n, split)
  {}

  lemma {:induction false} OnlyOfAKind(names: seq<string>, death: bool)
    ensures forall i :: 0 <= i < |Only(names, death)| ==> IsDeath(Only(names, death)[i]) == death
  {
    if names != [] { OnlyOfAKind(names[..|names| - 1], death); }
  }

  lemma {:induction false} DeathFirstPermutes(names: seq<string>)
    ensures multiset(DeathFirst(names)) == multiset(names)
  {
    if names != [] {
      var n := |names| - 1;
      hide IsDeath;
      DeathFirstPermutes(names[..n]);
      assert names == names[..n] + [names[n]];
      OneMoreName(names);
    }
  }

  lemma OneMoreName(names: seq<string>)
    requires names != []
    ensures multiset(DeathFirst(names)) ==
            multiset(DeathFirst(names[..|names| - 1])) + multiset{names[|names| - 1]}
  {
    hide IsDeath;
    var before, name := names[..|names| - 1], names[|names| - 1];
    assert names == before + [name];
    OnlySnoc(before, name, true);
    OnlySnoc(before, name, false);
  }

  lemma {:induction false} OnceEach<T>(s: seq<T>, x: T)
    requires Distinct(s)
    ensures multiset(s)[x] <= 1
  {
    if s != [] {
      var n := |s| - 1;
      OnceEach(s[..n], x);
      assert s == s[..n] + [s[n]];
      if s[n] == x { assert x !in s[..n]; }
    }
  }

  lemma PermutedDistinct<T>(s: seq<T>, t: seq<T>)
    requires multiset(s) == multiset(t) && Distinct(s)
    ensures Distinct(t)
  {
    forall i, j | 0 <= i < j < |t| ensures t[i] != t[j] {
      if t[i] == t[j] {
        assert t == t[..i] + [t[i]] + t[i + 1..j] + [t[j]] + t[j + 1..];
        OnceEach(s, t[i]);
        assert false;
      }
    }
  }

  // ----- the registry -----

  /** Every name once, and no other test case before a death test case. */
  ghost predicate RunsAllDeathFirst(names: seq<string>, visited: seq<string>) {
    && multiset(visited) == multiset(names)
    && forall i, j :: 0 <= i < j < |visited| && IsDeath(visited[j]) ==> IsDeath(visited[i])
  }

  lemma OrderRunsDeathFirst(names: seq<string>, order: seq<nat>, visited: seq<string>)
    requires Order(order, |DeathFirst(names)|, |Only(names, true)|) && |visited| == |order|
    requires forall i :: 0 <= i < |visited| ==>
               order[i] < |DeathFirst(names)| && visited[i] == DeathFirst(names)[order[i]]
    ensures RunsAllDeathFirst(names, visited)
  {
    assert visited == Picked(DeathFirst(names), order);
    DeathFirstPermutes(names);
    OrderVisitsAll(DeathFirst(names), order, |Only(names, true)|);
    OnlyOfAKind(names, true);
    OnlyOfAKind(names, false);
  }

  // ----- one test case -----

  /** The Fisher-Yates loop over the positions [begin, end) of a vector. */
  method ShuffleRange(v: seq<nat>, begin: nat, end: nat, draws: seq<nat>) returns (r: seq<nat>)
    requires begin <= end <= |v| && |draws| == end - begin && Draws(draws)
    ensures r == Shuffled(v, begin, draws)
  {
    r := v;
    var width := end - begin;
    assert draws[..width] == draws;
    while width >= 2
      invariant 0 <= width <= end - begin && |r| == |v| && Draws(draws[..width])
      invariant Shuffled(r, begin, draws[..width]) == Shuffled(v, begin, draws)
      decreases width
    {
      var last := begin + width - 1;
      var selected := begin + draws[width - 1];
      ShuffledOnce(r, begin, draws[..width]);
      assert draws[..width][..width - 1] == draws[..width - 1];
      r := SwapAt(r, selected, last);
      width := width - 1;
    }
  }

  lemma WholeOrder(v: seq<nat>, draws: seq<nat>)
    requires Order(v, |v|, 0) && |draws| == |v| && Draws(draws)
    ensures Order(Shuffled(v, 0, draws), |v|, 0)
  {
    hide Shuffled, Rearranged;
    ShuffledRearranges(v, 0, draws);
    ShuffledOrder(v, Shuffled(v, 0, draws), 0, 0, |v|);
  }

  /** A test case: its tests in order of registration and the order they run in. */
  class TestCase {
    const name: string
    var tests: seq<string>
    var indices: seq<nat>

    ghost predicate Valid()
      reads this
    {
      Order(indices, |tests|, 0)
    }

    ghost predicate Unshuffled()
      reads this
    {
      indices == Identity(|tests|)
    }

    constructor (name: string)
      ensures Valid() && Unshuffled() && this.name == name && tests == []
    {
      this.name := name;
      tests, indices := [], [];
    }

    method AddTestInfo(test: string)
      requires Valid()
      modifies this
      ensures Valid() && tests == old(tests) + [test] && (old(Unshuffled()) ==> Unshuffled())
    {
      assert Identity(|tests| + 1) == Identity(|tests|) + [|tests|];
      tests := tests + [test];
      indices := indices + [|indices|];
    }

    method ShuffleTests(draws: seq<nat>)
      requires Valid() && |draws| == |tests| && Draws(draws)
      modifies this`indices
      ensures Valid() && ShuffledBy(old(indices), draws, indices)
    {
      hide Shuffled, Draws;
      WholeOrder(indices, draws);
      indices := ShuffleRange(indices, 0, |indices|, draws);
    }

    method UnshuffleTests()
      requires Valid()
      modifies this`indices
      ensures Valid() && Unshuffled()
    {
      for i := 0 to |indices|
        invariant |indices| == |tests|
        invariant forall j :: 0 <= j < i ==> indices[j] == j
      {
        indices := indices[i := i];
      }
      assert indices == Identity(|tests|);
    }

    /** The i-th test to run. */
    function GetMutableTestInfo(i: int): (r: Option<string>)
      requires Valid()
      reads this
    {
      if i < 0 || i >= |indices| then None else Some(tests[indices[i]])
    }

    /** The tests run in the shuffled order, each once. */
    method Run() returns (ran: seq<string>)
      requires Valid()
      ensures Within(indices, |tests|) && ran == Picked(tests, indices)
      ensures multiset(ran) == multiset(tests) && (Unshuffled() ==> ran == tests)
    {
      ran := [];
      for i := 0 to |tests|
        invariant |ran| == i
        invariant forall j :: 0 <= j < i ==> ran[j] == tests[indices[j]]
      {
        ran := ran + [GetMutableTestInfo(i).value];
      }
      OrderVisitsAll(tests, indices, 0);
      assert ran == Picked(tests, indices);
    }
  }

  // ----- the registry -----

  ghost function Names(cases: seq<TestCase>): (r: seq<string>)
    ensures |r| == |cases| && forall i :: 0 <= i < |r| ==> r[i] == cases[i].name
  {
    seq(|cases|, i requires 0 <= i < |cases| => cases[i].name)
  }

  lemma Inserted(cases: seq<TestCase>, k: nat, t: TestCase)
    requires k <= |cases|
    ensures var r := cases[..k] + [t] + cases[k..];
      && Names(r) == Names(cases)[..k] + [t.name] + Names(cases)[k..]
      && forall c :: c in r <==> c in cases || c == t
  {
    assert cases == cases[..k] + cases[k..];
  }

  /** What ran of each visited test case is all of its tests, each once. */
  ghost predicate RunsAllTests(cases: seq<TestCase>, visited: seq<string>, ran: seq<seq<string>>)
    reads cases`tests
  {
    && |ran| == |visited|
    && forall i, k :: 0 <= i < |visited| && 0 <= k < |cases| && cases[k].name == visited[i] ==>
         multiset(ran[i]) == multiset(cases[k].tests)
  }

  /** Test cases were visited in the given order, and the tests of each in its own one. */
  ghost predicate RunsInOrder(cases: seq<TestCase>, order: seq<nat>, inner: seq<seq<nat>>,
                              visited: seq<string>, ran: seq<seq<string>>)
    reads cases`tests
  {
    && |inner| == |cases| && |visited| == |ran| == |order| && Within(order, |cases|)
    && (forall k :: 0 <= k < |cases| ==> Within(inner[k], |cases[k].tests|))
    && (forall i :: 0 <= i < |order| ==> visited[i] == cases[order[i]].name)
    && (forall i :: 0 <= i < |order| ==> ran[i] == Picked(cases[order[i]].tests, inner[order[i]]))
  }

  /** The order each test case keeps for its tests. */
  ghost function Inner(cases: seq<TestCase>): (r: seq<seq<nat>>)
    reads cases
    ensures |r| == |cases| && forall k :: 0 <= k < |r| ==> r[k] == cases[k].indices
  {
    seq(|cases|, k requires 0 <= k < |cases| reads cases => cases[k].indices)
  }

  /** The draws turn one order of the test cases into another: each group is shuffled by itself. */
  ghost predicate CasesShuffledBy(v: seq<nat>, draws: AllDraws, r: seq<nat>) {
    && |draws.deaths| + |draws.others| == |v| && Draws(draws.deaths) && Draws(draws.others)
    && r == Shuffled(Shuffled(v, 0, draws.deaths), |draws.deaths|, draws.others)
  }

  /** And the tests of each test case. */
  ghost predicate TestsShuffledBy(v: seq<seq<nat>>, draws: seq<seq<nat>>, r: seq<seq<nat>>) {
    |draws| == |v| == |r| && forall k :: 0 <= k < |v| ==> ShuffledBy(v[k], draws[k], r[k])
  }

  /** One more test case was visited. */
  lemma RunOneMore(cases: seq<TestCase>, order: seq<nat>, i: nat, visited: seq<string>, ran: seq<seq<string>>,
                   tests: seq<string>)
    requires i < |order| && Within(order, |cases|)
    requires RunsInOrder(cases, order[..i], Inner(cases), visited, ran)
    requires var t := cases[order[i]]; Within(t.indices, |t.tests|) && tests == Picked(t.tests, t.indices)
    ensures RunsInOrder(cases, order[..i + 1], Inner(cases), visited + [cases[order[i]].name], ran + [tests])
  {
    hide Picked;
    assert order[..i + 1] == order[..i] + [order[i]];
  }

  lemma NothingRan(cases: seq<TestCase>, order: seq<nat>)
    requires forall k :: 0 <= k < |cases| ==> Within(cases[k].indices, |cases[k].tests|)
    ensures RunsInOrder(cases, order[..0], Inner(cases), [], [])
  {}

  /** Draws for the two groups of test cases and for the tests of each test case. */
  datatype AllDraws = AllDraws(deaths: seq<nat>, others: seq<nat>, tests: seq<seq<nat>>)

  class UnitTest {
    var testCases: seq<TestCase>
    var indices: seq<nat>
    var lastDeath: int
    ghost var registered: seq<string>

    /** The list of test cases and the order they run in. */
    ghost predicate Listed()
      reads this
    {
      && Distinct(registered)
      && Names(testCases) == DeathFirst(registered)
      && lastDeath + 1 == |Only(registered, true)|
      && Order(indices, |testCases|, lastDeath + 1)
    }

    ghost predicate Valid()
      reads this, testCases
    {
      Listed() && forall t :: t in testCases ==> t.Valid()
    }

    ghost predicate Unshuffled()
      reads this, testCases
    {
      && indices == Identity(|testCases|)
      && forall t :: t in testCases ==> t.Unshuffled()
    }

    ghost predicate Fits(draws: AllDraws)
      reads this, testCases
    {
      && |draws.deaths| == lastDeath + 1 && |draws.others| == |testCases| - (lastDeath + 1)
      && |draws.tests| == |testCases| && Draws(draws.deaths) && Draws(draws.others)
      && forall i :: 0 <= i < |testCases| ==> |draws.tests[i]| == |testCases[i].tests| && Draws(draws.tests[i])
    }

    constructor ()
      ensures Valid() && Unshuffled() && registered == [] && testCases == []
    {
      testCases, indices, lastDeath, registered := [], [], -1, [];
    }

    lemma Differ()
      requires Listed()
      ensures forall i, j :: 0 <= i < j < |testCases| ==>
                testCases[i].name != testCases[j].name && testCases[i] != testCases[j]
    {
      DeathFirstPermutes(registered);
      PermutedDistinct(registered, DeathFirst(registered));
      hide Only, Order;
      forall i, j | 0 <= i < j < |testCases| ensures testCases[i].name != testCases[j].name {
        assert Names(testCases)[i] != Names(testCases)[j];
      }
    }

    /** Find or register a test case; callers must not do this while the tests are shuffled. */
    method GetTestCase(name: string) returns (t: TestCase)
      requires Valid() && Unshuffled()
      modifies this
      ensures Valid() && Unshuffled() && t in testCases && t.name == name
      ensures registered == if name in old(registered) then old(registered) else old(registered) + [name]
      ensures forall c :: c in testCases ==> c in old(testCases) || (fresh(c) && c.name == name && c.tests == [])
      ensures forall c :: c in old(testCases) ==> c in testCases
    {
      hide Order, Only, IsDeath, Distinct, Filters.SomePattern, TestCase.Valid, TestCase.Unshuffled;
      SameNames(registered, name);
      for i := 0 to |testCases|
        invariant forall j :: 0 <= j < i ==> testCases[j].name != name
      {
        if testCases[i].name == name {
          assert Names(testCases)[i] == name;
          return testCases[i];
        }
      }
      assert name !in Names(testCases);
      t := new TestCase(name);
      Register(t);
    }

    /** Register a test, and its test case if it is new. */
    method AddTestInfo(testCase: string, test: string)
      requires Valid() && Unshuffled()
      modifies this, testCases
      ensures Valid() && Unshuffled()
      ensures registered == if testCase in old(registered) then old(registered) else old(registered) + [testCase]
      ensures forall c :: c in old(testCases) ==>
                c in testCases && c.tests == old(c.tests) + if c.name == testCase then [test] else []
      ensures forall c :: c in testCases && c !in old(testCases) ==>
                fresh(c) && c.name == testCase && c.tests == [test]
    {
      hide Order, Only, IsDeath, Distinct, TestCase.Valid, TestCase.Unshuffled;
      var t := GetTestCase(testCase);
      Differ();
      assert forall c :: c in testCases && c != t ==> c.name != testCase;
      t.AddTestInfo(test);
    }

    method Register(t: TestCase)
      requires Valid() && Unshuffled() && t.Valid() && t.Unshuffled() && t.name !in registered
      modifies this
      ensures Valid() && Unshuffled() && registered == old(registered) + [t.name]
      ensures forall c :: c in testCases <==> c in old(testCases) || c == t
    {
      hide Order, Only, IsDeath, Distinct, Filters.SomePattern, TestCase.Valid, TestCase.Unshuffled, Names, DeathFirst;
      Registered(registered, t.name);
      var death := Filters.MatchesFilter(t.name, DEATH_TEST_CASE);
      assert death == IsDeath(t.name) by { DeathByFilter(t.name); }
      SplitWithin(registered);
      var k := if death then lastDeath + 1 else |testCases|;
      Inserted(testCases, k, t);
      if death { lastDeath := lastDeath + 1; }
      testCases := testCases[..k] + [t] + testCases[k..];
      indices := indices + [|indices|];
      registered := registered + [t.name];
      assert indices == Identity(|testCases|);
      IdentityOrder(|testCases|, lastDeath + 1);
    }

    /** The test cases of each group are shuffled, then the tests of each test case. */
    method ShuffleTests(draws: AllDraws)
      requires Valid() && Fits(draws)
      modifies this`indices, testCases`indices
      ensures Valid()
      ensures indices == Shuffled(Shuffled(old(indices), 0, draws.deaths), lastDeath + 1, draws.others)
      ensures forall i :: 0 <= i < |testCases| ==>
                ShuffledBy(old(testCases[i].indices), draws.tests[i], testCases[i].indices)
    {
      ShuffleCases(draws.deaths, draws.others);
      ShuffleInside(draws.tests);
    }

    method ShuffleCases(deathDraws: seq<nat>, otherDraws: seq<nat>)
      requires Listed() && Draws(deathDraws) && Draws(otherDraws)
      requires |deathDraws| == lastDeath + 1 && |otherDraws| == |testCases| - (lastDeath + 1)
      modifies this`indices
      ensures Listed()
      ensures indices == Shuffled(Shuffled(old(indices), 0, deathDraws), lastDeath + 1, otherDraws)
    {
      hide Shuffled, Rearranged, Order, Draws, Only, Distinct;
      var split := lastDeath + 1;
      OrderLength(indices, |testCases|, split);
      ShuffledRearranges(indices, 0, deathDraws);
      ShuffledOrder(indices, Shuffled(indices, 0, deathDraws), split, 0, split);
      indices := ShuffleRange(indices, 0, split, deathDraws);
      ShuffledRearranges(indices, split, otherDraws);
      ShuffledOrder(indices, Shuffled(indices, split, otherDraws), split, split, |indices|);
      indices := ShuffleRange(indices, split, |testCases|, otherDraws);
    }

    method ShuffleInside(draws: seq<seq<nat>>)
      requires Valid() && |draws| == |testCases|
      requires forall i :: 0 <= i < |testCases| ==> |draws[i]| == |testCases[i].tests| && Draws(draws[i])
      modifies testCases`indices
      ensures Valid()
      ensures forall i :: 0 <= i < |testCases| ==>
                ShuffledBy(old(testCases[i].indices), draws[i], testCases[i].indices)
    {
      hide ShuffledBy, Order, Draws, Only, Distinct, TestCase.Valid;
      Differ();
      assert forall j :: 0 <= j < |testCases| ==> testCases[j] in testCases;
      for i := 0 to |testCases|
        invariant forall t :: t in testCases ==> t.Valid()
        invariant forall j :: i <= j < |testCases| ==> testCases[j].indices == old(testCases[j].indices)
        invariant forall j :: 0 <= j < i ==>
                    ShuffledBy(old(testCases[j].indices), draws[j], testCases[j].indices)
      {
        testCases[i].ShuffleTests(draws[i]);
      }
    }

    method UnshuffleTests()
      requires Valid()
      modifies this`indices, testCases`indices
      ensures Valid() && Unshuffled()
    {
      hide Only, Distinct, Order, TestCase.Valid, TestCase.Unshuffled;
      Differ();
      OrderLength(indices, |testCases|, lastDeath + 1);
      assert forall j :: 0 <= j < |testCases| ==> testCases[j] in testCases;
      for i := 0 to |testCases|
        invariant |indices| == |testCases|
        invariant forall t :: t in testCases ==> t.Valid()
        invariant forall j :: 0 <= j < i ==> indices[j] == j && testCases[j].Unshuffled()
      {
        testCases[i].UnshuffleTests();
        indices := indices[i := i];
      }
      assert indices == Identity(|testCases|);
      IdentityOrder(|testCases|, lastDeath + 1);
    }

    /** The i-th test case to run. */
    function GetMutableTestCase(i: int): (r: Option<TestCase>)
      requires Listed()
      reads this
    {
      if i < 0 || i >= |indices| then None else Some(testCases[indices[i]])
    }

    /** The read-only accessor checks the shuffled index and then does not use it. */
    function TestCaseAt(i: int): (r: Option<TestCase>)
      requires Listed()
      reads this
    {
      if i < 0 || i >= |indices| then None else Some(testCases[i])
    }

    /** The loop that runs the test cases: whatever was shuffled or unshuffled before, every test of every
        registered test case runs once, death test cases first. */
    method RunAll() returns (visited: seq<string>, ran: seq<seq<string>>)
      requires Valid()
      ensures RunsInOrder(testCases, indices, Inner(testCases), visited, ran)
      ensures RunsAllDeathFirst(registered, visited) && RunsAllTests(testCases, visited, ran)
      ensures Unshuffled() ==> visited == DeathFirst(registered)
      ensures Unshuffled() ==> |ran| == |testCases| && forall i :: 0 <= i < |ran| ==> ran[i] == testCases[i].tests
    {
      hide Only, Distinct, Order, RunsAllDeathFirst, RunsAllTests, Picked, RunsInOrder;
      Orders();
      NothingRan(testCases, indices);
      visited, ran := [], [];
      for i := 0 to |testCases|
        invariant RunsInOrder(testCases, indices[..i], Inner(testCases), visited, ran)
      {
        var t := GetMutableTestCase(i).value;
        var tests := t.Run();
        RunOneMore(testCases, indices, i, visited, ran, tests);
        visited, ran := visited + [t.name], ran + [tests];
      }
      assert indices[..|testCases|] == indices;
      OrderedRun(visited, ran);
    }

    /** Every index is one of a test case or of a test. */
    lemma Orders()
      requires Valid()
      ensures |indices| == |testCases| && Within(indices, |testCases|)
      ensures forall k :: 0 <= k < |testCases| ==>
                |testCases[k].indices| == |testCases[k].tests| && Within(testCases[k].indices, |testCases[k].tests|)
    {
      hide Only, Distinct;
      OrderWithin(indices, |testCases|, lastDeath + 1);
      forall k | 0 <= k < |testCases| ensures Within(testCases[k].indices, |testCases[k].tests|)
          && |testCases[k].indices| == |testCases[k].tests| {
        assert testCases[k] in testCases;
        OrderWithin(testCases[k].indices, |testCases[k].tests|, 0);
      }
    }

    /** Running in the kept orders runs everything. */
    lemma OrderedRun(visited: seq<string>, ran: seq<seq<string>>)
      requires Valid() && RunsInOrder(testCases, indices, Inner(testCases), visited, ran)
      ensures RunsAllDeathFirst(registered, visited) && RunsAllTests(testCases, visited, ran)
      ensures Unshuffled() ==> visited == DeathFirst(registered)
      ensures Unshuffled() ==> |ran| == |testCases| && forall i :: 0 <= i < |ran| ==> ran[i] == testCases[i].tests
    {
      hide Only, Distinct, Order, RunsAllDeathFirst;
      Orders();
      Differ();
      OrderRunsDeathFirst(registered, indices, visited);
      forall i, k | 0 <= i < |visited| && 0 <= k < |testCases| && testCases[k].name == visited[i]
        ensures multiset(ran[i]) == multiset(testCases[k].tests)
      {
        assert testCases[k] in testCases;
        OrderVisitsAll(testCases[k].tests, testCases[k].indices, 0);
      }
      if Unshuffled() {
        assert visited == Names(testCases);
        forall i | 0 <= i < |testCases| ensures ran[i] == testCases[i].tests {
          assert testCases[i] in testCases;
        }
      }
    }

    /** One iteration of the main loop: shuffle if asked to, run every test case, restore the order. Test cases
        and tests run in the orders the draws make, or in those of before. */
    method RunIteration(shuffle: bool, draws: AllDraws)
      returns (visited: seq<string>, ran: seq<seq<string>>, ghost order: seq<nat>, ghost inner: seq<seq<nat>>)
      requires Valid() && Fits(draws)
      modifies this`indices, testCases`indices
      ensures Valid() && Unshuffled()
      ensures RunsInOrder(testCases, order, inner, visited, ran)
      ensures if shuffle
              then |draws.deaths| == lastDeath + 1 && CasesShuffledBy(old(indices), draws, order)
              else order == old(indices)
      ensures if shuffle
              then TestsShuffledBy(old(Inner(testCases)), draws.tests, inner)
              else inner == old(Inner(testCases))
      ensures RunsAllDeathFirst(registered, visited) && RunsAllTests(testCases, visited, ran)
      ensures !shuffle && old(Unshuffled()) ==> visited == DeathFirst(registered)
      ensures !shuffle && old(Unshuffled()) ==>
                |ran| == |testCases| && forall i :: 0 <= i < |ran| ==> ran[i] == testCases[i].tests
    {
      hide UnitTest.Valid, UnitTest.Unshuffled, UnitTest.Fits, RunsInOrder, RunsAllDeathFirst, RunsAllTests;
      hide CasesShuffledBy, TestsShuffledBy, DeathFirst;
      if shuffle { Permute(draws); }
      order, inner := indices, Inner(testCases);
      visited, ran := RunAndRestore();
    }

    method RunAndRestore() returns (visited: seq<string>, ran: seq<seq<string>>)
      requires Valid()
      modifies this`indices, testCases`indices
      ensures Valid() && Unshuffled()
      ensures RunsInOrder(testCases, old(indices), old(Inner(testCases)), visited, ran)
      ensures RunsAllDeathFirst(registered, visited) && RunsAllTests(testCases, visited, ran)
      ensures old(Unshuffled()) ==> visited == DeathFirst(registered)
      ensures old(Unshuffled()) ==> |ran| == |testCases| && forall i :: 0 <= i < |ran| ==> ran[i] == testCases[i].tests
    {
      hide UnitTest.Valid, UnitTest.Unshuffled, RunsInOrder, RunsAllDeathFirst, RunsAllTests, DeathFirst;
      visited, ran := RunAll();
      UnshuffleTests();
    }

    method Permute(draws: AllDraws)
      requires Valid() && Fits(draws)
      modifies this`indices, testCases`indices
      ensures Valid() && |draws.deaths| == lastDeath + 1 && CasesShuffledBy(old(indices), draws, indices)
      ensures TestsShuffledBy(old(Inner(testCases)), draws.tests, Inner(testCases))
    {
      hide Order, Only, Distinct, Shuffled, Draws, TestCase.Valid, ShuffledBy;
      OrderLength(indices, |testCases|, lastDeath + 1);
      ShuffleTests(draws);
    }
  }

  // ----- every order is possible -----

  /** Where an order keeps the indices below the split. */
  lemma GroupCount(v: seq<nat>, n: nat, split: nat, x: nat)
    requires Order(v, n, split)
    ensures multiset(v[..split])[x] == if x < split then multiset(v)[x] else 0
    ensures multiset(v[split..])[x] == if x < split then 0 else multiset(v)[x]
  {
    assert v == v[..split] + v[split..];
    if x < split { assert x !in v[split..]; } else { assert x !in v[..split]; }
  }

  lemma SameGroups(v: seq<nat>, r: seq<nat>, n: nat, split: nat)
    requires Order(v, n, split) && Order(r, n, split)
    ensures multiset(v[..split]) == multiset(r[..split]) && multiset(v[split..]) == multiset(r[split..])
  {
    forall x: nat
      ensures multiset(v[..split])[x] == multiset(r[..split])[x] && multiset(v[split..])[x] == multiset(r[split..])[x]
    {
      GroupCount(v, n, split, x);
      GroupCount(r, n, split, x);
    }
  }

  /** Every order with the death test cases in front is made of every other by some draws. */
  lemma EveryCaseOrderIsDrawn(v: seq<nat>, r: seq<nat>, n: nat, split: nat) returns (deaths: seq<nat>, others: seq<nat>)
    requires Order(v, n, split) && Order(r, n, split)
    ensures |deaths| == split && |others| == n - split && Draws(deaths) && Draws(others)
    ensures Shuffled(Shuffled(v, 0, deaths), split, others) == r
  {
    SameGroups(v, r, n, split);
    hide Order, Shuffled, Draws;
    OrderLength(v, n, split);
    OrderLength(r, n, split);
    var m := r[..split] + v[split..];
    assert Rearranged(v, m, 0, split) by {
      assert m[0..split] == r[..split] && v[0..split] == v[..split] && m[split..] == v[split..];
    }
    assert Rearranged(m, r, split, n) by {
      assert m[split..n] == v[split..] && r[split..n] == r[split..] && m[..split] == r[..split];
    }
    deaths := EveryOrderIsDrawn(v, m, 0, split);
    others := EveryOrderIsDrawn(m, r, split, n);
  }

  /** Every order that keeps the death test cases in front, with every order of the tests in each test case, is
      the one RunIteration visits for some draws. */
  lemma EveryRunIsDrawn(u: UnitTest, order: seq<nat>, inner: seq<seq<nat>>)
    returns (draws: AllDraws)
    requires u.Valid() && Order(order, |u.testCases|, u.lastDeath + 1) && |inner| == |u.testCases|
    requires forall k :: 0 <= k < |inner| ==> Order(inner[k], |u.testCases[k].tests|, 0)
    ensures u.Fits(draws)
    ensures CasesShuffledBy(u.indices, draws, order) && TestsShuffledBy(Inner(u.testCases), draws.tests, inner)
  {
    hide Order, Shuffled, Draws, Only, Distinct;
    OrderLength(u.indices, |u.testCases|, u.lastDeath + 1);
    var deaths, others := EveryCaseOrderIsDrawn(u.indices, order, |u.testCases|, u.lastDeath + 1);
    var tests := EveryInnerIsDrawn(u.testCases, inner, |inner|);
    draws := AllDraws(deaths, others, tests);
  }

  lemma {:induction false} EveryInnerIsDrawn(cases: seq<TestCase>, inner: seq<seq<nat>>, n: nat)
    returns (draws: seq<seq<nat>>)
    requires n <= |inner| == |cases| && forall t :: t in cases ==> t.Valid()
    requires forall k :: 0 <= k < |inner| ==> Order(inner[k], |cases[k].tests|, 0)
    ensures |draws| == n
    ensures forall k :: 0 <= k < n ==>
              |draws[k]| == |cases[k].tests| && Draws(draws[k]) && ShuffledBy(cases[k].indices, draws[k], inner[k])
  {
    hide Order, Draws, Shuffled;
    draws := [];
    if n > 0 {
      var t, m := cases[n - 1], |cases[n - 1].tests|;
      var before := EveryInnerIsDrawn(cases, inner, n - 1);
      assert t in cases;
      OrderLength(t.indices, m, 0);
      OrderLength(inner[n - 1], m, 0);
      SameOrders(t.indices, inner[n - 1], m);
      var d := EveryOrderIsDrawn(t.indices, inner[n - 1], 0, m);
      draws := before + [d];
    }
  }

  lemma SameOrders(v: seq<nat>, r: seq<nat>, n: nat)
    requires Order(v, n, 0) && Order(r, n, 0)
    ensures Rearranged(v, r, 0, n)
  {
    assert v[0..n] == v && r[0..n] == r;
  }

  /** The two accessors agree at every position exactly while the test cases are not shuffled. */
  lemma AccessorsAgree(u: UnitTest)
    requires u.Listed()
    ensures (forall i :: u.TestCaseAt(i) == u.GetMutableTestCase(i)) <==> u.indices == Identity(|u.testCases|)
  {
    u.Differ();
    if forall i :: u.TestCaseAt(i) == u.GetMutableTestCase(i) {
      forall i | 0 <= i < |u.indices| ensures u.indices[i] == i {
        assert u.TestCaseAt(i) == u.GetMutableTestCase(i);
      }
    }
  }

  /** A test case is a death test case if its name ends in the marker or has it before a slash. */
  lemma DeathNames(name: string)
    ensures IsDeath(name) <==> Filters.EndsWith("DeathTest", name) || Filters.Occurs("DeathTest/", name)
  {
    hide Filters.SomePattern, Filters.Glob, Filters.Occurs, Filters.EndsWith;
    var first, second := "*DeathTest", "*DeathTest/*";
    assert DEATH_TEST_CASE == first + ":" + second;
    Filters.EitherPattern(first, second, name);
    Filters.EitherPattern(second, "", name);
    assert first == "*" + "DeathTest" && second == "*" + ("DeathTest/" + "*");
    Filters.GlobSuffix("DeathTest", name);
    Filters.GlobInfix("DeathTest/", name);
  }

  /** A name as short as this is no death test case. */
  lemma ShortName(name: string)
    requires |name| == 1
    ensures !IsDeath(name)
  {
    hide IsDeath;
    DeathNames(name);
  }

  /** Two test cases swap places, and position 0 means a different one to each accessor. */
  method AccessorsDisagree() returns (u: UnitTest)
    ensures fresh(u) && u.Valid() && u.registered == ["A", "B"] && u.TestCaseAt(0) != u.GetMutableTestCase(0)
  {
    hide Only, Order, Shuffled, Filters.SomePattern, TestCase.Valid;
    u := TwoRegistered();
    TwoOthers("A", "B");
    SwapOfTwo();
    assert forall i :: 0 <= i < |u.testCases| ==> u.testCases[i] in u.testCases;
    u.ShuffleTests(AllDraws([], [0, 0], [[0], [0]]));
    u.Differ();
  }

  method TwoRegistered() returns (u: UnitTest)
    ensures fresh(u) && u.Valid() && u.Unshuffled() && u.registered == ["A", "B"]
    ensures forall t :: t in u.testCases ==> fresh(t) && |t.tests| == 1
  {
    hide UnitTest.Valid, UnitTest.Unshuffled, UnitTest.Listed;
    u := new UnitTest();
    u.AddTestInfo("A", "first");
    assert forall t :: t in u.testCases ==> fresh(t) && t.name == "A" && t.tests == ["first"];
    assert forall i :: 0 <= i < |u.testCases| ==> u.testCases[i] in u.testCases;
    u.AddTestInfo("B", "first");
    assert u.registered == ["A", "B"];
  }

  lemma TwoOthers(a: string, b: string)
    requires |a| == |b| == 1
    ensures Only([a, b], true) == [] && Only([a, b], false) == [a, b]
  {
    hide IsDeath;
    ShortName(a);
    ShortName(b);
    assert [] + [a] == [a] && [a] + [b] == [a, b];
    OnlySnoc([], a, true);
    OnlySnoc([a], b, true);
    OnlySnoc([], a, false);
    OnlySnoc([a], b, false);
  }

  lemma SwapOfTwo()
    ensures Shuffled(Shuffled(Identity(2), 0, []), 0, [0, 0]) == [1, 0]
  {
    assert Identity(2) == [0, 1];
    assert [0, 0][..1] == [0];
  }
}
