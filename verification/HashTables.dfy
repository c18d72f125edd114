/** The chained hash tables: HashSet, MileHashMap and the iterator they share the shape of. A bucket is
    NULL or a chain; chains hold their entries in insertion order (see MileList for the linked nodes). */
module HashTables {
  import opened Rows
  import opened Wrappers

  datatype Bucket<+E> = Null | Chain(items: seq<E>)

  function Items<E>(b: Bucket<E>): seq<E> { if b.Null? then [] else b.items }

  /** All entries, bucket by bucket. */
  function Entries<E>(bs: seq<Bucket<E>>): seq<E> {
    if bs == [] then [] else Items(bs[0]) + Entries(bs[1..])
  }

  // ----- the shape both tables keep -----

  ghost predicate InPlace<E(!new), K(!new)>(bs: seq<Bucket<E>>, key: E -> K, hash: K -> nat) {
    forall i, e :: 0 <= i < |bs| && e in Items(bs[i]) ==> hash(key(e)) % |bs| == i
  }

  ghost predicate OnePerClass<E(!new), K(!new)>(chain: seq<E>, key: E -> K, eq: (K, K) -> bool) {
    forall i, j :: 0 <= i < j < |chain| ==> !eq(key(chain[i]), key(chain[j]))
  }

  ghost predicate WellFormed<E(!new), K(!new)>(bs: seq<Bucket<E>>, key: E -> K, eq: (K, K) -> bool, hash: K -> nat) {
    && |bs| > 0
    && InPlace(bs, key, hash)
    && (forall i :: 0 <= i < |bs| ==> bs[i] != Chain([]) && OnePerClass(Items(bs[i]), key, eq))
  }

  // ----- entries and buckets -----

  lemma {:induction false} EntryInBucket<E>(bs: seq<Bucket<E>>, e: E) returns (i: nat)
    requires e in Entries(bs)
    ensures i < |bs| && e in Items(bs[i])
  {
    if e in Items(bs[0]) {
      i := 0;
    } else {
      i := EntryInBucket(bs[1..], e);
      i := i + 1;
    }
  }

  lemma {:induction false} BucketInEntries<E>(bs: seq<Bucket<E>>, i: nat, e: E)
    requires i < |bs| && e in Items(bs[i])
    ensures e in Entries(bs)
  {
    if i > 0 { BucketInEntries(bs[1..], i - 1, e); }
  }

  lemma EntriesCons<E>(bs: seq<Bucket<E>>)
    requires bs != []
    ensures multiset(Entries(bs)) == multiset(Items(bs[0])) + multiset(Entries(bs[1..]))
  {}

  /** Appending to one chain adds exactly that entry. */
  lemma {:induction false} AppendToChain<E>(bs: seq<Bucket<E>>, i: nat, e: E)
    requires i < |bs|
    ensures multiset(Entries(bs[i := Chain(Items(bs[i]) + [e])])) == multiset(Entries(bs)) + multiset{e}
  {
    hide Entries;
    var bs' := bs[i := Chain(Items(bs[i]) + [e])];
    EntriesCons(bs);
    EntriesCons(bs');
    if i == 0 {
      assert bs'[1..] == bs[1..];
    } else {
      assert bs'[1..] == bs[1..][i - 1 := Chain(Items(bs[1..][i - 1]) + [e])];
      AppendToChain(bs[1..], i - 1, e);
    }
  }

  /** Taking one element out of either part of a split collection. */
  lemma ReplaceInPart<E>(a: multiset<E>, b: multiset<E>, x: E, e: E)
    requires x in b
    ensures a + (b - multiset{x} + multiset{e}) == a + b - multiset{x} + multiset{e}
  {}

  /** Replacing one entry of one chain replaces exactly that entry. */
  lemma {:induction false} ReplaceInChain<E>(bs: seq<Bucket<E>>, i: nat, k: nat, e: E)
    requires i < |bs| && k < |Items(bs[i])|
    ensures multiset(Entries(bs[i := Chain(Items(bs[i])[k := e])])) ==
            multiset(Entries(bs)) - multiset{Items(bs[i])[k]} + multiset{e}
  {
    hide Entries;
    var x := Items(bs[i])[k];
    var bs' := bs[i := Chain(Items(bs[i])[k := e])];
    var first, rest := multiset(Items(bs[0])), multiset(Entries(bs[1..]));
    EntriesCons(bs);
    EntriesCons(bs');
    if i == 0 {
      assert bs'[1..] == bs[1..];
      ReplaceInPart(rest, first, x, e);
    } else {
      assert bs'[1..] == bs[1..][i - 1 := Chain(Items(bs[1..][i - 1])[k := e])];
      ReplaceInChain(bs[1..], i - 1, k, e);
      BucketInEntries(bs[1..], i - 1, x);
      ReplaceInPart(first, rest, x, e);
    }
  }

  /** A class that has an entry at all has it in the bucket its hash selects. */
  lemma ClassInOwnBucket<E(!new), K(!new)>(bs: seq<Bucket<E>>, key: E -> K,
                           eq: (K, K) -> bool, hash: K -> nat, k: K, e: E)
    requires WellFormed(bs, key, eq, hash) && HashAgrees(eq, hash) && e in Entries(bs) && eq(key(e), k)
    ensures e in Items(bs[hash(k) % |bs|])
  {
    var i := EntryInBucket(bs, e);
  }

  /** Two entries of one class are one entry. */
  lemma EntriesDiffer<E(!new), K(!new)>(bs: seq<Bucket<E>>, key: E -> K, eq: (K, K) -> bool, hash: K -> nat, e: E, f: E)
    requires WellFormed(bs, key, eq, hash) && Equivalence(eq) && HashAgrees(eq, hash)
    requires e in Entries(bs) && f in Entries(bs) && eq(key(e), key(f))
    ensures e == f
  {
    ClassInOwnBucket(bs, key, eq, hash, key(f), e);
    ClassInOwnBucket(bs, key, eq, hash, key(f), f);
    var chain := Items(bs[hash(key(f)) % |bs|]);
    var i :| 0 <= i < |chain| && chain[i] == e;
    var j :| 0 <= j < |chain| && chain[j] == f;
  }

  /** No entry is stored twice, so the entries are as many as the classes. */
  lemma {:induction false} EntriesDistinct<E(!new), K(!new)>(bs: seq<Bucket<E>>, n: nat,
          key: E -> K, eq: (K, K) -> bool, hash: K -> nat)
    requires n <= |bs| && WellFormed(bs, key, eq, hash) && Equivalence(eq)
    ensures forall e :: multiset(Entries(bs[n..]))[e] <= 1
    ensures forall e :: e in Entries(bs[n..]) ==> n <= hash(key(e)) % |bs|
    decreases |bs| - n
  {
    if n < |bs| {
      EntriesDistinct(bs, n + 1, key, eq, hash);
      assert bs[n..][1..] == bs[n + 1..];
      var chain := Items(bs[n]);
      assert Entries(bs[n..]) == chain + Entries(bs[n + 1..]);
      forall e ensures multiset(chain)[e] <= 1 {
        OnceInChain(chain, key, eq, e);
      }
      forall e | e in Entries(bs[n..]) ensures n <= hash(key(e)) % |bs| && multiset(Entries(bs[n..]))[e] <= 1 {
        if e in chain && e in Entries(bs[n + 1..]) {
          assert false;
        }
        assert multiset(Entries(bs[n..]))[e] == multiset(chain)[e] + multiset(Entries(bs[n + 1..]))[e];
      }
    }
  }

  lemma {:induction false} OnceInChain<E(!new), K(!new)>(chain: seq<E>, key: E -> K, eq: (K, K) -> bool, e: E)
    requires OnePerClass(chain, key, eq) && Equivalence(eq)
    ensures multiset(chain)[e] <= 1
  {
    if chain != [] {
      OnceInChain(chain[1..], key, eq, e);
      assert chain == [chain[0]] + chain[1..];
      if chain[0] == e && e in chain[1..] {
        assert false;
      }
    }
  }

  lemma EntriesStep<E>(bs: seq<Bucket<E>>, n: nat)
    requires n < |bs|
    ensures Entries(bs[n..]) == Items(bs[n]) + Entries(bs[n + 1..])
  {
    assert bs[n..][1..] == bs[n + 1..];
  }

  lemma AfterFirst<E>(chain: seq<E>, pos: nat, rest: seq<E>)
    requires pos < |chain|
    ensures (chain[pos..] + rest)[1..] == chain[pos + 1..] + rest
    ensures pos + 1 == |chain| ==> chain[pos + 1..] + rest == rest
  {}

  // ----- iteration -----

  /** First / Next / IsDone / CurrentItem of HashSetIterator and MileHashMapIterator. */
  class BucketIterator<E(!new)> {
    const buckets: seq<Bucket<E>>
    var loc: nat
    var pos: nat

    ghost predicate Positioned()
      reads this
    {
      loc <= |buckets| && (loc < |buckets| ==> pos < |Items(buckets[loc])|)
    }

    /** What is still to be visited, the current entry first. */
    ghost function Remaining(): seq<E>
      reads this
      requires Positioned()
    {
      if loc < |buckets| then Items(buckets[loc])[pos..] + Entries(buckets[loc + 1..]) else []
    }

    constructor (buckets: seq<Bucket<E>>)
      ensures this.buckets == buckets
    {
      this.buckets := buckets;
      loc, pos := 0, 0;
    }

    method SkipNull()
      requires loc <= |buckets|
      requires forall i :: 0 <= i < |buckets| ==> buckets[i] != Chain([])
      modifies this
      ensures Positioned() && Remaining() == Entries(buckets[old(loc)..])
    {
      hide Entries;
      while loc < |buckets|
        invariant old(loc) <= loc <= |buckets|
        invariant Entries(buckets[loc..]) == Entries(buckets[old(loc)..])
        decreases |buckets| - loc
      {
        EntriesStep(buckets, loc);
        if !buckets[loc].Null? {
          pos := 0;
          return;
        }
        loc := loc + 1;
      }
      NoEntries(buckets);
    }

    method First()
      requires forall i :: 0 <= i < |buckets| ==> buckets[i] != Chain([])
      modifies this
      ensures Positioned() && Remaining() == Entries(buckets)
    {
      loc := 0;
      SkipNull();
      assert buckets[0..] == buckets;
    }

    method IsDone() returns (done: bool)
      requires Positioned()
      ensures done <==> Remaining() == []
    {
      done := loc >= |buckets|;
    }

    method CurrentItem() returns (e: E)
      requires Positioned() && Remaining() != []
      ensures e == Remaining()[0]
    {
      e := Items(buckets[loc])[pos];
    }

    method Next()
      requires Positioned() && Remaining() != []
      requires forall i :: 0 <= i < |buckets| ==> buckets[i] != Chain([])
      modifies this
      ensures Positioned() && Remaining() == old(Remaining())[1..]
    {
      hide Entries, Items;
      ghost var chain, rest := Items(buckets[loc]), Entries(buckets[loc + 1..]);
      AfterFirst(chain, pos, rest);
      pos := pos + 1;
      if pos >= |Items(buckets[loc])| {
        loc := loc + 1;
        SkipNull();
      }
    }
  }

  /** for (it->First(); !it->IsDone(); it->Next()): every entry is visited once, bucket by bucket. */
  method Visit<E(!new)>(buckets: seq<Bucket<E>>) returns (visited: seq<E>)
    requires forall i :: 0 <= i < |buckets| ==> buckets[i] != Chain([])
    ensures visited == Entries(buckets)
  {
    hide Entries, BucketIterator.Remaining, BucketIterator.Positioned;
    var it := new BucketIterator(buckets);
    it.First();
    visited := [];
    var done := it.IsDone();
    while !done
      invariant it.Positioned() && it.buckets == buckets && fresh(it)
      invariant visited + it.Remaining() == Entries(buckets)
      invariant done <==> it.Remaining() == []
      decreases |it.Remaining()|
    {
      ghost var rest := it.Remaining();
      var e := it.CurrentItem();
      visited := visited + [e];
      it.Next();
      assert rest == [rest[0]] + rest[1..];
      done := it.IsDone();
    }
  }

  // ----- HashSet -----

  function Itself<T>(x: T): T { x }

  class HashSet<T(!new)> {
    const eq: (T, T) -> bool
    const hash: T -> nat
    const buckets: array<Bucket<T>>
    var num: nat

    ghost predicate Valid()
      reads this, buckets
    {
      && Equivalence(eq) && HashAgrees(eq, hash)
      && WellFormed(buckets[..], Itself, eq, hash)
      && num == |Stored()|
    }

    /** The stored rows; by Valid() one per class. */
    ghost function Stored(): seq<T>
      reads this, buckets
    {
      Entries(buckets[..])
    }

    constructor (eq: (T, T) -> bool, hash: T -> nat)
      requires Equivalence(eq) && HashAgrees(eq, hash)
      ensures Valid() && fresh(buckets) && Stored() == [] && this.eq == eq && this.hash == hash
    {
      this.eq := eq;
      this.hash := hash;
      buckets := new Bucket<T>[1000](_ => Null);
      num := 0;
      new;
      AllNull(buckets[..]);
    }

    /** The stored row of x's class, if there is one. */
    method Get(x: T) returns (r: Option<T>)
      requires Valid()
      ensures r.Some? ==> r.value in Stored() && eq(r.value, x)
      ensures r.None? ==> !Has(eq, multiset(Stored()), x)
    {
      hide Entries, OnePerClass, InPlace, Equivalence, HashAgrees;
      var b := hash(x) % buckets.Length;
      ghost var bs := buckets[..];
      ghost var chain := Items(bs[b]);
      var i := 0;
      while buckets[b].Chain? && i < |buckets[b].items|
        invariant i <= |chain| && forall j :: 0 <= j < i ==> !eq(chain[j], x)
      {
        if eq(buckets[b].items[i], x) {
          BucketInEntries(bs, b, chain[i]);
          return Some(buckets[b].items[i]);
        }
        i := i + 1;
      }
      if Has(eq, multiset(Stored()), x) {
        var y :| y in multiset(Stored()) && eq(y, x);
        ClassInOwnBucket(bs, Itself, eq, hash, x, y);
        assert false;
      }
      r := None;
    }

    method Contains(x: T) returns (b: bool)
      requires Valid()
      ensures b <==> Has(eq, multiset(Stored()), x)
    {
      if num == 0 { return false; }
      var r := Get(x);
      b := r.Some?;
      if b { assert r.value in multiset(Stored()); }
    }

    method Add(x: T)
      requires Valid()
      modifies this, buckets
      ensures Valid()
      ensures multiset(Stored()) ==
              multiset(old(Stored())) + if Has(eq, multiset(old(Stored())), x) then multiset{} else multiset{x}
    {
      ghost var bs := buckets[..];
      var r := Get(x);
      if r.Some? {
        assert r.value in multiset(Stored());
        return;
      }
      var b := hash(x) % buckets.Length;
      buckets[b] := Chain(Items(buckets[b]) + [x]);
      num := num + 1;
      assert buckets[..] == bs[b := Chain(Items(bs[b]) + [x])];
      AppendToChain(bs, b, x);
      forall f | f in Entries(bs) ensures !eq(f, x) { assert f in multiset(Entries(bs)); }
      AddWellFormed(bs, Itself, eq, hash, x);
      assert |multiset(Entries(buckets[..]))| == |multiset(Entries(bs))| + 1;
    }
  }

  lemma NoEntries<E>(bs: seq<Bucket<E>>)
    ensures Entries(bs[|bs|..]) == []
  {}

  lemma {:induction false} AllNull<E>(bs: seq<Bucket<E>>)
    requires forall i :: 0 <= i < |bs| ==> bs[i].Null?
    ensures Entries(bs) == []
  {
    if bs != [] { AllNull(bs[1..]); }
  }

  lemma AddWellFormed<E(!new), K(!new)>(bs: seq<Bucket<E>>, key: E -> K, eq: (K, K) -> bool, hash: K -> nat, e: E)
    requires WellFormed(bs, key, eq, hash) && Equivalence(eq)
    requires forall f :: f in Entries(bs) ==> !eq(key(f), key(e))
    ensures var i := hash(key(e)) % |bs|; WellFormed(bs[i := Chain(Items(bs[i]) + [e])], key, eq, hash)
  {
    hide Entries;
    var i := hash(key(e)) % |bs|;
    var chain, bs' := Items(bs[i]), bs[i := Chain(Items(bs[i]) + [e])];
    forall f | f in chain ensures !eq(key(f), key(e)) { BucketInEntries(bs, i, f); }
    OnePerClassSnoc(chain, key, eq, e);
    hide OnePerClass;
    assert InPlace(bs', key, hash) by {
      forall j, f | 0 <= j < |bs'| && f in Items(bs'[j]) ensures hash(key(f)) % |bs'| == j {
        if j == i { assert f in chain || f == e; }
      }
    }
  }

  lemma OnePerClassSnoc<E(!new), K(!new)>(chain: seq<E>, key: E -> K, eq: (K, K) -> bool, e: E)
    requires OnePerClass(chain, key, eq) && forall f :: f in chain ==> !eq(key(f), key(e))
    ensures OnePerClass(chain + [e], key, eq)
  {
    var more := chain + [e];
    forall i, j | 0 <= i < j < |more| ensures !eq(key(more[i]), key(more[j])) {
      assert more[i] == chain[i] && chain[i] in chain;
    }
  }

  // ----- MileHashMap -----

  function KeyOf<K, V>(e: (K, V)): K { e.0 }

  /** Some entry of k's class carries `v`. */
  ghost predicate Binds<K(!new), V(!new)>(eq: (K, K) -> bool, entries: seq<(K, V)>, k: K, v: V) {
    exists i :: 0 <= i < |entries| && eq(entries[i].0, k) && entries[i].1 == v
  }

  ghost predicate Bound<K(!new), V(!new)>(eq: (K, K) -> bool, entries: seq<(K, V)>, k: K) {
    exists i :: 0 <= i < |entries| && eq(entries[i].0, k)
  }

  lemma BindsIn<K(!new), V(!new)>(eq: (K, K) -> bool, entries: seq<(K, V)>, e: (K, V), k: K)
    requires e in entries && eq(e.0, k)
    ensures Binds(eq, entries, k, e.1) && Bound(eq, entries, k)
  {
    var i :| 0 <= i < |entries| && entries[i] == e;
    assert eq(entries[i].0, k) && entries[i].1 == e.1;
  }

  class MileHashMap<K(!new), V(!new)> {
    const eq: (K, K) -> bool
    const hash: K -> nat
    const buckets: array<Bucket<(K, V)>>
    var num: nat

    ghost predicate Valid()
      reads this, buckets
    {
      && Equivalence(eq) && HashAgrees(eq, hash)
      && WellFormed(buckets[..], KeyOf, eq, hash)
      && num == |Stored()|
    }

    ghost function Stored(): seq<(K, V)>
      reads this, buckets
    {
      Entries(buckets[..])
    }

    constructor (eq: (K, K) -> bool, hash: K -> nat)
      requires Equivalence(eq) && HashAgrees(eq, hash)
      ensures Valid() && fresh(buckets) && Stored() == [] && this.eq == eq && this.hash == hash
    {
      this.eq := eq;
      this.hash := hash;
      buckets := new Bucket<(K, V)>[1000](_ => Null);
      num := 0;
      new;
      AllNull(buckets[..]);
    }

    /** The scan both Put and Get start with: where in its own chain k's class is, if anywhere. */
    method Find(k: K) returns (at: Option<nat>)
      requires Valid()
      ensures at.Some? ==>
                var chain := Items(buckets[hash(k) % buckets.Length]);
                at.value < |chain| && eq(chain[at.value].0, k) && chain[at.value] in Stored()
      ensures at.None? ==> forall e :: e in Stored() ==> !eq(e.0, k)
    {
      var b := hash(k) % buckets.Length;
      ghost var bs := buckets[..];
      ghost var chain := Items(bs[b]);
      var i := 0;
      while buckets[b].Chain? && i < |buckets[b].items|
        invariant i <= |chain| && forall j :: 0 <= j < i ==> !eq(chain[j].0, k)
      {
        if eq(buckets[b].items[i].0, k) {
          BucketInEntries(bs, b, chain[i]);
          return Some(i);
        }
        i := i + 1;
      }
      forall e | e in Stored() ensures !eq(e.0, k) {
        if eq(e.0, k) {
          ClassInOwnBucket(bs, KeyOf, eq, hash, k, e);
          assert false;
        }
      }
      at := None;
    }

    method Get(k: K) returns (r: Option<V>)
      requires Valid()
      ensures r.Some? ==> Binds(eq, Stored(), k, r.value)
      ensures r.None? <==> !Bound(eq, Stored(), k)
    {
      var at := Find(k);
      if at.None? { return None; }
      var e := buckets[hash(k) % buckets.Length].items[at.value];
      BindsIn(eq, Stored(), e, k);
      r := Some(e.1);
    }

    /** Put changes what k's class is bound to and nothing else. */
    method Put(k: K, v: V)
      requires Valid()
      modifies this, buckets
      ensures Valid()
      ensures num == old(num) + if Bound(eq, old(Stored()), k) then 0 else 1
      ensures forall k', v' :: Binds(eq, Stored(), k', v') <==>
                if eq(k, k') then v' == v else Binds(eq, old(Stored()), k', v')
    {
      hide WellFormed, Entries, Binds, Equivalence, HashAgrees;
      Sized(this);
      var at := Find(k);
      var b := hash(k) % buckets.Length;
      ghost var bs := buckets[..];
      if at.Some? {
        var e := buckets[b].items[at.value];
        buckets[b] := Chain(buckets[b].items[at.value := (e.0, v)]);
        BindsIn(eq, old(Stored()), e, k);
        ghost var i := at.value;
        assert buckets[..] == bs[b := Chain(Items(bs[b])[i := (e.0, v)])];
        ReplaceInChain(bs, b, i, (e.0, v));
        ReplaceWellFormed(bs, eq, hash, b, i, v);
        ReplaceBinds(bs, eq, hash, b, i, k, v);
        assert |multiset(Entries(buckets[..]))| == |multiset(Entries(bs))|;
      } else {
        buckets[b] := Chain(Items(buckets[b]) + [(k, v)]);
        num := num + 1;
        assert buckets[..] == bs[b := Chain(Items(bs[b]) + [(k, v)])];
        AppendToChain(bs, b, (k, v));
        AddWellFormed(bs, KeyOf, eq, hash, (k, v));
        AppendBinds(Entries(bs), Entries(buckets[..]), eq, k, v);
        assert |multiset(Entries(buckets[..]))| == |multiset(Entries(bs))| + 1;
      }
    }
  }

  lemma Sized<K(!new), V(!new)>(m: MileHashMap<K, V>)
    requires m.Valid()
    ensures m.buckets.Length > 0
  {}

  lemma ReplaceWellFormed<K(!new), V(!new)>(bs: seq<Bucket<(K, V)>>, eq: (K, K) -> bool, hash: K -> nat,
                            b: nat, i: nat, v: V)
    requires WellFormed(bs, KeyOf, eq, hash) && b < |bs| && i < |Items(bs[b])|
    ensures WellFormed(bs[b := Chain(Items(bs[b])[i := (Items(bs[b])[i].0, v)])], KeyOf, eq, hash)
  {
    var chain := Items(bs[b]);
    assert forall f :: f in chain[i := (chain[i].0, v)] ==> f in chain || f.0 == chain[i].0;
    assert chain[i] in chain;
  }

  lemma AppendBinds<K(!new), V(!new)>(before: seq<(K, V)>, after: seq<(K, V)>, eq: (K, K) -> bool, k: K, v: V)
    requires Equivalence(eq) && multiset(after) == multiset(before) + multiset{(k, v)}
    requires forall e :: e in before ==> !eq(e.0, k)
    ensures !Bound(eq, before, k)
    ensures forall k', v' :: Binds(eq, after, k', v') <==> if eq(k, k') then v' == v else Binds(eq, before, k', v')
  {
    forall k', v' ensures Binds(eq, after, k', v') <==> if eq(k, k') then v' == v else Binds(eq, before, k', v') {
      BindsMembers(eq, after, k', v');
      BindsMembers(eq, before, k', v');
      forall e ensures e in after <==> e in before || e == (k, v) {
        assert e in multiset(after) <==> e in multiset(before) || e == (k, v);
      }
      if eq(k, k') { assert (k, v) in after; }
    }
  }

  lemma BindsMembers<K(!new), V(!new)>(eq: (K, K) -> bool, entries: seq<(K, V)>, k: K, v: V)
    ensures Binds(eq, entries, k, v) <==> exists e :: e in entries && eq(e.0, k) && e.1 == v
  {
    if e :| e in entries && eq(e.0, k) && e.1 == v { BindsIn(eq, entries, e, k); }
  }

  /** Giving the one entry of k's class a new value. */
  lemma RebindsOne<K(!new), V(!new)>(eq: (K, K) -> bool, before: seq<(K, V)>, after: seq<(K, V)>, e: (K, V), k: K, v: V)
    requires Equivalence(eq) && e in before && eq(e.0, k)
    requires forall f :: f in before && eq(f.0, k) ==> f == e
    requires forall f :: f in after <==> (f in before && f != e) || f == (e.0, v)
    ensures forall k', v' :: Binds(eq, after, k', v') <==> if eq(k, k') then v' == v else Binds(eq, before, k', v')
  {
    forall k', v' ensures Binds(eq, after, k', v') <==> if eq(k, k') then v' == v else Binds(eq, before, k', v') {
      BindsMembers(eq, after, k', v');
      BindsMembers(eq, before, k', v');
      hide Binds;
      if eq(k, k') { assert (e.0, v) in after && eq(e.0, k'); }
    }
  }

  lemma ReplaceBinds<K(!new), V(!new)>(bs: seq<Bucket<(K, V)>>, eq: (K, K) -> bool, hash: K -> nat,
                       b: nat, i: nat, k: K, v: V)
    requires WellFormed(bs, KeyOf, eq, hash) && Equivalence(eq) && HashAgrees(eq, hash)
    requires b < |bs| && i < |Items(bs[b])| && eq(Items(bs[b])[i].0, k)
    ensures var bs' := bs[b := Chain(Items(bs[b])[i := (Items(bs[b])[i].0, v)])];
            forall k', v' :: Binds(eq, Entries(bs'), k', v') <==>
              if eq(k, k') then v' == v else Binds(eq, Entries(bs), k', v')
  {
    var e := Items(bs[b])[i];
    var bs' := bs[b := Chain(Items(bs[b])[i := (e.0, v)])];
    ReplaceInChain(bs, b, i, (e.0, v));
    BucketInEntries(bs, b, e);
    EntriesDistinct(bs, 0, KeyOf, eq, hash);
    assert bs[0..] == bs;
    forall f | f in Entries(bs) && eq(f.0, k) ensures f == e {
      EntriesDiffer(bs, KeyOf, eq, hash, f, e);
    }
    hide WellFormed, HashAgrees, Entries;
    forall f ensures f in Entries(bs') <==> (f in Entries(bs) && f != e) || f == (e.0, v) {
      assert f in multiset(Entries(bs')) <==> (f in multiset(Entries(bs)) && f != e) || f == (e.0, v);
    }
    RebindsOne(eq, Entries(bs), Entries(bs'), e, k, v);
  }
}
