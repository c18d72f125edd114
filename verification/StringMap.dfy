/** The map over string keys kept as a sorted array of bounded size. */
module StringMap {
  import opened Wrappers

  datatype Entry<V> = Entry(key: string, value: V)

  /** The library comparison: negative, zero or positive. */
  function StrCmp(a: string, b: string): int {
    if a == [] then (if b == [] then 0 else -1)
    else if b == [] then 1
    else if a[0] != b[0] then a[0] as int - b[0] as int
    else StrCmp(a[1..], b[1..])
  }

  ghost predicate Less(a: string, b: string) { StrCmp(a, b) < 0 }

  lemma {:induction false} CmpIsOrder(a: string, b: string)
    ensures StrCmp(a, b) == 0 <==> a == b
    ensures StrCmp(a, b) < 0 <==> StrCmp(b, a) > 0
  {
    if a != [] && b != [] {
      CmpIsOrder(a[1..], b[1..]);
      assert a == [a[0]] + a[1..] && b == [b[0]] + b[1..];
    }
  }

  lemma {:induction false} LessIsTransitive(a: string, b: string, c: string)
    requires Less(a, b) && Less(b, c)
    ensures Less(a, c)
  {
    if a != [] && b != [] && c != [] && a[0] == b[0] == c[0] {
      LessIsTransitive(a[1..], b[1..], c[1..]);
    }
  }

  ghost predicate DifferAt(a: string, b: string, i: nat) { i < |a| && i < |b| && a[..i] == b[..i] && a[i] != b[i] }

  /** The order of a dictionary: a string comes before its continuations, and otherwise the first difference
      decides. */
  lemma {:induction false} LessIsLexicographic(a: string, b: string)
    ensures Less(a, b) <==> a < b || exists i: nat :: DifferAt(a, b, i) && a[i] < b[i]
  {
    if a != [] && b != [] {
      if a[0] != b[0] {
        assert DifferAt(a, b, 0);
        assert forall i: nat :: DifferAt(a, b, i) ==> i == 0;
      } else {
        LessIsLexicographic(a[1..], b[1..]);
        assert a == [a[0]] + a[1..] && b == [b[0]] + b[1..];
        if i: nat :| DifferAt(a[1..], b[1..], i) && a[1..][i] < b[1..][i] { DifferLater(a, b, i); }
        if i: nat :| DifferAt(a, b, i) && a[i] < b[i] { DifferLater(a, b, i - 1); }
      }
    }
  }

  lemma DifferLater(a: string, b: string, i: nat)
    requires a != [] && b != [] && a[0] == b[0]
    ensures DifferAt(a[1..], b[1..], i) <==> DifferAt(a, b, i + 1)
  {
    if i < |a| - 1 && i < |b| - 1 {
      assert a[..i + 1] == [a[0]] + a[1..][..i] && b[..i + 1] == [b[0]] + b[1..][..i];
    }
  }

  ghost predicate Sorted<V>(s: seq<Entry<V>>) {
    forall i, j :: 0 <= i < j < |s| ==> Less(s[i].key, s[j].key)
  }

  /** The map that the entries stand for. */
  ghost function ToMap<V>(s: seq<Entry<V>>): map<string, V> {
    if s == [] then map[]
    else ToMap(s[..|s| - 1])[s[|s| - 1].key := s[|s| - 1].value]
  }

  ghost predicate HasKey<V>(s: seq<Entry<V>>, key: string) { exists i :: 0 <= i < |s| && s[i].key == key }

  lemma {:induction false} MapKeys<V>(s: seq<Entry<V>>)
    ensures forall k :: k in ToMap(s) <==> HasKey(s, k)
  {
    if s != [] {
      var front, last := s[..|s| - 1], s[|s| - 1];
      MapKeys(front);
      forall k ensures k in ToMap(s) <==> HasKey(s, k) {
        if HasKey(front, k) {
          var i :| 0 <= i < |front| && front[i].key == k;
          assert s[i].key == k;
        } else if k == last.key {
          assert s[|front|].key == k;
        } else {
          assert forall i :: 0 <= i < |s| ==> s[i] == if i < |front| then front[i] else last;
        }
      }
    }
  }

  lemma {:induction false} MapAt<V>(s: seq<Entry<V>>, i: nat)
    requires Sorted(s) && i < |s|
    ensures s[i].key in ToMap(s) && ToMap(s)[s[i].key] == s[i].value
  {
    var n := |s| - 1;
    if i < n {
      MapAt(s[..n], i);
      CmpIsOrder(s[i].key, s[n].key);
    }
  }

  /** Two sorted tables stand for the same map if they hold the same entries. */
  lemma SameMap<V>(s: seq<Entry<V>>, m: map<string, V>)
    requires Sorted(s)
    requires forall i :: 0 <= i < |s| ==> s[i].key in m && m[s[i].key] == s[i].value
    requires forall k :: k in m ==> HasKey(s, k)
    ensures ToMap(s) == m
  {
    hide ToMap, Sorted;
    MapKeys(s);
    forall k | k in m ensures k in ToMap(s) && ToMap(s)[k] == m[k] {
      var i :| 0 <= i < |s| && s[i].key == k;
      MapAt(s, i);
    }
    forall k | k in ToMap(s) ensures k in m {
      var i :| 0 <= i < |s| && s[i].key == k;
    }
  }

  ghost function Cut<V>(s: seq<Entry<V>>, i: nat): seq<Entry<V>>
    requires i < |s|
  {
    s[..i] + s[i + 1..]
  }

  ghost function Insert<V>(s: seq<Entry<V>>, i: nat, e: Entry<V>): seq<Entry<V>>
    requires i <= |s|
  {
    s[..i] + [e] + s[i..]
  }

  lemma CutMap<V>(s: seq<Entry<V>>, i: nat)
    requires Sorted(s) && i < |s|
    ensures Sorted(Cut(s, i)) && ToMap(Cut(s, i)) == ToMap(s) - {s[i].key}
  {
    hide ToMap, HasKey, Cut, Sorted, StrCmp, Less;
    var t, m := Cut(s, i), ToMap(s) - {s[i].key};
    CutSorted(s, i);
    MapKeys(s);
    forall j | 0 <= j < |t| ensures t[j].key in m && m[t[j].key] == t[j].value {
      CutKeeps(s, i, j);
      MapAt(s, if j < i then j else j + 1);
    }
    forall k | k in m ensures HasKey(t, k) { CutKeyStays(s, i, k); }
    SameMap(t, m);
  }

  lemma CutSorted<V>(s: seq<Entry<V>>, i: nat)
    requires Sorted(s) && i < |s|
    ensures |Cut(s, i)| == |s| - 1 && Sorted(Cut(s, i))
  {
    hide Less;
  }

  lemma CutKeeps<V>(s: seq<Entry<V>>, i: nat, j: nat)
    requires Sorted(s) && i < |s| && j < |s| - 1
    ensures |Cut(s, i)| == |s| - 1 && Cut(s, i)[j] == s[if j < i then j else j + 1]
    ensures Cut(s, i)[j].key != s[i].key
  {
    hide StrCmp;
    var k := if j < i then j else j + 1;
    CmpIsOrder(s[k].key, s[i].key);
    CmpIsOrder(s[i].key, s[k].key);
  }

  lemma CutKeyStays<V>(s: seq<Entry<V>>, i: nat, k: string)
    requires i < |s| && HasKey(s, k) && k != s[i].key
    ensures HasKey(Cut(s, i), k)
  {
    var j :| 0 <= j < |s| && s[j].key == k;
    assert Cut(s, i)[if j < i then j else j - 1].key == k;
  }

  lemma InsertSorted<V>(s: seq<Entry<V>>, i: nat, e: Entry<V>)
    requires Sorted(s) && i <= |s|
    requires i > 0 ==> Less(s[i - 1].key, e.key)
    requires i < |s| ==> Less(e.key, s[i].key)
    ensures Sorted(Insert(s, i, e))
  {
    forall j | 0 <= j < i ensures Less(s[j].key, e.key) {
      if j < i - 1 { LessIsTransitive(s[j].key, s[i - 1].key, e.key); }
    }
    forall j | i <= j < |s| ensures Less(e.key, s[j].key) {
      if i < j { LessIsTransitive(e.key, s[i].key, s[j].key); }
    }
  }

  lemma InsertMap<V>(s: seq<Entry<V>>, i: nat, e: Entry<V>)
    requires Sorted(s) && i <= |s| && Sorted(Insert(s, i, e)) && e.key !in ToMap(s)
    ensures ToMap(Insert(s, i, e)) == ToMap(s)[e.key := e.value]
  {
    hide ToMap, HasKey, Insert, Sorted;
    var t, m := Insert(s, i, e), ToMap(s)[e.key := e.value];
    MapKeys(s);
    forall j | 0 <= j < |t| ensures t[j].key in m && m[t[j].key] == t[j].value {
      InsertedAt(s, i, e, j);
      if j < i { MapAt(s, j); } else if i < j { MapAt(s, j - 1); }
    }
    forall k | k in m ensures HasKey(t, k) { InsertKeys(s, i, e, k); }
    SameMap(t, m);
  }

  lemma InsertedAt<V>(s: seq<Entry<V>>, i: nat, e: Entry<V>, j: nat)
    requires i <= |s| && j < |Insert(s, i, e)|
    ensures |Insert(s, i, e)| == |s| + 1
    ensures Insert(s, i, e)[j] == if j < i then s[j] else if j == i then e else s[j - 1]
  {}

  lemma InsertKeys<V>(s: seq<Entry<V>>, i: nat, e: Entry<V>, k: string)
    requires i <= |s| && (HasKey(s, k) || k == e.key)
    ensures HasKey(Insert(s, i, e), k)
  {
    var t := Insert(s, i, e);
    if k == e.key {
      assert t[i].key == k;
    } else {
      var j :| 0 <= j < |s| && s[j].key == k;
      assert t[if j < i then j else j + 1].key == k;
    }
  }

  /** What a comparison at one place says about the places beside it. */
  lemma Halve<V>(s: seq<Entry<V>>, m: nat, key: string)
    requires Sorted(s) && m < |s|
    ensures StrCmp(key, s[m].key) < 0 ==> forall i :: m <= i < |s| ==> s[i].key != key
    ensures StrCmp(key, s[m].key) > 0 ==> forall i :: 0 <= i <= m ==> s[i].key != key
  {
    forall i | 0 <= i < |s| && s[i].key == key
      ensures (StrCmp(key, s[m].key) < 0 ==> i < m) && (StrCmp(key, s[m].key) > 0 ==> m < i)
    {
      CmpIsOrder(key, s[m].key);
      CmpIsOrder(s[m].key, key);
    }
  }

  lemma NextBelow<V>(s: seq<Entry<V>>, i: nat, key: string)
    requires i < |s| && !HasKey(s, key) && StrCmp(key, s[i].key) >= 0
    ensures Less(s[i].key, key)
  {
    CmpIsOrder(key, s[i].key);
    CmpIsOrder(s[i].key, key);
  }

  class Table<V(0)> {
    const size: nat
    var data: array<Entry<V>>
    var pos: nat

    ghost predicate Valid()
      reads this, data
    {
      data.Length == size && pos <= size && Sorted(data[..pos])
    }

    ghost function Contents(): map<string, V>
      reads this, data
      requires Valid()
    {
      ToMap(data[..pos])
    }

    constructor (size: nat)
      ensures Valid() && this.size == size && pos == 0 && fresh(data) && Contents() == map[]
    {
      this.size := size;
      data := new Entry<V>[size];
      pos := 0;
    }

    /** The library's binary search. */
    method Bsearch(key: string) returns (r: Option<nat>)
      requires Valid()
      ensures r.None? <==> key !in Contents()
      ensures r.Some? ==> r.value < pos && data[r.value].key == key && Contents()[key] == data[r.value].value
    {
      hide ToMap, Sorted, StrCmp;
      ghost var s := data[..pos];
      MapKeys(s);
      var lo, hi := 0, pos;
      while lo < hi
        invariant 0 <= lo <= hi <= pos
        invariant forall i :: 0 <= i < pos && !(lo <= i < hi) ==> s[i].key != key
      {
        var m := (lo + hi) / 2;
        Halve(s, m, key);
        var c := StrCmp(key, data[m].key);
        if c < 0 {
          hi := m;
        } else if c > 0 {
          lo := m + 1;
        } else {
          CmpIsOrder(key, s[m].key);
          MapAt(s, m);
          return Some(m);
        }
      }
      return None;
    }

    method Get(key: string) returns (r: Option<V>)
      requires Valid()
      ensures r == if key in Contents() then Some(Contents()[key]) else None
    {
      var v := Bsearch(key);
      return if v.None? then None else Some(data[v.value].value);
    }

    method Remove(key: string) returns (r: Option<V>)
      requires Valid()
      modifies this`pos, data
      ensures Valid() && Contents() == old(Contents()) - {key}
      ensures r == if key in old(Contents()) then Some(old(Contents()[key])) else None
      ensures pos == old(pos) - if r.Some? then 1 else 0
    {
      hide ToMap, Sorted, StrCmp;
      var v := Bsearch(key);
      if v.None? { return None; }
      var k := v.value;
      var value := data[k].value;
      ghost var s := data[..pos];
      CutMap(s, k);
      CloseGap(k);
      pos := pos - 1;
      assert data[..pos] == Cut(s, k);
      return Some(value);
    }

    /** The block move over the removed entry. */
    method CloseGap(k: nat)
      requires k < pos <= data.Length
      modifies data
      ensures data[..pos - 1] == old(data[..k]) + old(data[k + 1..pos])
    {
      forall i | k <= i < pos - 1 { data[i] := data[i + 1]; }
    }

    /**
     * Insert or replace.  A full table refuses both, even the replacement
     * that would not need a new place.
     */
    method Put(key: string, value: V) returns (ok: bool)
      requires Valid()
      modifies this`pos, data
      ensures Valid() && (ok <==> old(pos) < size)
      ensures Contents() == if ok then old(Contents())[key := value] else old(Contents())
      ensures pos == old(pos) + if ok && key !in old(Contents()) then 1 else 0
    {
      hide ToMap, Sorted, StrCmp, Less;
      if pos == size { return false; }
      var _ := Remove(key);
      AddNew(key, value);
      return true;
    }

    method AddNew(key: string, value: V)
      requires Valid() && pos < size && key !in Contents()
      modifies this`pos, data
      ensures Valid() && Contents() == old(Contents())[key := value] && pos == old(pos) + 1
    {
      hide ToMap, Sorted, StrCmp, Less, Insert;
      ghost var s := data[..pos];
      var i := OpenGap(key);
      var e := Entry(key, value);
      InsertSorted(s, i, e);
      InsertMap(s, i, e);
      Place(i, e, s);
    }

    method Place(i: nat, e: Entry<V>, ghost s: seq<Entry<V>>)
      requires i <= pos < data.Length && |s| == pos
      requires data[..i] == s[..i] && data[i + 1..pos + 1] == s[i..]
      modifies this`pos, data
      ensures pos == old(pos) + 1 && data[..pos] == Insert(s, i, e)
    {
      data[i] := e;
      pos := pos + 1;
      assert data[..pos] == data[..i] + [data[i]] + data[i + 1..pos];
    }

    /** Shift the greater entries up by one. */
    method OpenGap(key: string) returns (k: nat)
      requires Valid() && pos < size && key !in Contents()
      modifies data
      ensures k <= pos
      ensures data[..k] == old(data[..k]) && data[k + 1..pos + 1] == old(data[k..pos])
      ensures k > 0 ==> Less(old(data[k - 1].key), key)
      ensures k < pos ==> Less(key, old(data[k].key))
    {
      hide ToMap, Sorted, StrCmp, HasKey;
      ghost var s := data[..pos];
      MapKeys(s);
      var i := pos - 1;
      while i >= 0
        invariant -1 <= i < pos
        invariant data[..i + 1] == s[..i + 1] && data[i + 2..pos + 1] == s[i + 1..]
        invariant i + 1 < pos ==> Less(key, s[i + 1].key)
        decreases i
      {
        assert data[i] == data[..i + 1][i] == s[i];
        if StrCmp(key, data[i].key) >= 0 {
          NextBelow(s, i, key);
          break;
        }
        ShiftOne(i, s);
        i := i - 1;
      }
      k := i + 1;
    }

    method ShiftOne(i: nat, ghost s: seq<Entry<V>>)
      requires |s| == pos && i < pos < data.Length
      requires data[..i + 1] == s[..i + 1] && data[i + 2..pos + 1] == s[i + 1..]
      modifies data
      ensures data[..i] == s[..i] && data[i + 1..pos + 1] == s[i..]
    {
      data[i + 1] := data[i];
      assert s[i] == s[..i + 1][i];
      assert data[i + 1..pos + 1] == [data[i + 1]] + data[i + 2..pos + 1];
      assert s[i..] == [s[i]] + s[i + 1..];
    }
  }

  /** A table of size one that holds a key refuses it a new value. */
  method RefusedReplacement() returns (stored: bool, replaced: bool, value: Option<nat>)
    ensures stored && !replaced && value == Some(1)
  {
    var table := new Table<nat>(1);
    hide ToMap, Sorted;
    stored := table.Put("key", 1);
    replaced := table.Put("key", 2);
    value := table.Get("key");
  }
}
