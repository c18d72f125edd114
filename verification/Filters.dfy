/** Test filters and shards of Google Test. */
module Filters {

  // ----- wildcard patterns -----

  /** What a pattern means: '?' is any character, '*' any string, anything else itself. */
  ghost predicate Glob(p: string, s: string)
    decreases |p|
  {
    if p == "" then s == ""
    else if p[0] == '*' then exists k :: 0 <= k <= |s| && Glob(p[1..], s[k..])
    else s != "" && (p[0] == '?' || p[0] == s[0]) && Glob(p[1..], s[1..])
  }

  /** The part of a filter before the first ':'. */
  function HeadPattern(filter: string): (p: string)
    ensures p <= filter && ':' !in p && (|p| < |filter| ==> filter[|p|] == ':')
  {
    if filter == "" || filter[0] == ':' then "" else [filter[0]] + HeadPattern(filter[1..])
  }

  /** The patterns of a filter, which ':' separates. */
  function Patterns(filter: string): seq<string>
    decreases |filter|
  {
    var p := HeadPattern(filter);
    if |p| == |filter| then [p] else [p] + Patterns(filter[|p| + 1..])
  }

  /** PatternMatchesString: the first ':' or the end closes the pattern. */
  function PatternMatchesString(pattern: string, str: string): bool
    decreases |pattern| + |str|
  {
    if pattern == "" || pattern[0] == ':' then str == ""
    else if pattern[0] == '?' then str != "" && PatternMatchesString(pattern[1..], str[1..])
    else if pattern[0] == '*' then
      (str != "" && PatternMatchesString(pattern, str[1..])) || PatternMatchesString(pattern[1..], str)
    else str != "" && pattern[0] == str[0] && PatternMatchesString(pattern[1..], str[1..])
  }

  lemma StarStep(p: string, s: string)
    requires p != "" && p[0] == '*'
    ensures Glob(p, s) <==> Glob(p[1..], s) || (s != "" && Glob(p, s[1..]))
  {
    assert s[0..] == s;
    if k :| 0 < k <= |s| && Glob(p[1..], s[k..]) {
      assert s[1..][k - 1..] == s[k..];
    }
    if s != "" && Glob(p, s[1..]) {
      var k :| 0 <= k <= |s[1..]| && Glob(p[1..], s[1..][k..]);
      assert s[1..][k..] == s[k + 1..];
    }
  }

  /** The recursive matcher decides the meaning of the first pattern. */
  lemma {:induction false} PatternMeansGlob(pattern: string, str: string)
    ensures PatternMatchesString(pattern, str) <==> Glob(HeadPattern(pattern), str)
    decreases |pattern| + |str|
  {
    var p := HeadPattern(pattern);
    if pattern == "" || pattern[0] == ':' {
    } else {
      assert p == [pattern[0]] + HeadPattern(pattern[1..]);
      assert p[1..] == HeadPattern(pattern[1..]);
      if pattern[0] == '*' {
        StarStep(p, str);
        PatternMeansGlob(pattern[1..], str);
        if str != "" { PatternMeansGlob(pattern, str[1..]); }
      } else if str != "" {
        PatternMeansGlob(pattern[1..], str[1..]);
      }
    }
  }

  /** The loop over the patterns of a filter: some pattern matches the name. */
  method MatchesFilter(name: string, filter: string) returns (b: bool)
    ensures b <==> SomePattern(filter, name)
  {
    var cur := filter;
    while true
      invariant SomePattern(filter, name) <==> SomePattern(cur, name)
      decreases |cur|
    {
      PatternMeansGlob(cur, name);
      NextPattern(cur, name);
      if PatternMatchesString(cur, name) { return true; }
      var colon := |HeadPattern(cur)|;
      if colon == |cur| { return false; }
      cur := cur[colon + 1..];
    }
  }

  ghost predicate SomePattern(filter: string, name: string) {
    exists i :: 0 <= i < |Patterns(filter)| && Glob(Patterns(filter)[i], name)
  }

  lemma NextPattern(filter: string, name: string)
    ensures var p := HeadPattern(filter);
            SomePattern(filter, name) <==> Glob(p, name) || (|p| < |filter| && SomePattern(filter[|p| + 1..], name))
  {
    hide Glob, HeadPattern;
    var p := HeadPattern(filter);
    assert Patterns(filter)[0] == p;
    if |p| < |filter| {
      var rest := Patterns(filter[|p| + 1..]);
      assert Patterns(filter) == [p] + rest;
      if i :| 0 <= i < |rest| && Glob(rest[i], name) { assert Patterns(filter)[i + 1] == rest[i]; }
      if i :| 0 < i < |Patterns(filter)| && Glob(Patterns(filter)[i], name)
          { assert rest[i - 1] == Patterns(filter)[i]; }
    }
  }

  // ----- positive and negative parts -----

  function FirstDash(s: string): (n: nat)
    ensures n <= |s| && (n < |s| ==> s[n] == '-') && '-' !in s[..n]
  {
    if s == "" || s[0] == '-' then 0 else 1 + FirstDash(s[1..])
  }

  const UNIVERSAL := "*"

  function Positive(filter: string): string {
    var n := FirstDash(filter);
    if n == |filter| then filter else if n == 0 then UNIVERSAL else filter[..n]
  }

  function Negative(filter: string): string {
    var n := FirstDash(filter);
    if n == |filter| then "" else filter[n + 1..]
  }

  function FullName(testCase: string, test: string): string { testCase + "." + test }

  /** Some positive and no negative pattern matches the full name. */
  ghost predicate Selects(filter: string, testCase: string, test: string) {
    SomePattern(Positive(filter), FullName(testCase, test)) && !SomePattern(Negative(filter), FullName(testCase, test))
  }

  method FilterMatchesTest(filter: string, testCase: string, test: string) returns (b: bool)
    ensures b <==> Selects(filter, testCase, test)
  {
    var full := testCase + "." + test;
    var dash := FirstDash(filter);
    var positive, negative;
    if dash == |filter| {
      positive, negative := filter, "";
    } else {
      positive, negative := filter[..dash], filter[dash + 1..];
      if positive == "" { positive := UNIVERSAL; }
    }
    var yes := MatchesFilter(full, positive);
    if !yes { return false; }
    var no := MatchesFilter(full, negative);
    b := !no;
  }

  // ----- shards -----

  const DISABLED := "DISABLED_*:*/DISABLED_*"

  datatype Test = Test(testCase: string, name: string)

  /** A test case and the names of its tests. */
  datatype Suite = Suite(name: string, tests: seq<string>)

  datatype Sharding = Ignore | Honor(total: nat, index: nat)

  ghost predicate Runnable(filter: string, runDisabled: bool, t: Test) {
    && (runDisabled || !(SomePattern(DISABLED, t.testCase) || SomePattern(DISABLED, t.name)))
    && Selects(filter, t.testCase, t.name)
  }

  ghost function RunnableCount(filter: string, runDisabled: bool, tests: seq<Test>): nat {
    if tests == [] then 0
    else RunnableCount(filter, runDisabled, tests[..|tests| - 1])
         + if Runnable(filter, runDisabled, tests[|tests| - 1]) then 1 else 0
  }

  function OwnTests(suite: Suite): (r: seq<Test>)
    ensures |r| == |suite.tests|
  {
    seq(|suite.tests|, i requires 0 <= i < |suite.tests| => Test(suite.name, suite.tests[i]))
  }

  /** All tests in the order the two loops visit them. */
  function AllTests(suites: seq<Suite>): seq<Test> {
    if suites == [] then [] else AllTests(suites[..|suites| - 1]) + OwnTests(suites[|suites| - 1])
  }

  /** The number of tests before the i-th test case. */
  function TestsBefore(suites: seq<Suite>, i: nat): nat
    requires i <= |suites|
  {
    |AllTests(suites[..i])|
  }

  /** The runnable tests are numbered in order, and shard k runs those whose number is k modulo the shards. */
  ghost predicate Selected(filter: string, runDisabled: bool, tests: seq<Test>, i: nat, sharding: Sharding)
    requires i < |tests| && (sharding.Honor? ==> sharding.total > 0)
  {
    && Runnable(filter, runDisabled, tests[i])
    && (sharding.Honor? ==> RunnableCount(filter, runDisabled, tests[..i]) % sharding.total == sharding.index)
  }

  /** `marks` are the tests of the i-th test case that this shard runs. */
  ghost predicate Marked(filter: string, runDisabled: bool, suites: seq<Suite>, i: nat,
                         sharding: Sharding, marks: seq<bool>)
    requires i < |suites| && (sharding.Honor? ==> sharding.total > 0)
  {
    && |marks| == |suites[i].tests| && TestsBefore(suites, i) + |marks| <= |AllTests(suites)|
    && forall j :: 0 <= j < |marks| ==>
         (marks[j] <==> Selected(filter, runDisabled, AllTests(suites), TestsBefore(suites, i) + j, sharding))
  }

  /** `n` runnable tests were met, and `count` of them are for this shard. */
  ghost predicate Counted(n: nat, count: nat, sharding: Sharding)
    requires sharding.Honor? ==> sharding.total > 0
  {
    count == if sharding.Ignore? then n else ShardSize(n, sharding.total, sharding.index)
  }

  /** Every test is marked as this shard is to run it or not, every test case as having such a test or not, and
      their number is returned. */
  method FilterTests(filter: string, runDisabled: bool, suites: seq<Suite>, sharding: Sharding)
    returns (marks: seq<seq<bool>>, shouldRun: seq<bool>, count: nat)
    requires sharding.Honor? ==> sharding.index < sharding.total
    ensures |marks| == |shouldRun| == |suites|
    ensures forall i :: 0 <= i < |suites| ==> Marked(filter, runDisabled, suites, i, sharding, marks[i])
    ensures forall i :: 0 <= i < |suites| ==> (shouldRun[i] <==> true in marks[i])
    ensures Counted(RunnableCount(filter, runDisabled, AllTests(suites)), count, sharding)
  {
    hide Runnable, RunnableCount, ShardSize, Marked;
    marks, shouldRun, count := [], [], 0;
    var runnable := 0;
    NoTests(filter, runDisabled, sharding);
    for i := 0 to |suites|
      invariant |marks| == |shouldRun| == i
      invariant runnable == RunnableCount(filter, runDisabled, AllTests(suites[..i]))
      invariant Counted(runnable, count, sharding)
      invariant forall k :: 0 <= k < i ==> Marked(filter, runDisabled, suites[..i], k, sharding, marks[k])
      invariant forall k :: 0 <= k < i ==> (shouldRun[k] <==> true in marks[k])
    {
      ghost var before := AllTests(suites[..i]);
      var own, any;
      own, any, runnable, count := FilterSuite(filter, runDisabled, suites[i], sharding, before, runnable, count);
      OneMoreSuite(filter, runDisabled, suites, i, sharding, own);
      forall k | 0 <= k < i ensures Marked(filter, runDisabled, suites[..i + 1], k, sharding, marks[k]) {
        StillMarked(filter, runDisabled, suites, i, k, sharding, marks[k]);
      }
      marks, shouldRun := marks + [own], shouldRun + [any];
    }
    assert suites[..|suites|] == suites;
  }

  lemma NoTests(filter: string, runDisabled: bool, sharding: Sharding)
    requires sharding.Honor? ==> sharding.total > 0
    ensures RunnableCount(filter, runDisabled, AllTests([])) == 0 && Counted(0, 0, sharding)
  {}

  lemma OneMoreSuite(filter: string, runDisabled: bool, suites: seq<Suite>, i: nat, sharding: Sharding, own: seq<bool>)
    requires i < |suites| && (sharding.Honor? ==> sharding.total > 0) && |own| == |suites[i].tests|
    requires var before := AllTests(suites[..i]);
      forall j :: 0 <= j < |own| ==>
        (own[j] <==> Selected(filter, runDisabled, before + OwnTests(suites[i]), |before| + j, sharding))
    ensures AllTests(suites[..i + 1]) == AllTests(suites[..i]) + OwnTests(suites[i])
    ensures Marked(filter, runDisabled, suites[..i + 1], i, sharding, own)
  {
    hide Runnable, RunnableCount;
    assert suites[..i + 1][..i] == suites[..i];
  }

  /** Whether a test is selected depends on it and the tests before it only. */
  lemma StillMarked(filter: string, runDisabled: bool, suites: seq<Suite>, i: nat, k: nat,
                    sharding: Sharding, own: seq<bool>)
    requires k < i < |suites| && (sharding.Honor? ==> sharding.total > 0)
    requires Marked(filter, runDisabled, suites[..i], k, sharding, own)
    ensures Marked(filter, runDisabled, suites[..i + 1], k, sharding, own)
  {
    hide Runnable, RunnableCount;
    assert suites[..i + 1][..i] == suites[..i] && suites[..i + 1][..k] == suites[..i][..k];
    var fewer, more := AllTests(suites[..i]), AllTests(suites[..i + 1]);
    assert more == fewer + OwnTests(suites[i]);
    assert forall n :: 0 <= n < |fewer| ==> more[n] == fewer[n] && more[..n] == fewer[..n];
  }

  lemma RunnableStep(filter: string, runDisabled: bool, tests: seq<Test>, n: nat)
    requires n < |tests|
    ensures RunnableCount(filter, runDisabled, tests[..n + 1])
         == RunnableCount(filter, runDisabled, tests[..n]) + if Runnable(filter, runDisabled, tests[n]) then 1 else 0
  {
    hide Runnable;
    assert tests[..n + 1][..n] == tests[..n];
  }

  lemma CountedStep(n: nat, count: nat, sharding: Sharding)
    requires (sharding.Honor? ==> sharding.total > 0) && Counted(n, count, sharding)
    ensures Counted(n + 1, if sharding.Ignore? || n % sharding.total == sharding.index then count + 1 else count,
              sharding)
  {}

  /** The inner loop: the tests of one test case, after the tests `before`. */
  method FilterSuite(filter: string, runDisabled: bool, suite: Suite, sharding: Sharding,
                     ghost before: seq<Test>, runnable0: nat, count0: nat)
    returns (marks: seq<bool>, any: bool, runnable: nat, count: nat)
    requires sharding.Honor? ==> sharding.index < sharding.total
    requires runnable0 == RunnableCount(filter, runDisabled, before) && Counted(runnable0, count0, sharding)
    ensures |marks| == |suite.tests| && (any <==> true in marks)
    ensures forall j :: 0 <= j < |marks| ==>
              (marks[j] <==> Selected(filter, runDisabled, before + OwnTests(suite), |before| + j, sharding))
    ensures runnable == RunnableCount(filter, runDisabled, before + OwnTests(suite))
              && Counted(runnable, count, sharding)
  {
    hide Runnable, RunnableCount, Counted;
    marks, any, runnable, count := [], false, runnable0, count0;
    ghost var tests := before + OwnTests(suite);
    assert tests[..|before|] == before;
    for j := 0 to |suite.tests|
      invariant |marks| == j && (any <==> true in marks)
      invariant runnable == RunnableCount(filter, runDisabled, tests[..|before| + j])
                && Counted(runnable, count, sharding)
      invariant forall k :: 0 <= k < j ==>
                  (marks[k] <==> Selected(filter, runDisabled, tests, |before| + k, sharding))
    {
      var t := Test(suite.name, suite.tests[j]);
      ghost var n := |before| + j;
      assert t == tests[n];
      RunnableStep(filter, runDisabled, tests, n);
      CountedStep(runnable, count, sharding);
      var isRunnable := IsRunnable(filter, runDisabled, t);
      var isSelected := isRunnable && (sharding.Ignore? || runnable % sharding.total == sharding.index);
      if isRunnable { runnable := runnable + 1; }
      if isSelected { count := count + 1; }
      marks := marks + [isSelected];
      any := any || isSelected;
    }
    assert tests[..|tests|] == tests;
  }

  method IsRunnable(filter: string, runDisabled: bool, t: Test) returns (b: bool)
    ensures b <==> Runnable(filter, runDisabled, t)
  {
    var d1 := MatchesFilter(t.testCase, DISABLED);
    var d2 := MatchesFilter(t.name, DISABLED);
    var m := FilterMatchesTest(filter, t.testCase, t.name);
    b := (runDisabled || !(d1 || d2)) && m;
  }

  /** How many of the first n numbers fall on shard k. */
  function ShardSize(n: nat, total: nat, k: nat): nat
    requires total > 0
  {
    if n == 0 then 0 else ShardSize(n - 1, total, k) + if (n - 1) % total == k then 1 else 0
  }

  lemma {:induction false} ShardSizeFormula(n: nat, total: nat, k: nat)
    requires k < total
    ensures ShardSize(n, total, k) == n / total + if k < n % total then 1 else 0
  {
    if n > 0 {
      ShardSizeFormula(n - 1, total, k);
      DivStep(n - 1, total);
    }
  }

  lemma DivStep(n: nat, d: nat)
    requires d > 0
    ensures if n % d == d - 1 then (n + 1) / d == n / d + 1 && (n + 1) % d == 0
              else (n + 1) / d == n / d && (n + 1) % d == n % d + 1
  {
    var q, r := n / d, n % d;
    assert n == q * d + r;
    if r == d - 1 { DivUnique(n + 1, d, q + 1, 0); } else { DivUnique(n + 1, d, q, r + 1); }
  }

  lemma {:induction false} MulStep(a: nat, b: nat, d: nat)
    requires a > b
    ensures a * d >= b * d + d
  {
    assert a * d == (a - 1) * d + d;
    if a - 1 > b { MulStep(a - 1, b, d); }
  }

  lemma DivUnique(n: nat, d: nat, q: nat, r: nat)
    requires d > 0 && n == q * d + r && r < d
    ensures n / d == q && n % d == r
  {
    var q', r' := n / d, n % d;
    assert n == q' * d + r' && 0 <= r' < d;
    if q > q' { MulStep(q, q', d); } else if q < q' { MulStep(q', q, d); }
  }

  /** Over all shards every runnable test is run exactly once, and shard sizes differ by at most one. */
  lemma ShardsPartition(filter: string, runDisabled: bool, tests: seq<Test>, i: nat, total: nat)
    requires total > 0 && i < |tests|
    ensures Runnable(filter, runDisabled, tests[i]) ==>
              exists k :: 0 <= k < total && Selected(filter, runDisabled, tests, i, Honor(total, k))
                && forall j :: 0 <= j < total && Selected(filter, runDisabled, tests, i, Honor(total, j)) ==> j == k
    ensures !Runnable(filter, runDisabled, tests[i]) ==>
              forall k :: 0 <= k < total ==> !Selected(filter, runDisabled, tests, i, Honor(total, k))
  {
    hide Runnable;
    if Runnable(filter, runDisabled, tests[i]) {
      var k := RunnableCount(filter, runDisabled, tests[..i]) % total;
      assert Selected(filter, runDisabled, tests, i, Honor(total, k));
    }
  }

  lemma ShardSizesBalanced(n: nat, total: nat, j: nat, k: nat)
    requires j < total && k < total
    ensures -1 <= ShardSize(n, total, j) - ShardSize(n, total, k) <= 1
  {
    ShardSizeFormula(n, total, j);
    ShardSizeFormula(n, total, k);
  }

  /** The runnable tests before the i-th. */
  ghost function RunnableBefore(filter: string, runDisabled: bool, tests: seq<Test>, i: nat): set<nat>
    requires i <= |tests|
  {
    set j: nat | j < i && Runnable(filter, runDisabled, tests[j])
  }

  lemma {:induction false} CountIsNumber(filter: string, runDisabled: bool, tests: seq<Test>, i: nat)
    requires i <= |tests|
    ensures RunnableCount(filter, runDisabled, tests[..i]) == |RunnableBefore(filter, runDisabled, tests, i)|
  {
    hide Runnable, RunnableCount, RunnableBefore;
    if i == 0 {
      NoneBefore(filter, runDisabled, tests);
    } else {
      CountIsNumber(filter, runDisabled, tests, i - 1);
      RunnableStep(filter, runDisabled, tests, i - 1);
      OneMoreBefore(filter, runDisabled, tests, i - 1);
    }
  }

  lemma NoneBefore(filter: string, runDisabled: bool, tests: seq<Test>)
    ensures RunnableCount(filter, runDisabled, tests[..0]) == 0 && RunnableBefore(filter, runDisabled, tests, 0) == {}
  {
    hide Runnable;
  }

  lemma OneMoreBefore(filter: string, runDisabled: bool, tests: seq<Test>, i: nat)
    requires i < |tests|
    ensures |RunnableBefore(filter, runDisabled, tests, i + 1)| ==
            |RunnableBefore(filter, runDisabled, tests, i)| + if Runnable(filter, runDisabled, tests[i]) then 1 else 0
  {
    hide Runnable;
    var before := RunnableBefore(filter, runDisabled, tests, i);
    assert RunnableBefore(filter, runDisabled, tests, i + 1) ==
           if Runnable(filter, runDisabled, tests[i]) then before + {i} else before;
  }

  /** The runnable test with k runnable tests before it goes to shard k modulo the shards. */
  lemma ShardOfTest(filter: string, runDisabled: bool, tests: seq<Test>, i: nat, total: nat, index: nat)
    requires total > 0 && i < |tests|
    ensures Selected(filter, runDisabled, tests, i, Honor(total, index)) <==>
            && Runnable(filter, runDisabled, tests[i])
            && |RunnableBefore(filter, runDisabled, tests, i)| % total == index
  {
    hide Runnable, RunnableBefore;
    CountIsNumber(filter, runDisabled, tests, i);
  }

  // ----- what the filters and the fixed patterns mean -----

  ghost predicate Literal(p: string) { '*' !in p && '?' !in p }

  ghost predicate OccursAt(p: string, s: string, i: nat) { i + |p| <= |s| && s[i..i + |p|] == p }

  ghost predicate Occurs(p: string, s: string) { exists i: nat :: OccursAt(p, s, i) }

  ghost predicate EndsWith(p: string, s: string) { |p| <= |s| && s[|s| - |p|..] == p }

  lemma {:induction false} GlobLiteral(p: string, q: string, s: string)
    requires Literal(p)
    ensures Glob(p + q, s) <==> p <= s && Glob(q, s[|p|..])
    decreases |p|
  {
    if p == "" {
      assert p + q == q && s[0..] == s;
    } else {
      assert (p + q)[1..] == p[1..] + q && p[0] in p;
      if s != "" {
        GlobLiteral(p[1..], q, s[1..]);
        assert p == [p[0]] + p[1..] && s == [s[0]] + s[1..];
        if p <= s { assert s[1..][|p| - 1..] == s[|p|..]; }
      }
    }
  }

  lemma GlobAll(s: string)
    ensures Glob("*", s)
  {
    assert s[|s|..] == "" && "*"[1..] == "";
    assert Glob("*"[1..], s[|s|..]);
  }

  /** A text, then anything. */
  lemma GlobPrefix(p: string, s: string)
    requires Literal(p)
    ensures Glob(p + "*", s) <==> p <= s
  {
    hide Glob;
    GlobLiteral(p, "*", s);
    if p <= s { GlobAll(s[|p|..]); }
  }

  /** Anything, then a text. */
  lemma GlobSuffix(p: string, s: string)
    requires Literal(p)
    ensures Glob("*" + p, s) <==> EndsWith(p, s)
  {
    assert ("*" + p)[1..] == p;
    forall k | 0 <= k <= |s| ensures Glob(p, s[k..]) <==> s[k..] == p {
      GlobLiteral(p, "", s[k..]);
      assert p + "" == p;
    }
    if EndsWith(p, s) { assert Glob(p, s[|s| - |p|..]); }
  }

  /** Anything, a text, anything. */
  lemma GlobInfix(p: string, s: string)
    requires Literal(p)
    ensures Glob("*" + (p + "*"), s) <==> Occurs(p, s)
  {
    var q := p + "*";
    assert ("*" + q)[1..] == q;
    forall k | 0 <= k <= |s| ensures Glob(q, s[k..]) <==> OccursAt(p, s, k) {
      GlobPrefix(p, s[k..]);
      if p <= s[k..] { assert s[k..][..|p|] == s[k..k + |p|]; }
      if OccursAt(p, s, k) { assert s[k..][..|p|] == s[k..k + |p|]; }
    }
    if Occurs(p, s) {
      var i: nat :| OccursAt(p, s, i);
      assert Glob(q, s[i..]);
    }
  }

  lemma HeadIs(filter: string, p: string)
    requires p <= filter && ':' !in p && (|p| < |filter| ==> filter[|p|] == ':')
    ensures HeadPattern(filter) == p
  {
    hide HeadPattern;
    var q := HeadPattern(filter);
    assert forall i :: 0 <= i < |p| ==> p[i] in p;
    assert forall i :: 0 <= i < |q| ==> q[i] in q;
  }

  /** A colon separates two patterns, and a name needs to match one of them. */
  lemma EitherPattern(a: string, b: string, name: string)
    requires ':' !in a
    ensures SomePattern(a, name) <==> Glob(a, name)
    ensures SomePattern(a + ":" + b, name) <==> Glob(a, name) || SomePattern(b, name)
  {
    hide SomePattern, Glob, HeadPattern;
    var both := a + ":" + b;
    HeadIs(a, a);
    HeadIs(both, a);
    NextPattern(a, name);
    NextPattern(both, name);
    assert both[|a| + 1..] == b;
  }

  /** A name is disabled if it starts with the marker or a slash stands before the marker somewhere in it. */
  lemma DisabledNames(name: string)
    ensures SomePattern(DISABLED, name) <==> "DISABLED_" <= name || Occurs("/DISABLED_", name)
  {
    hide SomePattern, Glob, Occurs, Patterns, HeadPattern;
    var first, second := "DISABLED_*", "*/DISABLED_*";
    assert DISABLED == first + ":" + second;
    EitherPattern(first, second, name);
    EitherPattern(second, "", name);
    assert first == "DISABLED_" + "*" && second == "*" + ("/DISABLED_" + "*");
    GlobPrefix("DISABLED_", name);
    GlobInfix("/DISABLED_", name);
  }

  lemma RunnableMeans(filter: string, runDisabled: bool, t: Test)
    ensures Runnable(filter, runDisabled, t) <==>
            && Selects(filter, t.testCase, t.name)
            && (!runDisabled ==>
                  && !("DISABLED_" <= t.testCase) && !Occurs("/DISABLED_", t.testCase)
                  && !("DISABLED_" <= t.name) && !Occurs("/DISABLED_", t.name))
  {
    hide SomePattern, Selects, Occurs;
    DisabledNames(t.testCase);
    DisabledNames(t.name);
  }

  lemma NoPattern(name: string)
    ensures SomePattern("", name) <==> name == ""
  {
    EitherPattern("", "", name);
  }

  lemma FirstDashAt(a: string, b: string)
    requires '-' !in a
    ensures FirstDash(a) == |a| && FirstDash(a + "-" + b) == |a|
  {
    hide FirstDash;
    var s := a + "-" + b;
    var m := FirstDash(s);
    assert s[|a|] == '-';
    assert forall i :: 0 <= i < |a| ==> a[i] in a && s[i] == a[i];
    assert forall i :: 0 <= i < m ==> s[i] in s[..m];
  }

  /** A filter without a dash selects what one of its patterns matches. A dash starts the patterns of what is not
      to run; without a pattern before it, all else is. The name matched is the test case's, a dot and the test's. */
  lemma SelectsMeans(positive: string, negative: string, testCase: string, test: string)
    requires '-' !in positive
    ensures var name := testCase + ['.'] + test;
      && (Selects(positive, testCase, test) <==> SomePattern(positive, name))
      && (Selects(positive + "-" + negative, testCase, test) <==>
            !SomePattern(negative, name) && (positive == "" || SomePattern(positive, name)))
  {
    hide SomePattern, FirstDash;
    var name := testCase + ['.'] + test;
    assert name == FullName(testCase, test);
    var filter := positive + "-" + negative;
    FirstDashAt(positive, negative);
    assert filter[..|positive|] == positive && filter[|positive| + 1..] == negative;
    NoPattern(name);
    EitherPattern("*", "", name);
    GlobAll(name);
  }
}
