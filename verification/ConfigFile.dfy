/** The configuration file parser and printer. A configuration maps a session to its keys and values. */
module ConfigFile {
  import opened Wrappers

  type Config = map<string, map<string, string>>

  /** What LoadFile carries from line to line: the current session and the configuration so far. */
  datatype Loader = Loader(session: string, config: Config)

  // ----- characters and strings -----

  ghost function BlankChars(): set<char> { {' ', '\t', '\r', '\n', '\U{0B}', '\U{0C}'} }

  predicate IsSpace(c: char)
    ensures IsSpace(c) <==> c in BlankChars()
  {
    c == ' ' || c == '\t' || c == '\n' || c == '\U{0B}' || c == '\U{0C}' || c == '\r'
  }

  function TrimLeft(s: string): string {
    if s != "" && IsSpace(s[0]) then TrimLeft(s[1..]) else s
  }

  function TrimRight(s: string): string {
    if s != "" && IsSpace(s[|s| - 1]) then TrimRight(s[..|s| - 1]) else s
  }

  function Trim(s: string): string { TrimRight(TrimLeft(s)) }

  /** What c_str() leaves of a string: the part before the first NUL. */
  function CStr(s: string): (r: string)
    ensures r <= s && Without(r, '\0') && (r != s ==> s[|r|] == '\0')
  {
    if s == "" || s[0] == '\0' then "" else [s[0]] + CStr(s[1..])
  }

  ghost predicate Without(s: string, c: char) { forall i :: 0 <= i < |s| ==> s[i] != c }

  ghost predicate Plain(s: string) { Without(s, '\0') && Without(s, '\n') }

  predicate Trimmed(s: string) { s != "" ==> !IsSpace(s[0]) && !IsSpace(s[|s| - 1]) }

  ghost predicate Blank(s: string) { forall i :: 0 <= i < |s| ==> s[i] in BlankChars() }

  /** The position of the first '=', or the length if there is none. */
  function FirstEq(s: string): (n: nat)
    ensures n <= |s| && (n < |s| ==> s[n] == '=') && Without(s[..n], '=')
  {
    if s == "" || s[0] == '=' then 0 else 1 + FirstEq(s[1..])
  }

  // ----- parsing -----

  ghost function Lookup(config: Config, session: string, key: string): Option<string> {
    if session in config && key in config[session] then Some(config[session][key]) else None
  }

  /** The session exists afterwards, the key has the value in it, and every other key keeps its value. */
  function SetEntry(config: Config, session: string, key: string, value: string): (r: Config)
    ensures r.Keys == config.Keys + {session}
    ensures forall s, k :: Lookup(r, s, k) == if s == session && k == key then Some(value) else Lookup(config, s, k)
  {
    config[session := (if session in config then config[session] else map[])[key := value]]
  }

  /** ParseLine; None stands for the error return. */
  function Parse(st: Loader, l: string): Option<Loader> {
    var line := Trim(l);
    if line == "" || line[0] == '#' then Some(st)
    else if line[0] == '[' then
      if |line| < 2 || line[|line| - 1] != ']' then None
      else Some(st.(session := Trim(line[1..|line| - 1])))
    else
      var pos := FirstEq(line);
      if pos == |line| then None
      else
        var key, value := Trim(line[..pos]), Trim(line[pos + 1..]);
        Some(st.(config := SetEntry(st.config, CStr(st.session), CStr(key), CStr(value))))
  }

  function ParseAll(st: Loader, lines: seq<string>): Option<Loader>
    decreases |lines|
  {
    if lines == [] then Some(st)
    else
      var r := Parse(st, lines[0]);
      if r.None? then None else ParseAll(r.value, lines[1..])
  }

  /** How far the lines get: up to the first that does not parse. */
  ghost function ParsedPart(st: Loader, lines: seq<string>): (r: Loader)
    ensures ParseAll(st, lines).Some? ==> ParseAll(st, lines).value == r
    decreases |lines|
  {
    if lines == [] || Parse(st, lines[0]).None? then st else ParsedPart(Parse(st, lines[0]).value, lines[1..])
  }

  /** The lines getline delivers until end of file. */
  function Lines(text: string): seq<string>
    decreases |text|
  {
    var n := LineEnd(text);
    if n == |text| then [text] else [text[..n]] + Lines(text[n + 1..])
  }

  function LineEnd(text: string): (n: nat)
    ensures n <= |text| && (n < |text| ==> text[n] == '\n') && Without(text[..n], '\n')
  {
    if text == "" || text[0] == '\n' then 0 else 1 + LineEnd(text[1..])
  }

  const FRESH := Loader("", map["" := map[]])

  function Load(text: string): Option<Config> {
    var r := ParseAll(FRESH, Lines(text));
    if r.None? then None else Some(r.value.config)
  }

  // ----- printing -----

  ghost predicate Enumerates<V>(keys: seq<string>, m: map<string, V>) {
    && (forall i, j :: 0 <= i < j < |keys| ==> keys[i] != keys[j])
    && (forall k :: k in keys <==> k in m)
  }

  function SessionLine(s: string): string { "[" + s + "]" }

  function EntryLine(k: string, v: string): string { k + " = " + v }

  function EntryLines(m: map<string, string>, keys: seq<string>): seq<string>
    requires forall k :: k in keys ==> k in m
  {
    if keys == [] then [] else EntryLines(m, keys[..|keys| - 1]) + [EntryLine(keys[|keys| - 1], m[keys[|keys| - 1]])]
  }

  /** An order in which Dump may walk a configuration: the sessions, and for each its keys. */
  datatype Order = Order(sessions: seq<string>, keys: map<string, seq<string>>)

  ghost predicate OrderOf(o: Order, c: Config) {
    Enumerates(o.sessions, c) && forall s :: s in c ==> s in o.keys && Enumerates(o.keys[s], c[s])
  }

  ghost function SessionLines(c: Config, o: Order, n: nat): seq<string>
    requires OrderOf(o, c) && n <= |o.sessions|
  {
    if n == 0 then []
    else
      var s := o.sessions[n - 1];
      SessionLines(c, o, n - 1) + [SessionLine(s)] + EntryLines(c[s], o.keys[s])
  }

  function Unlines(lines: seq<string>): string {
    if lines == [] then "" else Unlines(lines[..|lines| - 1]) + lines[|lines| - 1] + "\n"
  }

  /** What Dump prints when it walks the maps in order `o`. */
  ghost function DumpText(c: Config, o: Order): string
    requires OrderOf(o, c)
  {
    Unlines(SessionLines(c, o, |o.sessions|))
  }

  // ----- which configurations survive -----

  ghost predicate NameOk(s: string) { Trimmed(s) && Plain(s) }

  ghost predicate KeyOk(k: string) {
    NameOk(k) && Without(k, '=') && (k != "" ==> k[0] != '#' && k[0] != '[')
  }

  ghost predicate SessionOk(m: map<string, string>) { forall k :: k in m ==> KeyOk(k) && NameOk(m[k]) }

  /** What a file can express: the default session, no other empty session, trimmed names and values. */
  ghost predicate Representable(c: Config) {
    && "" in c
    && (forall s :: s in c ==> NameOk(s) && SessionOk(c[s]))
    && (forall s :: s in c && s != "" ==> c[s] != map[])
  }

  // ----- trimming -----

  lemma {:induction false} TrimLeftBlank(a: string, t: string)
    requires Blank(a) && (t != "" ==> !IsSpace(t[0]))
    ensures TrimLeft(a + t) == t
  {
    if a == "" {
      assert a + t == t;
    } else {
      TrimLeftBlank(a[1..], t);
      assert (a + t)[1..] == a[1..] + t;
    }
  }

  lemma {:induction false} TrimRightBlank(t: string, b: string)
    requires Blank(b) && (t != "" ==> !IsSpace(t[|t| - 1]))
    ensures TrimRight(t + b) == t
  {
    if b == "" {
      assert t + b == t;
    } else {
      TrimRightBlank(t, b[..|b| - 1]);
      assert (t + b)[..|t + b| - 1] == t + b[..|b| - 1];
    }
  }

  lemma TrimIs(a: string, t: string, b: string)
    requires Blank(a) && Blank(b) && t != "" && Trimmed(t)
    ensures Trim(a + t + b) == t
  {
    assert a + t + b == a + (t + b);
    TrimLeftBlank(a, t + b);
    TrimRightBlank(t, b);
  }

  lemma {:induction false} TrimLeftParts(s: string) returns (n: nat)
    ensures n <= |s| && Blank(s[..n]) && TrimLeft(s) == s[n..] && (n < |s| ==> !IsSpace(s[n]))
  {
    if s != "" && IsSpace(s[0]) {
      n := TrimLeftParts(s[1..]);
      n := n + 1;
      assert s[..n] == [s[0]] + s[1..][..n - 1];
    } else {
      n := 0;
    }
  }

  lemma {:induction false} TrimRightParts(s: string) returns (n: nat)
    ensures n <= |s| && Blank(s[n..]) && TrimRight(s) == s[..n] && (n > 0 ==> !IsSpace(s[n - 1]))
  {
    if s != "" && IsSpace(s[|s| - 1]) {
      n := TrimRightParts(s[..|s| - 1]);
      assert s[..|s| - 1][..n] == s[..n];
      assert s[n..] == s[..|s| - 1][n..] + [s[|s| - 1]];
    } else {
      n := |s|;
    }
  }

  /** Trimming yields a trimmed part of the string. */
  lemma TrimParts(s: string)
    ensures Trimmed(Trim(s))
    ensures forall c :: Without(s, c) ==> Without(Trim(s), c)
  {
    hide TrimLeft, TrimRight, Without;
    var n := TrimLeftParts(s);
    var m := TrimRightParts(s[n..]);
    assert Trim(s) == s[n..n + m];
    forall c | Without(s, c) ensures Without(Trim(s), c) { WithoutSlice(s, c, n, n + m); }
  }

  lemma WithoutSlice(s: string, c: char, i: nat, j: nat)
    requires Without(s, c) && i <= j <= |s|
    ensures Without(s[i..j], c)
  {}

  // ----- what a line says -----

  /** The lines of a file, spelled out with their blanks `a` to `d`: an empty line, a comment, a session name, an
      entry, and what is none of these. */
  datatype Line =
    | Empty(a: string)
    | Comment(a: string, text: string)
    | Section(a: string, b: string, name: string, c: string, d: string)
    | Entry(a: string, key: string, b: string, c: string, value: string, d: string)
    | Wrong(a: string, text: string, d: string)

  ghost function Spelled(l: Line): string {
    match l
    case Empty(a) => a
    case Comment(a, text) => a + "#" + text
    case Section(a, b, name, c, d) => a + "[" + b + name + c + "]" + d
    case Entry(a, key, b, c, value, d) => a + key + b + "=" + c + value + d
    case Wrong(a, text, d) => a + text + d
  }

  /** A key is everything before the first '=' of a line that is neither a comment nor a session; wrong is a line
      with neither an '=' nor a bracket at its start, and one with a bracket at its start and none at its end. */
  ghost predicate ValidLine(l: Line) {
    match l
    case Empty(a) => Blank(a)
    case Comment(a, text) => Blank(a)
    case Section(a, b, name, c, d) => Blank(a) && Blank(b) && Trimmed(name) && Blank(c) && Blank(d)
    case Entry(a, key, b, c, value, d) =>
      && Blank(a) && Blank(b) && Blank(c) && Blank(d) && Trimmed(key) && Trimmed(value)
      && Without(key, '=') && (key != "" ==> key[0] != '#' && key[0] != '[')
    case Wrong(a, text, d) =>
      && Blank(a) && Blank(d) && text != "" && Trimmed(text) && text[0] != '#'
      && if text[0] == '[' then text[|text| - 1] != ']' else Without(text, '=')
  }

  /** What a line does; the names are handed on as C strings. */
  ghost function Effect(st: Loader, l: Line): Option<Loader> {
    match l
    case Section(a, b, name, c, d) => Some(st.(session := name))
    case Entry(a, key, b, c, value, d) =>
      Some(st.(config := SetEntry(st.config, CStr(st.session), CStr(key), CStr(value))))
    case Wrong(a, text, d) => None
    case _ => Some(st)
  }

  lemma TrimAny(a: string, t: string, b: string)
    requires Blank(a) && Blank(b) && Trimmed(t)
    ensures Trim(a + t + b) == t
  {
    if t == "" {
      assert a + t + b == (a + b) + "";
      TrimLeftBlank(a + b, "");
    } else {
      TrimIs(a, t, b);
    }
  }

  lemma CommentMeaning(st: Loader, a: string, text: string)
    requires Blank(a)
    ensures Parse(st, a + "#" + text) == Some(st)
  {
    hide FirstEq, SetEntry, CStr;
    assert a + "#" + text == a + ("#" + text);
    TrimLeftBlank(a, "#" + text);
    RightStart("#" + text);
  }

  lemma SectionMeaning(st: Loader, l: Line)
    requires ValidLine(l) && l.Section?
    ensures Parse(st, Spelled(l)) == Some(st.(session := l.name))
  {
    hide Trim, Blank, FirstEq, SetEntry, CStr;
    var inner := l.b + l.name + l.c;
    var line := "[" + inner + "]";
    Bracketed(l.a, l.b, l.name, l.c, l.d);
    assert line[0] == '[' && line[|line| - 1] == ']' && line[1..|line| - 1] == inner;
    TrimAny(l.a, line, l.d);
    TrimAny(l.b, l.name, l.c);
  }

  /** The line of an entry without its margins, cut at the '='. */
  lemma EntryTrimmed(l: Line)
    requires ValidLine(l) && l.Entry?
    ensures Trim(Spelled(l)) == (if l.key == "" then "" else l.key + l.b) + "="
                                + (if l.value == "" then "" else l.c + l.value)
  {
    hide Trim, Without;
    var k, v := l.key, l.value;
    var left, right := if k == "" then "" else k + l.b, if v == "" then "" else l.c + v;
    var a, d := if k == "" then l.a + l.b else l.a, if v == "" then l.c + l.d else l.d;
    var t := left + "=" + right;
    assert Spelled(l) == a + t + d;
    assert t[0] == if k == "" then '=' else k[0];
    assert t[|t| - 1] == if v == "" then '=' else v[|v| - 1];
    TrimAny(a, t, d);
  }

  lemma EntryMeaning(st: Loader, l: Line)
    requires ValidLine(l) && l.Entry?
    ensures Parse(st, Spelled(l)) == Effect(st, l)
  {
    var left, right := if l.key == "" then "" else l.key + l.b, if l.value == "" then "" else l.c + l.value;
    assert Without(left, '=');
    hide Trim, FirstEq, CStr, SetEntry, Blank, Spelled, Without;
    EntryTrimmed(l);
    KeyPart(l.key, l.b);
    ValuePart(l.c, l.value);
    CutAtEq(st, Spelled(l), left, right);
  }

  lemma CutAtEq(st: Loader, l: string, left: string, right: string)
    requires Without(left, '=') && Trim(l) == left + "=" + right && (left != "" ==> left[0] != '#' && left[0] != '[')
    ensures Parse(st, l) ==
            Some(st.(config := SetEntry(st.config, CStr(st.session), CStr(Trim(left)), CStr(Trim(right)))))
  {
    hide Trim, FirstEq, CStr, SetEntry, Without;
    var line := left + "=" + right;
    FirstEqAt(left, right);
    assert line[..|left|] == left && line[|left| + 1..] == right;
    assert line[0] == if left == "" then '=' else left[0];
  }

  lemma KeyPart(k: string, b: string)
    requires Blank(b) && Trimmed(k)
    ensures Trim(if k == "" then "" else k + b) == k
  {
    assert k + b == "" + k + b;
    TrimAny("", k, b);
  }

  lemma ValuePart(c: string, v: string)
    requires Blank(c) && Trimmed(v)
    ensures Trim(if v == "" then "" else c + v) == v
  {
    assert c + v == c + v + "";
    TrimAny(c, v, "");
  }

  lemma WrongMeaning(st: Loader, l: Line)
    requires ValidLine(l) && l.Wrong?
    ensures Parse(st, Spelled(l)) == None
  {
    hide Trim, SetEntry, CStr;
    TrimAny(l.a, l.text, l.d);
    var n := FirstEq(l.text);
  }

  /** ParseLine does to each line what the line says. */
  lemma LineMeaning(st: Loader, l: Line)
    requires ValidLine(l)
    ensures Parse(st, Spelled(l)) == Effect(st, l)
  {
    match l {
      case Empty(a) =>
        assert a == a + "" + "";
        TrimAny(a, "", "");
      case Comment(a, text) => CommentMeaning(st, a, text);
      case Section(a, b, name, c, d) => SectionMeaning(st, l);
      case Entry(a, key, b, c, value, d) => EntryMeaning(st, l);
      case Wrong(a, text, d) => WrongMeaning(st, l);
    }
  }

  /** A string is its trimmed part between blanks. */
  lemma TrimSplit(s: string) returns (a: string, b: string)
    ensures Blank(a) && Blank(b) && s == a + Trim(s) + b && Trimmed(Trim(s))
  {
    hide TrimLeft, TrimRight;
    var n := TrimLeftParts(s);
    var m := TrimRightParts(s[n..]);
    a, b := s[..n], s[n..][m..];
    assert s[n..] == s[n..][..m] + b;
  }

  lemma CommentOf(a: string, t: string, d: string) returns (l: Line)
    requires Blank(a) && t != "" && t[0] == '#'
    ensures ValidLine(l) && Spelled(l) == a + t + d
  {
    l := Comment(a, t[1..] + d);
    assert t == "#" + t[1..];
  }

  lemma SectionOf(a: string, t: string, d: string) returns (l: Line)
    requires Blank(a) && Blank(d) && t != "" && t[0] == '[' && t[|t| - 1] == ']'
    ensures ValidLine(l) && Spelled(l) == a + t + d
  {
    hide Trim, Blank;
    var inner := t[1..|t| - 1];
    var b, c := TrimSplit(inner);
    l := Section(a, b, Trim(inner), c, d);
    assert t == "[" + inner + "]";
    Bracketed(a, b, Trim(inner), c, d);
  }

  lemma Bracketed(a: string, b: string, name: string, c: string, d: string)
    ensures a + "[" + b + name + c + "]" + d == a + ("[" + (b + name + c) + "]") + d
  {}

  /** Every string is a line of one of these kinds. */
  lemma EveryLine(s: string) returns (l: Line)
    ensures ValidLine(l) && Spelled(l) == s
  {
    hide Trim, FirstEq, Trimmed;
    var a, d := TrimSplit(s);
    var t := Trim(s);
    if t == "" {
      l := Empty(s);
    } else if t[0] == '#' {
      l := CommentOf(a, t, d);
    } else if t[0] == '[' && t[|t| - 1] == ']' {
      l := SectionOf(a, t, d);
    } else if t[0] == '[' || FirstEq(t) == |t| {
      assert t[..|t|] == t;
      l := Wrong(a, t, d);
    } else {
      l := EntryOf(a, t, d);
    }
  }

  lemma EntryOf(a: string, t: string, d: string) returns (l: Line)
    requires Blank(a) && Blank(d) && Trimmed(t) && t != "" && t[0] != '#' && t[0] != '[' && FirstEq(t) < |t|
    ensures ValidLine(l) && Spelled(l) == a + t + d
  {
    hide Trim, FirstEq;
    var n := FirstEq(t);
    var left, right := t[..n], t[n + 1..];
    var a', b := TrimSplit(left);
    var c, d' := TrimSplit(right);
    l := Entry(a + a', Trim(left), b, c, Trim(right), d' + d);
    assert t == left + "=" + right;
    if left != "" { StartStays(left); }
    assert Without(Trim(left), '=') by { TrimParts(left); }
  }

  ghost function SpelledAll(lines: seq<Line>): seq<string> {
    seq(|lines|, i requires 0 <= i < |lines| => Spelled(lines[i]))
  }

  ghost predicate AllValid(lines: seq<Line>) { forall i :: 0 <= i < |lines| ==> ValidLine(lines[i]) }

  /** One line after the other, up to the first wrong one. */
  ghost function EffectAll(st: Loader, lines: seq<Line>): Option<Loader>
    decreases |lines|
  {
    if lines == [] then Some(st)
    else
      var r := Effect(st, lines[0]);
      if r.None? then None else EffectAll(r.value, lines[1..])
  }

  lemma {:induction false} LinesMeaning(st: Loader, lines: seq<Line>)
    requires AllValid(lines)
    ensures ParseAll(st, SpelledAll(lines)) == EffectAll(st, lines)
    decreases |lines|
  {
    hide Parse, Effect, ValidLine, Spelled;
    if lines != [] {
      LineMeaning(st, lines[0]);
      assert SpelledAll(lines)[1..] == SpelledAll(lines[1..]);
      var r := Effect(st, lines[0]);
      if r.Some? { LinesMeaning(r.value, lines[1..]); }
    }
  }

  // ----- reading back one printed line -----

  lemma ReadSession(st: Loader, s: string)
    requires NameOk(s)
    ensures Parse(st, SessionLine(s)) == Some(st.(session := s))
  {
    hide Parse;
    var l := Section("", "", s, "", "");
    assert SessionLine(s) == Spelled(l);
    LineMeaning(st, l);
  }

  lemma {:induction false} FirstEqAt(l: string, r: string)
    requires Without(l, '=')
    ensures FirstEq(l + "=" + r) == |l|
  {
    if l != "" {
      assert forall i :: 0 <= i < |l[1..]| ==> l[1..][i] == l[i + 1];
      FirstEqAt(l[1..], r);
      assert (l + "=" + r)[1..] == l[1..] + "=" + r;
    }
  }

  lemma ReadEntry(st: Loader, k: string, v: string)
    requires KeyOk(k) && NameOk(v) && Without(st.session, '\0')
    ensures Parse(st, EntryLine(k, v)) == Some(st.(config := SetEntry(st.config, st.session, k, v)))
  {
    hide Parse, SetEntry;
    var l := Entry("", k, " ", " ", v, "");
    assert EntryLine(k, v) == Spelled(l);
    LineMeaning(st, l);
    assert CStr(st.session) == st.session && CStr(k) == k && CStr(v) == v;
  }

  // ----- reading back all of them -----

  lemma {:induction false} ParseConcat(st: Loader, a: seq<string>, b: seq<string>)
    ensures ParseAll(st, a + b) ==
            (var r := ParseAll(st, a); if r.None? then None else ParseAll(r.value, b))
    decreases |a|
  {
    hide Parse;
    if a == [] {
      assert a + b == b;
    } else {
      assert (a + b)[1..] == a[1..] + b;
      var r := Parse(st, a[0]);
      if r.Some? { ParseConcat(r.value, a[1..], b); }
    }
  }

  lemma ParseSnoc(st: Loader, a: seq<string>, l: string)
    ensures ParseAll(st, a + [l]) == (var r := ParseAll(st, a); if r.None? then None else Parse(r.value, l))
  {
    hide Parse;
    ParseConcat(st, a, [l]);
    var r := ParseAll(st, a);
    if r.Some? {
      var p := Parse(r.value, l);
      assert [l][1..] == [];
      if p.Some? { assert ParseAll(p.value, []) == Some(p.value); }
    }
  }

  /** The part of `m` for some of its keys. */
  function Part(m: map<string, string>, keys: seq<string>): map<string, string> {
    map k | k in m && k in keys :: m[k]
  }

  /** The configuration once the given keys of session `s` have been read. */
  function WithPart(config: Config, s: string, part: map<string, string>): Config {
    if s in config || part != map[] then config[s := part] else config
  }

  lemma {:induction false} ReadEntries(st: Loader, m: map<string, string>, keys: seq<string>)
    requires SessionOk(m) && NameOk(st.session) && forall k :: k in keys ==> k in m
    requires st.session in st.config ==> st.config[st.session] == map[]
    ensures ParseAll(st, EntryLines(m, keys)) == Some(st.(config := WithPart(st.config, st.session, Part(m, keys))))
  {
    hide Parse, KeyOk, NameOk;
    var n := |keys|;
    if n == 0 {
      assert Part(m, keys) == map[];
      assert st.session in st.config ==> st.config == st.config[st.session := map[]];
    } else {
      var k, before := keys[n - 1], keys[..n - 1];
      assert forall j :: j in keys <==> j in before || j == k by { assert keys == before + [k]; }
      ReadEntries(st, m, before);
      var st' := st.(config := WithPart(st.config, st.session, Part(m, before)));
      ParseSnoc(st, EntryLines(m, before), EntryLine(k, m[k]));
      NamePlain(st.session);
      ReadEntry(st', k, m[k]);
      assert Part(m, keys) == Part(m, before)[k := m[k]];
      SetOneMore(st.config, st.session, Part(m, before), k, m[k]);
    }
  }

  lemma SetOneMore(config: Config, s: string, part: map<string, string>, k: string, v: string)
    ensures SetEntry(WithPart(config, s, part), s, k, v) == WithPart(config, s, part[k := v])
  {
    assert k in part[k := v];
  }

  lemma NamePlain(s: string)
    requires NameOk(s)
    ensures Without(s, '\0')
  {}

  lemma PartOfAll(m: map<string, string>, keys: seq<string>)
    requires Enumerates(keys, m)
    ensures Part(m, keys) == m
  {}

  /** The configuration once the first n sessions have been read. */
  ghost predicate ReadUpTo(c: Config, o: Order, n: nat, got: Config)
    requires n <= |o.sessions|
  {
    && "" in got
    && (forall s :: s in got <==> s == "" || s in o.sessions[..n])
    && (forall s :: s in o.sessions[..n] ==> s in c && got[s] == c[s])
    && ("" !in o.sessions[..n] ==> got[""] == map[])
  }

  /** The lines of one more session. */
  lemma OneSession(c: Config, o: Order, n: nat)
    requires OrderOf(o, c) && 0 < n <= |o.sessions|
    ensures var s := o.sessions[n - 1];
      && s in c && s in o.keys && Enumerates(o.keys[s], c[s]) && s !in o.sessions[..n - 1]
      && SessionLines(c, o, n) == SessionLines(c, o, n - 1) + [SessionLine(s)] + EntryLines(c[s], o.keys[s])
  {
    hide SessionLine, EntryLines;
    assert o.sessions[n - 1] in o.sessions;
  }

  lemma ReadOneMore(c: Config, o: Order, n: nat, got: Config)
    requires Representable(c) && OrderOf(o, c) && 0 < n <= |o.sessions| && ReadUpTo(c, o, n - 1, got)
    ensures ReadUpTo(c, o, n, WithPart(got, o.sessions[n - 1], c[o.sessions[n - 1]]))
    ensures o.sessions[n - 1] in got ==> got[o.sessions[n - 1]] == map[]
  {
    hide OrderOf, Representable, SessionLines;
    var s := o.sessions[n - 1];
    OneSession(c, o, n);
    hide Enumerates, NameOk, SessionOk;
    RepresentableAt(c, s);
    assert o.sessions[..n] == o.sessions[..n - 1] + [s];
  }

  lemma {:induction false} ReadSessions(c: Config, o: Order, n: nat)
    requires Representable(c) && OrderOf(o, c) && n <= |o.sessions|
    ensures var r := ParseAll(FRESH, SessionLines(c, o, n)); r.Some? && ReadUpTo(c, o, n, r.value.config)
  {
    hide Parse, Representable, NameOk, SessionOk, EntryLines, OrderOf;
    if n == 0 {
      assert SessionLines(c, o, 0) == [];
    } else {
      hide SessionLines, ParseAll, ReadUpTo;
      ReadSessions(c, o, n - 1);
      ReadNext(c, o, n);
    }
  }

  lemma ReadNext(c: Config, o: Order, n: nat)
    requires Representable(c) && OrderOf(o, c) && 0 < n <= |o.sessions|
    requires var r := ParseAll(FRESH, SessionLines(c, o, n - 1)); r.Some? && ReadUpTo(c, o, n - 1, r.value.config)
    ensures var r := ParseAll(FRESH, SessionLines(c, o, n)); r.Some? && ReadUpTo(c, o, n, r.value.config)
  {
    hide Parse, ParseAll, NameOk, SessionOk, ReadUpTo, EntryLines, WithPart, OrderOf, SessionLines, Representable;
    OneSession(c, o, n);
    var before, s := SessionLines(c, o, n - 1), o.sessions[n - 1];
    var st := ParseAll(FRESH, before).value;
    RepresentableAt(c, s);
    ReadOneMore(c, o, n, st.config);
    ReadSession(st, s);
    ParseSnoc(FRESH, before, SessionLine(s));
    var st' := st.(session := s);
    ReadEntries(st', c[s], o.keys[s]);
    PartOfAll(c[s], o.keys[s]);
    ParseConcat(FRESH, before + [SessionLine(s)], EntryLines(c[s], o.keys[s]));
  }

  ghost predicate AllPlain(lines: seq<string>) { forall l :: l in lines ==> Without(l, '\n') }

  lemma {:induction false} LineEndPlain(a: string, b: string)
    requires Without(a, '\n')
    ensures LineEnd(a + "\n" + b) == |a|
  {
    if a != "" {
      assert forall i :: 0 <= i < |a[1..]| ==> a[1..][i] == a[i + 1];
      LineEndPlain(a[1..], b);
      assert (a + "\n" + b)[1..] == a[1..] + "\n" + b;
    }
  }

  lemma LinesCons(l: string, rest: string)
    requires Without(l, '\n')
    ensures Lines(l + "\n" + rest) == [l] + Lines(rest)
  {
    hide LineEnd;
    var text := l + "\n" + rest;
    LineEndPlain(l, rest);
    assert text[..|l|] == l && text[|l| + 1..] == rest;
  }

  lemma {:induction false} LinesOfWith(lines: seq<string>, rest: string)
    requires AllPlain(lines)
    ensures Lines(Unlines(lines) + rest) == lines + Lines(rest)
    decreases |lines|
  {
    hide Lines, Without;
    var n := |lines|;
    if n == 0 {
      assert Unlines(lines) + rest == rest;
      assert lines + Lines(rest) == Lines(rest);
    } else {
      var l, before := lines[n - 1], lines[..n - 1];
      var tail := l + "\n" + rest;
      LinesOfWith(before, tail);
      assert Unlines(lines) + rest == Unlines(before) + tail;
      LinesCons(l, rest);
      assert before + ([l] + Lines(rest)) == lines + Lines(rest);
    }
  }

  lemma {:induction false} EntryLinesPlain(m: map<string, string>, keys: seq<string>)
    requires SessionOk(m) && forall k :: k in keys ==> k in m
    ensures AllPlain(EntryLines(m, keys))
  {
    if keys != [] { EntryLinesPlain(m, keys[..|keys| - 1]); }
  }

  lemma SessionLinePlain(s: string)
    requires NameOk(s)
    ensures Without(SessionLine(s), '\n')
  {}

  lemma PlainConcat(a: seq<string>, l: string, b: seq<string>)
    requires AllPlain(a) && Without(l, '\n') && AllPlain(b)
    ensures AllPlain(a + [l] + b)
  {}

  lemma RepresentableAt(c: Config, s: string)
    requires Representable(c) && s in c
    ensures NameOk(s) && SessionOk(c[s]) && (s != "" ==> c[s] != map[])
  {}

  lemma {:induction false} SessionLinesPlain(c: Config, o: Order, n: nat)
    requires Representable(c) && OrderOf(o, c) && n <= |o.sessions|
    ensures AllPlain(SessionLines(c, o, n))
  {
    hide SessionOk, NameOk, EntryLines, SessionLine, Representable, Without, OrderOf;
    if n > 0 {
      hide AllPlain, SessionLines;
      SessionLinesPlain(c, o, n - 1);
      OneSession(c, o, n);
      var s := o.sessions[n - 1];
      RepresentableAt(c, s);
      EntryLinesPlain(c[s], o.keys[s]);
      SessionLinePlain(s);
      PlainConcat(SessionLines(c, o, n - 1), SessionLine(s), EntryLines(c[s], o.keys[s]));
    }
  }

  /** Printing a representable configuration in any order and loading it into a fresh one gives it back. */
  lemma LoadUndoesDump(c: Config, o: Order)
    requires Representable(c) && OrderOf(o, c)
    ensures Load(DumpText(c, o)) == Some(c)
  {
    hide Parse, Representable;
    var n := |o.sessions|;
    var lines := SessionLines(c, o, n);
    SessionLinesPlain(c, o, n);
    LinesOfWith(lines, "");
    assert Unlines(lines) + "" == Unlines(lines);
    assert Lines("") == [""];
    ReadSessions(c, o, n);
    ParseSnoc(FRESH, lines, "");
    EmptyLine(ParseAll(FRESH, lines).value);
    AllRead(c, o, ParseAll(FRESH, lines).value.config);
  }

  lemma EmptyLine(st: Loader)
    ensures Parse(st, "") == Some(st)
  {}

  lemma AllRead(c: Config, o: Order, got: Config)
    requires Representable(c) && OrderOf(o, c) && ReadUpTo(c, o, |o.sessions|, got)
    ensures got == c
  {
    hide NameOk, SessionOk;
    assert o.sessions[..|o.sessions|] == o.sessions;
  }

  // ----- comments and empty lines -----

  /** The text with the given lines, a newline between each two. */
  ghost function Joined(lines: seq<string>): string
    requires lines != []
  {
    if |lines| == 1 then lines[0] else lines[0] + "\n" + Joined(lines[1..])
  }

  lemma {:induction false} LinesOfJoined(lines: seq<string>)
    requires lines != [] && AllPlain(lines)
    ensures Lines(Joined(lines)) == lines
    decreases |lines|
  {
    hide Lines, Without;
    assert lines[0] in lines;
    if |lines| == 1 {
      OnlyLine(lines[0]);
    } else {
      assert forall l :: l in lines[1..] ==> l in lines;
      LinesOfJoined(lines[1..]);
      LinesCons(lines[0], Joined(lines[1..]));
    }
  }

  lemma OnlyLine(l: string)
    requires Without(l, '\n')
    ensures Lines(l) == [l]
  {
    assert LineEnd(l) == |l|;
  }

  /** getline loses nothing: every text is its lines, joined. */
  lemma {:induction false} JoinedLines(text: string)
    ensures Lines(text) != [] && AllPlain(Lines(text)) && Joined(Lines(text)) == text
    decreases |text|
  {
    hide LineEnd, Without;
    var n := LineEnd(text);
    if n < |text| {
      JoinedLines(text[n + 1..]);
      assert Lines(text)[1..] == Lines(text[n + 1..]);
      assert text == text[..n] + "\n" + text[n + 1..];
    } else {
      assert text[..n] == text;
    }
  }

  /** What a file loads to is what its lines do, one after the other. */
  lemma FileMeaning(st: Loader, lines: seq<Line>)
    requires lines != [] && AllValid(lines) && AllPlain(SpelledAll(lines))
    ensures ParseAll(st, Lines(Joined(SpelledAll(lines)))) == EffectAll(st, lines)
  {
    LinesOfJoined(SpelledAll(lines));
    LinesMeaning(st, lines);
  }

  lemma {:induction false} PartConcat(st: Loader, a: seq<string>, b: seq<string>)
    ensures var r := ParseAll(st, a);
            ParsedPart(st, a + b) == if r.None? then ParsedPart(st, a) else ParsedPart(r.value, b)
    decreases |a|
  {
    hide Parse;
    if a == [] {
      assert a + b == b;
    } else {
      assert (a + b)[1..] == a[1..] + b;
      var r := Parse(st, a[0]);
      if r.Some? { PartConcat(r.value, a[1..], b); }
    }
  }

  /** A comment or an empty line, put in or taken out anywhere, changes nothing, in a bad file neither. */
  lemma IgnoredLine(st: Loader, a: seq<string>, l: Line, b: seq<string>)
    requires ValidLine(l) && (l.Empty? || l.Comment?)
    ensures ParseAll(st, a + ([Spelled(l)] + b)) == ParseAll(st, a + b)
    ensures ParsedPart(st, a + ([Spelled(l)] + b)) == ParsedPart(st, a + b)
  {
    hide Parse, Spelled, ValidLine;
    var more := [Spelled(l)] + b;
    ParseConcat(st, a, more);
    ParseConcat(st, a, b);
    PartConcat(st, a, more);
    PartConcat(st, a, b);
    var r := ParseAll(st, a);
    if r.Some? {
      LineMeaning(r.value, l);
      assert more[1..] == b;
    }
  }

  lemma IgnoredInFile(st: Loader, a: seq<string>, l: Line, b: seq<string>)
    requires ValidLine(l) && (l.Empty? || l.Comment?) && Without(Spelled(l), '\n')
    requires AllPlain(a) && AllPlain(b) && a + b != []
    ensures ParseAll(st, Lines(Joined(a + ([Spelled(l)] + b)))) == ParseAll(st, Lines(Joined(a + b)))
    ensures ParsedPart(st, Lines(Joined(a + ([Spelled(l)] + b)))) == ParsedPart(st, Lines(Joined(a + b)))
  {
    hide Spelled, ValidLine, Joined, Lines, Without;
    LinesOfJoined(a + ([Spelled(l)] + b));
    LinesOfJoined(a + b);
    IgnoredLine(st, a, l, b);
  }

  /** How a session and an entry are printed. */
  lemma DumpOfOne(s: string, k: string, v: string)
    ensures var c: Config, o := map[s := map[k := v]], Order([s], map[s := [k]]);
            OrderOf(o, c) && DumpText(c, o) == "[" + s + "]\n" + k + " = " + v + "\n"
  {
    var c: Config, o := map[s := map[k := v]], Order([s], map[s := [k]]);
    OneOfEach(s, k, v);
    TwoLines(SessionLine(s), EntryLine(k, v));
    hide SessionLines, Unlines, OrderOf;
    assert "[" + s + "]" + "\n" == "[" + s + "]\n";
  }

  lemma OneOfEach(s: string, k: string, v: string)
    ensures var c: Config, o := map[s := map[k := v]], Order([s], map[s := [k]]);
            OrderOf(o, c) && SessionLines(c, o, 1) == [SessionLine(s), EntryLine(k, v)]
  {
    hide SessionLine, EntryLine;
    var c: Config, o := map[s := map[k := v]], Order([s], map[s := [k]]);
    assert [k][..0] == [];
    assert EntryLines(c[s], [k]) == [EntryLine(k, v)];
    assert SessionLines(c, o, 0) == [];
  }

  lemma TwoLines(a: string, b: string)
    ensures Unlines([a, b]) == a + "\n" + b + "\n"
  {
    UnlinesSnoc([a], b);
    UnlinesSnoc([], a);
    assert [a] + [b] == [a, b] && [] + [a] == [a];
  }

  // ----- what loading produces -----

  lemma {:induction false} WithoutParts(s: string, c: char)
    requires Without(s, c)
    ensures forall i, j :: 0 <= i <= j <= |s| ==> Without(s[i..j], c)
  {}

  lemma SetEntryKeeps(config: Config, s: string, k: string, v: string)
    requires Representable(config) && NameOk(s) && KeyOk(k) && NameOk(v)
    ensures Representable(SetEntry(config, s, k, v))
  {
    hide NameOk, KeyOk;
    assert k in SetEntry(config, s, k, v)[s];
  }

  /** The key and the value of a line are a trimmed key and a trimmed value. */
  lemma LineParts(line: string)
    requires Trimmed(line) && Plain(line) && line != "" && line[0] != '#' && line[0] != '[' && FirstEq(line) < |line|
    ensures KeyOk(Trim(line[..FirstEq(line)])) && NameOk(Trim(line[FirstEq(line) + 1..]))
  {
    var pos := FirstEq(line);
    var l, r := line[..pos], line[pos + 1..];
    assert Without(l, '=');
    assert Plain(l) && Plain(r) by {
      WithoutParts(line, '\0');
      WithoutParts(line, '\n');
      assert l == line[0..pos] && r == line[pos + 1..|line|];
    }
    hide FirstEq, Trim, Without;
    TrimParts(l);
    TrimParts(r);
    if pos > 0 {
      assert l[0] == line[0];
      StartStays(l);
    } else {
      NothingToTrim();
    }
  }

  lemma NothingToTrim()
    ensures Trim("") == ""
  {}

  /** A string that starts with a non-blank keeps its first character when trimmed. */
  lemma StartStays(s: string)
    requires s != "" && !IsSpace(s[0])
    ensures Trim(s) != "" && Trim(s)[0] == s[0]
  {
    RightStart(s);
  }

  lemma {:induction false} RightStart(s: string)
    requires s != "" && !IsSpace(s[0])
    ensures TrimRight(s) != "" && TrimRight(s)[0] == s[0]
  {
    if IsSpace(s[|s| - 1]) { RightStart(s[..|s| - 1]); }
  }

  /** Every line of a text without NULs keeps the configuration representable. */
  lemma ParseKeeps(st: Loader, l: string)
    requires Representable(st.config) && NameOk(st.session) && Plain(l) && Parse(st, l).Some?
    ensures var r := Parse(st, l).value; Representable(r.config) && NameOk(r.session)
  {
    var line := Trim(l);
    TrimParts(l);
    assert Plain(line) && Trimmed(line);
    hide Trim, CStr, Representable, FirstEq;
    if line == "" || line[0] == '#' {
    } else if line[0] == '[' {
      var name := line[1..|line| - 1];
      WithoutParts(line, '\0');
      WithoutParts(line, '\n');
      TrimParts(name);
    } else {
      LineParts(line);
      var key, value := Trim(line[..FirstEq(line)]), Trim(line[FirstEq(line) + 1..]);
      assert CStr(st.session) == st.session && CStr(key) == key && CStr(value) == value;
      SetEntryKeeps(st.config, st.session, key, value);
    }
  }

  lemma {:induction false} ParseAllKeeps(st: Loader, lines: seq<string>)
    requires Representable(st.config) && NameOk(st.session) && ParseAll(st, lines).Some?
    requires forall i :: 0 <= i < |lines| ==> Plain(lines[i])
    ensures Representable(ParseAll(st, lines).value.config)
    decreases |lines|
  {
    if lines != [] {
      hide Parse, Representable, NameOk;
      ParseKeeps(st, lines[0]);
      ParseAllKeeps(Parse(st, lines[0]).value, lines[1..]);
    }
  }

  lemma {:induction false} LinesPlain(text: string)
    requires Without(text, '\0')
    ensures forall i :: 0 <= i < |Lines(text)| ==> Plain(Lines(text)[i])
    decreases |text|
  {
    var n := LineEnd(text);
    WithoutParts(text, '\0');
    if n == |text| {
      assert text[..n] == text;
    } else {
      assert text[n + 1..] == text[n + 1..|text|];
      LinesPlain(text[n + 1..]);
      assert text[..n] == text[0..n];
    }
  }

  /** No name, key or value holds a NUL. */
  ghost predicate NulFree(c: Config) {
    forall s :: s in c ==> Without(s, '\0') && forall k :: k in c[s] ==> Without(k, '\0') && Without(c[s][k], '\0')
  }

  /** Nothing with a NUL gets through the parser. */
  lemma {:induction false} ParseAllNulFree(st: Loader, lines: seq<string>)
    requires NulFree(st.config) && ParseAll(st, lines).Some?
    ensures NulFree(ParseAll(st, lines).value.config)
    decreases |lines|
  {
    if lines != [] {
      ParseNulFree(st, lines[0]);
      ParseAllNulFree(Parse(st, lines[0]).value, lines[1..]);
    }
  }

  lemma ParseNulFree(st: Loader, l: string)
    requires NulFree(st.config) && Parse(st, l).Some?
    ensures NulFree(Parse(st, l).value.config)
  {
    hide Trim, CStr, FirstEq;
    var line := Trim(l);
    if line != "" && line[0] != '#' && line[0] != '[' {
      var n := FirstEq(line);
    }
  }

  lemma {:induction false} EntryLinesNulFree(m: map<string, string>, keys: seq<string>)
    requires forall k :: k in keys ==> k in m && Without(k, '\0') && Without(m[k], '\0')
    ensures forall i :: 0 <= i < |EntryLines(m, keys)| ==> Without(EntryLines(m, keys)[i], '\0')
  {
    if keys != [] {
      EntryLinesNulFree(m, keys[..|keys| - 1]);
      var k := keys[|keys| - 1];
      assert k in keys;
    }
  }

  lemma {:induction false} SessionLinesNulFree(c: Config, o: Order, n: nat)
    requires NulFree(c) && OrderOf(o, c) && n <= |o.sessions|
    ensures forall i :: 0 <= i < |SessionLines(c, o, n)| ==> Without(SessionLines(c, o, n)[i], '\0')
  {
    hide EntryLines;
    if n > 0 {
      var s := o.sessions[n - 1];
      assert s in o.sessions;
      SessionLinesNulFree(c, o, n - 1);
      EntryLinesNulFree(c[s], o.keys[s]);
    }
  }

  lemma {:induction false} UnlinesNulFree(lines: seq<string>)
    requires forall i :: 0 <= i < |lines| ==> Without(lines[i], '\0')
    ensures Without(Unlines(lines), '\0')
  {
    if lines != [] { UnlinesNulFree(lines[..|lines| - 1]); }
  }

  /** Loading a dump gives the configuration back if and only if the configuration is representable; SetValue
      can make one that is not. */
  lemma RoundTripExactly(c: Config, o: Order)
    requires OrderOf(o, c)
    ensures Load(DumpText(c, o)) == Some(c) <==> Representable(c)
  {
    hide ParseAll, Lines, SessionLines, Unlines, Representable;
    if Representable(c) {
      LoadUndoesDump(c, o);
    } else if Load(DumpText(c, o)) == Some(c) {
      ParseAllNulFree(FRESH, Lines(DumpText(c, o)));
      SessionLinesNulFree(c, o, |o.sessions|);
      UnlinesNulFree(SessionLines(c, o, |o.sessions|));
      LinesPlain(DumpText(c, o));
      FreshRepresentable();
      ParseAllKeeps(FRESH, Lines(DumpText(c, o)));
      assert false;
    }
  }

  lemma FreshRepresentable()
    ensures Representable(FRESH.config) && NameOk(FRESH.session) && NulFree(FRESH.config)
  {}

  /** A value with a blank margin, which only SetValue can store, does not survive. */
  lemma BlankMarginIsLost()
    ensures var c: Config, o := map["" := map["key" := " value"]], Order([""], map["" := ["key"]]);
            OrderOf(o, c) && Load(DumpText(c, o)) != Some(c)
  {
    hide Load, DumpText;
    var c: Config, o := map["" := map["key" := " value"]], Order([""], map["" := ["key"]]);
    assert "" in c && "key" in c[""];
    RoundTripExactly(c, o);
    assert !NameOk(c[""]["key"]);
    assert !SessionOk(c[""]);
  }

  // ----- the class -----

  /** Whatever lines a configuration was read from, dumping it and loading the dump gives it back. */
  lemma ParsedRoundTrips(lines: seq<string>, o: Order)
    requires forall i :: 0 <= i < |lines| ==> Plain(lines[i])
    requires ParseAll(FRESH, lines).Some? && OrderOf(o, ParseAll(FRESH, lines).value.config)
    ensures var c := ParseAll(FRESH, lines).value.config; Load(DumpText(c, o)) == Some(c)
  {
    hide ParseAll, Load, DumpText;
    ParseAllKeeps(FRESH, lines);
    LoadUndoesDump(ParseAll(FRESH, lines).value.config, o);
  }

  lemma UnlinesSnoc(lines: seq<string>, l: string)
    ensures Unlines(lines + [l]) == Unlines(lines) + l + "\n"
  {
    assert (lines + [l])[..|lines|] == lines;
  }

  class ConfigFile {
    var config: Config

    constructor ()
      ensures config == FRESH.config
    {
      config := map["" := map[]];
    }

    method SetValue(session: Option<string>, key: string, value: string)
      modifies this
      ensures config == SetEntry(old(config), if session.None? then "" else session.value, key, value)
    {
      var s := if session.None? then "" else session.value;
      var m := map[];
      if s in config { m := config[s]; }
      config := config[s := m[key := value]];
    }

    method GetValue(session: string, key: string, def: Option<string>) returns (r: Option<string>)
      ensures r == if session in config && key in config[session] then Some(config[session][key]) else def
    {
      if session !in config { return def; }
      if key !in config[session] { return def; }
      return Some(config[session][key]);
    }

    method ParseLine(session: string, l: string) returns (rc: int, session': string)
      modifies this
      ensures var r := Parse(Loader(session, old(config)), l);
              if r.Some? then rc == 0 && Loader(session', config) == r.value
              else rc == -1 && config == old(config) && session' == session
    {
      session' := session;
      var line := Trim(l);
      if line == "" || line[0] == '#' { return 0, session; }
      if line[0] == '[' {
        if line[|line| - 1] != ']' { return -1, session; }
        return 0, Trim(line[1..|line| - 1]);
      }
      var pos := FirstEq(line);
      if pos == |line| { return -1, session; }
      var key, value := Trim(line[..pos]), Trim(line[pos + 1..]);
      SetValue(Some(CStr(session)), CStr(key), CStr(value));
      rc := 0;
    }

    /** LoadFile of a file holding `text`: succeeds when every line parses, from the default session on, and
        otherwise keeps what came before the first bad line. */
    method LoadFile(text: string) returns (rc: int)
      modifies this
      ensures rc == if ParseAll(Loader("", old(config)), Lines(text)).Some? then 0 else -1
      ensures config == ParsedPart(Loader("", old(config)), Lines(text)).config
    {
      hide Parse, LineEnd;
      ghost var st := Loader("", config);
      var session, rest, eof := "", text, false;
      while !eof
        invariant ParseAll(st, Lines(text)) ==
                  ParseAll(Loader(session, config), if eof then [] else Lines(rest))
        invariant ParsedPart(st, Lines(text)) ==
                  ParsedPart(Loader(session, config), if eof then [] else Lines(rest))
        decreases !eof, |rest|
      {
        var n := LineEnd(rest);
        ghost var lines := Lines(rest);
        assert lines[0] == rest[..n] by { if n == |rest| { assert rest[..n] == rest; } }
        eof := n == |rest|;
        var bad;
        bad, session := ParseLine(session, rest[..n]);
        if bad != 0 { return -1; }
        if !eof { rest := rest[n + 1..]; }
      }
      rc := 0;
    }

    /** Dump, walking the maps in the order `o`. */
    method Dump(o: Order) returns (text: string)
      requires OrderOf(o, config)
      ensures text == DumpText(config, o)
    {
      hide EntryLines, SessionLine, Unlines;
      text := "";
      UnlinesConcat([], []);
      for i := 0 to |o.sessions|
        invariant text == Unlines(SessionLines(config, o, i))
      {
        var s := o.sessions[i];
        assert s in o.sessions;
        ghost var before := SessionLines(config, o, i);
        UnlinesSnoc(before, SessionLine(s));
        UnlinesConcat(before + [SessionLine(s)], EntryLines(config[s], o.keys[s]));
        text := text + SessionLine(s) + "\n";
        var entries := DumpSession(config[s], o.keys[s]);
        text := text + entries;
      }
    }
  }

  /** The inner loop of Dump. */
  method DumpSession(m: map<string, string>, keys: seq<string>) returns (text: string)
    requires forall k :: k in keys ==> k in m
    ensures text == Unlines(EntryLines(m, keys))
  {
    hide EntryLine;
    text := "";
    for j := 0 to |keys|
      invariant text == Unlines(EntryLines(m, keys[..j]))
    {
      var k := keys[j];
      assert k in keys && keys[..j + 1][..j] == keys[..j];
      UnlinesSnoc(EntryLines(m, keys[..j]), EntryLine(k, m[k]));
      text := text + EntryLine(k, m[k]) + "\n";
    }
    assert keys[..|keys|] == keys;
  }

  lemma {:induction false} UnlinesConcat(a: seq<string>, b: seq<string>)
    ensures Unlines(a + b) == Unlines(a) + Unlines(b)
    ensures Unlines([]) == ""
    decreases |b|
  {
    if b == [] {
      assert a + b == a;
    } else {
      UnlinesConcat(a, b[..|b| - 1]);
      assert (a + b)[..|a + b| - 1] == a + b[..|b| - 1];
    }
  }
}
