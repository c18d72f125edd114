/** The simple regular expressions of Google Test: validator and backtracking matcher. A C string is a
    sequence of characters without NUL; a pointer into it is the suffix it points to, and the terminating
    NUL is the end of the suffix. */
module Regex {

  ghost predicate NoNul(s: string) { forall i :: 0 <= i < |s| ==> s[i] != '\0' }

  // ----- the characters of the syntax and their meaning, listed -----

  /** The ASCII characters with a glyph, except letters and digits; each may be escaped and then stands for itself. */
  ghost predicate Punctuation(c: char) {
    '!' <= c <= '/' || ':' <= c <= '@' || '[' <= c <= '`' || '{' <= c <= '~'
  }

  /** The letters that may be escaped and then stand for a class of characters. */
  ghost predicate ClassLetter(c: char) { c in {'d', 'D', 's', 'S', 'w', 'W', 'f', 'n', 'r', 't', 'v'} }

  ghost predicate Repetition(c: char) { c in {'?', '*', '+'} }

  /** The characters that are no atom by themselves. */
  ghost predicate Special(c: char) {
    c in {'\\', '^', '$', '?', '*', '+', '(', ')', '[', ']', '{', '}', '|'}
  }

  ghost function Digits(): set<char> { {'0', '1', '2', '3', '4', '5', '6', '7', '8', '9'} }

  ghost function WhiteSpace(): set<char> { {' ', '\t', '\n', '\r', '\U{0B}', '\U{0C}'} }

  ghost function LowerCase(): set<char> {
    {'a', 'b', 'c', 'd', 'e', 'f', 'g', 'h', 'i', 'j', 'k', 'l', 'm',
     'n', 'o', 'p', 'q', 'r', 's', 't', 'u', 'v', 'w', 'x', 'y', 'z'}
  }

  ghost function UpperCase(): set<char> {
    {'A', 'B', 'C', 'D', 'E', 'F', 'G', 'H', 'I', 'J', 'K', 'L', 'M',
     'N', 'O', 'P', 'Q', 'R', 'S', 'T', 'U', 'V', 'W', 'X', 'Y', 'Z'}
  }

  ghost function WordChars(): set<char> { LowerCase() + UpperCase() + Digits() + {'_'} }

  ghost function NewLine(): set<char> { {'\n'} }

  /** The characters an escaped atom stands for. */
  ghost function EscapeMeaning(c: char): iset<char> {
    match c
    case 'd' => iset ch | ch in Digits()
    case 's' => iset ch | ch in WhiteSpace()
    case 'w' => iset ch | ch in WordChars()
    case 'D' => iset ch | ch !in Digits()
    case 'S' => iset ch | ch !in WhiteSpace()
    case 'W' => iset ch | ch !in WordChars()
    case 'f' => iset{'\U{0C}'}
    case 'n' => iset{'\n'}
    case 'r' => iset{'\r'}
    case 't' => iset{'\t'}
    case 'v' => iset{'\U{0B}'}
    case _ => if Punctuation(c) then iset{c} else iset{}
  }

  /** The characters an atom stands for: a dot is every character except a newline. */
  ghost function Meaning(escaped: bool, c: char): iset<char> {
    if escaped then EscapeMeaning(c) else if c == '.' then iset ch | ch !in NewLine() else iset{c}
  }

  ghost predicate Stands(escaped: bool, c: char, ch: char) { ch in Meaning(escaped, c) }

  // ----- atoms -----

  predicate IsInSet(ch: char, s: string) { ch != '\0' && ch in s }

  predicate IsDigit(ch: char)
    ensures IsDigit(ch) <==> ch in Digits()
  {
    '0' <= ch <= '9'
  }

  predicate IsPunct(ch: char)
    ensures IsPunct(ch) <==> Punctuation(ch)
  {
    Spelled(ch);
    IsInSet(ch, "^-!\"#$%&'()*+,./:;<=>?@[\\]_`{|}~")
  }

  predicate IsRepeat(ch: char)
    ensures IsRepeat(ch) <==> Repetition(ch)
  {
    ch == '?' || ch == '*' || ch == '+'
  }

  /** The characters of "()[]{}|". */
  predicate IsUnsupported(ch: char) {
    ch == '(' || ch == ')' || ch == '[' || ch == ']' || ch == '{' || ch == '}' || ch == '|'
  }

  /** Whether a repetition may follow: not behind one of "^$?*+". */
  predicate IsRepeatable(ch: char) { ch != '^' && ch != '$' && !IsRepeat(ch) }

  predicate IsWhiteSpace(ch: char)
    ensures IsWhiteSpace(ch) <==> ch in WhiteSpace()
  {
    BlankSpelled(ch);
    IsInSet(ch, " \U{0C}\n\r\t\U{0B}")
  }

  predicate IsWordChar(ch: char)
    ensures IsWordChar(ch) <==> ch in WordChars()
  {
    LettersSpelled(ch);
    DigitsSpelled(ch);
    'a' <= ch <= 'z' || 'A' <= ch <= 'Z' || '0' <= ch <= '9' || ch == '_'
  }

  predicate IsValidEscape(c: char)
    ensures IsValidEscape(c) <==> Punctuation(c) || ClassLetter(c)
  {
    LetterSpelled(c);
    IsPunct(c) || IsInSet(c, "dDfnrsStvwW")
  }

  /** An atom matches exactly the characters it stands for. */
  predicate AtomMatchesChar(escaped: bool, p: char, ch: char)
    ensures AtomMatchesChar(escaped, p, ch) <==> Stands(escaped, p, ch)
  {
    if escaped then
      if p == 'd' then IsDigit(ch)
      else if p == 'D' then !IsDigit(ch)
      else if p == 'f' then ch == '\U{0C}'
      else if p == 'n' then ch == '\n'
      else if p == 'r' then ch == '\r'
      else if p == 's' then IsWhiteSpace(ch)
      else if p == 'S' then !IsWhiteSpace(ch)
      else if p == 't' then ch == '\t'
      else if p == 'v' then ch == '\U{0B}'
      else if p == 'w' then IsWordChar(ch)
      else if p == 'W' then !IsWordChar(ch)
      else IsPunct(p) && p == ch
    else (p == '.' && ch != '\n') || p == ch
  }

  lemma Spelled(ch: char)
    ensures ch in "^-!\"#$%&'()*+,./:;<=>?@[\\]_`{|}~" <==> Punctuation(ch)
  {
    var s := "^-!\"#$%&'()*+,./:;<=>?@[\\]_`{|}~";
    var lower, upper := "^-!\"#$%&'()*+,./", ":;<=>?@[\\]_`{|}~";
    assert s == lower + upper by { SpelledInHalves(s); }
    assert ch in s <==> ch in lower || ch in upper;
    LowerHalf(ch);
    UpperHalf(ch);
  }

  lemma SpelledInHalves(s: string)
    requires s == "^-!\"#$%&'()*+,./:;<=>?@[\\]_`{|}~"
    ensures s == "^-!\"#$%&'()*+,./" + ":;<=>?@[\\]_`{|}~"
  {}

  lemma LowerHalf(ch: char)
    ensures ch in "^-!\"#$%&'()*+,./" <==> '!' <= ch <= '/' || ch == '^'
  {
    var s := "^-!\"#$%&'()*+,./";
    assert s[0] == '^' && s[1] == '-' && s[2] == '!' && s[3] == '"' && s[4] == '#' && s[5] == '$' && s[6] == '%'
        && s[7] == '&';
    assert s[8] == '\'' && s[9] == '(' && s[10] == ')' && s[11] == '*' && s[12] == '+' && s[13] == ',' && s[14] == '.'
        && s[15] == '/';
  }

  lemma UpperHalf(ch: char)
    ensures ch in ":;<=>?@[\\]_`{|}~" <==> ':' <= ch <= '@' || ('[' <= ch <= '`' && ch != '^') || '{' <= ch <= '~'
  {
    var s := ":;<=>?@[\\]_`{|}~";
    assert s[0] == ':' && s[1] == ';' && s[2] == '<' && s[3] == '=' && s[4] == '>' && s[5] == '?' && s[6] == '@'
        && s[7] == '[';
    assert s[8] == '\\' && s[9] == ']' && s[10] == '_' && s[11] == '`' && s[12] == '{' && s[13] == '|' && s[14] == '}'
        && s[15] == '~';
  }

  lemma LettersSpelled(ch: char)
    ensures 'a' <= ch <= 'z' <==> ch in LowerCase()
    ensures 'A' <= ch <= 'Z' <==> ch in UpperCase()
  {}

  lemma DigitsSpelled(ch: char)
    ensures '0' <= ch <= '9' <==> ch in Digits()
  {}

  lemma BlankSpelled(ch: char)
    ensures ch in " \U{0C}\n\r\t\U{0B}" <==> ch in WhiteSpace()
  {
    var s := " \U{0C}\n\r\t\U{0B}";
    assert |s| == 6 && s[0] == ' ' && s[1] == '\U{0C}' && s[2] == '\n' && s[3] == '\r' && s[4] == '\t'
        && s[5] == '\U{0B}';
  }

  lemma LetterSpelled(c: char)
    ensures c in "dDfnrsStvwW" <==> ClassLetter(c)
  {
    var s := "dDfnrsStvwW";
    assert |s| == 11 && s[0] == 'd' && s[1] == 'D' && s[2] == 'f' && s[3] == 'n' && s[4] == 'r' && s[5] == 's'
        && s[6] == 'S' && s[7] == 't' && s[8] == 'v' && s[9] == 'w' && s[10] == 'W';
  }

  // ----- the language, as a grammar -----

  /** An atom, an atom with a repetition character, or the end anchor. */
  datatype Item = One(escaped: bool, c: char) | Many(escaped: bool, c: char, rep: char) | End

  datatype Pattern = Pattern(anchored: bool, items: seq<Item>)

  /** What the validator tests of an atom is that it is an atom. */
  ghost predicate ValidAtom(escaped: bool, c: char)
    ensures ValidAtom(escaped, c) <==>
            if escaped then IsValidEscape(c) else c != '\\' && IsRepeatable(c) && !IsUnsupported(c)
  {
    if escaped then Punctuation(c) || ClassLetter(c) else !Special(c)
  }

  ghost predicate WellFormed(items: seq<Item>) {
    && (forall i :: 0 <= i < |items| ==>
          match items[i]
          case One(e, c) => ValidAtom(e, c)
          case Many(e, c, rep) => ValidAtom(e, c) && Repetition(rep)
          case End => i == |items| - 1)
  }

  function AtomText(escaped: bool, c: char): string { if escaped then ['\\', c] else [c] }

  function ItemText(item: Item): string {
    match item
    case One(e, c) => AtomText(e, c)
    case Many(e, c, rep) => AtomText(e, c) + [rep]
    case End => "$"
  }

  function Text(items: seq<Item>): string {
    if items == [] then "" else ItemText(items[0]) + Text(items[1..])
  }

  function PatternText(r: Pattern): string { (if r.anchored then "^" else "") + Text(r.items) }

  /** `regex` is written according to the grammar. */
  ghost predicate Grammatical(regex: string) { exists r: Pattern :: WellFormed(r.items) && PatternText(r) == regex }

  // ----- what an item list means -----

  predicate CountAllowed(rep: char, k: nat) {
    (rep == '+' ==> k >= 1) && (rep == '?' ==> k <= 1)
  }

  /** `items` matches exactly `w`, in a string that goes on with `rest`. */
  ghost predicate Lang(items: seq<Item>, w: string, rest: string)
    decreases |items|
  {
    if items == [] then w == ""
    else match items[0]
      case One(e, c) => w != "" && Stands(e, c, w[0]) && Lang(items[1..], w[1..], rest)
      case Many(e, c, rep) =>
        exists k :: 0 <= k <= |w| && CountAllowed(rep, k) && AllMatch(e, c, w[..k]) && Lang(items[1..], w[k..], rest)
      case End => w == "" && rest == ""
  }

  ghost predicate AllMatch(escaped: bool, c: char, w: string) {
    forall j :: 0 <= j < |w| ==> Stands(escaped, c, w[j])
  }

  ghost predicate MatchesPrefix(items: seq<Item>, s: string) {
    exists n :: 0 <= n <= |s| && Lang(items, s[..n], s[n..])
  }

  /** Some substring matches, one at the start if the pattern is anchored. */
  ghost predicate Matches(r: Pattern, s: string) {
    exists i, j :: 0 <= i <= j <= |s| && (r.anchored ==> i == 0) && Lang(r.items, s[i..j], s[j..])
  }

  // ----- ValidateRegex -----

  predicate CharAllowed(s: string, start: bool, repeatable: bool)
    requires s != ""
  {
    && !(s[0] == '^' && !start)
    && !(s[0] == '$' && |s| > 1)
    && !IsUnsupported(s[0])
    && !(IsRepeat(s[0]) && !repeatable)
  }

  /** What the validating loop decides about a suffix. */
  ghost predicate Scan(s: string, start: bool, repeatable: bool)
    decreases |s|
  {
    if s == "" then true
    else if s[0] == '\\' then |s| >= 2 && IsValidEscape(s[1]) && Scan(s[2..], false, true)
    else CharAllowed(s, start, repeatable) && Scan(s[1..], false, IsRepeatable(s[0]))
  }

  method ScanRegex(regex: string) returns (ok: bool)
    requires NoNul(regex)
    ensures ok <==> Scan(regex, true, false)
  {
    hide IsValidEscape, IsUnsupported, IsRepeat, IsRepeatable, Punctuation, ClassLetter, Repetition;
    ok := true;
    var repeatable := false;
    var i := 0;
    while i < |regex|
      invariant 0 <= i <= |regex|
      invariant Scan(regex, true, false) <==> ok && Scan(regex[i..], i == 0, repeatable)
    {
      ghost var rest := regex[i..];
      if regex[i] == '\\' {
        i := i + 1;
        if i == |regex| { return false; }
        if !IsValidEscape(regex[i]) { ok := false; }
        repeatable := true;
        assert rest[2..] == regex[i + 1..];
      } else {
        var ch := regex[i];
        if ch == '^' && i > 0 { ok := false; }
        else if ch == '$' && i + 1 < |regex| { ok := false; }
        else if IsUnsupported(ch) { ok := false; }
        else if IsRepeat(ch) && !repeatable { ok := false; }
        repeatable := IsRepeatable(ch);
        assert rest[1..] == regex[i + 1..];
      }
      i := i + 1;
    }
  }

  /** How many characters the atom at the front of a suffix takes. */
  function AtomLen(s: string): nat { if s != "" && s[0] == '\\' then 2 else 1 }

  /** The items of an accepted suffix. */
  ghost function Parse(s: string): seq<Item>
    requires Scan(s, false, false)
    decreases |s|
  {
    if s == "" then []
    else if s[0] == '$' then [End]
    else
      var n := AtomLen(s);
      AfterAtom(s);
      if n < |s| && IsRepeat(s[n])
      then [Many(n == 2, s[n - 1], s[n])] + Parse(s[n + 1..])
      else [One(n == 2, s[n - 1])] + Parse(s[n..])
  }

  /** A suffix accepted behind an atom is accepted anywhere once an optional repetition is skipped. */
  lemma BehindAtom(t: string)
    requires Scan(t, false, true)
    ensures if t != "" && IsRepeat(t[0]) then Scan(t[1..], false, false) else Scan(t, false, false)
  {
    hide IsValidEscape, IsUnsupported;
  }

  /** Behind an accepted atom an optional repetition and then an accepted suffix follow. */
  lemma AfterAtom(s: string)
    requires Scan(s, false, false) && s != "" && s[0] != '$'
    ensures var n := AtomLen(s);
            && n <= |s| && ValidAtom(n == 2, s[n - 1])
            && if n < |s| && IsRepeat(s[n]) then Scan(s[n + 1..], false, false) else Scan(s[n..], false, false)
  {
    hide IsValidEscape, IsUnsupported;
    var n := AtomLen(s);
    assert ValidAtom(n == 2, s[n - 1]) && Scan(s[n..], false, true);
    BehindAtom(s[n..]);
    if n < |s| { assert s[n..][1..] == s[n + 1..]; }
  }

  lemma ItemIsPrefix(s: string)
    requires Scan(s, false, false) && s != "" && s[0] != '$'
    ensures var n := AtomLen(s);
            && n <= |s| && ItemText(One(n == 2, s[n - 1])) == s[..n]
            && (n < |s| ==> ItemText(Many(n == 2, s[n - 1], s[n])) == s[..n + 1])
  {
    hide IsValidEscape, CharAllowed;
    var n := AtomLen(s);
    if n == 2 { assert s[..2] == [s[0], s[1]]; } else { assert s[..1] == [s[0]]; }
    if n < |s| { assert s[..n + 1] == s[..n] + [s[n]]; }
  }

  lemma {:induction false} ParseIsSound(s: string)
    requires Scan(s, false, false)
    ensures WellFormed(Parse(s)) && Text(Parse(s)) == s
    decreases |s|
  {
    hide Scan, ItemText, IsValidEscape, IsRepeat, IsRepeatable, IsUnsupported;
    if s != "" && s[0] != '$' {
      AfterAtom(s);
      ItemIsPrefix(s);
      var n := AtomLen(s);
      var m := if n < |s| && IsRepeat(s[n]) then n + 1 else n;
      var first := if m == n + 1 then Many(n == 2, s[n - 1], s[n]) else One(n == 2, s[n - 1]);
      ParseIsSound(s[m..]);
      WellFormedCons(first, Parse(s[m..]));
      assert Parse(s) == [first] + Parse(s[m..]);
      assert Parse(s)[1..] == Parse(s[m..]);
      assert s[..m] + s[m..] == s;
    } else if s != "" {
      assert s == "$" by { DollarAlone(s); }
      EndText();
    }
  }

  lemma DollarAlone(s: string)
    requires Scan(s, false, false) && s != "" && s[0] == '$'
    ensures s == "$"
  {}

  lemma WellFormedCons(item: Item, items: seq<Item>)
    requires WellFormed([item]) && WellFormed(items) && item != End
    ensures WellFormed([item] + items)
  {
    var all := [item] + items;
    forall i | 0 <= i < |all| ensures
      match all[i]
      case One(e, c) => ValidAtom(e, c)
      case Many(e, c, rep) => ValidAtom(e, c) && Repetition(rep)
      case End => i == |all| - 1
    {
      if i == 0 { assert [item][0] == item; } else { assert all[i] == items[i - 1]; }
    }
  }

  lemma WellFormedTail(items: seq<Item>)
    requires WellFormed(items) && items != []
    ensures WellFormed(items[1..]) && (items[0] == End ==> items[1..] == [])
  {
    forall i | 0 <= i < |items[1..]| ensures
      match items[1..][i]
      case One(e, c) => ValidAtom(e, c)
      case Many(e, c, rep) => ValidAtom(e, c) && Repetition(rep)
      case End => i == |items[1..]| - 1
    {
      assert items[1..][i] == items[i + 1];
    }
  }

  lemma ScanAtom(escaped: bool, c: char, rest: string, repeatable: bool)
    requires ValidAtom(escaped, c) && Scan(rest, false, true)
    ensures Scan(AtomText(escaped, c) + rest, false, repeatable)
  {
    hide IsValidEscape;
    var s := AtomText(escaped, c) + rest;
    if escaped { assert s[2..] == rest; } else { assert s[1..] == rest; }
  }

  lemma ScanRepeat(rep: char, rest: string)
    requires IsRepeat(rep) && Scan(rest, false, false)
    ensures Scan([rep] + rest, false, true)
  {
    hide IsValidEscape;
    assert ([rep] + rest)[1..] == rest;
  }

  lemma ItemStart(item: Item)
    requires !item.End? ==> ValidAtom(item.escaped, item.c)
    ensures ItemText(item) != "" && !IsRepeat(ItemText(item)[0]) && ItemText(item)[0] != '^'
  {}

  lemma ScanDollar(repeatable: bool)
    ensures Scan("$", false, repeatable)
  {
    assert "$"[1..] == "";
  }

  lemma ScanItem(item: Item, rest: string, repeatable: bool)
    requires match item
             case One(e, c) => ValidAtom(e, c) && Scan(rest, false, true)
             case Many(e, c, rep) => ValidAtom(e, c) && IsRepeat(rep) && Scan(rest, false, false)
             case End => rest == ""
    ensures Scan(ItemText(item) + rest, false, repeatable)
  {
    hide Scan, ValidAtom, IsRepeat, AtomText;
    match item {
      case One(e, c) => ScanAtom(e, c, rest, repeatable);
      case Many(e, c, rep) =>
        ScanRepeat(rep, rest);
        ScanAtom(e, c, [rep] + rest, repeatable);
        assert AtomText(e, c) + ([rep] + rest) == ItemText(item) + rest;
      case End =>
        ScanDollar(repeatable);
        assert "$" + "" == "$";
    }
  }

  /** Every well-formed item list is accepted, also behind an atom. */
  lemma {:induction false} TextIsAccepted(items: seq<Item>, repeatable: bool)
    requires WellFormed(items)
    ensures Scan(Text(items), false, repeatable)
    ensures Text(items) != "" ==> !IsRepeat(Text(items)[0]) && Text(items)[0] != '^'
    decreases |items|
  {
    if items == [] {
      ScanNothing(repeatable);
    } else {
      hide Scan, ValidAtom, IsRepeat, ItemText;
      WellFormedTail(items);
      ItemStart(items[0]);
      TextIsAccepted(items[1..], items[0].One?);
      ScanItem(items[0], Text(items[1..]), repeatable);
    }
  }

  lemma ScanNothing(repeatable: bool)
    ensures Scan("", false, repeatable)
  {}

  /** The start anchor is the only thing the first position changes. */
  lemma ScanStart(regex: string)
    ensures Scan(regex, true, false) <==>
            if regex != "" && regex[0] == '^' then Scan(regex[1..], false, false) else Scan(regex, false, false)
  {
    hide IsValidEscape;
  }

  /** The validator accepts exactly the grammar. */
  lemma ScanIsGrammar(regex: string)
    ensures Scan(regex, true, false) <==> Grammatical(regex)
  {
    hide Scan, Text, WellFormed;
    ScanStart(regex);
    if Scan(regex, true, false) {
      if regex != "" && regex[0] == '^' {
        ParseIsSound(regex[1..]);
        assert PatternText(Pattern(true, Parse(regex[1..]))) == regex;
      } else {
        ParseIsSound(regex);
        assert PatternText(Pattern(false, Parse(regex))) == regex;
      }
    }
    if r: Pattern :| WellFormed(r.items) && PatternText(r) == regex {
      TextIsAccepted(r.items, false);
      if r.anchored { assert regex[1..] == Text(r.items); } else { assert regex == Text(r.items); }
    }
  }

  lemma TextIsNotAnchored(items: seq<Item>)
    requires WellFormed(items) && Text(items) != ""
    ensures Text(items)[0] != '^'
  {
    TextIsAccepted(items, false);
  }

  datatype CString = Null | Str(s: string)

  method ValidateRegex(regex: CString) returns (ok: bool)
    requires regex.Str? ==> NoNul(regex.s)
    ensures ok <==> regex.Str? && Grammatical(regex.s)
  {
    if regex.Null? { return false; }
    ok := ScanRegex(regex.s);
    ScanIsGrammar(regex.s);
  }

  // ----- the matcher -----

  lemma OneStep(items: seq<Item>, s: string)
    requires items != [] && items[0].One?
    ensures MatchesPrefix(items, s) <==>
            s != "" && Stands(items[0].escaped, items[0].c, s[0]) && MatchesPrefix(items[1..], s[1..])
  {
    hide Stands;
    if n :| 0 <= n <= |s| && Lang(items, s[..n], s[n..]) {
      assert s[..n][1..] == s[1..][..n - 1] && s[1..][n - 1..] == s[n..];
    }
    if s != "" && Stands(items[0].escaped, items[0].c, s[0]) && MatchesPrefix(items[1..], s[1..]) {
      var n :| 0 <= n <= |s[1..]| && Lang(items[1..], s[1..][..n], s[1..][n..]);
      assert s[..n + 1][1..] == s[1..][..n] && s[n + 1..] == s[1..][n..];
      assert Lang(items, s[..n + 1], s[n + 1..]);
    }
  }

  lemma ManyStep(items: seq<Item>, s: string)
    requires items != [] && items[0].Many?
    ensures MatchesPrefix(items, s) <==>
            exists k :: 0 <= k <= |s| && Repeats(items[0], s, k) && MatchesPrefix(items[1..], s[k..])
  {
    hide Stands, Lang, CountAllowed, AllMatch;
    var item := items[0];
    if n :| 0 <= n <= |s| && Lang(items, s[..n], s[n..]) {
      var w := s[..n];
      var k := LangHead(items, w, s[n..]);
      assert w[..k] == s[..k];
      assert w[k..] == s[k..][..n - k] && s[k..][n - k..] == s[n..];
      assert Repeats(item, s, k) && MatchesPrefix(items[1..], s[k..]);
    }
    if k :| 0 <= k <= |s| && Repeats(item, s, k) && MatchesPrefix(items[1..], s[k..]) {
      var n :| 0 <= n <= |s[k..]| && Lang(items[1..], s[k..][..n], s[k..][n..]);
      var w := s[..k + n];
      assert w[..k] == s[..k] && w[k..] == s[k..][..n] && s[k + n..] == s[k..][n..];
      LangMany(items, w, s[k + n..], k);
    }
  }

  lemma LangMany(items: seq<Item>, w: string, rest: string, k: nat)
    requires items != [] && items[0].Many? && Repeats(items[0], w, k) && Lang(items[1..], w[k..], rest)
    ensures Lang(items, w, rest)
  {
    hide Stands, CountAllowed, AllMatch;
  }

  /** How much of the word the first item takes. */
  lemma LangHead(items: seq<Item>, w: string, rest: string) returns (k: nat)
    requires items != [] && !items[0].End? && Lang(items, w, rest)
    ensures k <= |w| && Lang(items[1..], w[k..], rest)
    ensures items[0].One? ==> k == 1 && Stands(items[0].escaped, items[0].c, w[0])
    ensures items[0].Many? ==> Repeats(items[0], w, k)
  {
    hide Stands, CountAllowed, AllMatch;
    if items[0].One? {
      k := 1;
    } else {
      var j :| 0 <= j <= |w| && CountAllowed(items[0].rep, j)
          && AllMatch(items[0].escaped, items[0].c, w[..j]) && Lang(items[1..], w[j..], rest);
      k := j;
    }
  }

  /** How an item shows at the front of a text: what MatchRegexAtHead's tests find out. */
  ghost predicate ShowsAtHead(item: Item, rest: string, s: string) {
    && s != "" && (s[0] == '$' <==> item.End?)
    && (!item.End? ==>
          var at := if s[0] == '\\' then s[1..] else s;
          && (s[0] == '\\' <==> item.escaped) && at != "" && at[0] == item.c
          && (item.Many? ==> |at| > 1 && at[1] == item.rep && at[2..] == rest)
          && (item.One? ==> (|at| > 1 ==> !IsRepeat(at[1])) && at[1..] == rest))
  }

  lemma ItemAtHead(item: Item, rest: string)
    requires !item.End? ==> ValidAtom(item.escaped, item.c)
    requires rest != "" ==> !IsRepeat(rest[0])
    ensures ShowsAtHead(item, rest, ItemText(item) + rest)
  {
    hide IsValidEscape;
    var s := ItemText(item) + rest;
    match item {
      case One(e, c) =>
        assert s == if e then ['\\'] + ([c] + rest) else [c] + rest;
        assert ([c] + rest)[1..] == rest;
      case Many(e, c, rep) =>
        assert s == if e then ['\\'] + ([c, rep] + rest) else [c, rep] + rest;
        assert ([c, rep] + rest)[2..] == rest;
      case End =>
    }
  }

  lemma HeadText(items: seq<Item>)
    requires WellFormed(items) && items != []
    ensures ShowsAtHead(items[0], Text(items[1..]), Text(items))
  {
    hide IsValidEscape, ShowsAtHead, Scan, ItemText;
    WellFormedTail(items);
    TextIsAccepted(items[1..], false);
    ItemAtHead(items[0], Text(items[1..]));
  }

  /** The first `k` characters of `s` are a permitted repetition of the item's atom. */
  ghost predicate Repeats(item: Item, s: string, k: nat)
    requires item.Many?
  {
    k <= |s| && CountAllowed(item.rep, k) && AllMatch(item.escaped, item.c, s[..k])
  }

  /** The largest value of size_t; no C string is longer than one less. */
  const SIZE_MAX: nat := 0xFFFF_FFFF_FFFF_FFFF

  method MatchRepetitionAndRegexAtHead(escaped: bool, c: char, repeat: char,
                                       regex: string, str: string, ghost items: seq<Item>)
    returns (b: bool)
    requires WellFormed(items) && items != [] && items[0] == Many(escaped, c, repeat) && regex == Text(items[1..])
    requires |str| < SIZE_MAX
    ensures b <==> MatchesPrefix(items, str)
    decreases |items|, 0
  {
    hide Stands, Lang, MatchesPrefix, WellFormed, Text;
    WellFormedTail(items);
    ManyStep(items, str);
    var min_count := if repeat == '+' then 1 else 0;
    var max_count := if repeat == '?' then 1 else SIZE_MAX - 1;
    var i := 0;
    while i <= max_count
      invariant 0 <= i <= max_count + 1 && i <= |str|
      invariant forall j :: 0 <= j < i && j < |str| ==> Stands(escaped, c, str[j])
      invariant forall k :: 0 <= k < i && k <= |str| && CountAllowed(repeat, k) ==> !MatchesPrefix(items[1..], str[k..])
    {
      if i >= min_count {
        var tail := MatchRegexAtHead(regex, str[i..], items[1..]);
        if tail {
          assert Repeats(items[0], str, i);
          return true;
        }
      }
      if i == |str| || !AtomMatchesChar(escaped, c, str[i]) {
        forall k | 0 <= k <= |str| && Repeats(items[0], str, k) ensures !MatchesPrefix(items[1..], str[k..]) {
          if k > i { assert false; }
        }
        return false;
      }
      i := i + 1;
    }
    return false;
  }

  method MatchRegexAtHead(regex: string, str: string, ghost items: seq<Item>) returns (b: bool)
    requires WellFormed(items) && regex == Text(items) && |str| < SIZE_MAX
    ensures b <==> MatchesPrefix(items, str)
    decreases |items|, 1
  {
    if regex == "" {
      assert items == [];
      assert Lang(items, str[..0], str[0..]);
      return true;
    }
    hide Stands, IsValidEscape;
    WellFormedTail(items);
    HeadText(items);
    if regex[0] == '$' {
      if str == "" { assert Lang(items, str[..0], str[0..]); }
      return str == "";
    }
    var escaped := regex[0] == '\\';
    var at := if escaped then regex[1..] else regex;
    if |at| > 1 && IsRepeat(at[1]) {
      b := MatchRepetitionAndRegexAtHead(escaped, at[0], at[1], at[2..], str, items);
    } else {
      OneStep(items, str);
      if str == "" || !AtomMatchesChar(escaped, at[0], str[0]) { return false; }
      b := MatchRegexAtHead(at[1..], str[1..], items[1..]);
    }
  }

  method MatchRegexAnywhere(regex: CString, str: CString, ghost r: Pattern) returns (b: bool)
    requires WellFormed(r.items) && (regex.Str? ==> regex.s == PatternText(r)) && (str.Str? ==> |str.s| < SIZE_MAX)
    ensures b <==> regex.Str? && str.Str? && Matches(r, str.s)
  {
    hide Stands, Lang, WellFormed;
    if regex.Null? || str.Null? { return false; }
    var s := str.s;
    assert r.anchored ==> regex.s[1..] == Text(r.items);
    assert !r.anchored ==> regex.s == Text(r.items);
    if regex.s != "" && !r.anchored { TextIsNotAnchored(r.items); }
    if regex.s != "" && regex.s[0] == '^' {
      b := MatchRegexAtHead(regex.s[1..], s, r.items);
      SuffixMatches(r, s, 0);
      return;
    }
    var i := 0;
    while i <= |s|
      invariant 0 <= i <= |s| + 1
      invariant forall k :: 0 <= k < i ==> !MatchesPrefix(r.items, s[k..])
    {
      b := MatchRegexAtHead(regex.s, s[i..], r.items);
      if b {
        SuffixMatches(r, s, i);
        return;
      }
      i := i + 1;
    }
    forall k | 0 <= k <= |s| ensures !StartsAt(r, s, k) { SuffixMatches(r, s, k); }
    SuffixMatches(r, s, 0);
    return false;
  }

  ghost predicate StartsAt(r: Pattern, s: string, i: nat)
    requires i <= |s|
  {
    exists j :: i <= j <= |s| && Lang(r.items, s[i..j], s[j..])
  }

  lemma SuffixMatches(r: Pattern, s: string, i: nat)
    requires i <= |s|
    ensures MatchesPrefix(r.items, s[i..]) <==> StartsAt(r, s, i)
    ensures (r.anchored ==> i == 0) && StartsAt(r, s, i) ==> Matches(r, s)
    ensures Matches(r, s) <==> exists k :: 0 <= k <= |s| && (r.anchored ==> k == 0) && StartsAt(r, s, k)
  {
    hide Lang;
    if n :| 0 <= n <= |s[i..]| && Lang(r.items, s[i..][..n], s[i..][n..]) {
      assert s[i..][..n] == s[i..i + n] && s[i..][n..] == s[i + n..];
    }
    if j :| i <= j <= |s| && Lang(r.items, s[i..j], s[j..]) {
      assert s[i..][..j - i] == s[i..j] && s[i..][j - i..] == s[j..];
    }
    if Matches(r, s) {
      var k, j :| 0 <= k <= j <= |s| && (r.anchored ==> k == 0) && Lang(r.items, s[k..j], s[j..]);
      assert StartsAt(r, s, k);
    }
  }

  // ----- RE: full and partial match -----

  /** The pattern RE::Init stores for full matches. */
  function FullText(regex: string): string {
    (if regex != "" && regex[0] == '^' then "" else "^") + regex +
    (if regex != "" && regex[|regex| - 1] == '$' then "" else "$")
  }

  predicate EndsIn(items: seq<Item>, item: Item) { items != [] && items[|items| - 1] == item }

  /** The last atom is the escaped dollar, which Init mistakes for an end anchor. */
  predicate EndsInEscapedDollar(items: seq<Item>) { EndsIn(items, One(true, '$')) }

  function FullPattern(r: Pattern): Pattern {
    Pattern(true, if EndsIn(r.items, End) || EndsInEscapedDollar(r.items) then r.items else r.items + [End])
  }

  lemma {:induction false} TextConcat(a: seq<Item>, b: seq<Item>)
    ensures Text(a + b) == Text(a) + Text(b)
  {
    hide ItemText;
    if a == [] {
      assert a + b == b;
    } else {
      TextConcat(a[1..], b);
      assert (a + b)[1..] == a[1..] + b && (a + b)[0] == a[0];
      var head := ItemText(a[0]);
      assert Text(a + b) == head + Text(a[1..] + b);
      assert head + (Text(a[1..]) + Text(b)) == (head + Text(a[1..])) + Text(b);
    }
  }

  lemma LastItemChar(item: Item)
    requires !item.End? ==> ValidAtom(item.escaped, item.c)
    requires item.Many? ==> IsRepeat(item.rep)
    ensures var s := ItemText(item); s != "" && (s[|s| - 1] == '$' <==> item == End || item == One(true, '$'))
  {
    hide IsValidEscape;
  }

  lemma LastChar(items: seq<Item>)
    requires WellFormed(items) && items != []
    ensures var s := Text(items);
            s != "" && (s[|s| - 1] == '$' <==> EndsIn(items, End) || EndsInEscapedDollar(items))
  {
    hide ItemText, ValidAtom;
    var n := |items| - 1;
    var last := items[n];
    LastItemChar(last);
    TextConcat(items[..n], [last]);
    assert items == items[..n] + [last];
    assert Text([last]) == ItemText(last) + Text([last][1..]);
    assert Text(items) == Text(items[..n]) + ItemText(last);
  }

  lemma WellFormedSnoc(items: seq<Item>)
    requires WellFormed(items) && !EndsIn(items, End)
    ensures WellFormed(items + [End])
  {
    var all := items + [End];
    forall i | 0 <= i < |all| ensures
      match all[i]
      case One(e, c) => ValidAtom(e, c)
      case Many(e, c, rep) => ValidAtom(e, c) && Repetition(rep)
      case End => i == |all| - 1
    {
      if i < |items| { assert all[i] == items[i]; }
    }
  }

  lemma FullTextOf(anchored: bool, s: string)
    requires s != "" ==> s[0] != '^'
    ensures FullText((if anchored then "^" else "") + s) == "^" + s + if s != "" && s[|s| - 1] == '$' then "" else "$"
  {
    var t := (if anchored then "^" else "") + s;
    assert s != "" ==> t[|t| - 1] == s[|s| - 1];
  }

  lemma FullPatternText(r: Pattern)
    requires WellFormed(r.items)
    ensures WellFormed(FullPattern(r).items) && PatternText(FullPattern(r)) == FullText(PatternText(r))
  {
    hide WellFormed, ItemText, FullText, ValidAtom;
    var s := Text(r.items);
    if r.items != [] {
      LastChar(r.items);
      TextIsNotAnchored(r.items);
    }
    FullTextOf(r.anchored, s);
    if !(EndsIn(r.items, End) || EndsInEscapedDollar(r.items)) {
      WellFormedSnoc(r.items);
      TextConcat(r.items, [End]);
      EndText();
      assert "^" + (s + "$") == "^" + s + "$";
    } else {
      assert "^" + s + "" == "^" + s;
    }
  }

  lemma EndText()
    ensures Text([End]) == "$"
  {
    assert [End][1..] == [];
  }

  class RE {
    var pattern: CString
    var fullPattern: CString
    var isValid: bool
    ghost var parsed: Pattern

    ghost predicate Compiled()
      reads this
    {
      isValid ==> && WellFormed(parsed.items) && pattern == Str(PatternText(parsed))
                  && fullPattern == Str(PatternText(FullPattern(parsed)))
    }

    constructor ()
      ensures Compiled() && !isValid
    {
      pattern, fullPattern, isValid := Null, Null, false;
      parsed := Pattern(false, []);
    }

    method Init(regex: CString)
      requires regex.Str? ==> NoNul(regex.s)
      modifies this
      ensures Compiled() && pattern == regex && (isValid <==> regex.Str? && Grammatical(regex.s))
    {
      hide WellFormed, Text, PatternText, FullPattern;
      pattern, fullPattern := regex, Null;
      isValid := ValidateRegex(regex);
      if !isValid { return; }
      var s := regex.s;
      var buffer := "";
      if s == "" || s[0] != '^' { buffer := buffer + "^"; }
      buffer := buffer + s;
      if |s| == 0 || s[|s| - 1] != '$' { buffer := buffer + "$"; }
      fullPattern := Str(buffer);
      ghost var r: Pattern :| WellFormed(r.items) && PatternText(r) == s;
      parsed := r;
      FullPatternText(r);
    }

    method PartialMatch(str: CString) returns (b: bool)
      requires Compiled() && (str.Str? ==> |str.s| < SIZE_MAX)
      ensures b <==> isValid && str.Str? && Matches(parsed, str.s)
    {
      if !isValid { return false; }
      b := MatchRegexAnywhere(pattern, str, parsed);
    }

    method FullMatch(str: CString) returns (b: bool)
      requires Compiled() && (str.Str? ==> |str.s| < SIZE_MAX)
      ensures b <==> isValid && str.Str? && Matches(FullPattern(parsed), str.s)
    {
      if !isValid { return false; }
      FullPatternText(parsed);
      b := MatchRegexAnywhere(fullPattern, str, FullPattern(parsed));
    }
  }

  // ----- when a full match means the whole string -----

  lemma {:induction false} EndForcesTheEnd(items: seq<Item>, w: string, rest: string)
    requires EndsIn(items, End) && Lang(items, w, rest)
    ensures rest == ""
    decreases |items|
  {
    hide Stands, AllMatch, CountAllowed;
    if |items| > 1 && !items[0].End? {
      hide Lang, Repeats;
      var k := LangHead(items, w, rest);
      EndForcesTheEnd(items[1..], w[k..], rest);
    }
  }

  lemma {:induction false} AppendedEnd(items: seq<Item>, w: string, rest: string)
    requires forall i :: 0 <= i < |items| ==> !items[i].End?
    ensures Lang(items + [End], w, rest) <==> rest == "" && Lang(items, w, rest)
    decreases |items|
  {
    hide Stands;
    if items == [] {
      assert items + [End] == [End];
    } else {
      assert (items + [End])[1..] == items[1..] + [End];
      assert forall i :: 0 <= i < |items[1..]| ==> !items[1..][i].End?;
      match items[0] {
        case One(e, c) => if w != "" { AppendedEnd(items[1..], w[1..], rest); }
        case Many(e, c, rep) =>
          forall k | 0 <= k <= |w| ensures Lang(items[1..] + [End], w[k..], rest)
              <==> rest == "" && Lang(items[1..], w[k..], rest) {
            AppendedEnd(items[1..], w[k..], rest);
          }
        case End =>
      }
    }
  }

  lemma FullMeansWhole(r: Pattern, s: string)
    requires WellFormed(r.items) && !EndsInEscapedDollar(r.items)
    ensures Matches(FullPattern(r), s) <==> Lang(r.items, s, "")
  {
    hide Lang;
    assert s[0..|s|] == s && s[|s|..] == "";
    if EndsIn(r.items, End) {
      if j :| 0 <= j <= |s| && Lang(r.items, s[0..j], s[j..]) {
        EndForcesTheEnd(r.items, s[0..j], s[j..]);
        assert j == |s|;
      }
    } else {
      forall j | 0 <= j <= |s| ensures Lang(r.items + [End], s[0..j], s[j..])
          <==> s[j..] == "" && Lang(r.items, s[0..j], s[j..]) {
        AppendedEnd(r.items, s[0..j], s[j..]);
      }
      if Lang(r.items, s, "") { assert Lang(FullPattern(r).items, s[0..|s|], s[|s|..]); }
    }
  }

  /** A character the atom matches. */
  function Sample(escaped: bool, c: char): char {
    if !escaped then c
    else if c == 'd' || c == 'w' then '0'
    else if c == 'D' || c == 'S' then 'x'
    else if c == 's' || c == 'W' then ' '
    else if c == 'f' then '\U{0C}'
    else if c == 'n' then '\n'
    else if c == 'r' then '\r'
    else if c == 't' then '\t'
    else if c == 'v' then '\U{0B}'
    else c
  }

  lemma SampleMatches(escaped: bool, c: char)
    requires ValidAtom(escaped, c)
    ensures Stands(escaped, c, Sample(escaped, c))
    ensures c != '\0' ==> Sample(escaped, c) != '\0'
  {
    hide IsValidEscape, IsRepeatable, IsUnsupported, ClassLetter, Special;
    if escaped && ClassLetter(c) { SampleOfClass(c); }
  }

  lemma SampleOfClass(c: char)
    requires ClassLetter(c)
    ensures Stands(true, c, Sample(true, c)) && Sample(true, c) != '\0'
  {
    hide WordChars, Punctuation;
    BlankIsNoWordChar();
  }

  lemma BlankIsNoWordChar()
    ensures ' ' !in WordChars() && '0' in WordChars()
  {
    hide LowerCase, UpperCase;
    LettersSpelled(' ');
  }

  /** A word the items match, whatever follows it. */
  function Word(items: seq<Item>): string {
    if items == [] then ""
    else (match items[0]
          case One(e, c) => [Sample(e, c)]
          case Many(e, c, rep) => if rep == '+' then [Sample(e, c)] else ""
          case End => "") + Word(items[1..])
  }

  lemma {:induction false} WordMatches(items: seq<Item>, rest: string)
    requires WellFormed(items) && !EndsIn(items, End)
    ensures Lang(items, Word(items), rest)
    decreases |items|
  {
    if items != [] {
      hide Stands, Sample, IsValidEscape;
      WellFormedTail(items);
      WordMatches(items[1..], rest);
      var w := Word(items);
      match items[0] {
        case One(e, c) =>
          SampleMatches(e, c);
          assert w[1..] == Word(items[1..]);
        case Many(e, c, rep) =>
          SampleMatches(e, c);
          var k := if rep == '+' then 1 else 0;
          assert w[k..] == Word(items[1..]) && AllMatch(e, c, w[..k]) && CountAllowed(rep, k);
        case End =>
      }
    }
  }

  lemma {:induction false} WordHasNoNul(items: seq<Item>)
    requires WellFormed(items) && NoNul(Text(items))
    ensures NoNul(Word(items))
    decreases |items|
  {
    if items != [] {
      hide Stands, Sample, IsValidEscape;
      WellFormedTail(items);
      var s, rest := Text(items), Text(items[1..]);
      var n := |ItemText(items[0])|;
      assert s == ItemText(items[0]) + rest;
      forall i | 0 <= i < |rest| ensures rest[i] != '\0' { assert rest[i] == s[n + i]; }
      WordHasNoNul(items[1..]);
      if !items[0].End? {
        var at := if items[0].escaped then 1 else 0;
        assert s[at] == items[0].c;
        SampleMatches(items[0].escaped, items[0].c);
      }
    }
  }

  lemma DollarAtom(ch: char)
    requires Stands(true, '$', ch)
    ensures ch == '$'
  {}

  /** What the escaped dollar at the end matches is a dollar, and nothing follows it. */
  lemma {:induction false} EscapedDollarIsLast(items: seq<Item>, w: string, rest: string)
    requires EndsInEscapedDollar(items) && Lang(items, w, rest)
    requires forall i :: 0 <= i < |items| ==> !items[i].End?
    ensures w != "" && w[|w| - 1] == '$'
    decreases |items|
  {
    hide Stands, Lang;
    var k := LangHead(items, w, rest);
    if |items| > 1 {
      EscapedDollarIsLast(items[1..], w[k..], rest);
    } else {
      DollarAtom(w[0]);
      assert w[k..] == "" by { LangNothing(items[1..], w[k..], rest); }
    }
  }

  lemma LangNothing(items: seq<Item>, w: string, rest: string)
    requires items == [] && Lang(items, w, rest)
    ensures w == ""
  {}

  /** Full match means "the whole string matches" for exactly the patterns that do not end in an escaped dollar. */
  lemma FullMatchIsWholeMatch(r: Pattern)
    requires WellFormed(r.items) && NoNul(PatternText(r))
    ensures (forall s :: NoNul(s) ==> (Matches(FullPattern(r), s) <==> Lang(r.items, s, "")))
              <==> !EndsInEscapedDollar(r.items)
  {
    hide Lang, WellFormed, FullText;
    if EndsInEscapedDollar(r.items) {
      var w := Word(r.items);
      var s := w + "x";
      WordMatches(r.items, "x");
      assert s[0..|w|] == w && s[|w|..] == "x";
      assert Matches(FullPattern(r), s);
      assert forall i :: 0 <= i < |r.items| ==> !r.items[i].End? by { NoInnerEnd(r.items); }
      if Lang(r.items, s, "") {
        EscapedDollarIsLast(r.items, s, "");
        assert false;
      }
      assert NoNul(s) by {
        assert NoNul(Text(r.items)) by { TextOfPattern(r); }
        WordHasNoNul(r.items);
      }
    } else {
      forall s | NoNul(s) ensures Matches(FullPattern(r), s) <==> Lang(r.items, s, "") { FullMeansWhole(r, s); }
    }
  }

  lemma NoInnerEnd(items: seq<Item>)
    requires WellFormed(items) && !EndsIn(items, End)
    ensures forall i :: 0 <= i < |items| ==> !items[i].End?
  {}

  lemma TextOfPattern(r: Pattern)
    requires NoNul(PatternText(r))
    ensures NoNul(Text(r.items))
  {
    var t, s := PatternText(r), Text(r.items);
    var n := if r.anchored then 1 else 0;
    forall i | 0 <= i < |s| ensures s[i] != '\0' { assert s[i] == t[n + i]; }
  }

  /** "\$" fully matches "$x" although it does not match the whole of it. */
  lemma EscapedDollarCounterexample()
    ensures FullText("\\$") == "^\\$"
    ensures var r := Pattern(false, [One(true, '$')]);
            PatternText(r) == "\\$" && Matches(FullPattern(r), "$x") && !Lang(r.items, "$x", "")
  {
    hide IsPunct, IsValidEscape, ValidAtom;
    var r := Pattern(false, [One(true, '$')]);
    assert r.items[1..] == [];
    var s := "$x";
    assert s[0..1] == "$" && s[1..] == "x" && "$"[1..] == "";
    assert Lang(r.items, s[0..1], s[1..]);
  }
}
