/**
 * Wide strings to UTF-8: the encoder of the test framework against the decoders
 * of RFC 3629 (UTF-8) and RFC 2781 (UTF-16).
 */
module Utf8 {
  import opened Octets
  import opened Wrappers

  // ----- reference: RFC 3629, section 3 and 4 -----

  ghost predicate Surrogate(c: nat) { 0xD800 <= c <= 0xDFFF }

  ghost predicate Scalar(c: nat) { c <= 0x10FFFF && !Surrogate(c) }

  ghost predicate Tail(b: byte) { 0x80 <= b <= 0xBF }

  /** The first character of a byte string and the length it takes, if it starts with one. */
  ghost function First(s: seq<byte>): (r: Option<(nat, nat)>)
    ensures r.Some? ==> Scalar(r.value.0) && 1 <= r.value.1 <= |s|
  {
    if s == [] then None
    else
      var b := s[0] as nat;
      if b < 0x80 then Some((b, 1))
      else if 0xC2 <= b <= 0xDF && |s| >= 2 && Tail(s[1]) then
        Some(((b - 0xC0) * 64 + (s[1] as nat - 0x80), 2))
      else if 0xE0 <= b <= 0xEF && |s| >= 3 && Tail(s[1]) && Tail(s[2]) then
        var c := (b - 0xE0) * 4096 + (s[1] as nat - 0x80) * 64 + (s[2] as nat - 0x80);
        if c < 0x800 || Surrogate(c) then None else Some((c, 3))
      else if 0xF0 <= b <= 0xF4 && |s| >= 4 && Tail(s[1]) && Tail(s[2]) && Tail(s[3]) then
        var c := (b - 0xF0) * 262144 + (s[1] as nat - 0x80) * 4096
                 + (s[2] as nat - 0x80) * 64 + (s[3] as nat - 0x80);
        if c < 0x10000 || c > 0x10FFFF then None else Some((c, 4))
      else None
  }

  ghost function Cons(c: nat, rest: Option<seq<nat>>): Option<seq<nat>> {
    if rest.None? then None else Some([c] + rest.value)
  }

  ghost function DecodeUtf8(s: seq<byte>): (r: Option<seq<nat>>)
    ensures r.Some? ==> forall i :: 0 <= i < |r.value| ==> Scalar(r.value[i])
  {
    if s == [] then Some([])
    else
      var f := First(s);
      if f.None? then None else Cons(f.value.0, DecodeUtf8(s[f.value.1..]))
  }

  // ----- reference: RFC 2781, section 2.2 -----

  ghost function DecodeUtf16(t: seq<nat>): (r: Option<seq<nat>>) {
    if t == [] then Some([])
    else if !Surrogate(t[0]) then Cons(t[0], DecodeUtf16(t[1..]))
    else if t[0] <= 0xDBFF && |t| >= 2 && 0xDC00 <= t[1] <= 0xDFFF then
      Cons((t[0] - 0xD800) * 0x400 + (t[1] - 0xDC00) + 0x10000, DecodeUtf16(t[2..]))
    else None
  }

  // ----- one code point -----

  const MAX_CODE_POINT1: nat := 0x7F
  const MAX_CODE_POINT2: nat := 0x7FF
  const MAX_CODE_POINT3: nat := 0xFFFF
  const MAX_CODE_POINT4: nat := 0x1FFFFF

  /** A continuation byte: the marker 10 and the six lowest bits. */
  function TailByte(bits: nat): byte { (0x80 + bits % 64) as byte }

  function HexDigit(d: nat): (r: char)
    requires d < 16
    ensures r as nat < 128
  {
    if d < 10 then '0' + d as char else 'A' + (d - 10) as char
  }

  function Hex(n: nat): (r: string)
    ensures forall i :: 0 <= i < |r| ==> r[i] as nat < 128
  {
    if n < 16 then [HexDigit(n)] else Hex(n / 16) + [HexDigit(n % 16)]
  }

  function Ascii(s: string): seq<byte>
    requires forall i :: 0 <= i < |s| ==> s[i] as nat < 128
  {
    seq(|s|, i requires 0 <= i < |s| => s[i] as nat as byte)
  }

  function CodePointToUtf8(c: nat): seq<byte> {
    if c <= MAX_CODE_POINT1 then
      [c as byte]
    else if c <= MAX_CODE_POINT2 then
      [(0xC0 + c / 64) as byte, TailByte(c)]
    else if c <= MAX_CODE_POINT3 then
      [(0xE0 + c / 64 / 64) as byte, TailByte(c / 64), TailByte(c)]
    else if c <= MAX_CODE_POINT4 then
      [(0xF0 + c / 64 / 64 / 64) as byte, TailByte(c / 64 / 64), TailByte(c / 64), TailByte(c)]
    else
      Ascii("(Invalid Unicode 0x" + Hex(c) + ")")
  }

  /** Up to 0x1FFFFF the bytes read back as the code point if it is one, and as nothing otherwise. */
  lemma FirstOfEncoded(c: nat, rest: seq<byte>)
    requires c <= MAX_CODE_POINT4
    ensures First(CodePointToUtf8(c) + rest) == if Scalar(c) then Some((c, |CodePointToUtf8(c)|)) else None
  {
    var s := CodePointToUtf8(c) + rest;
    if MAX_CODE_POINT1 < c {
      assert c == c / 64 * 64 + c % 64;
      if MAX_CODE_POINT2 < c {
        assert c / 64 == c / 64 / 64 * 64 + c / 64 % 64;
        if MAX_CODE_POINT3 < c {
          assert c / 64 / 64 == c / 64 / 64 / 64 * 64 + c / 64 / 64 % 64;
        }
      }
    }
  }

  lemma DecodeOfEncoded(c: nat, rest: seq<byte>)
    requires c <= MAX_CODE_POINT4
    ensures DecodeUtf8(CodePointToUtf8(c) + rest) == if Scalar(c) then Cons(c, DecodeUtf8(rest)) else None
  {
    hide CodePointToUtf8, First;
    FirstOfEncoded(c, rest);
    SomeBytes(c);
    if Scalar(c) { assert (CodePointToUtf8(c) + rest)[|CodePointToUtf8(c)|..] == rest; }
  }

  lemma SomeBytes(c: nat)
    ensures CodePointToUtf8(c) != []
  {}

  /**
   * The encoder is right exactly on the code points of Unicode.  Its documentation has
   * every other number come out as a message; for surrogates and for
   * 0x110000 to 0x1FFFFF it is a byte string that is not UTF-8.
   */
  lemma EncodesExactlyScalars(c: nat)
    ensures DecodeUtf8(CodePointToUtf8(c)) == Some([c]) <==> Scalar(c)
    ensures DecodeUtf8(CodePointToUtf8(c)).None? <==> !Scalar(c) && c <= MAX_CODE_POINT4
  {
    if c <= MAX_CODE_POINT4 {
      DecodeOfEncoded(c, []);
      assert CodePointToUtf8(c) + [] == CodePointToUtf8(c);
      if Scalar(c) { assert [c] + [] == [c]; }
    } else {
      var text := "(Invalid Unicode 0x" + Hex(c) + ")";
      AsciiDecodes(text);
      assert DecodeUtf8(CodePointToUtf8(c)) == Some(Numbers(text)) && |text| > 1;
    }
  }

  /** The first number beyond Unicode and the first surrogate: four and three bytes that are not UTF-8. */
  lemma NotMessages()
    ensures CodePointToUtf8(0x110000) == [0xF4, 0x90, 0x80, 0x80] && DecodeUtf8(CodePointToUtf8(0x110000)).None?
    ensures CodePointToUtf8(0xD800) == [0xED, 0xA0, 0x80] && DecodeUtf8(CodePointToUtf8(0xD800)).None?
  {
    EncodesExactlyScalars(0x110000);
    EncodesExactlyScalars(0xD800);
  }

  ghost function Numbers(s: string): seq<nat> { seq(|s|, i requires 0 <= i < |s| => s[i] as nat) }

  lemma {:induction false} AsciiDecodes(s: string)
    requires forall i :: 0 <= i < |s| ==> s[i] as nat < 128
    ensures DecodeUtf8(Ascii(s)) == Some(Numbers(s))
  {
    if s == [] {
      assert Ascii(s) == [] && Numbers(s) == [];
    } else {
      AsciiDecodes(s[1..]);
      assert Ascii(s)[1..] == Ascii(s[1..]);
      assert Ascii(s)[0] as nat == s[0] as nat;
      assert [s[0] as nat] + Numbers(s[1..]) == Numbers(s);
    }
  }

  /** The number the message shows, read as hexadecimal. */
  ghost function HexValue(s: string): int {
    if s == [] then 0
    else
      var d := s[|s| - 1];
      HexValue(s[..|s| - 1]) * 16 + if d <= '9' then d as int - '0' as int else d as int - 'A' as int + 10
  }

  lemma {:induction false} HexReadsBack(n: nat)
    ensures HexValue(Hex(n)) == n && (n > 0 ==> Hex(n)[0] != '0')
  {
    if n < 16 {
      assert Hex(n) == [] + [HexDigit(n)];
    } else {
      HexReadsBack(n / 16);
      assert Hex(n)[..|Hex(n)| - 1] == Hex(n / 16);
    }
  }

  /** Beyond 0x1FFFFF the bytes are a message that shows the number. */
  lemma MessageShowsNumber(c: nat) returns (digits: string)
    requires c > 0x1FFFFF
    ensures HexValue(digits) == c
    ensures DecodeUtf8(CodePointToUtf8(c)) == Some(Numbers("(Invalid Unicode 0x" + digits + ")"))
  {
    hide DecodeUtf8, Numbers, HexValue;
    digits := Hex(c);
    HexReadsBack(c);
    AsciiDecodes("(Invalid Unicode 0x" + digits + ")");
  }

  // ----- wide strings -----

  predicate IsUtf16SurrogatePair(first: nat, second: nat) {
    first / 1024 % 64 == 0xD800 / 1024 && second / 1024 % 64 == 0xDC00 / 1024
  }

  function CreateCodePointFromUtf16SurrogatePair(first: nat, second: nat): nat {
    first % 1024 * 1024 + second % 1024 + 0x10000
  }

  /** Where a terminated wide string ends. */
  ghost function WcsLen(s: seq<nat>): (n: nat)
    requires 0 in s
    ensures n < |s| && s[n] == 0 && 0 !in s[..n]
  {
    if s[0] == 0 then 0 else 1 + WcsLen(s[1..])
  }

  /** The part of the string that a call converts. */
  ghost function Text(s: seq<nat>, numChars: int): (t: seq<nat>)
    requires 0 in s
    ensures t <= s && 0 !in t
  {
    var n := WcsLen(s);
    if numChars == -1 || numChars >= n then s[..n] else if numChars < 0 then [] else s[..numChars]
  }

  ghost function Converted(sixteen: bool, t: seq<nat>): seq<byte> {
    if t == [] then []
    else if sixteen && |t| >= 2 && IsUtf16SurrogatePair(t[0], t[1]) then
      CodePointToUtf8(CreateCodePointFromUtf16SurrogatePair(t[0], t[1])) + Converted(sixteen, t[2..])
    else CodePointToUtf8(t[0]) + Converted(sixteen, t[1..])
  }

  ghost predicate Units(sixteen: bool, s: seq<nat>) {
    forall i :: 0 <= i < |s| ==> s[i] < if sixteen then 0x10000 else 0x1_0000_0000
  }

  /** The test for a pair and the number made of it are those of RFC 2781. */
  lemma PairIsStandard(first: nat, second: nat)
    requires first < 0x10000 && second < 0x10000
    ensures IsUtf16SurrogatePair(first, second) <==> 0xD800 <= first <= 0xDBFF && 0xDC00 <= second <= 0xDFFF
    ensures IsUtf16SurrogatePair(first, second) ==>
              CreateCodePointFromUtf16SurrogatePair(first, second)
              == (first - 0xD800) * 0x400 + (second - 0xDC00) + 0x10000
  {}

  /** The bytes mean what the UTF-16 text means, and are malformed exactly when it is. */
  lemma {:induction false} Utf16Survives(t: seq<nat>)
    requires Units(true, t)
    ensures DecodeUtf8(Converted(true, t)) == DecodeUtf16(t)
    decreases |t|
  {
    hide CodePointToUtf8, DecodeUtf8, IsUtf16SurrogatePair, CreateCodePointFromUtf16SurrogatePair;
    if t == [] {
      EmptyDecodes();
    } else {
      if |t| >= 2 { PairIsStandard(t[0], t[1]); }
      if |t| >= 2 && IsUtf16SurrogatePair(t[0], t[1]) {
        Utf16Survives(t[2..]);
        DecodeOfEncoded(CreateCodePointFromUtf16SurrogatePair(t[0], t[1]), Converted(true, t[2..]));
      } else {
        Utf16Survives(t[1..]);
        DecodeOfEncoded(t[0], Converted(true, t[1..]));
      }
    }
  }

  lemma EmptyDecodes()
    ensures DecodeUtf8([]) == Some([])
  {}

  /** The bytes read back as the UTF-32 text exactly when that holds nothing but code points. */
  lemma Utf32Survives(t: seq<nat>)
    ensures DecodeUtf8(Converted(false, t)) == Some(t) <==> forall i :: 0 <= i < |t| ==> Scalar(t[i])
  {
    if forall i :: 0 <= i < |t| ==> Scalar(t[i]) { ScalarsSurvive(t); }
  }

  lemma {:induction false} ScalarsSurvive(t: seq<nat>)
    requires forall i :: 0 <= i < |t| ==> Scalar(t[i])
    ensures DecodeUtf8(Converted(false, t)) == Some(t)
  {
    if t != [] {
      ScalarsSurvive(t[1..]);
      DecodeOfEncoded(t[0], Converted(false, t[1..]));
      assert [t[0]] + t[1..] == t;
    }
  }

  /** The two exits of the loop are the end of the text. */
  lemma TextEnds(s: seq<nat>, numChars: int, limit: int, i: nat)
    requires 0 in s && limit == (if numChars == -1 then WcsLen(s) else numChars)
    requires i <= |Text(s, numChars)|
    ensures i < |s|
    ensures i < limit && s[i] != 0 <==> i < |Text(s, numChars)|
    ensures i < |Text(s, numChars)| ==> s[i] == Text(s, numChars)[i]
  {}

  /** What one turn of the loop converts. */
  lemma OneTurn(sixteen: bool, t: seq<nat>, out: seq<byte>)
    requires t != []
    ensures sixteen && |t| >= 2 && IsUtf16SurrogatePair(t[0], t[1]) ==>
              out + CodePointToUtf8(CreateCodePointFromUtf16SurrogatePair(t[0], t[1])) + Converted(sixteen, t[2..])
              == out + Converted(sixteen, t)
    ensures !(sixteen && |t| >= 2 && IsUtf16SurrogatePair(t[0], t[1])) ==>
              out + CodePointToUtf8(t[0]) + Converted(sixteen, t[1..]) == out + Converted(sixteen, t)
  {
    hide CodePointToUtf8, IsUtf16SurrogatePair, CreateCodePointFromUtf16SurrogatePair;
  }

  lemma NothingLeft(sixteen: bool, t: seq<nat>)
    requires t == []
    ensures Converted(sixteen, t) == []
  {}

  lemma NoPairWithEnd(first: nat)
    ensures !IsUtf16SurrogatePair(first, 0)
  {}

  /** `sixteen` says whether a wide character has two bytes (UTF-16) or four (UTF-32). */
  method WideStringToUtf8(sixteen: bool, s: seq<nat>, numChars: int) returns (out: seq<byte>)
    requires 0 in s && Units(sixteen, s)
    ensures out == Converted(sixteen, Text(s, numChars))
    ensures sixteen ==> DecodeUtf8(out) == DecodeUtf16(Text(s, numChars))
    ensures !sixteen ==>
              (DecodeUtf8(out) == Some(Text(s, numChars))
               <==> forall i :: 0 <= i < |Text(s, numChars)| ==> Scalar(Text(s, numChars)[i]))
  {
    hide DecodeUtf8, DecodeUtf16, Converted, Text, CodePointToUtf8, IsUtf16SurrogatePair;
    hide CreateCodePointFromUtf16SurrogatePair;
    ghost var t := Text(s, numChars);
    out := [];
    var i := 0;
    var limit := numChars;
    if numChars == -1 {
      limit := 0;
      while s[limit] != 0
        invariant 0 <= limit <= WcsLen(s)
        decreases |s| - limit
      {
        limit := limit + 1;
      }
    }
    assert t[0..] == t;
    TextEnds(s, numChars, limit, i);
    while i < limit && s[i] != 0
      invariant 0 <= i <= |t| && i < |s|
      invariant i < limit && s[i] != 0 <==> i < |t|
      invariant out + Converted(sixteen, t[i..]) == Converted(sixteen, t)
      decreases |s| - i
    {
      OneTurn(sixteen, t[i..], out);
      TextEnds(s, numChars, limit, i);
      TextEnds(s, numChars, limit, i + 1);
      NoPairWithEnd(s[i]);
      ghost var k := i;
      var codePoint := s[i];
      if sixteen && i + 1 < limit && IsUtf16SurrogatePair(s[i], s[i + 1]) {
        TextEnds(s, numChars, limit, i + 2);
        codePoint := CreateCodePointFromUtf16SurrogatePair(s[i], s[i + 1]);
        i := i + 1;
      }
      out := out + CodePointToUtf8(codePoint);
      i := i + 1;
      assert t[k..][i - k..] == t[i..];
    }
    NothingLeft(sixteen, t[i..]);
    assert out == Converted(sixteen, t);
    if sixteen { Utf16Survives(t); } else { Utf32Survives(t); }
  }
}
