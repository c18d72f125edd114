/** Writing any string as XML CDATA sections, and reading it back as XML does. */
module CData {
  import opened Wrappers

  const OPEN := "<![CDATA["
  const CLOSE := "]]>"
  const SPLICE := "]]>]]&gt;<![CDATA["

  /** The library search for the first "]]>". */
  function Find(s: string): (r: Option<nat>)
    ensures r.Some? ==> r.value + 3 <= |s| && "]]>" <= s[r.value..]
    ensures forall k :: 0 <= k < |s| && (r.None? || k < r.value) ==> !("]]>" <= s[k..])
  {
    if s == [] then None
    else if CLOSE <= s then Some(0)
    else
      var r := Find(s[1..]);
      assert forall k :: 0 < k < |s| ==> s[k..] == s[1..][k - 1..];
      if r.None? then None else Some(r.value + 1)
  }

  // ----- reference: sections 2.4 and 2.7 of XML 1.0 -----

  ghost function Put(s: string, rest: Option<string>): Option<string> {
    if rest.None? then None else Some(s + rest.value)
  }

  /** Character data up to the end of the document. */
  ghost function ReadText(s: string): (r: Option<string>)
    decreases |s|
  {
    if s == [] then Some([])
    else if "<![CDATA[" <= s then ReadSection(s[9..])
    else if "&gt;" <= s then Put(">", ReadText(s[4..]))
    else if s[0] == '<' || s[0] == '&' || "]]>" <= s then None
    else Put([s[0]], ReadText(s[1..]))
  }

  /** The inside of a CDATA section: everything up to the first "]]>" stands for itself. */
  ghost function ReadSection(s: string): (r: Option<string>)
    decreases |s|
  {
    var end := Find(s);
    if end.None? then None else Put(s[..end.value], ReadText(s[end.value + 3..]))
  }

  // ----- the writer -----

  /** What follows the opening of the first section. */
  ghost function Escaped(data: string): string {
    var end := Find(data);
    if end.None? then data + CLOSE
    else data[..end.value] + SPLICE + Escaped(data[end.value + 3..])
  }

  /** Nothing before it and nothing it ends with can make an earlier "]]>". */
  lemma FirstClose(before: string, after: string)
    requires forall k :: 0 <= k < |before| ==> !(CLOSE <= before[k..])
    ensures Find(before + CLOSE + after) == Some(|before|)
  {
    var s := before + CLOSE + after;
    assert s[|before|..] == CLOSE + after;
    forall k | 0 <= k < |before| ensures !(CLOSE <= s[k..]) {
      if k + 2 < |before| {
        assert s[k..][..3] == before[k..][..3];
      } else {
        assert s[k..][2] == s[k + 2] == ']';
      }
    }
  }

  lemma BeforeFirst(s: string, n: nat)
    requires n <= |s| && forall k :: 0 <= k < n ==> !(CLOSE <= s[k..])
    ensures forall k :: 0 <= k < n ==> !(CLOSE <= s[..n][k..])
  {
    forall k | 0 <= k < n ensures !(CLOSE <= s[..n][k..]) {
      assert s[..n][k..] <= s[k..];
    }
  }

  /** Between two sections the writer puts text that means "]]>". */
  lemma SpliceMeansClose(rest: string)
    ensures ReadText("]]&gt;" + OPEN + rest) == Put(CLOSE, ReadSection(rest))
  {
    hide ReadText, ReadSection;
    var inner := OPEN + rest;
    OpenReads(rest);
    GtReads(inner);
    PlainReads(']', "&gt;" + inner);
    PlainReads(']', "]" + ("&gt;" + inner));
    assert "]" + ("]" + ("&gt;" + inner)) == "]]&gt;" + OPEN + rest;
    if ReadSection(rest).Some? {
      assert "]" + ("]" + (">" + ReadSection(rest).value)) == CLOSE + ReadSection(rest).value;
    }
  }

  lemma OpenReads(rest: string)
    ensures ReadText(OPEN + rest) == ReadSection(rest)
  {
    hide ReadSection;
    assert (OPEN + rest)[|OPEN|..] == rest;
  }

  lemma GtReads(rest: string)
    ensures ReadText("&gt;" + rest) == Put(">", ReadText(rest))
  {
    assert ("&gt;" + rest)[0] == '&' && ("&gt;" + rest)[4..] == rest;
  }

  lemma PlainReads(c: char, rest: string)
    requires c != '<' && c != '&' && (|rest| < 2 || rest[0] != ']' || rest[1] != '>')
    ensures ReadText([c] + rest) == Put([c], ReadText(rest))
  {
    assert ([c] + rest)[0] == c && ([c] + rest)[1..] == rest;
    assert |rest| >= 2 ==> ([c] + rest)[1] == rest[0] && ([c] + rest)[2] == rest[1];
  }

  lemma {:induction false} SectionReadsBack(data: string)
    ensures ReadSection(Escaped(data)) == Some(data)
    decreases |data|
  {
    hide Find, ReadText, ReadSection;
    var end := Find(data);
    if end.None? {
      SectionReads(data, []);
      NothingReads();
      assert data + CLOSE + [] == Escaped(data);
      assert data + [] == data;
    } else {
      var before, rest := data[..end.value], data[end.value + 3..];
      BeforeFirst(data, end.value);
      var after := "]]&gt;" + OPEN + Escaped(rest);
      SectionReads(before, after);
      Assemble(before, Escaped(rest));
      assert before + CLOSE + after == Escaped(data);
      SpliceMeansClose(Escaped(rest));
      SectionReadsBack(rest);
      assert data == before + (CLOSE + rest);
    }
  }

  lemma Assemble(before: string, rest: string)
    ensures before + CLOSE + ("]]&gt;" + OPEN + rest) == before + SPLICE + rest
  {
    assert CLOSE + "]]&gt;" + OPEN == SPLICE;
  }

  lemma NothingReads()
    ensures ReadText([]) == Some([])
  {}

  lemma SectionReads(before: string, after: string)
    requires forall k :: 0 <= k < |before| ==> !(CLOSE <= before[k..])
    ensures ReadSection(before + CLOSE + after) == Put(before, ReadText(after))
  {
    hide Find, ReadText;
    var s := before + CLOSE + after;
    FirstClose(before, after);
    assert s[..|before|] == before && s[|before| + 3..] == after;
  }

  /** Every string, whatever "]]>" it holds, is read back unchanged. */
  method OutputXmlCDataSection(data: string) returns (out: string)
    ensures ReadText(out) == Some(data)
  {
    hide Find, ReadSection, ReadText;
    var segment := data;
    out := OPEN;
    while true
      invariant out + Escaped(segment) == OPEN + Escaped(data)
      decreases |segment|
    {
      var next := Find(segment);
      if next.None? { break; }
      out := out + segment[..next.value];
      out := out + SPLICE;
      segment := segment[next.value + 3..];
    }
    out := out + segment;
    out := out + CLOSE;
    assert out == OPEN + Escaped(data);
    SectionReadsBack(data);
    OpenReads(Escaped(data));
  }
}
