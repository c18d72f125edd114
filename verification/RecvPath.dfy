/** The receiving side of a connection: recv_data cuts the byte stream into length-prefixed frames. */
module RecvPath {
  import opened Octets

  const INT32_LIMIT: nat := 0x8000_0000

  const UINT32_LIMIT: nat := 0x1_0000_0000

  /** A C cast from uint32_t to int32_t. */
  function AsInt32(x: nat): int
    requires x < UINT32_LIMIT
  {
    if x < INT32_LIMIT then x else x - UINT32_LIMIT
  }

  /** The frame length in network byte order; it counts its own four bytes. */
  function Header(b: seq<byte>): (n: nat)
    requires |b| >= 4
    ensures n < UINT32_LIMIT
  {
    b[0] as nat * 0x100_0000 + b[1] as nat * 0x1_0000 + b[2] as nat * 0x100 + b[3] as nat
  }

  const MT_MD_EXE_INSERT: nat := 0x2101

  /** Whether a frame body goes to the insert queue: message_type is the 16-bit number at offset 2. */
  predicate IsInsert(body: seq<byte>) {
    |body| >= 4 && body[2] as nat * 0x100 + body[3] as nat == MT_MD_EXE_INSERT
  }

  datatype Parsed = NeedMore | Frame(len: nat, body: seq<byte>) | Undefined

  /** pre_parse_packet. A length below four makes its size computation wrap around and the copy run out of
      bounds: what happens then is undefined. */
  function PreParse(b: seq<byte>): Parsed {
    if |b| < 4 then NeedMore
    else if Header(b) < 4 then Undefined
    else if |b| < Header(b) then NeedMore
    else Frame(Header(b), b[4..Header(b)])
  }

  // ----- what the stream means -----

  datatype Health = Fine | Oversized | Malformed

  datatype Split = Split(frames: seq<seq<byte>>, rest: seq<byte>, health: Health)

  /** The frames of a byte stream, what remains, and whether a length was met that recv_data cannot handle:
      below four, or a complete frame of 2^31 bytes or more. */
  function SplitFrames(b: seq<byte>): Split
    decreases |b|
  {
    match PreParse(b)
    case NeedMore => Split([], b, Fine)
    case Undefined => Split([], b, Malformed)
    case Frame(len, body) =>
      if len >= INT32_LIMIT then Split([], b, Oversized)
      else
        var s := SplitFrames(b[len..]);
        s.(frames := [body] + s.frames)
  }

  /** Bytes that arrive later do not change a frame that is complete or a length that is malformed. */
  lemma PreParseExtends(a: seq<byte>, b: seq<byte>)
    ensures PreParse(a).Frame? ==> PreParse(a).len <= |a| && PreParse(a + b) == PreParse(a)
    ensures PreParse(a).Undefined? ==> PreParse(a + b).Undefined?
  {
    if |a| >= 4 {
      assert Header(a + b) == Header(a);
      if PreParse(a).Frame? { assert (a + b)[4..Header(a)] == a[4..Header(a)]; }
    }
  }

  /** Splitting does not care where a read ended. */
  lemma {:induction false} SplitExtends(a: seq<byte>, b: seq<byte>)
    ensures var s, t := SplitFrames(a), SplitFrames(SplitFrames(a).rest + b);
            SplitFrames(a + b) ==
            if s.health == Fine then t.(frames := s.frames + t.frames) else s.(rest := s.rest + b)
    decreases |a|
  {
    hide PreParse, Header;
    PreParseExtends(a, b);
    var p := PreParse(a);
    if p.Frame? && p.len < INT32_LIMIT {
      PositiveLength(a);
      SplitExtends(a[p.len..], b);
      assert (a + b)[p.len..] == a[p.len..] + b;
      var s, t := SplitFrames(a[p.len..]), SplitFrames(SplitFrames(a[p.len..]).rest + b);
      assert [p.body] + (s.frames + t.frames) == [p.body] + s.frames + t.frames;
    } else if p.NeedMore? {
      assert [] + SplitFrames(a + b).frames == SplitFrames(a + b).frames;
    }
  }

  lemma PositiveLength(b: seq<byte>)
    requires PreParse(b).Frame?
    ensures 4 <= PreParse(b).len <= |b|
  {}

  /** What is left over has no complete frame at its front. */
  lemma {:induction false} RestIsIncomplete(b: seq<byte>)
    ensures var s := SplitFrames(b);
            match s.health
            case Fine => PreParse(s.rest).NeedMore?
            case Oversized => PreParse(s.rest).Frame? && PreParse(s.rest).len >= INT32_LIMIT
            case Malformed => PreParse(s.rest).Undefined?
    decreases |b|
  {
    var p := PreParse(b);
    if p.Frame? && p.len < INT32_LIMIT { RestIsIncomplete(b[p.len..]); }
  }

  // ----- what a sender writes -----

  function LengthBytes(n: nat): (r: seq<byte>)
    requires n < UINT32_LIMIT
    ensures |r| == 4
  {
    [(n / 0x100_0000) as byte, (n / 0x1_0000 % 0x100) as byte, (n / 0x100 % 0x100) as byte, (n % 0x100) as byte]
  }

  /** A body recv_data can handle. */
  ghost predicate Sendable(body: seq<byte>) { |body| + 4 < INT32_LIMIT }

  ghost predicate AllSendable(bodies: seq<seq<byte>>) {
    forall i :: 0 <= i < |bodies| ==> Sendable(bodies[i])
  }

  /** A frame: the length of the whole in network byte order, then the body. */
  ghost function Encode(body: seq<byte>): seq<byte>
    requires Sendable(body)
  {
    LengthBytes(|body| + 4) + body
  }

  ghost function Join(bodies: seq<seq<byte>>): seq<byte>
    requires AllSendable(bodies)
  {
    if bodies == [] then [] else Encode(bodies[0]) + Join(bodies[1..])
  }

  lemma HeaderOfLength(n: nat, more: seq<byte>)
    requires n < UINT32_LIMIT
    ensures Header(LengthBytes(n) + more) == n
  {
    var b := LengthBytes(n) + more;
    assert b[0] == LengthBytes(n)[0] && b[1] == LengthBytes(n)[1];
    assert b[2] == LengthBytes(n)[2] && b[3] == LengthBytes(n)[3];
    FromDigits(n);
  }

  lemma FromDigits(n: nat)
    ensures n == n / 0x100_0000 * 0x100_0000 + n / 0x1_0000 % 0x100 * 0x1_0000 + n / 0x100 % 0x100 * 0x100 + n % 0x100
  {
    assert n / 0x1_0000 == n / 0x100_0000 * 0x100 + n / 0x1_0000 % 0x100;
    assert n / 0x100 == n / 0x1_0000 * 0x100 + n / 0x100 % 0x100;
  }

  lemma LengthOfHeader(b: seq<byte>)
    requires |b| >= 4
    ensures LengthBytes(Header(b)) == b[..4]
  {
    Digits(b[0] as nat, b[1] as nat, b[2] as nat, b[3] as nat);
  }

  lemma Digits(a: nat, b: nat, c: nat, d: nat)
    requires a < 0x100 && b < 0x100 && c < 0x100 && d < 0x100
    ensures var n := a * 0x100_0000 + b * 0x1_0000 + c * 0x100 + d;
            n / 0x100_0000 == a && n / 0x1_0000 % 0x100 == b && n / 0x100 % 0x100 == c && n % 0x100 == d
  {
    var n := a * 0x100_0000 + b * 0x1_0000 + c * 0x100 + d;
    assert n / 0x1_0000 == a * 0x100 + b;
    assert n / 0x100 == (a * 0x100 + b) * 0x100 + c;
  }

  /** The frame in front of a stream is the one that was encoded. */
  lemma ParseEncoded(body: seq<byte>, more: seq<byte>)
    requires Sendable(body)
    ensures PreParse(Encode(body) + more) == Frame(|body| + 4, body)
    ensures (Encode(body) + more)[|body| + 4..] == more
  {
    hide Header, LengthBytes;
    var b := Encode(body) + more;
    assert b == LengthBytes(|body| + 4) + (body + more);
    HeaderOfLength(|body| + 4, body + more);
    assert b[4..|body| + 4] == body;
  }

  /** A stream of encoded bodies and anything else is split into just these and the frames of the rest. */
  lemma {:induction false} SplitUndoesJoin(bodies: seq<seq<byte>>, rest: seq<byte>)
    requires AllSendable(bodies)
    ensures var t := SplitFrames(rest); SplitFrames(Join(bodies) + rest) == t.(frames := bodies + t.frames)
    decreases |bodies|
  {
    hide PreParse, Encode;
    if bodies == [] {
      assert Join(bodies) + rest == rest;
      assert bodies + SplitFrames(rest).frames == SplitFrames(rest).frames;
    } else {
      var more := Join(bodies[1..]) + rest;
      SplitUndoesJoin(bodies[1..], rest);
      ParseEncoded(bodies[0], more);
      assert Join(bodies) + rest == Encode(bodies[0]) + more;
      assert [bodies[0]] + (bodies[1..] + SplitFrames(rest).frames) == bodies + SplitFrames(rest).frames;
    }
  }

  /** Whatever the stream, its frames encoded and the rest are the stream: no byte is lost or invented. */
  lemma {:induction false} JoinUndoesSplit(b: seq<byte>)
    ensures var s := SplitFrames(b); AllSendable(s.frames) && Join(s.frames) + s.rest == b
    decreases |b|
  {
    hide PreParse, Encode, SplitFrames, Join;
    SplitStep(b);
    if PreParse(b).Frame? && PreParse(b).len < INT32_LIMIT {
      var len, body := PreParse(b).len, PreParse(b).body;
      FrontFrame(b);
      JoinUndoesSplit(b[len..]);
      var t := SplitFrames(b[len..]);
      JoinCons(body, t.frames);
      Rejoin(b, len, Encode(body), Join(t.frames), t.rest);
    } else {
      JoinNothing(b);
    }
  }

  lemma SplitStep(b: seq<byte>)
    ensures var s, p := SplitFrames(b), PreParse(b);
      if p.Frame? && p.len < INT32_LIMIT then
        p.len <= |b| && s == SplitFrames(b[p.len..]).(frames := [p.body] + SplitFrames(b[p.len..]).frames)
      else s.frames == [] && s.rest == b
  {
    hide Header;
  }

  lemma JoinNothing(b: seq<byte>)
    ensures Join([]) + b == b
  {}

  lemma Rejoin(b: seq<byte>, n: nat, first: seq<byte>, more: seq<byte>, rest: seq<byte>)
    requires n <= |b| && first == b[..n] && more + rest == b[n..]
    ensures (first + more) + rest == b
  {
    assert (first + more) + rest == first + (more + rest);
  }

  /** The frame in front of a stream, encoded, is that part of the stream. */
  lemma FrontFrame(b: seq<byte>)
    requires PreParse(b).Frame? && PreParse(b).len < INT32_LIMIT
    ensures 4 <= PreParse(b).len <= |b| && Sendable(PreParse(b).body)
    ensures Encode(PreParse(b).body) == b[..PreParse(b).len]
  {
    hide Header, LengthBytes;
    LengthOfHeader(b);
    var len := PreParse(b).len;
    assert b[..len] == b[..4] + b[4..len];
  }

  lemma JoinCons(body: seq<byte>, bodies: seq<seq<byte>>)
    requires Sendable(body) && AllSendable(bodies)
    ensures AllSendable([body] + bodies) && Join([body] + bodies) == Encode(body) + Join(bodies)
  {
    hide Encode;
    assert ([body] + bodies)[1..] == bodies;
  }

  /** The frames of one input queue, in order of arrival. */
  function Routed(frames: seq<seq<byte>>, insert: bool): seq<seq<byte>> {
    if frames == [] then []
    else
      var n := |frames| - 1;
      Routed(frames[..n], insert) + if IsInsert(frames[n]) == insert then [frames[n]] else []
  }

  lemma RoutedSnoc(frames: seq<seq<byte>>, f: seq<byte>, insert: bool)
    ensures Routed(frames + [f], insert) == Routed(frames, insert) + if IsInsert(f) == insert then [f] else []
  {
    assert (frames + [f])[..|frames|] == frames;
  }

  // ----- the messages in the bodies -----

  /** A message as a sender builds it: two version bytes, the 16-bit message type, and what belongs to it. */
  datatype Message = Message(major: byte, minor: byte, kind: nat, content: seq<byte>)

  ghost predicate ValidMessage(m: Message) { m.kind < 0x1_0000 && |m.content| + 8 < INT32_LIMIT }

  ghost predicate AllValid(messages: seq<Message>) {
    forall i :: 0 <= i < |messages| ==> ValidMessage(messages[i])
  }

  /** The body of a message, with its type in network byte order. */
  ghost function Body(m: Message): (body: seq<byte>)
    requires ValidMessage(m)
    ensures Sendable(body)
  {
    [m.major, m.minor, (m.kind / 0x100) as byte, (m.kind % 0x100) as byte] + m.content
  }

  ghost function Bodies(messages: seq<Message>): (bodies: seq<seq<byte>>)
    requires AllValid(messages)
    ensures AllSendable(bodies)
  {
    seq(|messages|, i requires 0 <= i < |messages| => Body(messages[i]))
  }

  /** The bodies of the insert messages, whose type is 0x2101, or of all others, in order. */
  ghost function BodiesFor(messages: seq<Message>, insert: bool): seq<seq<byte>>
    requires AllValid(messages)
  {
    if messages == [] then []
    else
      var n := |messages| - 1;
      BodiesFor(messages[..n], insert) + if (messages[n].kind == 0x2101) == insert then [Body(messages[n])] else []
  }

  /** The receiver reads the type the sender wrote. */
  lemma InsertByType(m: Message)
    requires ValidMessage(m)
    ensures IsInsert(Body(m)) <==> m.kind == 0x2101
  {
    assert m.kind == m.kind / 0x100 * 0x100 + m.kind % 0x100;
  }

  /** A body with room for a type is that of a message. */
  lemma BodyOfMessage(body: seq<byte>) returns (m: Message)
    requires Sendable(body) && |body| >= 4
    ensures ValidMessage(m) && Body(m) == body
  {
    m := Message(body[0], body[1], body[2] as nat * 0x100 + body[3] as nat, body[4..]);
    assert m.kind / 0x100 == body[2] as nat && m.kind % 0x100 == body[3] as nat;
  }

  /** Routing bodies is sorting the messages by their type. */
  lemma {:induction false} RoutedByType(messages: seq<Message>, insert: bool)
    requires AllValid(messages)
    ensures Routed(Bodies(messages), insert) == BodiesFor(messages, insert)
    decreases |messages|
  {
    hide IsInsert, Body;
    if messages != [] {
      var n := |messages| - 1;
      RoutedByType(messages[..n], insert);
      InsertByType(messages[n]);
      assert Bodies(messages)[..n] == Bodies(messages[..n]);
    }
  }

  // ----- the connection -----

  datatype Outcome = PeerClosed | Continue | Crash

  /** The receiving half of struct docserver_connect, with what it appended to the two input queues; `frames`
      is both together in order of arrival. */
  class Receiver {
    var rbuf: array<byte>
    var rbytes: nat
    var insertQueue: seq<seq<byte>>
    var queryQueue: seq<seq<byte>>
    ghost var frames: seq<seq<byte>>
    ghost var input: seq<byte>

    /** Everything read so far is accounted for, and there is room for the next read exactly if the stream is
        one recv_data can handle. */
    ghost predicate Valid()
      reads this, rbuf
    {
      && 4 <= rbuf.Length < UINT32_LIMIT && rbytes <= rbuf.Length
      && frames == SplitFrames(input).frames
      && insertQueue == Routed(frames, true) && queryQueue == Routed(frames, false)
      && rbuf[..rbytes] == SplitFrames(input).rest
      && SplitFrames(input).health != Malformed
      && (SplitFrames(input).health == Fine <==> rbytes < rbuf.Length)
      && (rbuf.Length >= INT32_LIMIT ==> rbytes >= 4 && Header(rbuf[..rbytes]) == rbuf.Length)
    }

    constructor (size: nat)
      requires 4 <= size < INT32_LIMIT
      ensures Valid() && fresh(rbuf) && input == [] && frames == []
    {
      rbuf := new byte[size];
      rbytes, insertQueue, queryQueue, frames, input := 0, [], [], [], [];
    }

    /** The parse loop: hand over every complete frame at the front of the buffer. `n` is where it stopped. */
    method ExtractFrames() returns (n: nat, crash: bool)
      requires rbytes <= rbuf.Length < UINT32_LIMIT
      requires insertQueue == Routed(frames, true) && queryQueue == Routed(frames, false)
      modifies this`frames, this`insertQueue, this`queryQueue
      ensures insertQueue == Routed(frames, true) && queryQueue == Routed(frames, false)
      ensures n <= rbytes && (rbytes >= INT32_LIMIT ==> n == 0 && !crash && frames == old(frames))
      ensures n > 0 ==> PreParse(rbuf[..rbytes]).Frame?
      ensures var buf := rbuf[..rbytes]; var s := SplitFrames(buf[n..]);
              old(frames) + SplitFrames(buf).frames == frames + s.frames
                  && SplitFrames(buf).rest == s.rest && SplitFrames(buf).health == s.health
      ensures rbytes < INT32_LIMIT ==>
                var p := PreParse(rbuf[n..rbytes]); if crash then p.Undefined? else p.NeedMore?
    {
      hide PreParse, Routed, IsInsert;
      n := 0;
      ghost var buf := rbuf[..rbytes];
      assert buf[0..] == buf;
      while n < AsInt32(rbytes)
        invariant 0 <= n <= rbytes && (n == 0 ==> frames == old(frames)) && (n > 0 ==> PreParse(buf).Frame?)
        invariant rbytes >= INT32_LIMIT ==> n == 0
        invariant insertQueue == Routed(frames, true) && queryQueue == Routed(frames, false)
        invariant old(frames) + SplitFrames(buf).frames == frames + SplitFrames(buf[n..]).frames
        invariant SplitFrames(buf).rest == SplitFrames(buf[n..]).rest
                  && SplitFrames(buf).health == SplitFrames(buf[n..]).health
        decreases rbytes - n
      {
        assert rbuf[n..rbytes] == buf[n..];
        var p := PreParse(rbuf[n..rbytes]);
        if p.NeedMore? { return n, false; }
        if p.Undefined? { return n, true; }
        PositiveLength(buf[n..]);
        ghost var s := SplitFrames(buf[n + p.len..]);
        assert buf[n..][p.len..] == buf[n + p.len..];
        assert frames + ([p.body] + s.frames) == (frames + [p.body]) + s.frames;
        RoutedSnoc(frames, p.body, true);
        RoutedSnoc(frames, p.body, false);
        if IsInsert(p.body) { insertQueue := insertQueue + [p.body]; } else { queryQueue := queryQueue + [p.body]; }
        frames := frames + [p.body];
        n := n + p.len;
      }
      assert rbytes < INT32_LIMIT ==> rbuf[n..rbytes] == [];
      NothingNeedsMore();
      crash := false;
    }

    /** The read callback; the system call delivered `chunk`. */
    method RecvData(chunk: seq<byte>) returns (out: Outcome)
      requires Valid() && |chunk| <= rbuf.Length - rbytes
      modifies this, rbuf
      ensures rbuf == old(rbuf) || fresh(rbuf)
      ensures input == old(input) + chunk
      ensures out == PeerClosed <==> chunk == []
      ensures frames == SplitFrames(input).frames
      ensures insertQueue == Routed(frames, true) && queryQueue == Routed(frames, false)
      ensures out == Crash <==> SplitFrames(input).health == Malformed
      ensures out != Crash ==> Valid()
    {
      hide PreParse, SplitFrames, Header, Routed;
      input := input + chunk;
      if |chunk| == 0 {
        assert input == old(input);
        return PeerClosed;
      }
      SplitExtends(old(input), chunk);
      ghost var buf := rbuf[..rbytes] + chunk;
      HeaderStays(rbuf[..rbytes], chunk);
      Store(chunk);
      var n, crash := ExtractFrames();
      assert rbuf[n..rbytes] == buf[n..];
      AtFront(buf[n..]);
      AtFront(buf);
      if crash { return Crash; }
      out := Continue;
      if n > 0 {
        MoveDown(n);
        return;
      }
      assert buf[0..] == buf;
      if rbytes == rbuf.Length { Grow(Header(rbuf[..rbytes])); }
    }

    method Store(chunk: seq<byte>)
      requires rbytes + |chunk| <= rbuf.Length
      modifies rbuf, this`rbytes
      ensures rbytes == old(rbytes) + |chunk| && rbuf[..rbytes] == old(rbuf[..rbytes]) + chunk
    {
      forall i | 0 <= i < |chunk| { rbuf[rbytes + i] := chunk[i]; }
      rbytes := rbytes + |chunk|;
    }

    method MoveDown(n: nat)
      requires n <= rbytes <= rbuf.Length
      modifies rbuf, this`rbytes
      ensures rbytes == old(rbytes) - n && rbuf[..rbytes] == old(rbuf[n..rbytes])
    {
      forall i | 0 <= i < rbytes - n { rbuf[i] := rbuf[n + i]; }
      rbytes := rbytes - n;
    }

    method Grow(len: nat)
      requires rbytes <= rbuf.Length && rbytes <= len
      modifies this`rbuf
      ensures fresh(rbuf) && rbuf.Length == len && rbuf[..rbytes] == old(rbuf[..rbytes])
    {
      var bigger := new byte[len];
      forall i | 0 <= i < rbytes { bigger[i] := rbuf[i]; }
      rbuf := bigger;
    }
  }

  lemma NothingNeedsMore()
    ensures PreParse([]).NeedMore?
  {}

  lemma HeaderStays(a: seq<byte>, b: seq<byte>)
    ensures |a| >= 4 ==> Header(a + b) == Header(a)
  {}

  /** What the front of the buffer says about the split. */
  lemma AtFront(b: seq<byte>)
    ensures PreParse(b).NeedMore? ==> SplitFrames(b) == Split([], b, Fine) && (|b| >= 4 ==> |b| < Header(b))
    ensures PreParse(b).Undefined? ==> SplitFrames(b) == Split([], b, Malformed)
    ensures |b| >= 4 && INT32_LIMIT <= Header(b) <= |b| ==> SplitFrames(b) == Split([], b, Oversized)
    ensures |b| >= 4 && INT32_LIMIT <= Header(b) && |b| < Header(b) ==> PreParse(b).NeedMore?
  {}

  /** A whole connection: the stream arrives in pieces of any size the buffer has room for. Whatever the pieces,
      the frames handed over are those of the stream, and encoded bodies arrive as these bodies, also before a
      malformed length. A complete frame of 2^31 bytes or more leaves no room for the next read, whose empty result
      is taken for the peer closing. */
  method ReceiveStream(stream: seq<byte>, size: nat, piece: nat -> nat)
    returns (inserts: seq<seq<byte>>, queries: seq<seq<byte>>, health: Health)
    requires 4 <= size < INT32_LIMIT
    ensures health == SplitFrames(stream).health
    ensures inserts == Routed(SplitFrames(stream).frames, true)
    ensures queries == Routed(SplitFrames(stream).frames, false)
    ensures forall bodies, rest :: AllSendable(bodies) && !PreParse(rest).Frame? && stream == Join(bodies) + rest ==>
              && health == (if PreParse(rest).NeedMore? then Fine else Malformed)
              && inserts == Routed(bodies, true) && queries == Routed(bodies, false)
    ensures forall messages, rest ::
              AllValid(messages) && !PreParse(rest).Frame? && stream == Join(Bodies(messages)) + rest ==>
              inserts == BodiesFor(messages, true) && queries == BodiesFor(messages, false)
  {
    hide SplitFrames, PreParse, Join, Bodies, Routed, BodiesFor;
    inserts, queries, health := ReceivePieces(stream, size, piece);
    forall bodies, rest | AllSendable(bodies) && !PreParse(rest).Frame? && stream == Join(bodies) + rest
      ensures SplitFrames(stream) == Split(bodies, rest, if PreParse(rest).NeedMore? then Fine else Malformed)
    {
      SplitUndoesJoin(bodies, rest);
      AtFront(rest);
      assert bodies + [] == bodies;
    }
    forall messages, rest | AllValid(messages) && stream == Join(Bodies(messages)) + rest && !PreParse(rest).Frame?
      ensures inserts == BodiesFor(messages, true) && queries == BodiesFor(messages, false)
    {
      RoutedByType(messages, true);
      RoutedByType(messages, false);
    }
  }

  method ReceivePieces(stream: seq<byte>, size: nat, piece: nat -> nat)
    returns (inserts: seq<seq<byte>>, queries: seq<seq<byte>>, health: Health)
    requires 4 <= size < INT32_LIMIT
    ensures health == SplitFrames(stream).health
    ensures inserts == Routed(SplitFrames(stream).frames, true)
    ensures queries == Routed(SplitFrames(stream).frames, false)
  {
    hide SplitFrames, Header, Routed;
    var conn := new Receiver(size);
    NothingIsFine();
    var at, turn := 0, 0;
    while at < |stream|
      invariant 0 <= at <= |stream| && conn.Valid() && fresh(conn) && fresh(conn.rbuf)
      invariant conn.input == stream[..at]
      decreases |stream| - at
    {
      var room := conn.rbuf.Length - conn.rbytes;
      var k := if piece(turn) == 0 then 1 else piece(turn);
      k := if k < room then k else room;
      k := if k < |stream| - at then k else |stream| - at;
      var out := conn.RecvData(stream[at..at + k]);
      assert stream[..at + k] == stream[..at] + stream[at..at + k];
      at := at + k;
      turn := turn + 1;
      SplitExtends(stream[..at], stream[at..]);
      assert stream[..at] + stream[at..] == stream;
      if out == Crash { return conn.insertQueue, conn.queryQueue, Malformed; }
      if out == PeerClosed { return conn.insertQueue, conn.queryQueue, Oversized; }
    }
    assert stream[..|stream|] == stream;
    return conn.insertQueue, conn.queryQueue, if conn.rbytes == conn.rbuf.Length then Oversized else Fine;
  }

  lemma NothingIsFine()
    ensures SplitFrames([]) == Split([], [], Fine)
  {}

  /** Streams recv_data cannot handle: four zero bytes, and a complete frame of 2^31 bytes. */
  lemma UnhandledStreams()
    ensures SplitFrames([0, 0, 0, 0]).health == Malformed
    ensures var b := seq(INT32_LIMIT, i => if i == 0 then 0x80 as byte else 0 as byte);
            SplitFrames(b) == Split([], b, Oversized)
  {
    var b := seq(INT32_LIMIT, i => if i == 0 then 0x80 as byte else 0 as byte);
    assert b[0] == 0x80 && b[1] == 0 && b[2] == 0 && b[3] == 0;
    assert Header(b) == INT32_LIMIT;
  }
}
