/** The sending side of a connection: send list, send buffer and socket. */
module SendPath {
  import DocServer
  import opened Octets

  /** A queued packet's send buffer; `id` says which response it is, counting from the first one queued. */
  datatype Response = Response(id: nat, data: seq<byte>, rpos: nat)

  /** `buf` is the used part of the send buffer. `enqueued`, `done`, `dropped` and `wire` are history: every
      response ever queued, those that left the queue whole, those discarded, and the bytes written. */
  datatype Channel = Channel(
    buf: seq<byte>,
    queue: seq<Response>,
    enqueued: seq<seq<byte>>,
    done: seq<nat>,
    dropped: set<nat>,
    wire: seq<byte>)

  function Ids(q: seq<Response>): (r: seq<nat>)
    ensures |r| == |q| && forall i :: 0 <= i < |q| ==> r[i] == q[i].id
  {
    seq(|q|, i requires 0 <= i < |q| => q[i].id)
  }

  /** What of a packet was not yet taken. */
  function Rest(p: Response): seq<byte> { if p.rpos <= |p.data| then p.data[p.rpos..] else [] }

  function Rests(q: seq<Response>): seq<byte> { if q == [] then [] else Rest(q[0]) + Rests(q[1..]) }

  function ResponseAt(enqueued: seq<seq<byte>>, id: nat): seq<byte> {
    if id < |enqueued| then enqueued[id] else []
  }

  function Bytes(enqueued: seq<seq<byte>>, ids: seq<nat>): seq<byte> {
    if ids == [] then [] else Bytes(enqueued, ids[..|ids| - 1]) + ResponseAt(enqueued, ids[|ids| - 1])
  }

  lemma BytesSnoc(enqueued: seq<seq<byte>>, ids: seq<nat>, id: nat)
    ensures Bytes(enqueued, ids + [id]) == Bytes(enqueued, ids) + ResponseAt(enqueued, id)
  {
    assert (ids + [id])[..|ids|] == ids;
  }

  ghost predicate Increasing(ids: seq<nat>) { forall i, j :: 0 <= i < j < |ids| ==> ids[i] < ids[j] }

  /** The bytes of the packet at the head of the queue that were already taken. */
  function Taken(q: seq<Response>): seq<byte> {
    if q == [] || q[0].rpos > |q[0].data| then [] else q[0].data[..q[0].rpos]
  }

  /** All bytes that left the send list: those of the packets done and those taken from the head. */
  function Covered(enqueued: seq<seq<byte>>, done: seq<nat>, q: seq<Response>): seq<byte> {
    Bytes(enqueued, done) + Taken(q)
  }

  ghost predicate QueueOk(c: Channel) {
    forall i :: 0 <= i < |c.queue| ==>
      var p := c.queue[i];
      && p.id < |c.enqueued| && p.data == c.enqueued[p.id] && p.rpos <= |p.data|
      && (p.rpos > 0 ==> i == 0 && p.rpos < |p.data|)
  }

  /** Of the first n responses each is kept or dropped and not both; the kept ones are in queueing order. */
  ghost predicate Accounted(kept: seq<nat>, dropped: set<nat>, n: nat) {
    && Increasing(kept)
    && (forall id :: id in kept || id in dropped <==> 0 <= id < n)
    && (forall id :: id in dropped ==> id !in kept)
  }

  /** The send list and the history agree. */
  ghost predicate Tracked(c: Channel) {
    QueueOk(c) && Accounted(c.done + Ids(c.queue), c.dropped, |c.enqueued|)
  }

  ghost predicate Conserved(c: Channel) {
    Tracked(c) && c.wire + c.buf == Covered(c.enqueued, c.done, c.queue)
  }

  lemma AccountNew(kept: seq<nat>, dropped: set<nat>, n: nat)
    requires Accounted(kept, dropped, n)
    ensures Accounted(kept + [n], dropped, n + 1)
  {
    forall i | 0 <= i < |kept| ensures kept[i] < n { assert kept[i] in kept; }
    assert (kept + [n])[|kept|] == n;
  }

  lemma IncreasingRemove(kept: seq<nat>, i: nat)
    requires Increasing(kept) && i < |kept|
    ensures Increasing(kept[..i] + kept[i + 1..])
    ensures kept[i] !in kept[..i] + kept[i + 1..]
  {
    var kept' := kept[..i] + kept[i + 1..];
    forall j | 0 <= j < |kept'| ensures kept'[j] == (if j < i then kept[j] else kept[j + 1]) {}
  }

  lemma AccountDrop(kept: seq<nat>, dropped: set<nat>, n: nat, i: nat)
    requires Accounted(kept, dropped, n) && i < |kept|
    ensures Accounted(kept[..i] + kept[i + 1..], dropped + {kept[i]}, n)
  {
    var kept' := kept[..i] + kept[i + 1..];
    IncreasingRemove(kept, i);
    hide Increasing;
    assert kept == kept[..i] + ([kept[i]] + kept[i + 1..]);
    forall id ensures id in kept <==> id in kept' || id == kept[i] {}
  }

  // ----- what the senders do, one packet at a time -----

  function Enqueue(c: Channel, data: seq<byte>): Channel {
    c.(queue := c.queue + [Response(|c.enqueued|, data, 0)], enqueued := c.enqueued + [data])
  }

  function Drop(c: Channel, i: nat): Channel
    requires i < |c.queue|
  {
    c.(queue := c.queue[..i] + c.queue[i + 1..], dropped := c.dropped + {c.queue[i].id})
  }

  function TakeWhole(c: Channel): Channel
    requires c.queue != [] && c.queue[0].rpos <= |c.queue[0].data|
  {
    var p := c.queue[0];
    c.(buf := c.buf + p.data[p.rpos..], queue := c.queue[1..], done := c.done + [p.id])
  }

  function TakePart(c: Channel, n: nat): Channel
    requires c.queue != [] && c.queue[0].rpos + n <= |c.queue[0].data|
  {
    var p := c.queue[0];
    c.(buf := c.buf + p.data[p.rpos..p.rpos + n], queue := [p.(rpos := p.rpos + n)] + c.queue[1..])
  }

  function Write(c: Channel, n: nat): Channel
    requires n <= |c.buf|
  {
    c.(wire := c.wire + c.buf[..n], buf := c.buf[n..])
  }

  lemma EnqueueConserves(c: Channel, data: seq<byte>)
    requires Conserved(c)
    ensures Conserved(Enqueue(c, data))
  {
    hide Ids, Bytes;
    var c' := Enqueue(c, data);
    var n, all := |c.enqueued|, c.done + Ids(c.queue);
    AccountNew(all, c.dropped, n);
    assert c'.done + Ids(c'.queue) == all + [n];
    forall i | 0 <= i < |c.done| ensures c.done[i] < n { assert all[i] in all; }
    hide Accounted;
    SameBytes(c.enqueued, c'.enqueued, c.done);
  }

  /** History only grows, so bytes already accounted for stay what they were. */
  lemma {:induction false} SameBytes(a: seq<seq<byte>>, b: seq<seq<byte>>, ids: seq<nat>)
    requires a <= b && forall i :: 0 <= i < |ids| ==> ids[i] < |a|
    ensures Bytes(a, ids) == Bytes(b, ids)
  {
    if ids != [] { SameBytes(a, b, ids[..|ids| - 1]); }
  }

  lemma DropConserves(c: Channel, i: nat)
    requires Conserved(c) && i < |c.queue| && c.queue[i].rpos == 0
    ensures Conserved(Drop(c, i))
  {
    hide Ids, Bytes, Accounted;
    var c' := Drop(c, i);
    var all, d := c.done + Ids(c.queue), |c.done|;
    AccountDrop(all, c.dropped, |c.enqueued|, d + i);
    assert c'.done + Ids(c'.queue) == all[..d + i] + all[d + i + 1..];
  }

  lemma TailOk(c: Channel, c': Channel)
    requires QueueOk(c) && c.queue != [] && c'.queue == c.queue[1..] && c'.enqueued == c.enqueued
    ensures QueueOk(c') && Taken(c'.queue) == []
  {
    forall i | 0 <= i < |c'.queue| ensures c'.queue[i] == c.queue[i + 1] {}
  }

  lemma TakeWholeConserves(c: Channel)
    requires Conserved(c) && c.queue != []
    ensures Conserved(TakeWhole(c))
  {
    hide Ids, Bytes, Accounted;
    var c' := TakeWhole(c);
    var p := c.queue[0];
    TailOk(c, c');
    assert c.done + Ids(c.queue) == c'.done + Ids(c'.queue);
    BytesSnoc(c.enqueued, c.done, p.id);
    assert p.data == ResponseAt(c.enqueued, p.id);
    WholeBytes(c.wire, c.buf, Bytes(c.enqueued, c.done), p.data, p.rpos);
  }

  lemma WholeBytes(wire: seq<byte>, buf: seq<byte>, before: seq<byte>, data: seq<byte>, rpos: nat)
    requires rpos <= |data| && wire + buf == before + data[..rpos]
    ensures wire + (buf + data[rpos..]) == before + data
  {
    assert data == data[..rpos] + data[rpos..];
    assert wire + (buf + data[rpos..]) == (wire + buf) + data[rpos..];
  }

  lemma TakePartConserves(c: Channel, n: nat)
    requires Conserved(c) && c.queue != [] && c.queue[0].rpos + n < |c.queue[0].data|
    ensures Conserved(TakePart(c, n))
  {
    hide Bytes, Accounted, Ids, QueueOk;
    var c' := TakePart(c, n);
    HeadOk(c, c', n);
    PartBytes(c.wire, c.buf, Bytes(c.enqueued, c.done), c.queue[0].data, c.queue[0].rpos, n);
  }

  lemma HeadOk(c: Channel, c': Channel, n: nat)
    requires QueueOk(c) && c.queue != [] && c.queue[0].rpos + n < |c.queue[0].data| && c'.enqueued == c.enqueued
    requires c'.queue == [c.queue[0].(rpos := c.queue[0].rpos + n)] + c.queue[1..]
    ensures QueueOk(c') && Ids(c'.queue) == Ids(c.queue)
  {
    forall i | 0 < i < |c'.queue| ensures c'.queue[i] == c.queue[i] {}
  }

  lemma PartBytes(wire: seq<byte>, buf: seq<byte>, before: seq<byte>, data: seq<byte>, rpos: nat, n: nat)
    requires rpos + n <= |data| && wire + buf == before + data[..rpos]
    ensures wire + (buf + data[rpos..rpos + n]) == before + data[..rpos + n]
  {
    assert data[..rpos + n] == data[..rpos] + data[rpos..rpos + n];
    assert wire + (buf + data[rpos..rpos + n]) == (wire + buf) + data[rpos..rpos + n];
  }

  lemma WriteConserves(c: Channel, n: nat)
    requires Conserved(c) && n <= |c.buf|
    ensures Conserved(Write(c, n))
  {
    assert c.wire + c.buf[..n] + c.buf[n..] == c.wire + c.buf;
  }

  // ----- writing past the send buffer -----

  function SentNow(q: seq<Response>, n: nat): seq<byte>
    requires q != []
  {
    if n >= |Rest(q[0])| then Rest(q[0]) else Rest(q[0])[..n]
  }

  /** Up to n bytes of the head of the send list go to the socket, whatever the send buffer holds. */
  function SendNow(c: Channel, n: nat): Channel
    requires c.queue != []
  {
    var p, c' := c.queue[0], c.(wire := c.wire + SentNow(c.queue, n));
    if n >= |Rest(p)| then c'.(queue := c.queue[1..], done := c.done + [p.id])
    else c'.(queue := [p.(rpos := p.rpos + n)] + c.queue[1..])
  }

  /** A channel with the same send list and history whose stream is in order. */
  ghost function InOrder(c: Channel): Channel { c.(wire := Covered(c.enqueued, c.done, c.queue), buf := []) }

  lemma InOrderConserved(c: Channel)
    requires Tracked(c)
    ensures Conserved(InOrder(c))
  {
    assert InOrder(c).wire + [] == InOrder(c).wire;
  }

  lemma SendNowTracks(c: Channel, n: nat)
    requires Tracked(c) && c.queue != []
    ensures Tracked(SendNow(c, n))
    ensures var c' := SendNow(c, n);
            Covered(c'.enqueued, c'.done, c'.queue) == Covered(c.enqueued, c.done, c.queue) + SentNow(c.queue, n)
  {
    hide Ids, Bytes, Accounted, Covered;
    var d, sent := InOrder(c), SentNow(c.queue, n);
    InOrderConserved(c);
    if n >= |Rest(c.queue[0])| { TakeWholeConserves(d); } else { TakePartConserves(d, n); }
    assert [] + sent == sent;
  }

  lemma DropTracks(c: Channel, i: nat)
    requires Tracked(c) && i < |c.queue| && c.queue[i].rpos == 0
    ensures Tracked(Drop(c, i))
    ensures var c' := Drop(c, i); Covered(c'.enqueued, c'.done, c'.queue) == Covered(c.enqueued, c.done, c.queue)
  {
    hide Ids, Bytes, Accounted, Covered;
    InOrderConserved(c);
    DropConserves(InOrder(c), i);
    assert InOrder(c).wire + [] == InOrder(c).wire;
  }

  lemma Regroup(a: seq<byte>, b: seq<byte>, c: seq<byte>)
    ensures (a + b) + c == a + (b + c)
  {}

  lemma Cancel(w: seq<byte>, a: seq<byte>, b: seq<byte>)
    ensures w + a == w + b <==> a == b
  {
    if w + a == w + b { assert a == (w + a)[|w|..] == (w + b)[|w|..] == b; }
  }

  /** Bytes that went from the send list straight to the socket keep the stream in order exactly if they and the
      bytes they overtook in the send buffer may change places. */
  lemma OvertakenExactly(c: Channel, c': Channel, sent: seq<byte>)
    requires Conserved(c) && Tracked(c') && c'.wire == c.wire + sent && c'.buf == c.buf
    requires Covered(c'.enqueued, c'.done, c'.queue) == Covered(c.enqueued, c.done, c.queue) + sent
    ensures Conserved(c') <==> sent + c.buf == c.buf + sent
  {
    hide Tracked, Covered;
    assert c'.wire + c'.buf == c.wire + (sent + c.buf);
    assert (c.wire + c.buf) + sent == c.wire + (c.buf + sent);
    Cancel(c.wire, sent + c.buf, c.buf + sent);
  }

  ghost predicate AllSame(s: seq<byte>) { forall i :: 0 <= i < |s| ==> s[i] == s[0] }

  /** What can be checked before the write: whatever number of the offered bytes the kernel will accept, the
      stream stays in order, if and only if the send buffer is empty, nothing is offered, or all bytes are equal. */
  lemma BypassExactly(offered: seq<byte>, buf: seq<byte>)
    ensures (forall n :: 0 <= n <= |offered| ==> offered[..n] + buf == buf + offered[..n])
       <==> buf == [] || offered == [] || AllSame(offered + buf)
  {
    if buf == [] {
      forall n | 0 <= n <= |offered| ensures offered[..n] + buf == buf + offered[..n] {}
    } else if offered != [] {
      if forall n :: 0 <= n <= |offered| ==> offered[..n] + buf == buf + offered[..n] {
        BufferIsSame(offered, buf);
        forall i | 0 <= i < |offered| ensures offered[i] == offered[0] {
          var t := offered[..i + 1];
          assert t + buf == buf + t;
          assert (t + buf)[|t| + |buf| - 1] == buf[|buf| - 1] && (buf + t)[|buf| + i] == t[i];
        }
      } else if AllSame(offered + buf) {
        SameCommutes(offered, buf);
      }
    }
  }

  lemma BufferIsSame(offered: seq<byte>, buf: seq<byte>)
    requires offered != [] && offered[..1] + buf == buf + offered[..1]
    ensures forall i :: 0 <= i < |buf| ==> buf[i] == offered[0]
  {
    var x := offered[0];
    assert offered[..1] == [x];
    ShiftSame(x, buf);
  }

  lemma {:induction false} ShiftSame(x: byte, buf: seq<byte>)
    requires [x] + buf == buf + [x]
    ensures forall i :: 0 <= i < |buf| ==> buf[i] == x
  {
    if buf != [] {
      var t := buf[1..];
      assert ([x] + buf)[0] == buf[0] == x && buf == [x] + t;
      assert [x] + t == ([x] + buf)[1..] == (buf + [x])[1..] == t + [x];
      ShiftSame(x, t);
    }
  }

  lemma SameCommutes(offered: seq<byte>, buf: seq<byte>)
    requires offered != [] && AllSame(offered + buf)
    ensures forall n :: 0 <= n <= |offered| ==> offered[..n] + buf == buf + offered[..n]
  {
    var x, s := offered[0], offered + buf;
    forall i | 0 <= i < |offered| ensures offered[i] == x { assert s[i] == offered[i] && s[0] == x; }
    forall i | 0 <= i < |buf| ensures buf[i] == x { assert s[|offered| + i] == buf[i] && s[0] == x; }
    hide AllSame;
    forall n | 0 <= n <= |offered| ensures offered[..n] + buf == buf + offered[..n] {
      BothSame(x, offered[..n], buf);
    }
  }

  lemma BothSame(x: byte, a: seq<byte>, b: seq<byte>)
    requires (forall i :: 0 <= i < |a| ==> a[i] == x) && (forall i :: 0 <= i < |b| ==> b[i] == x)
    ensures a + b == b + a
  {
    forall i | 0 <= i < |a| + |b| ensures (a + b)[i] == x && (b + a)[i] == x {}
  }

  // ----- the stream -----

  lemma {:induction false} UntakenRests(enqueued: seq<seq<byte>>, q: seq<Response>, ids: seq<nat>)
    requires forall i :: 0 <= i < |q| ==> q[i].data == ResponseAt(enqueued, q[i].id) && q[i].rpos == 0
    ensures Bytes(enqueued, ids + Ids(q)) == Bytes(enqueued, ids) + Rests(q)
    decreases |q|
  {
    hide Ids, Bytes;
    if q == [] {
      assert ids + Ids(q) == ids;
    } else {
      UntakenRests(enqueued, q[1..], ids + [q[0].id]);
      assert ids + Ids(q) == (ids + [q[0].id]) + Ids(q[1..]);
      BytesSnoc(enqueued, ids, q[0].id);
      assert q[0].data[0..] == q[0].data;
    }
  }

  lemma RestsHead(q: seq<Response>)
    requires q != []
    ensures Rests(q) == Rest(q[0]) + Rests(q[1..])
  {}

  lemma FourParts(a: seq<byte>, b: seq<byte>, c: seq<byte>, d: seq<byte>)
    ensures (a + b) + (c + d) == (a + (b + c)) + d
  {}

  /** Bytes written, then the send buffer, then the unsent rests of the queued packets, are the kept responses
      whole and in queueing order. */
  lemma StreamIsConserved(c: Channel)
    requires Conserved(c)
    ensures c.wire + c.buf + Rests(c.queue) == Bytes(c.enqueued, c.done + Ids(c.queue))
  {
    hide Ids, Bytes, Accounted;
    if c.queue == [] {
      assert c.done + Ids(c.queue) == c.done;
    } else {
      var p, rest := c.queue[0], c.queue[1..];
      UntakenRests(c.enqueued, rest, c.done + [p.id]);
      assert c.done + Ids(c.queue) == (c.done + [p.id]) + Ids(rest);
      BytesSnoc(c.enqueued, c.done, p.id);
      assert p.data == Taken(c.queue) + Rest(p);
      hide QueueOk, Rest, Taken, Rests;
      assert Rests(c.queue) == Rest(p) + Rests(rest) by { RestsHead(c.queue); }
      FourParts(Bytes(c.enqueued, c.done), Taken(c.queue), Rest(p), Rests(rest));
    }
  }

  // ----- any run of any sender -----

  datatype Op = Queue(data: seq<byte>) | Discard(i: nat) | Buffer | BufferPart(n: nat) | Put(n: nat)

  /** What a sender may do next; discarding is for packets of which nothing was taken. */
  predicate Permitted(c: Channel, op: Op) {
    match op
    case Queue(_) => true
    case Discard(i) => i < |c.queue| && c.queue[i].rpos == 0
    case Buffer => c.queue != [] && c.queue[0].rpos <= |c.queue[0].data|
    case BufferPart(n) => c.queue != [] && c.queue[0].rpos + n < |c.queue[0].data|
    case Put(n) => n <= |c.buf|
  }

  function Do(c: Channel, op: Op): Channel {
    if !Permitted(c, op) then c
    else match op
      case Queue(data) => Enqueue(c, data)
      case Discard(i) => Drop(c, i)
      case Buffer => TakeWhole(c)
      case BufferPart(n) => TakePart(c, n)
      case Put(n) => Write(c, n)
  }

  const IDLE := Channel([], [], [], [], {}, [])

  function After(ops: seq<Op>): Channel {
    if ops == [] then IDLE else Do(After(ops[..|ops| - 1]), ops[|ops| - 1])
  }

  lemma {:induction false} EveryRunConserves(ops: seq<Op>)
    ensures Conserved(After(ops))
  {
    if ops == [] {
      assert IDLE.done + Ids(IDLE.queue) == [];
    } else {
      hide Conserved, Enqueue, Drop, TakeWhole, TakePart, Write;
      EveryRunConserves(ops[..|ops| - 1]);
      var c, op := After(ops[..|ops| - 1]), ops[|ops| - 1];
      if Permitted(c, op) {
        match op {
          case Queue(data) => EnqueueConserves(c, data);
          case Discard(i) => DropConserves(c, i);
          case Buffer => TakeWholeConserves(c);
          case BufferPart(n) => TakePartConserves(c, n);
          case Put(n) => WriteConserves(c, n);
        }
      }
    }
  }

  /** After any run what was written is a prefix of the kept responses, whole and in queueing order, and every
      response is kept or was dropped before any of its bytes was taken. */
  lemma WireIsPrefixOfKept(ops: seq<Op>)
    ensures var c := After(ops); var kept := c.done + Ids(c.queue);
            c.wire <= Bytes(c.enqueued, kept) && Accounted(kept, c.dropped, |c.enqueued|)
  {
    EveryRunConserves(ops);
    StreamIsConserved(After(ops));
    hide After, Bytes, Accounted, Ids, Rests;
  }

  // ----- the connection -----

  /** The sending half of struct docserver_connect. `armed` says whether the write event is registered;
      `count` numbers the responses. */
  class Connection {
    const sbuf: array<byte>
    var sbytes: nat
    var queue: seq<Response>
    var armed: bool
    var count: nat
    ghost var enqueued: seq<seq<byte>>
    ghost var done: seq<nat>
    ghost var dropped: set<nat>
    ghost var wire: seq<byte>

    ghost function View(): Channel
      reads this, sbuf
      requires sbytes <= sbuf.Length
    {
      Channel(sbuf[..sbytes], queue, enqueued, done, dropped, wire)
    }

    ghost predicate Sound()
      reads this, sbuf
    {
      0 < sbuf.Length && sbytes <= sbuf.Length && count == |enqueued| && Tracked(View())
    }

    ghost predicate Valid()
      reads this, sbuf
    {
      Sound() && Conserved(View())
    }

    ghost predicate ArmedIffPending()
      reads this
    {
      armed <==> sbytes > 0 || queue != []
    }

    constructor (size: nat)
      requires size > 0
      ensures Valid() && ArmedIffPending() && fresh(sbuf) && sbuf.Length == size
      ensures enqueued == [] && wire == [] && queue == [] && sbytes == 0 && dropped == {}
    {
      sbuf := new byte[size];
      sbytes, queue, armed, count := 0, [], false, 0;
      enqueued, done, dropped, wire := [], [], {}, [];
      new;
      assert View().done + Ids(View().queue) == [];
    }

    /** The accepting branch of pipe_notify_process. */
    method QueueResponse(data: seq<byte>)
      requires Valid() && ArmedIffPending()
      modifies this
      ensures Valid() && ArmedIffPending() && View() == Enqueue(old(View()), data)
    {
      hide Tracked, Bytes, Taken;
      EnqueueConserves(View(), data);
      if queue == [] && sbytes == 0 { armed := true; }
      queue := queue + [Response(count, data, 0)];
      count := count + 1;
      enqueued := enqueued + [data];
    }

    /** The same send list, from packet `gone` on; only its head may have been taken from. */
    static ghost predicate SuffixOf(q': seq<Response>, q: seq<Response>, gone: nat) {
      gone <= |q| && Ids(q') == Ids(q[gone..])
    }

    /** Unlink the head of the send list, of which nothing was taken. */
    method DiscardHead()
      requires Valid() && queue != [] && queue[0].rpos == 0
      modifies this`queue, this`dropped
      ensures Valid() && queue == old(queue)[1..] && dropped == old(dropped) + {old(queue)[0].id}
    {
      hide Tracked, Bytes, Taken, Ids;
      DiscardAt(0);
    }

    /** Copy what is left of the head into the send buffer and unlink it. */
    method BufferHead()
      requires Valid() && queue != [] && sbytes + |queue[0].data| - queue[0].rpos <= sbuf.Length
      modifies this`sbytes, this`queue, this`done, sbuf
      ensures Valid() && queue == old(queue)[1..] && done == old(done) + [old(queue)[0].id]
      ensures sbytes == old(sbytes) + |old(queue)[0].data| - old(queue)[0].rpos
      ensures old(sbytes) <= sbytes && (sbytes == 0 ==> old(queue)[0].data == [])
    {
      hide Tracked, Bytes, Taken, Ids;
      QueuePart(View());
      TakeWholeConserves(View());
      var p := queue[0];
      ghost var before := sbuf[..sbytes];
      var n := |p.data| - p.rpos;
      forall i | 0 <= i < n { sbuf[sbytes + i] := p.data[p.rpos + i]; }
      sbytes := sbytes + n;
      queue := queue[1..];
      done := done + [p.id];
      assert sbuf[..sbytes] == before + p.data[p.rpos..];
    }

    /** Fill the empty send buffer from a head that is larger than it. */
    method FillFromHead()
      requires Valid() && queue != [] && sbytes == 0 && |queue[0].data| - queue[0].rpos > sbuf.Length
      modifies this`sbytes, this`queue, sbuf
      ensures Valid() && sbytes == sbuf.Length
      ensures queue == [old(queue)[0].(rpos := old(queue)[0].rpos + sbuf.Length)] + old(queue)[1..]
    {
      hide Tracked, Bytes, Taken, Ids;
      QueuePart(View());
      var p := queue[0];
      TakePartConserves(View(), sbuf.Length);
      forall i | 0 <= i < sbuf.Length { sbuf[i] := p.data[p.rpos + i]; }
      sbytes := sbuf.Length;
      queue := [p.(rpos := p.rpos + sbuf.Length)] + queue[1..];
      assert sbuf[..sbytes] == [] + p.data[p.rpos..p.rpos + sbytes];
    }

    /** Move packets into the send buffer until the next one does not fit. Only expired packets are discarded,
        and all of them are that come to the head untouched. */
    method AdjustSendBuffer(expired: nat -> bool) returns (ghost gone: nat)
      requires Valid()
      modifies this`sbytes, this`queue, this`done, this`dropped, sbuf
      ensures Valid() && SuffixOf(queue, old(queue), gone) && old(sbytes) <= sbytes
      ensures done == old(done) + Survivors(old(queue)[..gone], expired)
      ensures forall id :: id in dropped ==> id in old(dropped) || expired(id)
      ensures sbytes == Filled(old(sbytes), old(queue), sbuf.Length, expired)
      ensures sbytes == 0 ==> queue == []
      ensures HeadDoesNotFit()
    {
      hide Ids, Survivors, Connection.Valid;
      gone := 0;
      assert queue[0..] == queue && queue[..0] == [];
      SurvivorsNone(expired);
      while queue != []
        invariant Valid() && gone <= |old(queue)| && queue == old(queue)[gone..] && old(sbytes) <= sbytes
        invariant done == old(done) + Survivors(old(queue)[..gone], expired)
        invariant forall id :: id in dropped ==> id in old(dropped) || expired(id)
        invariant Filled(sbytes, queue, sbuf.Length, expired) == Filled(old(sbytes), old(queue), sbuf.Length, expired)
        decreases |queue|
      {
        var p := queue[0];
        assert queue[1..] == old(queue)[gone + 1..];
        SurvivorsSnoc(old(queue), gone, expired);
        ValidHead();
        if p.rpos == 0 && expired(p.id) {
          DiscardHead();
          gone := gone + 1;
          continue;
        }
        if sbytes + |p.data| - p.rpos > sbuf.Length {
          if sbytes == 0 {
            FillFromHead();
            ValidHead();
            SameIds(queue, old(queue), gone);
            return;
          }
          break;
        }
        BufferHead();
        gone := gone + 1;
      }
    }

    lemma ValidHead()
      requires Valid()
      ensures 0 < sbuf.Length
      ensures queue != [] ==>
                queue[0].rpos <= |queue[0].data| && (queue[0].rpos > 0 ==> queue[0].rpos < |queue[0].data|)
    {
      QueuePart(View());
    }

    /** The send buffer has no room for the next packet. */
    ghost predicate HeadDoesNotFit()
      reads this
    {
      queue != [] ==> sbytes + |queue[0].data| - queue[0].rpos > sbuf.Length
    }

    /** The write callback: the kernel accepts at most `accept` bytes; none accepted is a send error, after
        which the caller closes the connection. `offered` is what the write was given. */
    method SendData(accept: nat, expired: nat -> bool, expired': nat -> bool)
      returns (failed: bool, ghost gone: nat, ghost offered: nat)
      requires Valid() && ArmedIffPending() && armed
      modifies this`sbytes, this`queue, this`armed, this`done, this`dropped, this`wire, sbuf
      ensures Valid() && SuffixOf(queue, old(queue), gone) && enqueued == old(enqueued)
      ensures DocServer.SendEffect(|old(queue)|, gone, sbytes)
      ensures forall id :: id in dropped ==> id in old(dropped) || expired(id) || expired'(id)
      ensures HeadDoesNotFit() && (if failed then armed && sbytes > 0 else ArmedIffPending())
      ensures old(wire) <= wire && |wire| == |old(wire)| + if accept < offered then accept else offered
      ensures offered == Filled(old(sbytes), old(queue), sbuf.Length, expired)
      ensures old(sbytes) <= offered && (offered == 0 ==> queue == [] && sbytes == 0)
      ensures failed <==> accept == 0 && offered > 0
    {
      hide Ids, Survivors, Connection.Valid;
      ghost var q0 := queue;
      ghost var g1 := AdjustSendBuffer(expired);
      gone, offered := g1, sbytes;
      SuffixLengths(queue, q0, gone);
      if sbytes == 0 {
        Disarm();
        return false, gone, offered;
      }
      var n := if accept < sbytes then accept else sbytes;
      if n == 0 { return true, gone, offered; }
      WriteOut(n);
      ghost var q1 := queue;
      ghost var g2 := AdjustSendBuffer(expired');
      SuffixTrans(queue, q1, q0, g2, g1);
      gone := g1 + g2;
      SuffixLengths(queue, q0, gone);
      if sbytes == 0 { Disarm(); }
      failed := false;
    }

    /** Delete the write event. */
    method Disarm()
      requires Valid()
      modifies this`armed
      ensures Valid() && !armed
    {
      armed := false;
    }

    /** The kernel took the first n bytes of the send buffer; the others move down. */
    method WriteOut(n: nat)
      requires Valid() && n <= sbytes
      modifies this`sbytes, this`wire, sbuf
      ensures Valid() && sbytes == old(sbytes) - n && wire == old(wire) + old(sbuf[..n]) && |wire| == |old(wire)| + n
    {
      hide Tracked, Bytes, Taken, Ids;
      WriteConserves(View(), n);
      ghost var before := sbuf[..sbytes];
      assert before[..n] == sbuf[..n];
      wire := wire + before[..n];
      forall i | 0 <= i < sbytes - n { sbuf[i] := sbuf[n + i]; }
      sbytes := sbytes - n;
      assert sbuf[..sbytes] == before[n..];
    }

    /** The alternative write callback, which gathers at most `vecMax` packets and about `byteMax` bytes and does
        not look at the send buffer. It examines the first `seen` packets of the send list and offers the rests of
        those it keeps. What it writes overtakes the send buffer. */
    method SendDataWritev(vecMax: nat, byteMax: nat, accept: nat, expired: nat -> bool)
      returns (failed: bool, ghost seen: nat, ghost offered: seq<byte>)
      requires Sound() && armed && vecMax > 0 && byteMax > 0
      modifies this`queue, this`armed, this`done, this`dropped, this`wire
      ensures Sound()
      ensures forall id :: id in dropped ==> id in old(dropped) || expired(id) || ResponseAt(enqueued, id) == []
      ensures seen <= |old(queue)| && offered == Rests(Gathered(old(queue)[..seen], expired))
      ensures GatheredEnough(old(queue), seen, expired, vecMax, byteMax)
      ensures wire == old(wire) + Accepted(offered, accept)
      ensures Rests(queue) == offered[|Accepted(offered, accept)|..] + Rests(old(queue)[seen..])
      ensures armed <==> failed || queue != []
      ensures (offered == [] ==> queue == []) && (failed <==> accept == 0 && offered != [])
      ensures old(Valid()) ==>
                (Valid() <==> Accepted(offered, accept) + sbuf[..sbytes] == sbuf[..sbytes] + Accepted(offered, accept))
    {
      hide Tracked, Connection.Sound, Rests, Gathered, Covered;
      SoundSize();
      ghost var c := View();
      var i, bytes;
      i, bytes, seen := GatherVector(vecMax, byteMax, expired);
      offered := Rests(queue[..i]);
      RestsParts(queue, i);
      failed := false;
      if i == 0 {
        DisarmSound();
      } else {
        var n := if accept < bytes then accept else bytes;
        if n == 0 {
          failed := true;
        } else {
          RemoveSent(n);
          if queue == [] { DisarmSound(); }
        }
      }
      SoundSize();
      if Conserved(c) { OvertakenExactly(c, View(), Accepted(offered, accept)); }
    }

    method DisarmSound()
      requires Sound()
      modifies this`armed
      ensures Sound() && !armed
    {
      armed := false;
    }

    /** The first loop of send_data_writev: drop what expired or is empty, count what to send. */
    method GatherVector(vecMax: nat, byteMax: nat, expired: nat -> bool) returns (i: nat, bytes: nat, ghost seen: nat)
      requires Sound() && vecMax > 0 && byteMax > 0
      modifies this`queue, this`dropped
      ensures Sound() && Covered(enqueued, done, queue) == old(Covered(enqueued, done, queue))
      ensures forall id :: id in dropped ==> id in old(dropped) || expired(id) || ResponseAt(enqueued, id) == []
      ensures seen <= |old(queue)| && i <= |queue| && queue[i..] == old(queue)[seen..]
      ensures queue[..i] == Gathered(old(queue)[..seen], expired)
      ensures GatheredEnough(old(queue), seen, expired, vecMax, byteMax)
      ensures bytes == |Rests(queue[..i])| && (i == 0 <==> bytes == 0) && (i == 0 ==> queue == [])
    {
      hide Tracked, Connection.Sound, Rests, Gathered, Covered;
      i, bytes, seen := 0, 0, 0;
      NothingGathered(expired);
      assert queue[..0] == [] && queue[0..] == queue && old(queue)[..0] == [];
      while i < |queue| && i < vecMax && bytes < byteMax
        invariant Sound() && Covered(enqueued, done, queue) == old(Covered(enqueued, done, queue))
        invariant seen <= |old(queue)| && i <= |queue| && queue[i..] == old(queue)[seen..]
        invariant queue[..i] == Gathered(old(queue)[..seen], expired)
        invariant bytes == |Rests(queue[..i])| && (i == 0 <==> bytes == 0)
        invariant forall id :: id in dropped ==> id in old(dropped) || expired(id) || ResponseAt(enqueued, id) == []
        decreases |queue| - i
      {
        SoundAt(i);
        var p := queue[i];
        GatherStep(old(queue), seen, expired, queue, i);
        seen := seen + 1;
        if p.rpos == 0 && (expired(p.id) || |p.data| == 0) {
          DiscardAt(i);
          continue;
        }
        bytes := bytes + (|p.data| - p.rpos);
        i := i + 1;
      }
      assert queue[i..] == [] ==> i == |queue|;
    }

    lemma SoundSize()
      requires Sound()
      ensures sbytes <= sbuf.Length && Tracked(View())
    {}

    lemma SoundAt(i: nat)
      requires Sound() && i < |queue|
      ensures var p := queue[i];
        p.rpos <= |p.data| && (p.rpos > 0 ==> p.rpos < |p.data|) && p.data == ResponseAt(enqueued, p.id)
    {}

    method DiscardAt(i: nat)
      requires Sound() && i < |queue| && queue[i].rpos == 0
      modifies this`queue, this`dropped
      ensures Sound() && Covered(enqueued, done, queue) == old(Covered(enqueued, done, queue))
      ensures queue == old(queue)[..i] + old(queue)[i + 1..] && dropped == old(dropped) + {old(queue)[i].id}
    {
      hide Tracked, Covered;
      DropTracks(View(), i);
      dropped := dropped + {queue[i].id};
      queue := queue[..i] + queue[i + 1..];
    }

    /** The second loop of send_data_writev: unlink what went out whole and advance into the next packet. */
    method RemoveSent(sent: nat)
      requires Sound() && sent <= |Rests(queue)|
      modifies this`queue, this`done, this`wire
      ensures Sound() && wire == old(wire) + Rests(old(queue))[..sent] && Rests(queue) == Rests(old(queue))[sent..]
      ensures Covered(enqueued, done, queue) == old(Covered(enqueued, done, queue)) + Rests(old(queue))[..sent]
    {
      hide Tracked, Connection.Sound, Covered, Rests, SentNow;
      ghost var all, covered := Rests(queue), Covered(enqueued, done, queue);
      var n := sent;
      assert all[..0] == [] && all[0..] == all;
      while n > 0
        invariant Sound() && 0 <= n <= sent && Rests(queue) == all[sent - n..]
        invariant wire == old(wire) + all[..sent - n]
        invariant Covered(enqueued, done, queue) == covered + all[..sent - n]
        decreases n, |queue|
      {
        RemoveStep(queue, all, sent - n, n);
        SoundAt(0);
        var p := queue[0];
        var len := |p.data| - p.rpos;
        Regroup(old(wire), all[..sent - n], SentNow(queue, n));
        Regroup(covered, all[..sent - n], SentNow(queue, n));
        SendHead(n);
        if n < len { return; }
        n := n - len;
      }
    }

    /** Account for `n` bytes that went out, as far as they belong to the head of the queue. */
    method SendHead(n: nat)
      requires Sound() && queue != []
      modifies this`queue, this`done, this`wire
      ensures Sound()
      ensures queue == if n >= |Rest(old(queue)[0])| then old(queue)[1..]
                       else [old(queue)[0].(rpos := old(queue)[0].rpos + n)] + old(queue)[1..]
      ensures wire == old(wire) + SentNow(old(queue), n)
      ensures Covered(enqueued, done, queue) == old(Covered(enqueued, done, queue)) + SentNow(old(queue), n)
      ensures Rests(queue) == Rests(old(queue))[|SentNow(old(queue), n)|..]
    {
      hide Tracked, Ids, Covered, Rests;
      ghost var c := View();
      SoundAt(0);
      SendNowTracks(c, n);
      RestsLeft(queue, n);
      var p := queue[0];
      var len := |p.data| - p.rpos;
      assert SentNow(queue, n) == if n >= len then p.data[p.rpos..] else p.data[p.rpos..p.rpos + n];
      hide SentNow;
      if n >= len {
        wire := wire + p.data[p.rpos..];
        queue := queue[1..];
        done := done + [p.id];
      } else {
        wire := wire + p.data[p.rpos..p.rpos + n];
        queue := [p.(rpos := p.rpos + n)] + queue[1..];
      }
    }
  }

  /** What of the offered bytes reaches the socket. */
  function Accepted(offered: seq<byte>, accept: nat): seq<byte> {
    if accept < |offered| then offered[..accept] else offered
  }

  predicate Gathers(p: Response, expired: nat -> bool) { p.rpos > 0 || (!expired(p.id) && p.data != []) }

  /** The packets that are offered: neither expired nor empty, or begun. */
  ghost function Gathered(q: seq<Response>, expired: nat -> bool): seq<Response> {
    if q == [] then []
    else Gathered(q[..|q| - 1], expired) + if Gathers(q[|q| - 1], expired) then [q[|q| - 1]] else []
  }

  /** Gathering stops at the end of the send list or at a limit. */
  ghost predicate GatheredEnough(q: seq<Response>, seen: nat, expired: nat -> bool, vecMax: nat, byteMax: nat)
    requires seen <= |q|
  {
    var g := Gathered(q[..seen], expired);
    seen == |q| || |g| >= vecMax || |Rests(g)| >= byteMax
  }

  lemma NothingGathered(expired: nat -> bool)
    ensures Gathered([], expired) == [] && Rests([]) == []
  {}

  /** One turn of the first loop. */
  lemma GatherStep(q0: seq<Response>, seen: nat, expired: nat -> bool, q: seq<Response>, i: nat)
    requires seen <= |q0| && i < |q| && q[i..] == q0[seen..]
    ensures seen < |q0| && q[i] == q0[seen]
    ensures Gathered(q0[..seen + 1], expired) == Gathered(q0[..seen], expired)
              + if Gathers(q[i], expired) then [q[i]] else []
    ensures (q[..i] + q[i + 1..])[..i] == q[..i]
    ensures (q[..i] + q[i + 1..])[i..] == q[i + 1..] == q0[seen + 1..]
    ensures q[..i + 1] == q[..i] + [q[i]] && Rests(q[..i + 1]) == Rests(q[..i]) + Rest(q[i])
  {
    assert q[i] == q[i..][0] && q0[seen] == q0[seen..][0];
    assert q0[..seen + 1][..seen] == q0[..seen];
    assert q[i + 1..] == q[i..][1..] && q0[seen + 1..] == q0[seen..][1..];
    RestsConcat(q[..i], [q[i]]);
    assert Rests([q[i]]) == Rest(q[i]) by { assert [q[i]][1..] == []; }
  }

  lemma {:induction false} RestsConcat(a: seq<Response>, b: seq<Response>)
    ensures Rests(a + b) == Rests(a) + Rests(b)
    decreases |a|
  {
    if a == [] {
      assert a + b == b && Rests(a) + Rests(b) == Rests(b);
    } else {
      hide Rest, Rests;
      RestsConcat(a[1..], b);
      RestsHead(a);
      RestsHead(a + b);
      assert (a + b)[1..] == a[1..] + b && (a + b)[0] == a[0];
      Regroup(Rest(a[0]), Rests(a[1..]), Rests(b));
    }
  }

  lemma RestsParts(q: seq<Response>, i: nat)
    requires i <= |q|
    ensures Rests(q) == Rests(q[..i]) + Rests(q[i..])
  {
    hide Rests;
    RestsConcat(q[..i], q[i..]);
    assert q[..i] + q[i..] == q;
  }

  /** One turn of the second loop: the bytes from `at` on are left, and the first of them go. */
  lemma RemoveStep(q: seq<Response>, all: seq<byte>, at: nat, n: nat)
    requires 0 < n && at + n <= |all| && Rests(q) == all[at..]
    ensures q != []
    ensures var k := at + if n < |Rest(q[0])| then n else |Rest(q[0])|;
      && k <= |all| && |SentNow(q, n)| == k - at
      && all[..k] == all[..at] + SentNow(q, n) && all[at..][k - at..] == all[k..]
  {
    assert |Rests(q)| > 0;
    var len := |Rest(q[0])|;
    var k := at + if n < len then n else len;
    hide Rest;
    DropFront(Rest(q[0]), Rests(q[1..]), k - at);
    assert SentNow(q, n) == Rests(q)[..k - at];
    hide Rests, SentNow;
    Slices(all, at, k);
  }

  lemma Slices(all: seq<byte>, at: nat, k: nat)
    requires at <= k <= |all|
    ensures all[at..][..k - at] == all[at..k] && all[at..][k - at..] == all[k..] && all[..k] == all[..at] + all[at..k]
  {}

  lemma RestsLeft(q: seq<Response>, n: nat)
    requires q != [] && q[0].rpos <= |q[0].data|
    ensures var q' := if n >= |Rest(q[0])| then q[1..] else [q[0].(rpos := q[0].rpos + n)] + q[1..];
            Rests(q') == Rests(q)[|SentNow(q, n)|..]
  {
    hide Rests;
    RestsHead(q);
    if n >= |Rest(q[0])| {
      DropFront(Rest(q[0]), Rests(q[1..]), |Rest(q[0])|);
    } else {
      var p := q[0].(rpos := q[0].rpos + n);
      assert Rest(p) == Rest(q[0])[n..];
      RestsCons(p, q[1..]);
      DropFront(Rest(q[0]), Rests(q[1..]), n);
    }
  }

  lemma DropFront(a: seq<byte>, b: seq<byte>, n: nat)
    requires n <= |a|
    ensures (a + b)[n..] == a[n..] + b && (a + b)[..n] == a[..n]
    ensures n == |a| ==> (a + b)[n..] == b
  {}

  lemma RestsCons(p: Response, q: seq<Response>)
    ensures Rests([p] + q) == Rest(p) + Rests(q)
  {
    hide Rest;
    assert ([p] + q)[1..] == q;
  }

  /** How full a send buffer gets that holds `bytes` bytes: it takes over the packets that are not expired while
      they fit whole, and if it is empty the first part of one that is larger than it. */
  ghost function Filled(bytes: int, q: seq<Response>, capacity: nat, expired: nat -> bool): int
    decreases |q|
  {
    if q == [] then bytes
    else
      var more := |q[0].data| - q[0].rpos;
      if q[0].rpos == 0 && expired(q[0].id) then Filled(bytes, q[1..], capacity, expired)
      else if bytes + more <= capacity then Filled(bytes + more, q[1..], capacity, expired)
      else if bytes == 0 then capacity else bytes
  }

  /** The packets that are not discarded when they come to the head. */
  ghost function Survivors(q: seq<Response>, expired: nat -> bool): seq<nat> {
    if q == [] then []
    else
      var p := q[|q| - 1];
      Survivors(q[..|q| - 1], expired) + if p.rpos == 0 && expired(p.id) then [] else [p.id]
  }

  lemma SurvivorsNone(expired: nat -> bool)
    ensures Survivors([], expired) == []
  {}

  lemma SurvivorsSnoc(q: seq<Response>, n: nat, expired: nat -> bool)
    requires n < |q|
    ensures Survivors(q[..n + 1], expired)
         == Survivors(q[..n], expired) + if q[n].rpos == 0 && expired(q[n].id) then [] else [q[n].id]
  {
    assert q[..n + 1][..n] == q[..n];
  }

  lemma SameIds(q': seq<Response>, q: seq<Response>, gone: nat)
    requires gone < |q| && |q'| == |q| - gone && q'[0].id == q[gone].id && q'[1..] == q[gone + 1..]
    ensures Connection.SuffixOf(q', q, gone)
  {
    forall i | 0 < i < |q'| ensures q'[i].id == q[gone..][i].id {
      assert q'[i] == q'[1..][i - 1] == q[gone + 1..][i - 1];
    }
  }

  lemma QueuePart(c: Channel)
    requires Conserved(c)
    ensures QueueOk(c)
  {}

  lemma SuffixLengths(q': seq<Response>, q: seq<Response>, gone: nat)
    requires Connection.SuffixOf(q', q, gone)
    ensures |q'| == |q| - gone
  {
    assert |Ids(q')| == |Ids(q[gone..])|;
  }

  lemma SuffixTrans(q2: seq<Response>, q1: seq<Response>, q0: seq<Response>, g2: nat, g1: nat)
    requires Connection.SuffixOf(q2, q1, g2) && Connection.SuffixOf(q1, q0, g1)
    ensures Connection.SuffixOf(q2, q0, g1 + g2)
  {
    SuffixLengths(q1, q0, g1);
    SuffixLengths(q2, q1, g2);
    forall i | 0 <= i < |q2| ensures Ids(q2)[i] == Ids(q0[g1 + g2..])[i] {
      assert Ids(q2)[i] == Ids(q1[g2..])[i] == q1[g2 + i].id;
      assert Ids(q1)[g2 + i] == Ids(q0[g1..])[g2 + i];
    }
  }

  // ----- a run in which the order is lost -----

  /** After a partial write of the response [1, 2] the byte 2 is left in the send buffer. */
  method OneLeftInBuffer() returns (c: Connection)
    ensures fresh(c) && fresh(c.sbuf) && c.Valid() && c.ArmedIffPending() && c.queue == [] && c.count == 1
    ensures c.sbytes == 1 && c.sbuf[0] == 2
  {
    hide Tracked, Covered;
    c := new Connection(2);
    c.QueueResponse([1, 2]);
    var failed, _, _ := c.SendData(1, _ => false, _ => false);
    OneKept(c.View());
  }

  lemma OneKept(c: Channel)
    requires Conserved(c) && c.enqueued == [[1, 2]] && c.dropped == {} && |c.wire| <= 1
    requires c.queue != [] ==> |c.buf| + |c.queue[0].data| - c.queue[0].rpos > 2
    requires |c.wire| == 0 ==> c.queue == [] && c.buf == []
    ensures c.queue == [] && c.buf == [2]
  {
    OnlyZero(c.done + Ids(c.queue));
    hide Accounted, Increasing;
    if c.queue != [] {
      HeadSize(c);
      assert false;
    }
    assert c.done == [] + [0];
    hide Ids, QueueOk;
    BytesSnoc(c.enqueued, [], 0);
    LastByte(c.wire, c.buf);
  }

  lemma HeadSize(c: Channel)
    requires Conserved(c) && c.enqueued == [[1, 2]] && c.queue != [] && c.done + Ids(c.queue) == [0]
    ensures |c.wire| + |c.buf| == c.queue[0].rpos && |c.queue[0].data| == 2
  {
    hide Accounted, Increasing;
    assert c.done == [];
    assert |c.wire + c.buf| == |Taken(c.queue)|;
  }

  lemma OnlyZero(kept: seq<nat>)
    requires Accounted(kept, {}, 1)
    ensures kept == [0]
  {
    assert 0 in kept;
    forall i | 0 <= i < |kept| ensures kept[i] == 0 { assert kept[i] in kept; }
    if |kept| >= 2 {
      FirstTwo(kept);
      assert false;
    }
  }

  lemma FirstTwo(ids: seq<nat>)
    requires Increasing(ids) && |ids| >= 2
    ensures ids[0] < ids[1]
  {}

  lemma LastByte(wire: seq<byte>, buf: seq<byte>)
    requires wire + buf == [1, 2] && |wire| <= 1 && (wire == [] ==> buf == [])
    ensures buf == [2]
  {
    assert |wire + buf| == 2;
    assert (wire + buf)[1] == buf[0];
  }

  /** The gathering sender then writes the next response, [3], before it: the connection is no longer Valid. */
  method BufferOvertaken() returns (c: Connection)
    ensures fresh(c) && c.Sound() && !c.Valid()
  {
    hide Tracked, Covered, Gathered, Rests, GatheredEnough, Gathers;
    c := OneLeftInBuffer();
    c.QueueResponse([3]);
    ghost var q := [Response(1, [3], 0)];
    assert c.queue == q && c.sbuf[..1] == [2];
    var failed, seen, offered := c.SendDataWritev(1, 1, 1, _ => false);
    OneGathered(q, seen);
    assert ([3] + [2])[0] == 3 && ([2] + [3])[0] == 2;
  }

  lemma OneGathered(q: seq<Response>, seen: nat)
    requires q == [Response(1, [3], 0)] && seen <= 1 && GatheredEnough(q, seen, _ => false, 1, 1)
    ensures Rests(Gathered(q[..seen], _ => false)) == [3]
  {
    assert q[..0] == [] && q[1..] == [];
    assert seen == 1 && q[..1] == q;
    assert Gathered(q, _ => false) == [] + q;
  }
}
