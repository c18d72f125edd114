/** What every interleaving of the packet pipeline keeps, and what follows from it. */
module DocServerSafety {
  import opened DocServer
  import opened DocServerMemory

  /** An open connection's write event is registered exactly when it has something to send. */
  ghost predicate Armed(s: State) {
    forall c :: c in s.conns ==>
      (s.conns[c].armed <==> s.conns[c].open && (s.conns[c].sbytes > 0 || s.conns[c].sendList != []))
  }

  ghost function OpenConns(s: State): set<nat> { set c | c in s.conns && s.conns[c].open }

  ghost predicate Listening(cfg: Config, s: State) {
    s.total == |OpenConns(s)| && s.total <= cfg.maxConn && (s.listening <==> s.total < cfg.maxConn)
  }

  /** Workers that have appended a packet and not yet written the byte for it. */
  ghost function BetweenAppendAndWrite(s: State): set<nat> {
    set w | 0 <= w < |s.workers| && s.workers[w].pc.Appended?
  }

  function BytesInHand(s: State): nat { if s.main.Reading? then s.main.num else 0 }

  ghost predicate Notified(cfg: Config, s: State) {
    |s.outQ| <= s.pipe + |BetweenAppendAndWrite(s)| + BytesInHand(s) && BytesInHand(s) <= cfg.batch
  }

  ghost predicate Inv(cfg: Config, s: State) {
    MemoryInv(s) && Armed(s) && Listening(cfg, s) && Notified(cfg, s)
  }

  lemma InitInv(cfg: Config, s: State)
    requires ValidConfig(cfg) && Init(s)
    ensures Inv(cfg, s)
  {
    assert OpenConns(s) == {};
    forall loc ensures Linked(Content(s, loc), s.pkts, loc) {
      assert Content(s, loc) == [];
    }
  }

  // ----- connections -----

  lemma CloseKeeps(cfg: Config, s: State, c: nat)
    requires Placed(s) && c in s.conns && Armed(s) && Listening(cfg, s)
    ensures Armed(CloseConn(cfg, s, c)) && Listening(cfg, CloseConn(cfg, s, c))
  {
    CloseResult(cfg, s, c);
    hide CloseConn, Placed;
    var s' := CloseConn(cfg, s, c);
    assert OpenConns(s') == OpenConns(s) - {c};
  }

  lemma SendKeeps(cfg: Config, s: State, c: nat, gone: nat, left: nat)
    requires Placed(s) && IsOpen(s, c) && SendEffect(|s.conns[c].sendList|, gone, left) && Armed(s) && Listening(cfg, s)
    ensures Armed(Send(s, c, gone, left)) && Listening(cfg, Send(s, c, gone, left))
  {
    SendResult(s, c, gone, left);
    hide Send, Placed;
    assert OpenConns(Send(s, c, gone, left)) == OpenConns(s);
  }

  /** Nothing about open connections, their event registrations or the listen event changed. */
  lemma SameConnections(cfg: Config, s: State, s': State)
    requires Armed(s) && Listening(cfg, s)
    requires s'.conns == s.conns && s'.total == s.total && s'.listening == s.listening
    ensures Armed(s') && Listening(cfg, s')
  {
    assert OpenConns(s') == OpenConns(s);
  }

  lemma UpdateKeeps(cfg: Config, s: State, s': State, c: nat)
    requires Armed(s) && Listening(cfg, s) && c in s.conns && c in s'.conns
    requires s'.conns == s.conns[c := s'.conns[c]] && s'.conns[c].open == s.conns[c].open
    requires s'.conns[c].armed <==> s'.conns[c].open && (s'.conns[c].sbytes > 0 || s'.conns[c].sendList != [])
    requires s'.total == s.total && s'.listening == s.listening
    ensures Armed(s') && Listening(cfg, s')
  {
    assert OpenConns(s') == OpenConns(s);
  }

  lemma AcceptKeeps(cfg: Config, s: State)
    requires Armed(s) && Listening(cfg, s) && s.listening && s.nextConn !in s.conns
    ensures Armed(AcceptConn(cfg, s)) && Listening(cfg, AcceptConn(cfg, s))
  {
    assert OpenConns(AcceptConn(cfg, s)) == OpenConns(s) + {s.nextConn};
  }

  lemma DeliverKeeps(cfg: Config, s: State, accept: bool)
    requires MemoryInv(s) && s.main.Delivering? && s.main.rest != [] && Armed(s) && Listening(cfg, s)
    ensures Armed(Deliver(cfg, s, accept)) && Listening(cfg, Deliver(cfg, s, accept))
  {
    hide MemoryInv, Deliver, CloseConn, Listening, Armed;
    HeadIsLive(s);
    var p := s.main.rest[0];
    var c := s.pkts[p].conn;
    var k := s.conns[c];
    DeliverResult(cfg, s, accept);
    ArmedAt(s, c);
    if !k.open {
      var s1 := Dropped(s, p, c);
      UpdateKeeps(cfg, s, s1, c);
      DropHead(s, s1, p, c);
      CloseKeeps(cfg, s1, c);
    } else {
      UpdateKeeps(cfg, s, Deliver(cfg, s, accept), c);
    }
  }

  lemma ArmedAt(s: State, c: nat)
    requires Armed(s) && c in s.conns
    ensures s.conns[c].armed <==> s.conns[c].open && (s.conns[c].sbytes > 0 || s.conns[c].sendList != [])
  {}

  /** The head of the batch freed and uncounted. */
  ghost function Dropped(s: State, p: nat, c: nat): State
    requires s.main.Delivering? && s.main.rest != [] && c in s.conns && s.conns[c].packetNum > 0
  {
    s.(main := Delivering(s.main.rest[1..]), pkts := s.pkts - {p},
       conns := s.conns[c := s.conns[c].(packetNum := s.conns[c].packetNum - 1)])
  }

  /** What delivering does to the connections: to a closed one it is a drop and a close. */
  lemma DeliverResult(cfg: Config, s: State, accept: bool)
    requires s.main.Delivering? && s.main.rest != [] && s.main.rest[0] in s.pkts
    requires var c := s.pkts[s.main.rest[0]].conn; c in s.conns && s.conns[c].packetNum > 0
    ensures var p, s' := s.main.rest[0], Deliver(cfg, s, accept);
      var c := s.pkts[p].conn;
      var k := s.conns[c];
      if !k.open then s' == CloseConn(cfg, Dropped(s, p, c), c)
      else
        && c in s'.conns && s'.conns == s.conns[c := s'.conns[c]] && s'.conns[c].open
        && s'.total == s.total && s'.listening == s.listening && s'.conns[c].sbytes == k.sbytes
        && s'.conns[c].sendList == (if accept then k.sendList + [p] else k.sendList)
        && s'.conns[c].armed == (k.armed || (accept && k.sendList == [] && k.sbytes == 0))
  {
    hide CloseConn, Relocate;
  }

  lemma CountKeeps(cfg: Config, s: State)
    requires Armed(s) && Listening(cfg, s) && s.main.Enqueued? && s.main.c in s.conns
    ensures Armed(CountInPacket(s)) && Listening(cfg, CountInPacket(s))
  {
    hide Listening;
    UpdateKeeps(cfg, s, CountInPacket(s), s.main.c);
  }

  lemma MemoryFacts(s: State)
    requires MemoryInv(s)
    ensures Placed(s) && s.nextConn !in s.conns && (s.main.Enqueued? ==> s.main.c in s.conns)
  {
    hide Placed, CountsAgree;
  }

  lemma ConnectionStep(cfg: Config, s: State, a: Step)
    requires MemoryInv(s) && Armed(s) && Listening(cfg, s) && Enabled(cfg, s, a)
    ensures Armed(Apply(cfg, s, a)) && Listening(cfg, Apply(cfg, s, a))
  {
    hide MemoryInv, Placed, Listening, Armed, Send, CloseConn, Deliver, AcceptConn, Relocate;
    var s' := Apply(cfg, s, a);
    MemoryFacts(s);
    match a {
      case Accept => AcceptKeeps(cfg, s);
      case PeerClosed(c) => CloseKeeps(cfg, s, c);
      case CountPacket => CountKeeps(cfg, s);
      case DeliverHead(accept) => DeliverKeeps(cfg, s, accept);
      case SendReady(c, gone, left) => SendKeeps(cfg, s, c, gone, left);
      case SendFailed(c, gone, left) =>
        SendKeeps(cfg, s, c, gone, left);
        SendMemory(s, c, gone, left);
        MemoryFacts(Send(s, c, gone, left));
        CloseKeeps(cfg, Send(s, c, gone, left), c);
      case _ => SameConnections(cfg, s, s');
    }
  }

  // ----- wake-ups -----

  /** The output queue, the pipe and the workers stay, and no bytes are in hand before or after. */
  lemma SameNotified(cfg: Config, s: State, s': State)
    requires Notified(cfg, s) && !s.main.Reading? && !s'.main.Reading?
    requires s'.outQ == s.outQ && s'.pipe == s.pipe && s'.workers == s.workers
    ensures Notified(cfg, s')
  {
    assert BetweenAppendAndWrite(s') == BetweenAppendAndWrite(s);
  }

  lemma DeliverFrame(cfg: Config, s: State, accept: bool)
    requires MemoryInv(s) && s.main.Delivering? && s.main.rest != []
    ensures var s' := Deliver(cfg, s, accept);
            s'.outQ == s.outQ && s'.pipe == s.pipe && s'.workers == s.workers && s'.main.Delivering?
  {
    HeadIsLive(s);
    var p := s.main.rest[0];
    var c := s.pkts[p].conn;
    var k := s.conns[c];
    hide MemoryInv, Relocate, CloseConn;
    if !k.open {
      var s1 := s.(main := Delivering(s.main.rest[1..]), pkts := s.pkts - {p},
                   conns := s.conns[c := k.(packetNum := k.packetNum - 1)]);
      DropHead(s, s1, p, c);
      CloseResult(cfg, s1, c);
    }
  }

  lemma SendFrame(cfg: Config, s: State, c: nat, gone: nat, left: nat)
    requires MemoryInv(s) && IsOpen(s, c) && gone <= |s.conns[c].sendList|
    ensures var s' := Send(s, c, gone, left);
            s'.outQ == s.outQ && s'.pipe == s.pipe && s'.workers == s.workers && s'.main == s.main
    ensures var s' := CloseConn(cfg, Send(s, c, gone, left), c);
            s'.outQ == s.outQ && s'.pipe == s.pipe && s'.workers == s.workers && s'.main == s.main
  {
    SendMemory(s, c, gone, left);
    assert Placed(s);
    SendResult(s, c, gone, left);
    CloseResult(cfg, Send(s, c, gone, left), c);
  }

  function Owes(w: Worker): nat { if w.pc.Appended? then 1 else 0 }

  /** One worker moves; what it appends, writes and still owes balances. */
  lemma OneWorkerNotified(cfg: Config, s: State, s': State, w: nat)
    requires Notified(cfg, s) && s'.main == s.main && w < |s.workers| && |s'.workers| == |s.workers|
    requires s'.workers == s.workers[w := s'.workers[w]]
    requires |s'.outQ| + s.pipe + Owes(s.workers[w]) <= |s.outQ| + s'.pipe + Owes(s'.workers[w])
    ensures Notified(cfg, s')
  {
    if s'.workers[w].pc.Appended? {
      assert BetweenAppendAndWrite(s') == BetweenAppendAndWrite(s) + {w};
    } else {
      assert BetweenAppendAndWrite(s') == BetweenAppendAndWrite(s) - {w};
    }
  }

  lemma WorkerNotified(cfg: Config, s: State, a: Step)
    requires Notified(cfg, s) && Enabled(cfg, s, a)
    requires a.Take? || a.Process? || a.AppendOut? || a.WriteByte? || a.Quit?
    ensures Notified(cfg, Apply(cfg, s, a))
  {
    hide Relocate, Notified;
    OneWorkerNotified(cfg, s, Apply(cfg, s, a), a.w);
  }

  lemma PipeNotified(cfg: Config, s: State, a: Step)
    requires Notified(cfg, s) && Enabled(cfg, s, a)
    requires a.PipeReadable? || a.ReadPipe? || a.TakeBatch? || a.RequestStop?
    ensures Notified(cfg, Apply(cfg, s, a))
  {
    hide Relocate;
    var s' := Apply(cfg, s, a);
    assert s'.workers == s.workers;
    assert BetweenAppendAndWrite(s') == BetweenAppendAndWrite(s);
  }

  lemma NotifiedStep(cfg: Config, s: State, a: Step)
    requires MemoryInv(s) && Notified(cfg, s) && Enabled(cfg, s, a)
    ensures Notified(cfg, Apply(cfg, s, a))
  {
    hide Notified, Relocate, Deliver, CloseConn, Send;
    var s' := Apply(cfg, s, a);
    match a {
      case Take(_) | Process(_) | AppendOut(_) | WriteByte(_) | Quit(_) => WorkerNotified(cfg, s, a);
      case PipeReadable | ReadPipe(_) | TakeBatch | RequestStop => PipeNotified(cfg, s, a);
      case DeliverHead(accept) => DeliverFrame(cfg, s, accept); SameNotified(cfg, s, s');
      case PeerClosed(c) => CloseResult(cfg, s, c); SameNotified(cfg, s, s');
      case SendReady(c, gone, left) => SendFrame(cfg, s, c, gone, left); SameNotified(cfg, s, s');
      case SendFailed(c, gone, left) => SendFrame(cfg, s, c, gone, left); SameNotified(cfg, s, s');
      case _ => SameNotified(cfg, s, s');
    }
  }

  // ----- all together -----

  lemma CloseOpenMemory(cfg: Config, s: State, c: nat)
    requires MemoryInv(s) && IsOpen(s, c) && s.main.EventLoop?
    ensures MemoryInv(CloseConn(cfg, s, c))
  {
    hide Placed, Owned, CountsAgree;
    CloseMemory(cfg, s, c);
  }

  lemma QuietMemory(cfg: Config, s: State, a: Step)
    requires MemoryInv(s) && Enabled(cfg, s, a)
    requires || a.BeginParse? || a.EndParse? || a.PipeReadable? || a.ReadPipe? || a.EndBatch?
             || a.RequestStop? || a.LeaveLoop? || a.WriteByte? || a.Quit?
    ensures MemoryInv(Apply(cfg, s, a))
  {
    hide MemoryInv, Relocate, Deliver, CloseConn, Send,
         AcceptConn, AppendInPacket, CountInPacket, TakeInPacket, ProcessPacket, AppendOutPacket, TakeOutBatch;
    var s' := Apply(cfg, s, a);
    assert forall loc :: Content(s', loc) == Content(s, loc);
    IdleMemory(s, s');
  }

  lemma MemoryStep(cfg: Config, s: State, a: Step)
    requires MemoryInv(s) && Enabled(cfg, s, a)
    ensures MemoryInv(Apply(cfg, s, a))
  {
    hide MemoryInv, Relocate, Deliver, CloseConn, Send,
         AcceptConn, AppendInPacket, CountInPacket, TakeInPacket, ProcessPacket, AppendOutPacket, TakeOutBatch;
    match a {
      case Accept => AcceptMemory(cfg, s);
      case PeerClosed(c) => CloseOpenMemory(cfg, s, c);
      case AppendIn(insert) => AppendInMemory(s, insert);
      case CountPacket => CountPacketMemory(s);
      case TakeBatch => TakeBatchMemory(cfg, s);
      case DeliverHead(accept) => DeliverMemory(cfg, s, accept);
      case SendReady(c, gone, left) => SendMemory(s, c, gone, left);
      case SendFailed(c, gone, left) =>
        SendMemory(s, c, gone, left);
        CloseOpenMemory(cfg, Send(s, c, gone, left), c);
      case Take(w) => TakeMemory(cfg, s, w);
      case Process(w) => ProcessMemory(cfg, s, w);
      case AppendOut(w) => AppendOutMemory(cfg, s, w);
      case _ => QuietMemory(cfg, s, a);
    }
  }

  lemma InvStep(cfg: Config, s: State, a: Step)
    requires Inv(cfg, s) && Enabled(cfg, s, a)
    ensures Inv(cfg, Apply(cfg, s, a))
  {
    hide MemoryInv, Armed, Listening, Notified, Apply;
    MemoryStep(cfg, s, a);
    ConnectionStep(cfg, s, a);
    NotifiedStep(cfg, s, a);
  }

  /** Every state of every execution satisfies the invariant. */
  lemma {:induction false} EveryState(cfg: Config, b: seq<State>, acts: seq<Step>, i: nat)
    requires ValidConfig(cfg) && Execution(cfg, b, acts) && i <= |acts|
    ensures Inv(cfg, b[i])
  {
    if i == 0 {
      InitInv(cfg, b[0]);
    } else {
      EveryState(cfg, b, acts, i - 1);
      assert Enabled(cfg, b[i - 1], acts[i - 1]) && b[i - 1 + 1] == Apply(cfg, b[i - 1], acts[i - 1]);
      hide Inv, Init, Enabled, Apply;
      InvStep(cfg, b[i - 1], acts[i - 1]);
    }
  }

  // ----- what follows -----

  predicate InHands(s: State, w: nat, p: nat) {
    w < |s.workers| && (s.workers[w].pc.Taken? || s.workers[w].pc.Processed?) && s.workers[w].pc.p == p
  }

  /** The packets of `c` in the two input queues, in processing, in the output queue or in a dequeued batch,
      read off the queues and the workers alone. */
  ghost function InFlight(s: State, c: nat): set<nat> {
    set p | p in s.pkts && s.pkts[p].conn == c &&
            (p in s.insertQ || p in s.queryQ || p in s.outQ || (s.main.Delivering? && p in s.main.rest)
             || exists w :: InHands(s, w, p))
  }

  lemma InFlightIsOutstanding(s: State, c: nat)
    requires Placed(s)
    ensures InFlight(s, c) == Outstanding(s.pkts, c)
  {
    forall p | p in s.pkts && s.pkts[p].conn == c ensures p in InFlight(s, c) <==> p in Outstanding(s.pkts, c) {
      var loc := s.pkts[p].loc;
      assert Linked(Content(s, loc), s.pkts, loc);
      assert forall l :: p in Content(s, l) ==> l == loc by {
        forall l ensures p in Content(s, l) ==> l == loc { assert Linked(Content(s, l), s.pkts, l); }
      }
      hide Placed, Linked;
      if loc.Processing? { assert InHands(s, loc.worker, p); }
      assert p in Content(s, loc);
      assert p in s.insertQ <==> p in Content(s, InsertQueue);
      assert p in s.queryQ <==> p in Content(s, QueryQueue);
      assert p in s.outQ <==> p in Content(s, OutQueue);
      assert s.main.Delivering? && p in s.main.rest <==> p in Content(s, Batch);
      forall w: nat ensures InHands(s, w, p) <==> p in Content(s, Processing(w)) {}
    }
  }

  /** The reference count is the number of packets in flight, in every state outside recv_data's window;
      nothing allocated refers to freed memory, and no memory error has happened. */
  lemma CountIsPacketsInFlight(cfg: Config, b: seq<State>, acts: seq<Step>, i: nat, c: nat)
    requires ValidConfig(cfg) && Execution(cfg, b, acts) && i <= |acts| && c in b[i].conns
    ensures !b[i].fault
    ensures !b[i].main.Enqueued? ==> b[i].conns[c].packetNum == |InFlight(b[i], c)|
    ensures forall p :: p in b[i].pkts ==> b[i].pkts[p].conn in b[i].conns
  {
    EveryState(cfg, b, acts, i);
    InFlightIsOutstanding(b[i], c);
  }

  /** Once closed, a connection is allocated exactly as long as packets of it are in flight. */
  lemma ClosedIsFreedWithLastPacket(cfg: Config, b: seq<State>, acts: seq<Step>, i: nat, c: nat)
    requires ValidConfig(cfg) && Execution(cfg, b, acts) && i <= |acts|
    requires c < b[i].nextConn && !IsOpen(b[i], c)
    ensures c in b[i].conns <==> InFlight(b[i], c) != {}
  {
    EveryState(cfg, b, acts, i);
    InFlightIsOutstanding(b[i], c);
    hide Placed;
    if c in b[i].conns {
      assert b[i].conns[c].packetNum == |Outstanding(b[i].pkts, c)|;
    }
  }

  /** A packet waiting in the output queue has a byte in the pipe, or its producer is about to write one. */
  lemma NoLostWakeUp(cfg: Config, b: seq<State>, acts: seq<Step>, i: nat)
    requires ValidConfig(cfg) && Execution(cfg, b, acts) && i <= |acts|
    requires b[i].outQ != [] && b[i].main.EventLoop?
    ensures Enabled(cfg, b[i], PipeReadable) || exists w :: Enabled(cfg, b[i], WriteByte(w))
  {
    EveryState(cfg, b, acts, i);
    hide MemoryInv;
    if b[i].pipe == 0 {
      var w :| w in BetweenAppendAndWrite(b[i]);
      assert Enabled(cfg, b[i], WriteByte(w));
    }
  }

  /** A running server whose threads all wait, with nothing readable, has no packet in flight and has
      freed every closed connection. */
  lemma QuietMeansClean(cfg: Config, b: seq<State>, acts: seq<Step>, i: nat)
    requires ValidConfig(cfg) && Execution(cfg, b, acts) && i <= |acts|
    requires b[i].running && b[i].main.EventLoop? && b[i].pipe == 0
    requires forall w :: 0 <= w < |b[i].workers| ==> b[i].workers[w].pc.Waiting? && !Enabled(cfg, b[i], Take(w))
    requires exists w :: 0 <= w < |b[i].workers| && b[i].workers[w].insert
    requires exists w :: 0 <= w < |b[i].workers| && !b[i].workers[w].insert
    ensures forall c :: c in b[i].conns ==> b[i].conns[c].open && b[i].conns[c].packetNum == 0
  {
    var s := b[i];
    EveryState(cfg, b, acts, i);
    assert s.outQ == [] by { hide MemoryInv; assert BetweenAppendAndWrite(s) == {}; }
    var v :| 0 <= v < |s.workers| && s.workers[v].insert;
    var w :| 0 <= w < |s.workers| && !s.workers[w].insert;
    assert !Enabled(cfg, s, Take(v)) && !Enabled(cfg, s, Take(w));
    forall c | c in s.conns ensures s.conns[c].open && s.conns[c].packetNum == 0 {
      CountIsPacketsInFlight(cfg, b, acts, i, c);
      hide MemoryInv;
      assert InFlight(s, c) == {};
    }
  }
}
