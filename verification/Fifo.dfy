/** The order of packets over whole executions: every queue hands out what went in, first in first out, and a
    response goes to the connection its request came from. */
module Fifo {
  import opened DocServer
  import opened Shutdown
  import DocServerMemory

  // ----- which packet a step is about -----

  /** The packet in the hands of worker `w`, if any. */
  function InHand(s: State, w: nat): seq<nat> { DocServerMemory.Content(s, Processing(w)) }

  /** What is left of the batch the event loop took from the output queue. */
  function Dequeued(s: State): seq<nat> { DocServerMemory.Content(s, Batch) }

  /** The packet recv_data puts into an input queue. */
  function Arrival(s: State, a: Step, insert: bool): seq<nat> { if a == AppendIn(insert) then [s.nextPkt] else [] }

  /** The packet in the hands of a worker of an input queue that has just taken one. */
  function Departure(s: State, a: Step, s': State, insert: bool): seq<nat> {
    if a.Take? && a.w < |s.workers| && s.workers[a.w].insert == insert then InHand(s', a.w) else []
  }

  /** The packet a worker puts into the output queue. */
  function Answer(s: State, a: Step): seq<nat> { if a.AppendOut? then InHand(s, a.w) else [] }

  /** The packet the event loop delivers. */
  function Delivery(s: State, a: Step): seq<nat> {
    if a.DeliverHead? && Dequeued(s) != [] then [Dequeued(s)[0]] else []
  }

  /** The packet that is delivered to connection `c` and goes to its send list. */
  function Handover(s: State, a: Step, c: nat): seq<nat> {
    var q := Delivery(s, a);
    if a == DeliverHead(true) && IsOpen(s, c) && q != [] && q[0] in s.pkts && s.pkts[q[0]].conn == c then q else []
  }

  // ----- the histories of an execution, up to its n-th state -----

  ghost function Arrived(b: seq<State>, acts: seq<Step>, n: nat, insert: bool): seq<nat>
    requires |b| == |acts| + 1 && n <= |acts|
  {
    if n == 0 then [] else Arrived(b, acts, n - 1, insert) + Arrival(b[n - 1], acts[n - 1], insert)
  }

  ghost function Departed(b: seq<State>, acts: seq<Step>, n: nat, insert: bool): seq<nat>
    requires |b| == |acts| + 1 && n <= |acts|
  {
    if n == 0 then [] else Departed(b, acts, n - 1, insert) + Departure(b[n - 1], acts[n - 1], b[n], insert)
  }

  ghost function Answered(b: seq<State>, acts: seq<Step>, n: nat): seq<nat>
    requires |b| == |acts| + 1 && n <= |acts|
  {
    if n == 0 then [] else Answered(b, acts, n - 1) + Answer(b[n - 1], acts[n - 1])
  }

  ghost function Delivered(b: seq<State>, acts: seq<Step>, n: nat): seq<nat>
    requires |b| == |acts| + 1 && n <= |acts|
  {
    if n == 0 then [] else Delivered(b, acts, n - 1) + Delivery(b[n - 1], acts[n - 1])
  }

  ghost function HandedOver(b: seq<State>, acts: seq<Step>, n: nat, c: nat): seq<nat>
    requires |b| == |acts| + 1 && n <= |acts|
  {
    if n == 0 then [] else HandedOver(b, acts, n - 1, c) + Handover(b[n - 1], acts[n - 1], c)
  }

  // ----- what the other steps leave alone -----

  lemma WorkersLeaveInput(cfg: Config, s: State, a: Step)
    requires Enabled(cfg, s, a) && (a.Process? || a.AppendOut? || a.WriteByte? || a.Quit?)
    ensures var s' := Apply(cfg, s, a); s'.insertQ == s.insertQ && s'.queryQ == s.queryQ
  {
    hide Relocate, AppendInPacket, TakeInPacket, CloseConn, Deliver, Send, CountInPacket, AcceptConn;
  }

  lemma LoopLeavesInput(cfg: Config, s: State, a: Step)
    requires Enabled(cfg, s, a) && !IsWorkerStep(a) && !IsPeerStep(a) && !a.AppendIn? && !a.DeliverHead?
    ensures var s' := Apply(cfg, s, a); s'.insertQ == s.insertQ && s'.queryQ == s.queryQ
  {
    hide Relocate, AppendInPacket, TakeInPacket, AppendOutPacket, ProcessPacket, CloseConn, Deliver, Send;
  }

  lemma WorkersLeaveOutput(cfg: Config, s: State, a: Step)
    requires Enabled(cfg, s, a) && (a.Take? || a.Process? || a.WriteByte? || a.Quit?)
    ensures var s' := Apply(cfg, s, a); s'.outQ == s.outQ && s'.main == s.main
  {
    hide Relocate, AppendInPacket, AppendOutPacket, CloseConn, Deliver, Send, CountInPacket, AcceptConn;
  }

  /** A new connection, a parsed frame and its count touch neither the output queue nor a batch. */
  lemma ReadingLeavesOutput(cfg: Config, s: State, insert: bool)
    ensures AcceptConn(cfg, s).outQ == s.outQ && AcceptConn(cfg, s).main == s.main
    ensures s.main.Parsing? ==>
              var s' := AppendInPacket(s, insert); s'.outQ == s.outQ && Dequeued(s') == [] == Dequeued(s)
    ensures s.main.Enqueued? ==> var s' := CountInPacket(s); s'.outQ == s.outQ && Dequeued(s') == [] == Dequeued(s)
  {}

  lemma LoopLeavesOutput(cfg: Config, s: State, a: Step)
    requires Enabled(cfg, s, a) && !IsWorkerStep(a) && !IsPeerStep(a) && !a.TakeBatch? && !a.DeliverHead?
    ensures var s' := Apply(cfg, s, a); s'.outQ == s.outQ && Dequeued(s') == Dequeued(s)
  {
    hide TakeInPacket, AppendOutPacket, ProcessPacket, CloseConn, Deliver, Send, TakeOutBatch;
    hide AcceptConn, AppendInPacket, CountInPacket;
    ReadingLeavesOutput(cfg, s, if a.AppendIn? then a.insert else true);
  }

  lemma WorkersLeaveLists(cfg: Config, s: State, a: Step)
    requires Enabled(cfg, s, a) && IsWorkerStep(a)
    ensures Apply(cfg, s, a).conns == s.conns
  {
    hide AppendInPacket, CloseConn, Deliver, Send, CountInPacket, AcceptConn, TakeOutBatch;
    hide TakeInPacket, ProcessPacket, AppendOutPacket, InQueue, NoNewPackets;
    if a.Take? { TakeLeaves(s, a.w); }
    if a.Process? { ProcessLeaves(s, a.w); }
    if a.AppendOut? { AppendOutLeaves(s, a.w); }
  }

  lemma TakeLeaves(s: State, w: nat)
    requires w < |s.workers| && InQueue(s, s.workers[w].insert) != []
    ensures TakeInPacket(s, w).conns == s.conns && NoNewPackets(s, TakeInPacket(s, w))
  {}

  lemma ProcessLeaves(s: State, w: nat)
    requires w < |s.workers| && s.workers[w].pc.Taken?
    ensures ProcessPacket(s, w).conns == s.conns && NoNewPackets(s, ProcessPacket(s, w))
  {}

  lemma AppendOutLeaves(s: State, w: nat)
    requires w < |s.workers| && s.workers[w].pc.Processed?
    ensures AppendOutPacket(s, w).conns == s.conns && NoNewPackets(s, AppendOutPacket(s, w))
  {}

  /** The event loop elsewhere only counts packets and adds connections with nothing to send. */
  lemma LoopLeavesLists(cfg: Config, s: State, a: Step, c: nat)
    requires Enabled(cfg, s, a) && !IsWorkerStep(a) && !IsPeerStep(a) && !a.DeliverHead?
    requires c in Apply(cfg, s, a).conns
    ensures var q := Apply(cfg, s, a).conns[c].sendList; q == [] || (c in s.conns && q == s.conns[c].sendList)
  {
    hide Relocate, TakeInPacket, AppendOutPacket, ProcessPacket, CloseConn, Deliver, Send;
  }

  // ----- input queues -----

  /** What goes into an input queue in a step comes behind what is in it, and what leaves it was in front. */
  lemma InputStep(cfg: Config, s: State, a: Step, insert: bool)
    requires Enabled(cfg, s, a)
    ensures var s' := Apply(cfg, s, a);
            InQueue(s, insert) + Arrival(s, a, insert) == Departure(s, a, s', insert) + InQueue(s', insert)
  {
    if a.AppendIn? {
      hide Relocate;
    } else if a.Take? {
      TakesFirst(s, a.w);
    } else {
      hide Apply, InHand;
      InputStays(cfg, s, a);
    }
  }

  lemma InputStays(cfg: Config, s: State, a: Step)
    requires Enabled(cfg, s, a) && !a.AppendIn? && !a.Take?
    ensures var s' := Apply(cfg, s, a); s'.insertQ == s.insertQ && s'.queryQ == s.queryQ
  {
    if a.DeliverHead? {
      hide Deliver;
      DeliverLeavesWorkers(cfg, s, a.accept);
    } else {
      hide Apply, Enabled;
      if IsPeerStep(a) {
        PeerLeavesWorkers(cfg, s, a);
      } else if IsWorkerStep(a) {
        WorkersLeaveInput(cfg, s, a);
      } else {
        LoopLeavesInput(cfg, s, a);
      }
    }
  }

  lemma TakesFirst(s: State, w: nat)
    requires w < |s.workers| && InQueue(s, s.workers[w].insert) != []
    ensures var s', insert := TakeInPacket(s, w), s.workers[w].insert;
      && InQueue(s, insert) == InHand(s', w) + InQueue(s', insert)
      && InQueue(s', !insert) == InQueue(s, !insert)
  {
    hide Relocate;
    var q := InQueue(s, s.workers[w].insert);
    assert q == [q[0]] + q[1..];
  }

  lemma Regroup(done: seq<nat>, q: seq<nat>, x: seq<nat>, y: seq<nat>, q': seq<nat>)
    requires q + x == y + q'
    ensures (done + q) + x == (done + y) + q'
  {
    assert (done + q) + x == done + (q + x);
  }

  /** Packets leave an input queue in the order they came in. */
  lemma {:induction false} InputIsFifo(cfg: Config, b: seq<State>, acts: seq<Step>, n: nat, insert: bool)
    requires Execution(cfg, b, acts) && n <= |acts|
    ensures Arrived(b, acts, n, insert) == Departed(b, acts, n, insert) + InQueue(b[n], insert)
    decreases n
  {
    hide Apply, Enabled, Departure, InQueue;
    if n == 0 {
      assert InQueue(b[0], insert) == [] by { NothingYet(b[0], insert); }
    } else {
      var s, a := b[n - 1], acts[n - 1];
      InputIsFifo(cfg, b, acts, n - 1, insert);
      InputStep(cfg, s, a, insert);
      Regroup(Departed(b, acts, n - 1, insert), InQueue(s, insert), Arrival(s, a, insert),
              Departure(s, a, b[n], insert), InQueue(b[n], insert));
    }
  }

  lemma NothingYet(s: State, insert: bool)
    requires Init(s)
    ensures InQueue(s, insert) == [] && Dequeued(s) == [] && s.outQ == []
  {}

  // ----- the output queue -----

  lemma OutputStep(cfg: Config, s: State, a: Step)
    requires Enabled(cfg, s, a)
    ensures var s' := Apply(cfg, s, a);
            Dequeued(s) + s.outQ + Answer(s, a) == Delivery(s, a) + (Dequeued(s') + s'.outQ)
  {
    if a.AppendOut? {
      hide AppendOutPacket;
      AppendsLast(s, a.w);
    } else if a.DeliverHead? {
      hide Deliver;
      DeliverLeavesWorkers(cfg, s, a.accept);
      assert s.main.rest == [s.main.rest[0]] + s.main.rest[1..];
    } else if a.TakeBatch? {
      hide TakeOutBatch;
      TakesFront(cfg, s);
    } else {
      hide Apply;
      OutputStays(cfg, s, a);
    }
  }

  lemma AppendsLast(s: State, w: nat)
    requires w < |s.workers| && s.workers[w].pc.Processed?
    ensures var s' := AppendOutPacket(s, w); s'.outQ == s.outQ + InHand(s, w) && Dequeued(s') == Dequeued(s)
  {
    hide Relocate;
  }

  lemma TakesFront(cfg: Config, s: State)
    requires s.main.Reading?
    ensures var s' := TakeOutBatch(cfg, s); Dequeued(s) == [] && s.outQ == Dequeued(s') + s'.outQ
  {
    hide Relocate;
    var n := if |s.outQ| < cfg.batch then |s.outQ| else cfg.batch;
    assert s.outQ == s.outQ[..n] + s.outQ[n..];
  }

  lemma OutputStays(cfg: Config, s: State, a: Step)
    requires Enabled(cfg, s, a) && !a.AppendOut? && !a.TakeBatch? && !a.DeliverHead?
    ensures var s' := Apply(cfg, s, a); s'.outQ == s.outQ && Dequeued(s') == Dequeued(s)
  {
    hide Apply, Enabled;
    if IsPeerStep(a) {
      PeerLeavesWorkers(cfg, s, a);
    } else if IsWorkerStep(a) {
      WorkersLeaveOutput(cfg, s, a);
    } else {
      LoopLeavesOutput(cfg, s, a);
    }
  }

  /** Responses are delivered in the order the workers put them into the output queue: those delivered so far,
      those of the batch at hand and those still queued are all that were put there, in that order. */
  lemma {:induction false} OutputIsFifo(cfg: Config, b: seq<State>, acts: seq<Step>, n: nat)
    requires Execution(cfg, b, acts) && n <= |acts|
    ensures Answered(b, acts, n) == Delivered(b, acts, n) + (Dequeued(b[n]) + b[n].outQ)
    decreases n
  {
    hide Apply, Enabled, Answer, Delivery, Dequeued;
    if n == 0 {
      NothingYet(b[0], true);
    } else {
      var s, a := b[n - 1], acts[n - 1];
      OutputIsFifo(cfg, b, acts, n - 1);
      OutputStep(cfg, s, a);
      Regroup(Delivered(b, acts, n - 1), Dequeued(s) + s.outQ, Answer(s, a),
              Delivery(s, a), Dequeued(b[n]) + b[n].outQ);
    }
  }

  // ----- send lists -----

  ghost predicate IsTail(q: seq<nat>, r: seq<nat>) { |q| <= |r| && q == r[|r| - |q|..] }

  lemma TailGrows(q: seq<nat>, r: seq<nat>, x: seq<nat>, q': seq<nat>)
    requires IsTail(q, r) && IsTail(q', q + x)
    ensures IsTail(q', r + x)
  {}

  /** Every connection of `s'` is in `s` with a send list that has lost at most packets at its front. */
  ghost predicate ListsCut(s: State, s': State) {
    forall c :: c in s'.conns ==> c in s.conns && IsTail(s'.conns[c].sendList, s.conns[c].sendList)
  }

  lemma {:induction false} DestroyLeavesConns(s: State, q: seq<nat>)
    ensures DestroyAll(s, q).conns == s.conns
    decreases |q|
  {
    if q != [] { DestroyLeavesConns(DestroyPacket(s, q[0]), q[1..]); }
  }

  lemma CloseCuts(cfg: Config, s: State, c: nat)
    ensures ListsCut(s, CloseConn(cfg, s, c))
  {
    hide DestroyAll;
    if c in s.conns {
      var k := s.conns[c];
      var s' := if k.open
                then DecreaseConnectionNum(cfg, s.(conns := s.conns[c := k.(open := false, armed := false)]))
                else s;
      DestroyLeavesConns(s', k.sendList);
    }
  }

  lemma SendCuts(s: State, c: nat, gone: nat, left: nat)
    requires IsOpen(s, c) && gone <= |s.conns[c].sendList|
    ensures ListsCut(s, Send(s, c, gone, left))
  {
    hide DestroyAll;
    var k := s.conns[c];
    var s' := s.(conns := s.conns[c := k.(sendList := k.sendList[gone..], sbytes := left, armed := left != 0)]);
    DestroyLeavesConns(s', k.sendList[..gone]);
  }

  lemma CutTwice(s: State, m: State, s': State)
    requires ListsCut(s, m) && ListsCut(m, s')
    ensures ListsCut(s, s')
  {}

  lemma PeerCuts(cfg: Config, s: State, a: Step)
    requires Enabled(cfg, s, a) && IsPeerStep(a)
    ensures ListsCut(s, Apply(cfg, s, a))
  {
    hide CloseConn, Send, ListsCut;
    match a
    case PeerClosed(c) => CloseCuts(cfg, s, c);
    case SendReady(c, gone, left) => SendCuts(s, c, gone, left);
    case SendFailed(c, gone, left) =>
      var m := Send(s, c, gone, left);
      SendCuts(s, c, gone, left);
      CloseCuts(cfg, m, c);
      CutTwice(s, m, CloseConn(cfg, m, c));
  }

  /** A delivery appends to the send list of the packet's connection, and touches no other. */
  lemma DeliverAppends(cfg: Config, s: State, accept: bool, c: nat)
    requires s.main.Delivering? && s.main.rest != [] && c in Deliver(cfg, s, accept).conns
    ensures c in s.conns
    ensures IsTail(Deliver(cfg, s, accept).conns[c].sendList,
              s.conns[c].sendList + Handover(s, DeliverHead(accept), c))
  {
    hide CloseConn, Relocate, DestroyPacket;
    var p := s.main.rest[0];
    var s0 := s.(main := Delivering(s.main.rest[1..]));
    assert c in s.conns ==> s.conns[c].sendList + [] == s.conns[c].sendList;
    if p in s.pkts {
      var d := s.pkts[p].conn;
      var s1 := Uncount(s0, d);
      UncountLeavesLists(s0, d);
      DestroyOneLeavesConns(s1, p);
      if d in s1.conns && !s1.conns[d].open {
        hide Uncount;
        CloseCuts(cfg, DestroyPacket(s1, p), d);
      }
    }
  }

  lemma UncountLeavesLists(s: State, c: nat)
    ensures var s' := Uncount(s, c);
      && s'.conns.Keys == s.conns.Keys
      && forall d :: d in s.conns ==>
           s'.conns[d].sendList == s.conns[d].sendList && s'.conns[d].open == s.conns[d].open
  {}

  lemma DestroyOneLeavesConns(s: State, p: nat)
    ensures DestroyPacket(s, p).conns == s.conns
  {}

  lemma SendListStep(cfg: Config, s: State, a: Step, c: nat)
    requires Enabled(cfg, s, a) && c in Apply(cfg, s, a).conns
    ensures var q := Apply(cfg, s, a).conns[c].sendList;
            q == [] || (c in s.conns && IsTail(q, s.conns[c].sendList + Handover(s, a, c)))
  {
    if a.DeliverHead? {
      hide Deliver, IsTail, Handover;
      DeliverAppends(cfg, s, a.accept, c);
    } else {
      hide Apply, Enabled;
      OtherListStep(cfg, s, a, c);
    }
  }

  lemma OtherListStep(cfg: Config, s: State, a: Step, c: nat)
    requires Enabled(cfg, s, a) && !a.DeliverHead? && c in Apply(cfg, s, a).conns
    ensures var q := Apply(cfg, s, a).conns[c].sendList;
            q == [] || (c in s.conns && IsTail(q, s.conns[c].sendList + []))
  {
    hide Apply, Enabled;
    assert c in s.conns ==> s.conns[c].sendList + [] == s.conns[c].sendList;
    if IsPeerStep(a) {
      PeerCuts(cfg, s, a);
    } else if IsWorkerStep(a) {
      WorkersLeaveLists(cfg, s, a);
    } else {
      LoopLeavesLists(cfg, s, a, c);
    }
  }

  /** A send list holds the last of the packets that were handed over to its connection, in that order; those
      before them have left it. */
  lemma {:induction false} SendListsAreFifo(cfg: Config, b: seq<State>, acts: seq<Step>, n: nat, c: nat)
    requires Execution(cfg, b, acts) && n <= |acts| && c in b[n].conns
    ensures IsTail(b[n].conns[c].sendList, HandedOver(b, acts, n, c))
    decreases n
  {
    hide Apply, Enabled, Handover;
    if n > 0 {
      var s, a := b[n - 1], acts[n - 1];
      var q := b[n].conns[c].sendList;
      SendListStep(cfg, s, a, c);
      if q != [] {
        SendListsAreFifo(cfg, b, acts, n - 1, c);
        TailGrows(s.conns[c].sendList, HandedOver(b, acts, n - 1, c), Handover(s, a, c), q);
      }
    }
  }

  // ----- where a packet comes from -----

  /** `p` is the packet that recv_data made of a frame of connection `c` in step `i`. */
  ghost predicate ReadFrom(b: seq<State>, acts: seq<Step>, i: nat, p: nat, c: nat)
    requires |b| == |acts| + 1
  {
    i < |acts| && acts[i].AppendIn? && b[i].nextPkt == p && b[i].main == Parsing(c)
  }

  /** Every packet of `s'` is in `s`, of the same connection. */
  ghost predicate NoNewPackets(s: State, s': State) {
    forall p :: p in s'.pkts ==> p in s.pkts && s'.pkts[p].conn == s.pkts[p].conn
  }

  lemma {:induction false} DestroyAddsNothing(s: State, q: seq<nat>)
    ensures NoNewPackets(s, DestroyAll(s, q))
    decreases |q|
  {
    if q != [] { DestroyAddsNothing(DestroyPacket(s, q[0]), q[1..]); }
  }

  lemma CloseAddsNothing(cfg: Config, s: State, c: nat)
    ensures NoNewPackets(s, CloseConn(cfg, s, c))
  {
    hide DestroyAll;
    if c in s.conns {
      var k := s.conns[c];
      var s' := if k.open
                then DecreaseConnectionNum(cfg, s.(conns := s.conns[c := k.(open := false, armed := false)]))
                else s;
      DestroyAddsNothing(s', k.sendList);
    }
  }

  lemma SendAddsNothing(s: State, c: nat, gone: nat, left: nat)
    requires IsOpen(s, c) && gone <= |s.conns[c].sendList|
    ensures NoNewPackets(s, Send(s, c, gone, left))
  {
    hide DestroyAll;
    var k := s.conns[c];
    var s' := s.(conns := s.conns[c := k.(sendList := k.sendList[gone..], sbytes := left, armed := left != 0)]);
    DestroyAddsNothing(s', k.sendList[..gone]);
  }

  lemma DeliverAddsNothing(cfg: Config, s: State, accept: bool)
    requires s.main.Delivering? && s.main.rest != []
    ensures NoNewPackets(s, Deliver(cfg, s, accept))
  {
    hide CloseConn;
    var p := s.main.rest[0];
    if p in s.pkts {
      var d := s.pkts[p].conn;
      var s1 := Uncount(s.(main := Delivering(s.main.rest[1..])), d);
      CloseAddsNothing(cfg, DestroyPacket(s1, p), d);
    }
  }

  /** Only recv_data makes packets, and each keeps its connection. */
  lemma PacketStep(cfg: Config, s: State, a: Step, p: nat)
    requires Enabled(cfg, s, a) && p in Apply(cfg, s, a).pkts
    ensures var c := Apply(cfg, s, a).pkts[p].conn;
            (p in s.pkts && s.pkts[p].conn == c) || (a.AppendIn? && p == s.nextPkt && s.main == Parsing(c))
  {
    if a.DeliverHead? {
      hide Deliver;
      DeliverAddsNothing(cfg, s, a.accept);
    } else if a.AppendIn? {
      hide Relocate;
    } else {
      hide Apply, Enabled;
      if IsPeerStep(a) {
        PeerAddsNothing(cfg, s, a);
      } else if IsWorkerStep(a) {
        WorkersAddNothing(cfg, s, a);
      } else {
        LoopAddsNothing(cfg, s, a);
      }
    }
  }

  lemma PeerAddsNothing(cfg: Config, s: State, a: Step)
    requires Enabled(cfg, s, a) && IsPeerStep(a)
    ensures NoNewPackets(s, Apply(cfg, s, a))
  {
    hide CloseConn, Send;
    match a
    case PeerClosed(c) => CloseAddsNothing(cfg, s, c);
    case SendReady(c, gone, left) => SendAddsNothing(s, c, gone, left);
    case SendFailed(c, gone, left) =>
      SendAddsNothing(s, c, gone, left);
      CloseAddsNothing(cfg, Send(s, c, gone, left), c);
  }

  lemma WorkersAddNothing(cfg: Config, s: State, a: Step)
    requires Enabled(cfg, s, a) && IsWorkerStep(a)
    ensures NoNewPackets(s, Apply(cfg, s, a))
  {
    hide AppendInPacket, CloseConn, Deliver, Send, CountInPacket, AcceptConn, TakeOutBatch;
    hide TakeInPacket, ProcessPacket, AppendOutPacket, InQueue;
    if a.Take? { TakeLeaves(s, a.w); }
    if a.Process? { ProcessLeaves(s, a.w); }
    if a.AppendOut? { AppendOutLeaves(s, a.w); }
  }

  lemma LoopAddsNothing(cfg: Config, s: State, a: Step)
    requires Enabled(cfg, s, a) && !IsWorkerStep(a) && !IsPeerStep(a) && !a.DeliverHead? && !a.AppendIn?
    ensures NoNewPackets(s, Apply(cfg, s, a))
  {
    hide TakeInPacket, AppendOutPacket, ProcessPacket, CloseConn, Deliver, Send;
  }

  /** Every packet was read from the connection it belongs to. */
  lemma {:induction false} PacketsHaveAnOrigin(cfg: Config, b: seq<State>, acts: seq<Step>, n: nat, p: nat)
    returns (i: nat)
    requires Execution(cfg, b, acts) && n <= |acts| && p in b[n].pkts
    ensures i < n && ReadFrom(b, acts, i, p, b[n].pkts[p].conn)
    decreases n
  {
    hide Apply, Enabled;
    var s, a := b[n - 1], acts[n - 1];
    PacketStep(cfg, s, a, p);
    if p in s.pkts && s.pkts[p].conn == b[n].pkts[p].conn {
      i := PacketsHaveAnOrigin(cfg, b, acts, n - 1, p);
    } else {
      i := n - 1;
    }
  }

  lemma {:induction false} HandedOverFrom(cfg: Config, b: seq<State>, acts: seq<Step>, n: nat, c: nat, p: nat)
    returns (i: nat)
    requires Execution(cfg, b, acts) && n <= |acts| && p in HandedOver(b, acts, n, c)
    ensures i < n && ReadFrom(b, acts, i, p, c)
    decreases n
  {
    hide Apply, Enabled;
    if p in HandedOver(b, acts, n - 1, c) {
      i := HandedOverFrom(cfg, b, acts, n - 1, c, p);
    } else {
      i := PacketsHaveAnOrigin(cfg, b, acts, n - 1, p);
    }
  }

  /** A response waits only on the connection its request was read from. */
  lemma ResponsesGoHome(cfg: Config, b: seq<State>, acts: seq<Step>, n: nat, c: nat, p: nat) returns (i: nat)
    requires Execution(cfg, b, acts) && n <= |acts| && c in b[n].conns && p in b[n].conns[c].sendList
    ensures i < n && ReadFrom(b, acts, i, p, c)
  {
    hide HandedOver, Apply, Enabled;
    SendListsAreFifo(cfg, b, acts, n, c);
    assert p in HandedOver(b, acts, n, c);
    i := HandedOverFrom(cfg, b, acts, n, c, p);
  }
}
