/** Packet and connection lifetime: placement, reference counts, and the absence of memory errors. */
module DocServerMemory {
  import opened DocServer
  import opened Sequences

  /** The packets linked at `loc`, read off the real queues. */
  function Content(s: State, loc: Loc): seq<nat> {
    match loc
    case InsertQueue => s.insertQ
    case QueryQueue => s.queryQ
    case OutQueue => s.outQ
    case Batch => if s.main.Delivering? then s.main.rest else []
    case SendList(c) => if c in s.conns then s.conns[c].sendList else []
    case Processing(w) =>
      if w < |s.workers| && (s.workers[w].pc.Taken? || s.workers[w].pc.Processed?) then [s.workers[w].pc.p] else []
  }

  function Elems(q: seq<nat>): set<nat> { set p | p in q }

  /** `q` holds exactly the packets marked `loc`, each once. */
  ghost predicate Linked(q: seq<nat>, pkts: map<nat, Packet>, loc: Loc) {
    Distinct(q) && forall p :: p in q <==> p in pkts && pkts[p].loc == loc
  }

  /** Queues and allocated packets correspond one to one: every linked packet is allocated and linked
      nowhere else, and every allocated packet is linked. */
  ghost predicate Placed(s: State) {
    forall loc :: Linked(Content(s, loc), s.pkts, loc)
  }

  /** Every allocated packet belongs to an allocated connection; identities are never reused. */
  ghost predicate Owned(s: State) {
    && (forall p :: p in s.pkts ==> p < s.nextPkt && s.pkts[p].conn in s.conns)
    && (forall p :: p in s.pkts && s.pkts[p].loc.SendList? ==> s.pkts[p].loc.conn == s.pkts[p].conn)
    && (forall c :: c in s.conns ==> c < s.nextConn)
  }

  /** The packets of `c` in an input queue, in processing, in the output queue or in a dequeued batch. */
  ghost function Outstanding(pkts: map<nat, Packet>, c: nat): set<nat> {
    set p | p in pkts && pkts[p].conn == c && !pkts[p].loc.SendList?
  }

  /** One packet may be appended and not yet counted, while recv_data is between the two. */
  function Uncounted(s: State, c: nat): nat { if s.main == Enqueued(c) then 1 else 0 }

  ghost predicate CountsAgree(s: State) {
    forall c :: c in s.conns ==> s.conns[c].packetNum + Uncounted(s, c) == |Outstanding(s.pkts, c)|
  }

  /** A closed connection is kept only for its packets, and recv_data works on an open one. */
  ghost predicate Kept(s: State) {
    && (forall c :: c in s.conns && !s.conns[c].open ==> s.conns[c].packetNum > 0)
    && (s.main.Parsing? || s.main.Enqueued? ==> IsOpen(s, s.main.c))
  }

  ghost predicate MemoryInv(s: State) {
    !s.fault && Placed(s) && Owned(s) && CountsAgree(s) && Kept(s)
  }

  // ----- placement -----

  lemma LinkedElsewhere(q: seq<nat>, pkts: map<nat, Packet>, pkts': map<nat, Packet>, loc: Loc)
    requires Linked(q, pkts, loc)
    requires forall p :: p in pkts && pkts[p].loc == loc <==> p in pkts' && pkts'[p].loc == loc
    ensures Linked(q, pkts', loc)
  {}

  lemma DistinctParts(q: seq<nat>, k: nat)
    requires Distinct(q) && k <= |q|
    ensures Distinct(q[..k]) && Distinct(q[k..])
    ensures forall p :: p in q <==> p in q[..k] || p in q[k..]
    ensures forall p :: p in q[..k] ==> p !in q[k..]
  {
    assert q == q[..k] + q[k..];
  }

  lemma DistinctConcat(q: seq<nat>, r: seq<nat>)
    requires Distinct(q) && Distinct(r) && forall p :: p in r ==> p !in q
    ensures Distinct(q + r)
  {
    forall i, j | 0 <= i < j < |q + r| ensures (q + r)[i] != (q + r)[j] {
      if i < |q| <= j { assert r[j - |q|] in r; }
    }
  }

  /** The parts of a linked queue, when its first k packets leave. */
  lemma LinkedParts(q: seq<nat>, k: nat, pkts: map<nat, Packet>, loc: Loc)
    requires Linked(q, pkts, loc) && k <= |q|
    ensures Distinct(q[..k]) && Distinct(q[k..])
    ensures forall p :: p in q[..k] ==> p in pkts && pkts[p].loc == loc
    ensures forall p :: p in q[k..] <==> p in pkts && pkts[p].loc == loc && p !in q[..k]
  {
    DistinctParts(q, k);
  }

  lemma LinkedAppend(q: seq<nat>, more: seq<nat>, pkts: map<nat, Packet>, pkts': map<nat, Packet>, loc: Loc)
    requires Linked(q, pkts, loc) && Distinct(more)
    requires forall p :: p in more ==> p !in pkts || pkts[p].loc != loc
    requires forall p :: p in pkts' && pkts'[p].loc == loc <==> (p in pkts && pkts[p].loc == loc) || p in more
    ensures Linked(q + more, pkts', loc)
  {
    DistinctConcat(q, more);
  }

  /** Unlinking a prefix of one queue and freeing it. */
  lemma CutPlaced(s: State, s': State, at: Loc, k: nat)
    requires Placed(s) && k <= |Content(s, at)|
    requires Content(s', at) == Content(s, at)[k..]
    requires forall loc :: loc != at ==> Content(s', loc) == Content(s, loc)
    requires s'.pkts == s.pkts - Elems(Content(s, at)[..k])
    ensures Placed(s')
  {
    forall loc ensures Linked(Content(s', loc), s'.pkts, loc) {
      assert Linked(Content(s, loc), s.pkts, loc) && Linked(Content(s, at), s.pkts, at);
      LinkedParts(Content(s, at), k, s.pkts, at);
      if loc != at { LinkedElsewhere(Content(s, loc), s.pkts, s'.pkts, loc); }
    }
  }

  /** Moving a prefix of one queue to the end of another. */
  lemma MovePlaced(s: State, s': State, from: Loc, k: nat, to: Loc)
    requires Placed(s) && k <= |Content(s, from)| && from != to
    requires Content(s', from) == Content(s, from)[k..]
    requires Content(s', to) == Content(s, to) + Content(s, from)[..k]
    requires forall loc :: loc != from && loc != to ==> Content(s', loc) == Content(s, loc)
    requires s'.pkts == Relocate(s.pkts, Content(s, from)[..k], to)
    ensures Placed(s')
  {
    hide Content;
    var q := Content(s, from);
    assert Linked(q, s.pkts, from);
    LinkedParts(q, k, s.pkts, from);
    forall loc ensures Linked(Content(s', loc), s'.pkts, loc) {
      assert Linked(Content(s, loc), s.pkts, loc);
      hide Placed;
      if loc == from {
      } else if loc == to {
        LinkedAppend(Content(s, to), q[..k], s.pkts, s'.pkts, to);
      } else {
        LinkedElsewhere(Content(s, loc), s.pkts, s'.pkts, loc);
      }
    }
  }

  /** Linking a new packet at the end of a queue. */
  lemma NewPlaced(s: State, s': State, at: Loc, p: nat, c: nat)
    requires Placed(s) && p !in s.pkts
    requires Content(s', at) == Content(s, at) + [p]
    requires forall loc :: loc != at ==> Content(s', loc) == Content(s, loc)
    requires s'.pkts == s.pkts[p := Packet(c, at)]
    ensures Placed(s')
  {
    forall loc ensures Linked(Content(s', loc), s'.pkts, loc) {
      assert Linked(Content(s, loc), s.pkts, loc);
      if loc == at {
        LinkedAppend(Content(s, at), [p], s.pkts, s'.pkts, at);
      } else {
        LinkedElsewhere(Content(s, loc), s.pkts, s'.pkts, loc);
      }
    }
  }

  // ----- counts -----

  /** Moving packets between places that count leaves every count. */
  lemma RelocateCounts(pkts: map<nat, Packet>, moved: seq<nat>, loc: Loc)
    requires !loc.SendList? && forall p :: p in moved && p in pkts ==> !pkts[p].loc.SendList?
    ensures forall c :: Outstanding(Relocate(pkts, moved, loc), c) == Outstanding(pkts, c)
  {}

  /** A packet that goes to its connection's send list stops counting for it and for no other. */
  lemma HandOverCounts(pkts: map<nat, Packet>, p: nat, c: nat)
    requires p in pkts && pkts[p].conn == c && !pkts[p].loc.SendList?
    ensures forall d :: |Outstanding(Relocate(pkts, [p], SendList(c)), d)|
              == |Outstanding(pkts, d)| - if d == c then 1 else 0
  {
    forall d ensures |Outstanding(Relocate(pkts, [p], SendList(c)), d)|
        == |Outstanding(pkts, d)| - if d == c then 1 else 0 {
      if d == c {
        assert Outstanding(pkts, d) == Outstanding(Relocate(pkts, [p], SendList(c)), d) + {p};
      } else {
        assert Outstanding(pkts, d) == Outstanding(Relocate(pkts, [p], SendList(c)), d);
      }
    }
  }

  lemma DestroyCounts(pkts: map<nat, Packet>, p: nat)
    requires p in pkts && !pkts[p].loc.SendList?
    ensures forall d :: |Outstanding(pkts - {p}, d)| == |Outstanding(pkts, d)| - if d == pkts[p].conn then 1 else 0
  {
    forall d ensures |Outstanding(pkts - {p}, d)| == |Outstanding(pkts, d)| - if d == pkts[p].conn then 1 else 0 {
      if d == pkts[p].conn {
        assert Outstanding(pkts, d) == Outstanding(pkts - {p}, d) + {p};
      } else {
        assert Outstanding(pkts, d) == Outstanding(pkts - {p}, d);
      }
    }
  }

  lemma NewCounts(pkts: map<nat, Packet>, p: nat, c: nat, loc: Loc)
    requires p !in pkts && !loc.SendList?
    ensures forall d :: |Outstanding(pkts[p := Packet(c, loc)], d)| == |Outstanding(pkts, d)| + if d == c then 1 else 0
  {
    forall d ensures |Outstanding(pkts[p := Packet(c, loc)], d)| == |Outstanding(pkts, d)| + if d == c then 1 else 0 {
      if d == c {
        assert Outstanding(pkts[p := Packet(c, loc)], d) == Outstanding(pkts, d) + {p};
      } else {
        assert Outstanding(pkts[p := Packet(c, loc)], d) == Outstanding(pkts, d);
      }
    }
  }

  /** Freeing packets of a send list counts for nobody. */
  lemma SendListCounts(pkts: map<nat, Packet>, gone: set<nat>)
    requires forall p :: p in gone && p in pkts ==> pkts[p].loc.SendList?
    ensures forall c :: Outstanding(pkts - gone, c) == Outstanding(pkts, c)
  {}

  // ----- destroying -----

  lemma {:induction false} DestroyAllEffect(s: State, q: seq<nat>)
    requires Distinct(q) && forall p :: p in q ==> p in s.pkts
    ensures DestroyAll(s, q) == s.(pkts := s.pkts - Elems(q))
    decreases |q|
  {
    if q == [] {
      assert s.pkts - Elems(q) == s.pkts;
    } else {
      var s' := DestroyPacket(s, q[0]);
      DistinctParts(q, 1);
      assert q[0] in q[..1];
      DestroyAllEffect(s', q[1..]);
      assert Elems(q) == {q[0]} + Elems(q[1..]) by { assert q == [q[0]] + q[1..]; }
      assert s.pkts - Elems(q) == (s.pkts - {q[0]}) - Elems(q[1..]);
    }
  }

  /** The packets of a send list are allocated, each linked there once. */
  lemma SendListLive(s: State, c: nat)
    requires Placed(s) && c in s.conns
    ensures Distinct(s.conns[c].sendList) && forall p :: p in s.conns[c].sendList ==> p in s.pkts
  {
    assert Linked(Content(s, SendList(c)), s.pkts, SendList(c));
  }

  /** What send_data does to memory, in one step. */
  lemma SendResult(s: State, c: nat, gone: nat, left: nat)
    requires Placed(s) && IsOpen(s, c) && gone <= |s.conns[c].sendList|
    ensures var k := s.conns[c];
            Send(s, c, gone, left) ==
            s.(conns := s.conns[c := k.(sendList := k.sendList[gone..], sbytes := left, armed := left != 0)],
               pkts := s.pkts - Elems(k.sendList[..gone]))
  {
    var k := s.conns[c];
    var s1 := s.(conns := s.conns[c := k.(sendList := k.sendList[gone..], sbytes := left, armed := left != 0)]);
    hide Placed;
    SendListLive(s, c);
    DistinctParts(k.sendList, gone);
    DestroyAllEffect(s1, k.sendList[..gone]);
  }

  /** The queues that are not send lists agree. */
  predicate SameQueues(s: State, s': State) {
    s'.insertQ == s.insertQ && s'.queryQ == s.queryQ && s'.outQ == s.outQ
        && s'.workers == s.workers && s'.main == s.main
  }

  lemma SendListCut(s: State, s': State, c: nat, k: nat)
    requires SameQueues(s, s') && Placed(s) && c in s.conns && k <= |s.conns[c].sendList|
    requires if c in s'.conns then s'.conns[c].sendList == s.conns[c].sendList[k..] else k == |s.conns[c].sendList|
    requires forall d :: d != c ==> (d in s'.conns <==> d in s.conns)
    requires forall d :: d != c && d in s.conns ==> s'.conns[d] == s.conns[d]
    requires s'.pkts == s.pkts - Elems(s.conns[c].sendList[..k])
    ensures Placed(s')
    ensures forall d :: Outstanding(s'.pkts, d) == Outstanding(s.pkts, d)
  {
    assert Content(s, SendList(c)) == s.conns[c].sendList;
    assert forall loc :: loc != SendList(c) ==> Content(s', loc) == Content(s, loc) by { hide Placed, Linked; }
    CutPlaced(s, s', SendList(c), k);
    assert Linked(Content(s, SendList(c)), s.pkts, SendList(c));
    LinkedParts(s.conns[c].sendList, k, s.pkts, SendList(c));
    SendListCounts(s.pkts, Elems(s.conns[c].sendList[..k]));
  }

  lemma SendMemory(s: State, c: nat, gone: nat, left: nat)
    requires MemoryInv(s) && IsOpen(s, c) && gone <= |s.conns[c].sendList|
    ensures MemoryInv(Send(s, c, gone, left))
    ensures IsOpen(Send(s, c, gone, left), c)
    ensures Send(s, c, gone, left).main == s.main
  {
    SendResult(s, c, gone, left);
    hide Send, DestroyAll;
    var s' := Send(s, c, gone, left);
    SendListCut(s, s', c, gone);
    hide Placed;
    assert Owned(s') by { hide CountsAgree, Kept; }
    assert CountsAgree(s') by { hide Owned; }
    assert Kept(s') by { hide Owned, CountsAgree; }
    hide Owned, CountsAgree, Kept;
  }

  // ----- closing -----

  /** Kept, except that `c` itself may be closed and countless: the state before a (re)close. */
  ghost predicate KeptBut(s: State, c: nat) {
    && (forall d :: d in s.conns && d != c && !s.conns[d].open ==> s.conns[d].packetNum > 0)
    && (s.main.Parsing? || s.main.Enqueued? ==> s.main.c != c && IsOpen(s, s.main.c))
  }

  /** What close_docserver_connect does to memory: shut the socket, and free when nothing counts. */
  lemma CloseResult(cfg: Config, s: State, c: nat)
    requires Placed(s) && c in s.conns
    ensures var s' := CloseConn(cfg, s, c);
            && s'.fault == s.fault && SameQueues(s, s') && s'.nextConn == s.nextConn && s'.nextPkt == s.nextPkt
            && s'.pipe == s.pipe && s'.running == s.running
            && s'.total == (if s.conns[c].open then s.total - 1 else s.total)
            && s'.listening == (s.listening || (s.conns[c].open && s.total == cfg.maxConn))
            && if s.conns[c].packetNum == 0
               then s'.conns == s.conns - {c} && s'.pkts == s.pkts - Elems(s.conns[c].sendList)
               else s'.conns == s.conns[c := s.conns[c].(open := false, armed := s.conns[c].armed && !s.conns[c].open)]
                    && s'.pkts == s.pkts
  {
    hide Placed;
    SendListLive(s, c);
    var k := s.conns[c];
    var s1 := if k.open
              then DecreaseConnectionNum(cfg, s.(conns := s.conns[c := k.(open := false, armed := false)]))
              else s;
    if k.packetNum == 0 {
      DestroyAllEffect(s1, k.sendList);
      assert s1.conns - {c} == s.conns - {c};
    } else if !k.open {
      assert s.conns == s.conns[c := s.conns[c].(open := false, armed := s.conns[c].armed && !s.conns[c].open)];
    }
  }

  lemma CloseMemory(cfg: Config, s: State, c: nat)
    requires !s.fault && Placed(s) && Owned(s) && CountsAgree(s) && KeptBut(s, c) && c in s.conns
    ensures MemoryInv(CloseConn(cfg, s, c))
  {
    CloseResult(cfg, s, c);
    hide CloseConn;
    if s.conns[c].packetNum == 0 {
      FreeMemory(s, CloseConn(cfg, s, c), c);
    } else {
      ShutMemory(s, CloseConn(cfg, s, c), c);
    }
  }

  /** Freeing a connection that no packet counts for, with its send list. */
  lemma FreeMemory(s: State, s': State, c: nat)
    requires !s.fault && Placed(s) && Owned(s) && CountsAgree(s) && KeptBut(s, c) && c in s.conns
    requires s.conns[c].packetNum == 0
    requires SameQueues(s, s') && s'.nextConn == s.nextConn && s'.nextPkt == s.nextPkt && !s'.fault
    requires s'.conns == s.conns - {c} && s'.pkts == s.pkts - Elems(s.conns[c].sendList)
    ensures MemoryInv(s')
  {
    var q := s.conns[c].sendList;
    assert q[..|q|] == q;
    SendListCut(s, s', c, |q|);
    hide Placed;
    assert Outstanding(s.pkts, c) == {};
    forall p | p in s'.pkts ensures s'.pkts[p].conn in s'.conns {
      if s.pkts[p].conn == c {
        ClosedPacketIsQueued(s, p);
        assert false;
      }
    }
    assert Owned(s') by { hide CountsAgree; }
    assert CountsAgree(s') by { hide Owned; }
  }

  /** Closing a connection that packets still count for. */
  lemma ShutMemory(s: State, s': State, c: nat)
    requires !s.fault && Placed(s) && Owned(s) && CountsAgree(s) && KeptBut(s, c) && c in s.conns
    requires s.conns[c].packetNum > 0
    requires SameQueues(s, s') && s'.nextConn == s.nextConn && s'.nextPkt == s.nextPkt && !s'.fault
    requires s'.conns == s.conns[c := s.conns[c].(open := false, armed := s.conns[c].armed && !s.conns[c].open)]
    requires s'.pkts == s.pkts
    ensures MemoryInv(s')
  {
    hide Placed, Owned, CountsAgree;
    SamePlaced(s, s') by { hide KeptBut; }
    SameOwned(s, s') by { hide KeptBut; }
    SameCounts(s, s') by { hide KeptBut; }
  }

  /** Packets stay where they are if no queue and no send list changes. */
  lemma SamePlaced(s: State, s': State)
    requires Placed(s) && s'.pkts == s.pkts && s'.conns.Keys == s.conns.Keys
    requires s'.insertQ == s.insertQ && s'.queryQ == s.queryQ && s'.outQ == s.outQ
    requires Content(s', Batch) == Content(s, Batch)
    requires forall w :: Content(s', Processing(w)) == Content(s, Processing(w))
    requires forall c :: c in s.conns ==> s'.conns[c].sendList == s.conns[c].sendList
    ensures Placed(s')
  {
    assert forall loc :: Content(s', loc) == Content(s, loc) by { hide Placed; }
  }

  lemma SameOwned(s: State, s': State)
    requires Owned(s) && s'.pkts == s.pkts && s'.conns.Keys == s.conns.Keys
    requires s'.nextConn == s.nextConn && s'.nextPkt == s.nextPkt
    ensures Owned(s')
  {
    forall p | p in s'.pkts ensures s'.pkts[p].conn in s'.conns { assert s.pkts[p].conn in s.conns.Keys; }
    forall c | c in s'.conns ensures c < s'.nextConn { assert c in s.conns.Keys; }
  }

  /** Counts still agree if every count changes as the window between append and count does. */
  lemma SameCounts(s: State, s': State)
    requires CountsAgree(s) && s'.pkts == s.pkts && s'.conns.Keys == s.conns.Keys
    requires forall c :: c in s.conns ==>
               s'.conns[c].packetNum + Uncounted(s', c) == s.conns[c].packetNum + Uncounted(s, c)
    ensures CountsAgree(s')
  {
    forall c | c in s'.conns ensures s'.conns[c].packetNum + Uncounted(s', c) == |Outstanding(s'.pkts, c)| {
      assert c in s.conns.Keys;
    }
  }

  lemma ClosedPacketIsQueued(s: State, p: nat)
    requires Placed(s) && Owned(s) && p in s.pkts && p !in Outstanding(s.pkts, s.pkts[p].conn)
    ensures p in Content(s, SendList(s.pkts[p].conn))
  {
    assert Linked(Content(s, SendList(s.pkts[p].conn)), s.pkts, SendList(s.pkts[p].conn));
  }

  // ----- the steps -----

  /** Neither side is in the window between append and count, or the program counter stays. */
  ghost predicate SameWindow(s: State, s': State) {
    && (s'.main == s.main || (!s.main.Enqueued? && !s'.main.Enqueued?))
    && (s'.main.Parsing? && s'.main != s.main ==> IsOpen(s', s'.main.c))
  }

  /** A step that only moves a program counter, a flag or a pipe byte. */
  lemma IdleMemory(s: State, s': State)
    requires MemoryInv(s) && SameWindow(s, s')
    requires s'.conns == s.conns && s'.pkts == s.pkts && s'.nextConn == s.nextConn && s'.nextPkt == s.nextPkt
    requires s'.fault == s.fault && forall loc :: Content(s', loc) == Content(s, loc)
    ensures MemoryInv(s')
  {
    assert Placed(s');
  }

  /** Owners and counts do not see packets change place, as long as they stay out of send lists. */
  lemma RelocateRest(s: State, s': State, moved: seq<nat>, to: Loc)
    requires Owned(s) && CountsAgree(s) && Kept(s) && SameWindow(s, s')
    requires !to.SendList? && forall p :: p in moved && p in s.pkts ==> !s.pkts[p].loc.SendList?
    requires s'.pkts == Relocate(s.pkts, moved, to)
    requires s'.conns == s.conns && s'.nextConn == s.nextConn && s'.nextPkt == s.nextPkt
    ensures Owned(s') && CountsAgree(s') && Kept(s')
  {
    RelocateCounts(s.pkts, moved, to);
    assert Owned(s') by { hide CountsAgree, Kept; }
    assert CountsAgree(s') by { hide Owned; }
    assert Kept(s') by { hide Owned, CountsAgree; }
  }

  /** A step that moves packets between queues, workers and the batch. */
  lemma MoveMemory(s: State, s': State, from: Loc, k: nat, to: Loc)
    requires MemoryInv(s) && SameWindow(s, s')
    requires k <= |Content(s, from)| && from != to && !from.SendList? && !to.SendList?
    requires Content(s', from) == Content(s, from)[k..]
    requires Content(s', to) == Content(s, to) + Content(s, from)[..k]
    requires forall loc :: loc != from && loc != to ==> Content(s', loc) == Content(s, loc)
    requires s'.pkts == Relocate(s.pkts, Content(s, from)[..k], to)
    requires s'.conns == s.conns && s'.nextConn == s.nextConn && s'.nextPkt == s.nextPkt && s'.fault == s.fault
    ensures MemoryInv(s')
  {
    hide Owned, CountsAgree, Kept, Content, Relocate;
    assert Linked(Content(s, from), s.pkts, from);
    LinkedParts(Content(s, from), k, s.pkts, from);
    MovePlaced(s, s', from, k, to);
    hide Placed;
    RelocateRest(s, s', Content(s, from)[..k], to);
  }

  lemma AcceptMemory(cfg: Config, s: State)
    requires MemoryInv(s)
    ensures MemoryInv(AcceptConn(cfg, s))
  {
    var s' := AcceptConn(cfg, s);
    assert forall loc :: Content(s', loc) == Content(s, loc) by {
      assert Linked(Content(s, SendList(s.nextConn)), s.pkts, SendList(s.nextConn));
    }
    assert Placed(s');
    assert Outstanding(s.pkts, s.nextConn) == {};
  }

  lemma AppendInPlaced(s: State, insert: bool)
    requires Placed(s) && s.main.Parsing? && s.nextPkt !in s.pkts
    ensures Placed(AppendInPacket(s, insert))
  {
    var s' := AppendInPacket(s, insert);
    var at := if insert then InsertQueue else QueryQueue;
    assert forall loc :: loc != at ==> Content(s', loc) == Content(s, loc) by { hide Placed; }
    NewPlaced(s, s', at, s.nextPkt, s.main.c);
  }

  lemma AppendInMemory(s: State, insert: bool)
    requires MemoryInv(s) && s.main.Parsing?
    ensures MemoryInv(AppendInPacket(s, insert))
  {
    hide Placed, CountsAgree;
    var s' := AppendInPacket(s, insert);
    assert Owned(s');
    assert Kept(s');
    AppendInPlaced(s, insert);
    hide Owned, Kept;
    NewCounts(s.pkts, s.nextPkt, s.main.c, if insert then InsertQueue else QueryQueue);
    assert CountsAgree(s') by { AppendInAgrees(s, s'); }
  }

  lemma AppendInAgrees(s: State, s': State)
    requires CountsAgree(s) && s.main.Parsing? && s'.main == Enqueued(s.main.c) && s'.conns == s.conns
    requires forall d :: |Outstanding(s'.pkts, d)| == |Outstanding(s.pkts, d)| + if d == s.main.c then 1 else 0
    ensures CountsAgree(s')
  {}

  lemma CountPacketMemory(s: State)
    requires MemoryInv(s) && s.main.Enqueued?
    ensures MemoryInv(CountInPacket(s))
  {
    hide Placed, Owned, CountsAgree;
    var s' := CountInPacket(s);
    assert s'.conns.Keys == s.conns.Keys;
    SamePlaced(s, s') by { hide Kept; }
    SameOwned(s, s') by { hide Kept; }
    SameCounts(s, s') by { hide Kept; }
  }

  lemma TakeMemory(cfg: Config, s: State, w: nat)
    requires MemoryInv(s) && Enabled(cfg, s, Take(w))
    ensures MemoryInv(TakeInPacket(s, w))
  {
    hide MemoryInv, Content, Relocate;
    TakeContents(s, w);
    MoveMemory(s, TakeInPacket(s, w), if s.workers[w].insert then InsertQueue else QueryQueue, 1, Processing(w));
  }

  lemma TakeContents(s: State, w: nat)
    requires w < |s.workers| && s.workers[w].pc.Waiting? && InQueue(s, s.workers[w].insert) != []
    ensures var s', from := TakeInPacket(s, w), if s.workers[w].insert then InsertQueue else QueryQueue;
      && Content(s, from) != [] && Content(s, from)[..1] == [InQueue(s, s.workers[w].insert)[0]]
      && Content(s', from) == Content(s, from)[1..]
      && Content(s', Processing(w)) == Content(s, Processing(w)) + Content(s, from)[..1]
      && forall loc :: loc != from && loc != Processing(w) ==> Content(s', loc) == Content(s, loc)
  {
    hide Relocate;
  }

  lemma ProcessMemory(cfg: Config, s: State, w: nat)
    requires MemoryInv(s) && Enabled(cfg, s, Process(w))
    ensures MemoryInv(ProcessPacket(s, w))
  {
    hide MemoryInv;
    InHandIsLive(s, w);
    IdleMemory(s, ProcessPacket(s, w));
  }

  /** The packet a worker holds is allocated, and so is its connection. */
  lemma InHandIsLive(s: State, w: nat)
    requires MemoryInv(s) && w < |s.workers| && (s.workers[w].pc.Taken? || s.workers[w].pc.Processed?)
    ensures s.workers[w].pc.p in s.pkts && s.pkts[s.workers[w].pc.p].conn in s.conns
  {
    hide CountsAgree, Kept;
    assert Linked(Content(s, Processing(w)), s.pkts, Processing(w));
    assert s.workers[w].pc.p in Content(s, Processing(w));
  }

  lemma AppendOutMemory(cfg: Config, s: State, w: nat)
    requires MemoryInv(s) && Enabled(cfg, s, AppendOut(w))
    ensures MemoryInv(AppendOutPacket(s, w))
  {
    hide MemoryInv, Content, Relocate;
    InHandIsLive(s, w);
    AppendOutContents(s, w);
    MoveMemory(s, AppendOutPacket(s, w), Processing(w), 1, OutQueue);
  }

  lemma AppendOutContents(s: State, w: nat)
    requires w < |s.workers| && s.workers[w].pc.Processed?
    ensures var s', q := AppendOutPacket(s, w), [s.workers[w].pc.p];
      && Content(s, Processing(w)) == q && q[..1] == q
      && Content(s', Processing(w)) == Content(s, Processing(w))[1..]
      && Content(s', OutQueue) == Content(s, OutQueue) + q
      && forall loc :: loc != Processing(w) && loc != OutQueue ==> Content(s', loc) == Content(s, loc)
  {
    hide Relocate;
  }

  lemma TakeBatchMemory(cfg: Config, s: State)
    requires MemoryInv(s) && s.main.Reading?
    ensures MemoryInv(TakeOutBatch(cfg, s))
  {
    hide MemoryInv;
    var s' := TakeOutBatch(cfg, s);
    var n := if |s.outQ| < cfg.batch then |s.outQ| else cfg.batch;
    assert [] + s.outQ[..n] == s.outQ[..n];
    MoveMemory(s, s', OutQueue, n, Batch);
  }

  /** The head of a batch is allocated, and so is its connection, which counts it. */
  lemma HeadIsLive(s: State)
    requires MemoryInv(s) && s.main.Delivering? && s.main.rest != []
    ensures var p := s.main.rest[0];
            && p in s.pkts && s.pkts[p].loc == Batch && s.pkts[p].conn in s.conns
            && s.conns[s.pkts[p].conn].packetNum > 0
  {
    var p := s.main.rest[0];
    assert Linked(Content(s, Batch), s.pkts, Batch);
    assert p in Content(s, Batch);
    assert p in Outstanding(s.pkts, s.pkts[p].conn);
  }

  lemma DropPlaced(s: State, s': State, p: nat)
    requires Placed(s) && s.main.Delivering? && s.main.rest != [] && p == s.main.rest[0]
    requires s'.insertQ == s.insertQ && s'.queryQ == s.queryQ && s'.outQ == s.outQ && s'.workers == s.workers
    requires s'.main == Delivering(s.main.rest[1..]) && s'.pkts == s.pkts - {p}
    requires s'.conns.Keys == s.conns.Keys && forall d :: d in s.conns ==> s'.conns[d].sendList == s.conns[d].sendList
    ensures Placed(s')
  {
    assert Content(s, Batch)[..1] == [p];
    assert Elems([p]) == {p};
    assert forall loc :: loc != Batch ==> Content(s', loc) == Content(s, loc) by { hide Placed; }
    CutPlaced(s, s', Batch, 1);
  }

  lemma HandOverPlaced(s: State, s': State, p: nat, c: nat)
    requires Placed(s) && s.main.Delivering? && s.main.rest != [] && p == s.main.rest[0]
    requires s'.insertQ == s.insertQ && s'.queryQ == s.queryQ && s'.outQ == s.outQ && s'.workers == s.workers
    requires s'.main == Delivering(s.main.rest[1..]) && s'.pkts == Relocate(s.pkts, [p], SendList(c))
    requires s'.conns.Keys == s.conns.Keys && c in s.conns && s'.conns[c].sendList == s.conns[c].sendList + [p]
    requires forall d :: d in s.conns && d != c ==> s'.conns[d].sendList == s.conns[d].sendList
    ensures Placed(s')
  {
    assert Content(s, Batch)[..1] == [p];
    assert forall loc :: loc != Batch && loc != SendList(c) ==> Content(s', loc) == Content(s, loc) by { hide Placed; }
    hide Relocate;
    MovePlaced(s, s', Batch, 1, SendList(c));
  }

  /** Counts after one packet of `c` stopped counting and packet_num went down by one. */
  lemma UncountAgrees(s: State, s': State, c: nat)
    requires CountsAgree(s) && !s.main.Enqueued? && !s'.main.Enqueued? && c in s.conns
    requires s'.conns.Keys == s.conns.Keys && s'.conns[c].packetNum == s.conns[c].packetNum - 1
    requires forall d :: d in s.conns && d != c ==> s'.conns[d] == s.conns[d]
    requires forall d :: |Outstanding(s'.pkts, d)| == |Outstanding(s.pkts, d)| - if d == c then 1 else 0
    ensures CountsAgree(s')
  {}

  /** Uncounting the head of a batch and freeing it. */
  lemma DropHead(s: State, s': State, p: nat, c: nat)
    requires MemoryInv(s) && s.main.Delivering? && s.main.rest != [] && p == s.main.rest[0]
    requires p in s.pkts && s.pkts[p] == Packet(c, Batch) && c in s.conns && s.conns[c].packetNum > 0
    requires s' == s.(main := Delivering(s.main.rest[1..]), pkts := s.pkts - {p},
                      conns := s.conns[c := s.conns[c].(packetNum := s.conns[c].packetNum - 1)])
    ensures Placed(s') && Owned(s') && CountsAgree(s') && KeptBut(s', c) && !s'.fault
  {
    hide Placed, CountsAgree;
    assert Owned(s');
    assert KeptBut(s', c);
    hide Owned;
    DropPlaced(s, s', p);
    DestroyCounts(s.pkts, p);
    UncountAgrees(s, s', c);
  }

  /** Uncounting the head of a batch and queueing it for sending. */
  lemma AcceptHead(s: State, s': State, p: nat, c: nat, armed: bool)
    requires MemoryInv(s) && s.main.Delivering? && s.main.rest != [] && p == s.main.rest[0]
    requires p in s.pkts && s.pkts[p] == Packet(c, Batch) && IsOpen(s, c) && s.conns[c].packetNum > 0
    requires var k := s.conns[c];
             s' == s.(main := Delivering(s.main.rest[1..]), pkts := Relocate(s.pkts, [p], SendList(c)),
                      conns := s.conns[c := k.(packetNum := k.packetNum - 1, sendList := k.sendList + [p],
                          armed := armed)])
    ensures MemoryInv(s')
  {
    hide Placed, CountsAgree;
    assert Owned(s');
    assert Kept(s');
    hide Owned, Kept, Relocate;
    HandOverPlaced(s, s', p, c);
    HandOverCounts(s.pkts, p, c);
    UncountAgrees(s, s', c);
  }

  lemma DeliverMemory(cfg: Config, s: State, accept: bool)
    requires MemoryInv(s) && s.main.Delivering? && s.main.rest != []
    ensures MemoryInv(Deliver(cfg, s, accept))
  {
    hide MemoryInv, CloseConn, Relocate, Placed, Owned, CountsAgree, KeptBut;
    HeadIsLive(s);
    var p := s.main.rest[0];
    var c := s.pkts[p].conn;
    var k := s.conns[c];
    var s' := Deliver(cfg, s, accept);
    if k.open && accept {
      AcceptHead(s, s', p, c, k.armed || (k.sendList == [] && k.sbytes == 0));
    } else {
      var s1 := s.(main := Delivering(s.main.rest[1..]), pkts := s.pkts - {p},
                   conns := s.conns[c := k.(packetNum := k.packetNum - 1)]);
      DropHead(s, s1, p, c);
      if !k.open {
        assert s' == CloseConn(cfg, s1, c);
        CloseMemory(cfg, s1, c);
      } else {
        assert s' == s1;
        OpenMemory(s1, c);
      }
    }
  }

  lemma OpenMemory(s: State, c: nat)
    requires !s.fault && Placed(s) && Owned(s) && CountsAgree(s) && KeptBut(s, c) && IsOpen(s, c)
    ensures MemoryInv(s)
  {
    hide Placed, Owned, CountsAgree;
  }
}
