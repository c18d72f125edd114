/** destroy_docserver_config: what remains when the event loop has been left and the workers joined. */
module Shutdown {
  import opened DocServer
  import opened DocServerMemory
  import opened DocServerSafety

  /** The event loop has been left and every worker thread has been joined. */
  ghost predicate Joined(s: State) {
    s.main.Stopped? && forall w :: 0 <= w < |s.workers| ==> s.workers[w].pc.Exited?
  }

  ghost predicate DownInv(s: State) { MemoryInv(s) && Joined(s) }

  // ----- the joins come back -----

  /** The steps a worker has left once the server was told to stop. */
  function StepsLeft(pc: WorkerPc): nat {
    match pc
    case Exited => 0
    case Waiting => 1
    case Appended => 2
    case Processed(_) => 3
    case Taken(_) => 4
  }

  /** The bytes it has still to write to the notify pipe. */
  function WritesLeft(pc: WorkerPc): nat { if pc.Waiting? || pc.Exited? then 0 else 1 }

  function Total(workers: seq<Worker>, left: WorkerPc -> nat): nat {
    if workers == [] then 0 else Total(workers[..|workers| - 1], left) + left(workers[|workers| - 1].pc)
  }

  predicate IsWorkerStep(a: Step) { a.Take? || a.Process? || a.AppendOut? || a.WriteByte? || a.Quit? }

  function WorkerSteps(acts: seq<Step>): nat {
    if acts == [] then 0 else WorkerSteps(acts[..|acts| - 1]) + if IsWorkerStep(acts[|acts| - 1]) then 1 else 0
  }

  lemma {:induction false} TotalAt(workers: seq<Worker>, left: WorkerPc -> nat, w: nat, worker: Worker)
    requires w < |workers|
    ensures left(workers[w].pc) <= Total(workers, left)
    ensures Total(workers[w := worker], left) == Total(workers, left) - left(workers[w].pc) + left(worker.pc)
  {
    var n := |workers| - 1;
    if w == n {
      assert workers[w := worker][..n] == workers[..n];
    } else {
      TotalAt(workers[..n], left, w, worker);
      assert workers[w := worker][..n] == workers[..n][w := worker];
    }
  }

  lemma {:induction false} AtMostFourEach(workers: seq<Worker>)
    ensures Total(workers, StepsLeft) <= 4 * |workers|
  {
    if workers != [] { AtMostFourEach(workers[..|workers| - 1]); }
  }

  lemma {:induction false} NoWritesLeft(workers: seq<Worker>)
    requires forall w :: 0 <= w < |workers| ==> workers[w].pc.Exited?
    ensures Total(workers, WritesLeft) == 0
  {
    if workers != [] { NoWritesLeft(workers[..|workers| - 1]); }
  }

  ghost predicate SameWorkers(s: State, s': State) {
    && s'.workers == s.workers && s'.running == s.running && s'.pipe == s.pipe
    && s'.insertQ == s.insertQ && s'.queryQ == s.queryQ && s'.outQ == s.outQ
  }

  lemma {:induction false} DestroyLeavesWorkers(s: State, q: seq<nat>)
    ensures SameWorkers(s, DestroyAll(s, q)) && DestroyAll(s, q).main == s.main
    decreases |q|
  {
    if q != [] { DestroyLeavesWorkers(DestroyPacket(s, q[0]), q[1..]); }
  }

  lemma CloseLeavesWorkers(cfg: Config, s: State, c: nat)
    ensures SameWorkers(s, CloseConn(cfg, s, c)) && CloseConn(cfg, s, c).main == s.main
  {
    hide DestroyAll;
    if c in s.conns {
      var k := s.conns[c];
      var s' := if k.open
                then DecreaseConnectionNum(cfg, s.(conns := s.conns[c := k.(open := false, armed := false)]))
                else s;
      if c in s'.conns { DestroyLeavesWorkers(s', s'.conns[c].sendList); }
    }
  }

  predicate IsPeerStep(a: Step) { a.PeerClosed? || a.SendReady? || a.SendFailed? }

  /** What peers cause changes connections only. */
  lemma PeerLeavesWorkers(cfg: Config, s: State, a: Step)
    requires Enabled(cfg, s, a) && IsPeerStep(a)
    ensures SameWorkers(s, Apply(cfg, s, a)) && Apply(cfg, s, a).main == s.main
  {
    hide CloseConn, DestroyAll, Send;
    match a
    case PeerClosed(c) => CloseLeavesWorkers(cfg, s, c);
    case SendReady(c, gone, left) => SendLeavesWorkers(s, c, gone, left);
    case SendFailed(c, gone, left) =>
      SendLeavesWorkers(s, c, gone, left);
      CloseLeavesWorkers(cfg, Send(s, c, gone, left), c);
  }

  /** The event loop does not move workers and only takes from the pipe. */
  lemma LoopLeavesWorkers(cfg: Config, s: State, a: Step)
    requires Enabled(cfg, s, a) && !IsWorkerStep(a)
    ensures var s' := Apply(cfg, s, a);
            s'.workers == s.workers && s'.pipe <= s.pipe && (!s.running ==> !s'.running)
  {
    hide CloseConn, Deliver, Send, Relocate;
    if IsPeerStep(a) {
      hide Apply;
      PeerLeavesWorkers(cfg, s, a);
    } else if a.DeliverHead? {
      DeliverLeavesWorkers(cfg, s, a.accept);
    }
  }

  lemma DeliverLeavesWorkers(cfg: Config, s: State, accept: bool)
    requires s.main.Delivering? && s.main.rest != []
    ensures SameWorkers(s, Deliver(cfg, s, accept)) && Deliver(cfg, s, accept).main == Delivering(s.main.rest[1..])
  {
    hide CloseConn, Relocate;
    var p := s.main.rest[0];
    if p in s.pkts {
      var s1 := Uncount(s.(main := Delivering(s.main.rest[1..])), s.pkts[p].conn);
      CloseLeavesWorkers(cfg, DestroyPacket(s1, p), s.pkts[p].conn);
    }
  }

  lemma SendLeavesWorkers(s: State, c: nat, gone: nat, left: nat)
    requires IsOpen(s, c) && gone <= |s.conns[c].sendList|
    ensures SameWorkers(s, Send(s, c, gone, left)) && Send(s, c, gone, left).main == s.main
  {
    hide DestroyAll;
    var k := s.conns[c];
    var s' := s.(conns := s.conns[c := k.(sendList := k.sendList[gone..], sbytes := left, armed := left != 0)]);
    DestroyLeavesWorkers(s', k.sendList[..gone]);
  }

  /** Told to stop, a worker takes nothing new, so each of its steps brings it closer to its exit; and what is
      in the pipe or has still to be written to it stays the same as long as nobody reads. */
  lemma WorkerWindsDown(cfg: Config, s: State, a: Step)
    requires Enabled(cfg, s, a) && IsWorkerStep(a) && !s.running
    ensures var s' := Apply(cfg, s, a);
      && !s'.running && |s'.workers| == |s.workers| && s'.main == s.main
      && Total(s'.workers, StepsLeft) == Total(s.workers, StepsLeft) - 1
      && s'.pipe + Total(s'.workers, WritesLeft) == s.pipe + Total(s.workers, WritesLeft)
  {
    hide Total;
    var s' := Apply(cfg, s, a);
    var w := match a case Process(w) => w case AppendOut(w) => w case WriteByte(w) => w case Quit(w) => w case _ => 0;
    TotalAt(s.workers, StepsLeft, w, s'.workers[w]);
    TotalAt(s.workers, WritesLeft, w, s'.workers[w]);
    assert s'.workers == s.workers[w := s'.workers[w]];
  }

  /** After the stop request the workers take at most four steps each, whatever the event loop does. */
  lemma {:induction false} WorkersWindDown(cfg: Config, b: seq<State>, acts: seq<Step>, i: nat, j: nat)
    requires Execution(cfg, b, acts) && i <= j <= |acts| && !b[i].running
    ensures !b[j].running && |b[j].workers| == |b[i].workers|
    ensures WorkerSteps(acts[i..j]) + Total(b[j].workers, StepsLeft) == Total(b[i].workers, StepsLeft)
    ensures WorkerSteps(acts[i..j]) <= 4 * |b[i].workers|
    decreases j - i
  {
    hide Total, Init, Enabled, Apply;
    AtMostFourEach(b[i].workers);
    if i == j {
      assert acts[i..j] == [];
    } else {
      WorkersWindDown(cfg, b, acts, i, j - 1);
      var a := acts[j - 1];
      assert Enabled(cfg, b[j - 1], a) && b[j - 1 + 1] == Apply(cfg, b[j - 1], a);
      assert acts[i..j][..j - 1 - i] == acts[i..j - 1] && acts[i..j][j - 1 - i] == a;
      if IsWorkerStep(a) { WorkerWindsDown(cfg, b[j - 1], a); } else { LoopLeavesWorkers(cfg, b[j - 1], a); }
    }
  }

  // ----- whether they all exit -----

  /** The event loop no longer reads the pipe; this is what will be in it in the end. */
  ghost predicate PipeHasRoom(cfg: Config, s: State) { s.pipe + Total(s.workers, WritesLeft) <= cfg.pipeSize }

  /** With room in the pipe a worker that has not exited can always go on. */
  lemma NoWorkerIsStuck(cfg: Config, s: State, w: nat)
    requires !s.running && w < |s.workers| && !s.workers[w].pc.Exited? && PipeHasRoom(cfg, s)
    ensures exists a :: IsWorkerStep(a) && Enabled(cfg, s, a)
  {
    hide Total;
    TotalAt(s.workers, WritesLeft, w, s.workers[w]);
    var a := match s.workers[w].pc
      case Waiting => Quit(w)
      case Taken(_) => Process(w)
      case Processed(_) => AppendOut(w)
      case Appended => WriteByte(w)
      case Exited => Accept;
    assert IsWorkerStep(a) && Enabled(cfg, s, a);
  }

  lemma {:induction false} PipeWithin(cfg: Config, b: seq<State>, acts: seq<Step>, i: nat)
    requires Execution(cfg, b, acts) && i <= |acts|
    ensures b[i].pipe <= cfg.pipeSize
  {
    if i > 0 {
      PipeWithin(cfg, b, acts, i - 1);
      var a := acts[i - 1];
      assert Enabled(cfg, b[i - 1], a) && b[i - 1 + 1] == Apply(cfg, b[i - 1], a);
      PipeStep(cfg, b[i - 1], a);
    }
  }

  lemma PipeStep(cfg: Config, s: State, a: Step)
    requires Enabled(cfg, s, a) && s.pipe <= cfg.pipeSize
    ensures Apply(cfg, s, a).pipe <= cfg.pipeSize
  {
    if !IsWorkerStep(a) {
      hide Apply;
      LoopLeavesWorkers(cfg, s, a);
    }
  }

  lemma {:induction false} StoppedStays(cfg: Config, b: seq<State>, acts: seq<Step>, i: nat, j: nat)
    requires Execution(cfg, b, acts) && i <= j <= |acts| && b[i].main.Stopped? && !b[i].running
    ensures b[j].main.Stopped? && !b[j].running && (PipeHasRoom(cfg, b[j]) <==> PipeHasRoom(cfg, b[i]))
    decreases j - i
  {
    hide Total, Init, Apply;
    if i < j {
      StoppedStays(cfg, b, acts, i, j - 1);
      assert Enabled(cfg, b[j - 1], acts[j - 1]) && b[j - 1 + 1] == Apply(cfg, b[j - 1], acts[j - 1]);
      WorkerWindsDown(cfg, b[j - 1], acts[j - 1]);
    }
  }

  /** Once the event loop has been left, the joins come back if the notify pipe has room for the bytes the
      workers have still to write: then every worker has exited when none can take a step. Without the room
      not all of them ever exit. */
  lemma JoinsComeBackExactly(cfg: Config, b: seq<State>, acts: seq<Step>, i: nat, j: nat)
    requires Execution(cfg, b, acts) && i <= j <= |acts| && b[i].main.Stopped? && !b[i].running
    ensures PipeHasRoom(cfg, b[i]) && (forall a :: IsWorkerStep(a) ==> !Enabled(cfg, b[j], a)) ==> Joined(b[j])
    ensures !PipeHasRoom(cfg, b[i]) ==> !Joined(b[j])
  {
    hide Init, Enabled, Apply;
    StoppedStays(cfg, b, acts, i, j);
    PipeWithin(cfg, b, acts, j);
    if Joined(b[j]) { NoWritesLeft(b[j].workers); }
    if PipeHasRoom(cfg, b[i]) {
      hide PipeHasRoom;
      forall w | 0 <= w < |b[j].workers| && !b[j].workers[w].pc.Exited?
        ensures exists a :: IsWorkerStep(a) && Enabled(cfg, b[j], a)
      {
        NoWorkerIsStuck(cfg, b[j], w);
      }
    }
  }

  ghost predicate EndsIn(cfg: Config, b: seq<State>, acts: seq<Step>, s: State) {
    Execution(cfg, b, acts) && b[|acts|] == s
  }

  ghost predicate Reaches(cfg: Config, s: State) { exists b, acts :: EndsIn(cfg, b, acts, s) }

  lemma ReachesStart(cfg: Config, s: State)
    requires Init(s)
    ensures Reaches(cfg, s)
  {
    assert EndsIn(cfg, [s], [], s);
  }

  lemma ReachesNext(cfg: Config, s: State, a: Step)
    requires Reaches(cfg, s) && Enabled(cfg, s, a)
    ensures Reaches(cfg, Apply(cfg, s, a))
  {
    hide Init, Apply, Enabled;
    var b, acts :| EndsIn(cfg, b, acts, s);
    assert EndsIn(cfg, b + [Apply(cfg, s, a)], acts + [a], Apply(cfg, s, a));
  }

  /** The server has one insert worker, which waits, and `queued` insert requests for it. */
  ghost predicate OneWorker(cfg: Config, s: State, main: MainPc, queued: nat, pipe: nat) {
    && Reaches(cfg, s) && s.main == main && s.running && s.pipe == pipe
    && |s.insertQ| == queued && s.workers == [Worker(true, Waiting)]
  }

  /** One connection sends n insert requests. */
  lemma {:induction false} Requests(cfg: Config, n: nat) returns (s: State)
    ensures OneWorker(cfg, s, Parsing(0), n, 0)
    decreases n
  {
    hide Reaches;
    if n == 0 {
      s := State(map[], map[], 0, 0, [], [], [], [Worker(true, Waiting)], 0, EventLoop, true, 0, true, false);
      ReachesStart(cfg, s);
      ReachesNext(cfg, s, Accept);
      s := Apply(cfg, s, Accept);
      ReachesNext(cfg, s, BeginParse(0));
      s := Apply(cfg, s, BeginParse(0));
    } else {
      s := Requests(cfg, n - 1);
      ReachesNext(cfg, s, AppendIn(true));
      s := Apply(cfg, s, AppendIn(true));
      ReachesNext(cfg, s, CountPacket);
      s := Apply(cfg, s, CountPacket);
    }
  }

  /** The worker answers k of them while the event loop is busy elsewhere. */
  lemma {:induction false} Answers(cfg: Config, n: nat, k: nat) returns (s: State)
    requires k <= n && k <= cfg.pipeSize
    ensures OneWorker(cfg, s, EventLoop, n - k, k)
    decreases k
  {
    hide Reaches, Relocate;
    if k == 0 {
      s := Requests(cfg, n);
      ReachesNext(cfg, s, EndParse);
      s := Apply(cfg, s, EndParse);
    } else {
      s := Answers(cfg, n, k - 1);
      s := OneAnswer(cfg, s, n - k + 1, k - 1);
    }
  }

  /** The worker takes a request. */
  lemma OneTaken(cfg: Config, s: State, queued: nat, pipe: nat) returns (s': State)
    requires OneWorker(cfg, s, EventLoop, queued, pipe) && queued > 0
    ensures Reaches(cfg, s') && s'.main.EventLoop? && s'.running && s'.pipe == pipe && |s'.insertQ| == queued - 1
    ensures |s'.workers| == 1 && s'.workers[0].insert && s'.workers[0].pc.Taken?
  {
    hide Reaches, Relocate;
    ReachesNext(cfg, s, Take(0));
    s' := Apply(cfg, s, Take(0));
  }

  lemma OneAnswer(cfg: Config, s: State, queued: nat, pipe: nat) returns (s': State)
    requires OneWorker(cfg, s, EventLoop, queued, pipe) && queued > 0 && pipe < cfg.pipeSize
    ensures OneWorker(cfg, s', EventLoop, queued - 1, pipe + 1)
  {
    hide Reaches, Relocate;
    s' := OneTaken(cfg, s, queued, pipe);
    ReachesNext(cfg, s', Process(0));
    s' := Apply(cfg, s', Process(0));
    ReachesNext(cfg, s', AppendOut(0));
    s' := Apply(cfg, s', AppendOut(0));
    ReachesNext(cfg, s', WriteByte(0));
    s' := Apply(cfg, s', WriteByte(0));
  }

  /** Whatever the limits, one worker is enough: if it fills the pipe before the event loop reads from it, and
      the server is stopped while it is at work on one more request, it can never be joined. */
  lemma StuckJoin(cfg: Config) returns (s: State)
    ensures Reaches(cfg, s) && s.main.Stopped? && !s.running && !PipeHasRoom(cfg, s)
  {
    hide Reaches, Relocate;
    s := Answers(cfg, cfg.pipeSize + 1, cfg.pipeSize);
    s := OneTaken(cfg, s, 1, cfg.pipeSize);
    ReachesNext(cfg, s, RequestStop);
    s := Apply(cfg, s, RequestStop);
    ReachesNext(cfg, s, LeaveLoop);
    s := Apply(cfg, s, LeaveLoop);
    TotalAt(s.workers, WritesLeft, 0, s.workers[0]);
  }

  // ----- draining -----

  /** The state after packet `p` was unlinked from the front of the queue `at`, freed and uncounted. */
  ghost predicate Unlinked(s: State, s': State, at: Loc, p: nat, c: nat) {
    && s'.main == s.main && s'.workers == s.workers && s'.fault == s.fault
    && s'.nextConn == s.nextConn && s'.nextPkt == s.nextPkt
    && (at == InsertQueue || s'.insertQ == s.insertQ)
    && (at == QueryQueue || s'.queryQ == s.queryQ)
    && (at == OutQueue || s'.outQ == s.outQ)
    && Content(s, at) != [] && Content(s, at)[0] == p && Content(s', at) == Content(s, at)[1..]
    && p in s.pkts && s.pkts[p].conn == c && s'.pkts == s.pkts - {p}
    && c in s.conns && s.conns[c].packetNum > 0
    && s'.conns == s.conns[c := s.conns[c].(packetNum := s.conns[c].packetNum - 1)]
  }

  /** A queued packet is allocated, and its connection is allocated and counts it. */
  lemma QueuedIsLive(s: State, at: Loc)
    requires DownInv(s) && Content(s, at) != [] && !at.SendList?
    ensures var p := Content(s, at)[0];
            p in s.pkts && s.pkts[p].loc == at && s.pkts[p].conn in s.conns && s.conns[s.pkts[p].conn].packetNum > 0
  {
    var p := Content(s, at)[0];
    assert Linked(Content(s, at), s.pkts, at);
    assert p in Content(s, at);
    assert p in Outstanding(s.pkts, s.pkts[p].conn);
  }

  lemma UnlinkedPlaced(s: State, s': State, at: Loc, p: nat, c: nat)
    requires Placed(s) && (at.InsertQueue? || at.QueryQueue? || at.OutQueue?) && Unlinked(s, s', at, p, c)
    ensures Placed(s')
  {
    assert Content(s, at)[..1] == [p];
    assert Elems([p]) == {p};
    assert forall loc :: loc != at ==> Content(s', loc) == Content(s, loc) by { hide Placed; }
    CutPlaced(s, s', at, 1);
  }

  /** One turn of a drain loop: unlink, free, uncount, reclose. */
  lemma DrainTurn(cfg: Config, s: State, s': State, at: Loc, p: nat, c: nat)
    requires DownInv(s) && (at.InsertQueue? || at.QueryQueue? || at.OutQueue?) && Unlinked(s, s', at, p, c)
    ensures DownInv(CloseConn(cfg, s', c))
    ensures SameQueues(s', CloseConn(cfg, s', c))
  {
    hide Placed, CountsAgree, CloseConn;
    QueuedIsLive(s, at);
    UnlinkedPlaced(s, s', at, p, c);
    DestroyCounts(s.pkts, p);
    UncountAgrees(s, s', c);
    assert Owned(s') && KeptBut(s', c);
    CloseMemory(cfg, s', c);
    CloseResult(cfg, s', c);
  }

  method DestroyInPacketQueue(cfg: Config, s0: State, insert: bool) returns (s: State)
    requires DownInv(s0)
    ensures DownInv(s) && InQueue(s, insert) == []
    ensures InQueue(s, !insert) == InQueue(s0, !insert) && s.outQ == s0.outQ
  {
    s := s0;
    ghost var at := if insert then InsertQueue else QueryQueue;
    while InQueue(s, insert) != []
      invariant DownInv(s) && InQueue(s, !insert) == InQueue(s0, !insert) && s.outQ == s0.outQ
      decreases |InQueue(s, insert)|
    {
      QueuedIsLive(s, at);
      ghost var r := s;
      var p := InQueue(s, insert)[0];
      var c := s.pkts[p].conn;
      s := if insert then s.(insertQ := s.insertQ[1..]) else s.(queryQ := s.queryQ[1..]);
      s := DestroyPacket(s, p);
      s := Uncount(s, c);
      hide DownInv;
      DrainTurn(cfg, r, s, at, p, c);
      hide CloseConn;
      s := CloseConn(cfg, s, c);
    }
  }

  method DestroyOutPacketQueue(cfg: Config, s0: State) returns (s: State)
    requires DownInv(s0)
    ensures DownInv(s) && s.outQ == [] && s.insertQ == s0.insertQ && s.queryQ == s0.queryQ
  {
    s := s0;
    while s.outQ != []
      invariant DownInv(s) && s.insertQ == s0.insertQ && s.queryQ == s0.queryQ
      decreases |s.outQ|
    {
      QueuedIsLive(s, OutQueue);
      ghost var r := s;
      var p := s.outQ[0];
      var c := s.pkts[p].conn;
      s := s.(outQ := s.outQ[1..]);
      s := DestroyPacket(s, p);
      s := Uncount(s, c);
      hide DownInv;
      DrainTurn(cfg, r, s, OutQueue, p, c);
      hide CloseConn;
      s := CloseConn(cfg, s, c);
    }
  }

  /** With the queues empty nothing counts for any connection: each is open and its count is zero. */
  lemma NothingCounts(s: State, c: nat)
    requires DownInv(s) && s.insertQ == [] && s.queryQ == [] && s.outQ == [] && c in s.conns
    ensures s.conns[c].packetNum == 0 && s.conns[c].open
  {
    forall p | p in s.pkts ensures s.pkts[p].loc.SendList? {
      assert Linked(Content(s, s.pkts[p].loc), s.pkts, s.pkts[p].loc);
      assert p in Content(s, s.pkts[p].loc);
    }
    assert Outstanding(s.pkts, c) == {};
  }

  lemma CloseRemaining(cfg: Config, s: State, c: nat)
    requires DownInv(s) && s.insertQ == [] && s.queryQ == [] && s.outQ == [] && c in s.conns
    ensures var s' := CloseConn(cfg, s, c);
            DownInv(s') && SameQueues(s, s') && s'.conns == s.conns - {c}
  {
    NothingCounts(s, c);
    CloseResult(cfg, s, c);
    hide CloseConn, Placed, Owned, CountsAgree;
    CloseMemory(cfg, s, c);
  }

  /** From every state an execution can end in, shutdown terminates, frees every packet and every
      connection, and frees none of them twice: a second free or a count below zero would be a fault. */
  method DestroyDocserverConfig(cfg: Config, ghost b: seq<State>, ghost acts: seq<Step>, s0: State) returns (s: State)
    requires ValidConfig(cfg) && Execution(cfg, b, acts) && s0 == b[|acts|] && Joined(s0)
    ensures s.conns == map[] && s.pkts == map[] && !s.fault
    ensures s.insertQ == [] && s.queryQ == [] && s.outQ == []
  {
    EveryState(cfg, b, acts, |acts|);
    s := DestroyInPacketQueue(cfg, s0, true);
    s := DestroyInPacketQueue(cfg, s, false);
    s := DestroyOutPacketQueue(cfg, s);
    while s.conns != map[]
      invariant DownInv(s) && s.insertQ == [] && s.queryQ == [] && s.outQ == []
      decreases |s.conns.Keys|
    {
      var c :| c in s.conns;
      CloseRemaining(cfg, s, c);
      hide DownInv, CloseConn;
      assert (s.conns - {c}).Keys == s.conns.Keys - {c};
      s := CloseConn(cfg, s, c);
    }
  }
}
