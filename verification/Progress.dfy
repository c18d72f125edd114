/** Every packet costs the pipeline a bounded number of steps, and a server that is left alone settles clean. */
module Progress {
  import opened DocServer
  import opened DocServerMemory
  import opened DocServerSafety
  import opened Shutdown

  // ----- what is left to do -----

  /** What a worker has left to do, and what that will cause the event loop to do. */
  function WorkerWork(pc: WorkerPc): nat {
    match pc
    case Exited => 0
    case Waiting => 1
    case Appended => 6
    case Processed(_) => 8
    case Taken(_) => 9
  }

  function MainWork(main: MainPc): nat {
    match main
    case Stopped => 0
    case Reading(num) => if num == 0 then 0 else 3
    case EventLoop => 1
    case Delivering(rest) => 2 + |rest|
    case Parsing(_) => 2
    case Enqueued(_) => 3
  }

  /** A queued request is worth nine steps, a byte in the pipe four, a packet to deliver one. */
  function Work(s: State): nat {
    9 * (|s.insertQ| + |s.queryQ|) + |s.outQ| + 4 * s.pipe + Total(s.workers, WorkerWork) + MainWork(s.main)
  }

  /** The steps that move packets and bytes on; the others bring input or depend on a peer. */
  predicate IsPipelineStep(a: Step) {
    || IsWorkerStep(a) || a.PipeReadable? || a.ReadPipe? || a.TakeBatch? || a.DeliverHead? || a.EndBatch?
    || a.CountPacket? || a.EndParse?
  }

  /** What a step adds to the work: a parsed request ten, entering the read callback one. */
  function Brings(a: Step): nat { if a.AppendIn? then 10 else if a.BeginParse? then 1 else 0 }

  lemma WorkerWorkStep(cfg: Config, s: State, a: Step)
    requires Enabled(cfg, s, a) && IsWorkerStep(a)
    ensures Work(Apply(cfg, s, a)) < Work(s)
  {
    hide Total, Relocate;
    match a
    case Take(w) => AtWorker(s, w, Taken(InQueue(s, s.workers[w].insert)[0]));
    case Process(w) => AtWorker(s, w, Processed(s.workers[w].pc.p));
    case AppendOut(w) => AtWorker(s, w, Appended);
    case WriteByte(w) => AtWorker(s, w, Waiting);
    case Quit(w) => AtWorker(s, w, Exited);
  }

  lemma AtWorker(s: State, w: nat, pc: WorkerPc)
    requires w < |s.workers|
    ensures Total(SetPc(s, w, pc).workers, WorkerWork)
         == Total(s.workers, WorkerWork) - WorkerWork(s.workers[w].pc) + WorkerWork(pc)
  {
    TotalAt(s.workers, WorkerWork, w, s.workers[w].(pc := pc));
  }

  lemma LoopWorkStep(cfg: Config, s: State, a: Step)
    requires Enabled(cfg, s, a) && !IsWorkerStep(a)
    ensures Work(Apply(cfg, s, a)) + (if IsPipelineStep(a) then 1 else 0) <= Work(s) + Brings(a)
  {
    hide Total;
    if IsPeerStep(a) {
      hide Apply;
      PeerLeavesWorkers(cfg, s, a);
    } else if a.DeliverHead? {
      hide Deliver;
      DeliverLeavesWorkers(cfg, s, a.accept);
    } else {
      hide Apply, Work;
      OtherWorkStep(cfg, s, a);
    }
  }

  lemma OtherWorkStep(cfg: Config, s: State, a: Step)
    requires Enabled(cfg, s, a) && !IsWorkerStep(a) && !IsPeerStep(a) && !a.DeliverHead?
    ensures Work(Apply(cfg, s, a)) + (if IsPipelineStep(a) then 1 else 0) <= Work(s) + Brings(a)
  {
    hide Total, Relocate;
    match a
    case TakeBatch => assert |s.outQ| == |TakeOutBatch(cfg, s).outQ| + |TakeOutBatch(cfg, s).main.rest|;
    case _ =>
  }

  function PipelineSteps(acts: seq<Step>): nat {
    if acts == [] then 0
    else PipelineSteps(acts[..|acts| - 1]) + if IsPipelineStep(acts[|acts| - 1]) then 1 else 0
  }

  function Brought(acts: seq<Step>): nat {
    if acts == [] then 0 else Brought(acts[..|acts| - 1]) + Brings(acts[|acts| - 1])
  }

  /** In every stretch of every execution the pipeline takes no more steps than the work that was there and the
      work that was brought in: nothing spins. */
  lemma {:induction false} WorkIsBounded(cfg: Config, b: seq<State>, acts: seq<Step>, i: nat, j: nat)
    requires Execution(cfg, b, acts) && i <= j <= |acts|
    ensures PipelineSteps(acts[i..j]) + Work(b[j]) <= Work(b[i]) + Brought(acts[i..j])
    decreases j - i
  {
    hide Work, Init, Enabled, Apply, Brings, IsPipelineStep;
    if i == j {
      assert acts[i..j] == [];
    } else {
      WorkIsBounded(cfg, b, acts, i, j - 1);
      var a := acts[j - 1];
      assert Enabled(cfg, b[j - 1], a) && b[j - 1 + 1] == Apply(cfg, b[j - 1], a);
      assert acts[i..j][..j - 1 - i] == acts[i..j - 1] && acts[i..j][j - 1 - i] == a;
      OneStep(cfg, b[j - 1], a);
    }
  }

  lemma OneStep(cfg: Config, s: State, a: Step)
    requires Enabled(cfg, s, a)
    ensures Work(Apply(cfg, s, a)) + (if IsPipelineStep(a) then 1 else 0) <= Work(s) + Brings(a)
  {
    hide Work, Enabled, Apply;
    if IsWorkerStep(a) { WorkerWorkStep(cfg, s, a); } else { LoopWorkStep(cfg, s, a); }
  }

  // ----- where it ends -----

  /** The event loop starts to read the pipe only when there is something in it, and nobody else reads. */
  lemma {:induction false} ReadingFindsBytes(cfg: Config, b: seq<State>, acts: seq<Step>, i: nat)
    requires Execution(cfg, b, acts) && i <= |acts|
    ensures b[i].main == Reading(0) ==> b[i].pipe > 0
  {
    hide Apply, Enabled;
    if i > 0 {
      ReadingFindsBytes(cfg, b, acts, i - 1);
      assert Enabled(cfg, b[i - 1], acts[i - 1]) && b[i - 1 + 1] == Apply(cfg, b[i - 1], acts[i - 1]);
      ReadingStep(cfg, b[i - 1], acts[i - 1]);
    }
  }

  lemma ReadingStep(cfg: Config, s: State, a: Step)
    requires Enabled(cfg, s, a) && (s.main == Reading(0) ==> s.pipe > 0)
    ensures Apply(cfg, s, a).main == Reading(0) ==> Apply(cfg, s, a).pipe > 0
  {
    hide Relocate, CloseConn, Deliver, Send;
    if IsPeerStep(a) {
      hide Apply;
      PeerLeavesWorkers(cfg, s, a);
    } else if a.DeliverHead? {
      DeliverLeavesWorkers(cfg, s, a.accept);
    }
  }

  ghost predicate NoPipelineStep(cfg: Config, s: State) { forall a :: IsPipelineStep(a) ==> !Enabled(cfg, s, a) }

  /** With no step left, the event loop waits for events and every worker for requests. */
  lemma AllWait(cfg: Config, s: State)
    requires ValidConfig(cfg) && NoPipelineStep(cfg, s) && s.running && !s.main.Stopped?
    requires s.main == Reading(0) ==> s.pipe > 0
    ensures s.main.EventLoop? && s.pipe == 0
    ensures forall w :: 0 <= w < |s.workers| ==> s.workers[w].pc.Waiting? || s.workers[w].pc.Exited?
  {
    assert !Enabled(cfg, s, EndParse) && !Enabled(cfg, s, CountPacket) && !Enabled(cfg, s, TakeBatch);
    assert !Enabled(cfg, s, ReadPipe(1)) && !Enabled(cfg, s, EndBatch) && !Enabled(cfg, s, DeliverHead(true));
    assert !Enabled(cfg, s, PipeReadable);
    forall w | 0 <= w < |s.workers| ensures s.workers[w].pc.Waiting? || s.workers[w].pc.Exited? {
      assert !Enabled(cfg, s, Process(w)) && !Enabled(cfg, s, AppendOut(w)) && !Enabled(cfg, s, WriteByte(w));
    }
  }

  /** Before the stop request no thread has left its loop. */
  ghost predicate AllIn(s: State) {
    s.running ==> !s.main.Stopped? && forall w :: 0 <= w < |s.workers| ==> !s.workers[w].pc.Exited?
  }

  lemma {:induction false} AllInWhileRunning(cfg: Config, b: seq<State>, acts: seq<Step>, i: nat)
    requires Execution(cfg, b, acts) && i <= |acts|
    ensures AllIn(b[i])
  {
    hide Apply, Enabled;
    if i > 0 {
      AllInWhileRunning(cfg, b, acts, i - 1);
      assert Enabled(cfg, b[i - 1], acts[i - 1]) && b[i - 1 + 1] == Apply(cfg, b[i - 1], acts[i - 1]);
      AllInStep(cfg, b[i - 1], acts[i - 1]);
    }
  }

  lemma AllInStep(cfg: Config, s: State, a: Step)
    requires Enabled(cfg, s, a) && AllIn(s)
    ensures AllIn(Apply(cfg, s, a))
  {
    hide Relocate, CloseConn, Deliver, Send;
    if IsPeerStep(a) {
      hide Apply;
      PeerLeavesWorkers(cfg, s, a);
    } else if a.DeliverHead? {
      DeliverLeavesWorkers(cfg, s, a.accept);
    }
  }

  /** A running server with workers of both kinds that gets no more requests settles: from any state b[i] on the
      pipeline takes at most Work(b[i]) steps, and when it has none left no packet is in flight and every closed
      connection has been freed. */
  lemma SettlesClean(cfg: Config, b: seq<State>, acts: seq<Step>, i: nat, j: nat)
    requires ValidConfig(cfg) && Execution(cfg, b, acts) && i <= j <= |acts| && b[j].running
    requires exists w :: 0 <= w < |b[j].workers| && b[j].workers[w].insert
    requires exists w :: 0 <= w < |b[j].workers| && !b[j].workers[w].insert
    ensures Brought(acts[i..j]) == 0 ==> PipelineSteps(acts[i..j]) <= Work(b[i])
    ensures NoPipelineStep(cfg, b[j]) ==>
              forall c :: c in b[j].conns ==> b[j].conns[c].open && b[j].conns[c].packetNum == 0
  {
    hide Work, Enabled, Apply, Init;
    WorkIsBounded(cfg, b, acts, i, j);
    if NoPipelineStep(cfg, b[j]) {
      ReadingFindsBytes(cfg, b, acts, j);
      AllInWhileRunning(cfg, b, acts, j);
      AllWait(cfg, b[j]);
      forall w | 0 <= w < |b[j].workers| ensures !Enabled(cfg, b[j], Take(w)) { assert IsPipelineStep(Take(w)); }
      QuietMeansClean(cfg, b, acts, j);
    }
  }
}
