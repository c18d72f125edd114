/** The packet pipeline of the document server: one event-loop thread, any number of worker
    threads, two input queues, one output queue with its wake-up pipe, and reference-counted
    connections.

    Every step is one action that no other thread can see half done: a mutex-protected queue
    operation, a pipe read or write, or a stretch of event-loop code whose data no worker
    touches. Worker steps may fall between any two event-loop steps.

    Memory errors are part of the model: touching or freeing a connection or a packet that is
    not allocated, and decrementing a zero packet_num, set `fault`. That `fault` is never set
    is a theorem, not a premise of any step. */
module DocServer {

  /** `maxConn` is max_conn_num, `batch` the size of the array pipe_notify_process fills and `pipeSize` the
      number of bytes the notify pipe holds before a write to it blocks. */
  datatype Config = Config(maxConn: nat, batch: nat, pipeSize: nat)

  ghost predicate ValidConfig(cfg: Config) { cfg.maxConn >= 1 && cfg.batch >= 1 && cfg.pipeSize >= 1 }

  /** Where a packet is linked: bookkeeping of the model, which no step reads to decide anything. */
  datatype Loc =
    | InsertQueue
    | QueryQueue
    | Processing(worker: nat)
    | OutQueue
    | Batch
    | SendList(conn: nat)

  /** `armed` is the registration of the write event; `sendList` is send_packet_list_h. */
  datatype Conn = Conn(open: bool, packetNum: nat, armed: bool, sbytes: nat, sendList: seq<nat>)

  datatype Packet = Packet(conn: nat, loc: Loc)

  datatype WorkerPc = Waiting | Taken(p: nat) | Processed(p: nat) | Appended | Exited

  datatype Worker = Worker(insert: bool, pc: WorkerPc)

  /** Parsing and Enqueued are inside recv_data, Reading and Delivering inside pipe_notify_process. */
  datatype MainPc =
    | EventLoop
    | Parsing(c: nat)
    | Enqueued(c: nat)
    | Reading(num: nat)
    | Delivering(rest: seq<nat>)
    | Stopped

  datatype State = State(
    conns: map<nat, Conn>,
    pkts: map<nat, Packet>,
    nextConn: nat,
    nextPkt: nat,
    insertQ: seq<nat>,
    queryQ: seq<nat>,
    outQ: seq<nat>,
    workers: seq<Worker>,
    pipe: nat,
    main: MainPc,
    running: bool,
    total: int,
    listening: bool,
    fault: bool)

  // ----- operations of the event loop -----

  function Fail(s: State): State { s.(fault := true) }

  function DestroyPacket(s: State, p: nat): State {
    if p !in s.pkts then Fail(s) else s.(pkts := s.pkts - {p})
  }

  function DestroyAll(s: State, q: seq<nat>): State
    decreases |q|
  {
    if q == [] then s else DestroyAll(DestroyPacket(s, q[0]), q[1..])
  }

  function DestroyConn(s: State, c: nat): State {
    if c !in s.conns then Fail(s)
    else
      var s' := DestroyAll(s, s.conns[c].sendList);
      s'.(conns := s'.conns - {c})
  }

  function IncreaseConnectionNum(cfg: Config, s: State): State {
    s.(total := s.total + 1, listening := s.listening && s.total + 1 != cfg.maxConn)
  }

  function DecreaseConnectionNum(cfg: Config, s: State): State {
    s.(listening := s.listening || s.total == cfg.maxConn, total := s.total - 1)
  }

  function CloseConn(cfg: Config, s: State, c: nat): State {
    if c !in s.conns then Fail(s)
    else
      var k := s.conns[c];
      var s' := if k.open
                then DecreaseConnectionNum(cfg, s.(conns := s.conns[c := k.(open := false, armed := false)]))
                else s;
      if k.packetNum == 0 then DestroyConn(s', c) else s'
  }

  /** --conn->packet_num on a connection that must be allocated. */
  function Uncount(s: State, c: nat): State {
    if c !in s.conns || s.conns[c].packetNum == 0 then Fail(s)
    else s.(conns := s.conns[c := s.conns[c].(packetNum := s.conns[c].packetNum - 1)])
  }

  function Relocate(pkts: map<nat, Packet>, moved: seq<nat>, loc: Loc): map<nat, Packet> {
    map p | p in pkts :: if p in moved then Packet(pkts[p].conn, loc) else pkts[p]
  }

  // ----- steps -----

  datatype Step =
    | Accept
    | PeerClosed(c: nat)
    | BeginParse(c: nat)
    | AppendIn(insert: bool)
    | CountPacket
    | EndParse
    | PipeReadable
    | ReadPipe(k: nat)
    | TakeBatch
    | DeliverHead(accept: bool)
    | EndBatch
    | SendReady(c: nat, gone: nat, left: nat)
    | SendFailed(c: nat, gone: nat, left: nat)
    | RequestStop
    | LeaveLoop
    | Take(w: nat)
    | Process(w: nat)
    | AppendOut(w: nat)
    | WriteByte(w: nat)
    | Quit(w: nat)

  /** What send_data can do to a send list of length `queued`: unlink its first `gone` packets and
      leave `left` bytes buffered, none only if nothing stays queued. */
  predicate SendEffect(queued: nat, gone: nat, left: nat) {
    gone <= queued && (left == 0 ==> gone == queued)
  }

  predicate IsOpen(s: State, c: nat) { c in s.conns && s.conns[c].open }

  function InQueue(s: State, insert: bool): seq<nat> { if insert then s.insertQ else s.queryQ }

  /** When a step can happen: the thread is at the right place and the event is registered. */
  predicate Enabled(cfg: Config, s: State, a: Step) {
    match a
    case Accept => s.main.EventLoop? && s.listening
    case PeerClosed(c) => s.main.EventLoop? && IsOpen(s, c)
    case BeginParse(c) => s.main.EventLoop? && IsOpen(s, c)
    case AppendIn(_) => s.main.Parsing?
    case CountPacket => s.main.Enqueued?
    case EndParse => s.main.Parsing?
    case PipeReadable => s.main.EventLoop? && s.pipe > 0
    case ReadPipe(k) => s.main.Reading? && 0 < k <= s.pipe && s.main.num + k <= cfg.batch
    case TakeBatch => s.main.Reading? && s.main.num > 0
    case DeliverHead(_) => s.main.Delivering? && s.main.rest != []
    case EndBatch => s.main == Delivering([])
    case SendReady(c, gone, left) =>
      s.main.EventLoop? && IsOpen(s, c) && s.conns[c].armed && SendEffect(|s.conns[c].sendList|, gone, left)
    case SendFailed(c, gone, left) =>
      && s.main.EventLoop? && IsOpen(s, c) && s.conns[c].armed
      && left > 0 && SendEffect(|s.conns[c].sendList|, gone, left)
    case RequestStop => s.running
    case LeaveLoop => s.main.EventLoop? && !s.running
    case Take(w) => w < |s.workers| && s.workers[w].pc.Waiting? && s.running && InQueue(s, s.workers[w].insert) != []
    case Process(w) => w < |s.workers| && s.workers[w].pc.Taken?
    case AppendOut(w) => w < |s.workers| && s.workers[w].pc.Processed?
    case WriteByte(w) => w < |s.workers| && s.workers[w].pc.Appended? && s.pipe < cfg.pipeSize
    case Quit(w) => w < |s.workers| && s.workers[w].pc.Waiting? && !s.running
  }

  function SetPc(s: State, w: nat, pc: WorkerPc): State
    requires w < |s.workers|
  {
    s.(workers := s.workers[w := s.workers[w].(pc := pc)])
  }

  function Deliver(cfg: Config, s: State, accept: bool): State
    requires s.main.Delivering? && s.main.rest != []
  {
    var p := s.main.rest[0];
    var s0 := s.(main := Delivering(s.main.rest[1..]));
    if p !in s.pkts then Fail(s0)
    else
      var c := s.pkts[p].conn;
      var s1 := Uncount(s0, c);
      if c !in s1.conns then s1
      else if !s1.conns[c].open then CloseConn(cfg, DestroyPacket(s1, p), c)
      else if !accept then DestroyPacket(s1, p)
      else
        var k := s1.conns[c];
        var k' := k.(sendList := k.sendList + [p], armed := k.armed || (k.sendList == [] && k.sbytes == 0));
        s1.(conns := s1.conns[c := k'], pkts := Relocate(s1.pkts, [p], SendList(c)))
  }

  /** send_data up to the point where it either has written or is about to close. */
  function Send(s: State, c: nat, gone: nat, left: nat): State
    requires IsOpen(s, c) && gone <= |s.conns[c].sendList|
  {
    var k := s.conns[c];
    var s' := s.(conns := s.conns[c := k.(sendList := k.sendList[gone..], sbytes := left, armed := left != 0)]);
    DestroyAll(s', k.sendList[..gone])
  }

  function AcceptConn(cfg: Config, s: State): State {
    IncreaseConnectionNum(cfg,
        s.(conns := s.conns[s.nextConn := Conn(true, 0, false, 0, [])], nextConn := s.nextConn + 1))
  }

  /** add_in_packet, called by recv_data for each parsed frame. */
  function AppendInPacket(s: State, insert: bool): State
    requires s.main.Parsing?
  {
    var p := s.nextPkt;
    var s' := s.(nextPkt := p + 1, main := Enqueued(s.main.c));
    if insert
    then s'.(insertQ := s.insertQ + [p], pkts := s.pkts[p := Packet(s.main.c, InsertQueue)])
    else s'.(queryQ := s.queryQ + [p], pkts := s.pkts[p := Packet(s.main.c, QueryQueue)])
  }

  /** ++conn->packet_num, which recv_data does after the append. */
  function CountInPacket(s: State): State
    requires s.main.Enqueued?
  {
    var c := s.main.c;
    var s' := s.(main := Parsing(c));
    if c !in s.conns then Fail(s')
    else s'.(conns := s.conns[c := s.conns[c].(packetNum := s.conns[c].packetNum + 1)])
  }

  /** The dequeue loop of get_out_packet_array. */
  function TakeOutBatch(cfg: Config, s: State): State {
    var n := if |s.outQ| < cfg.batch then |s.outQ| else cfg.batch;
    s.(main := Delivering(s.outQ[..n]), outQ := s.outQ[n..], pkts := Relocate(s.pkts, s.outQ[..n], Batch))
  }

  /** get_in_packet of worker `w`. */
  function TakeInPacket(s: State, w: nat): State
    requires w < |s.workers| && InQueue(s, s.workers[w].insert) != []
  {
    var q := InQueue(s, s.workers[w].insert);
    var s' := SetPc(s, w, Taken(q[0])).(pkts := Relocate(s.pkts, [q[0]], Processing(w)));
    if s.workers[w].insert then s'.(insertQ := q[1..]) else s'.(queryQ := q[1..])
  }

  /** The worker reads packet->conn->fd and runs the request on the connection's memory. */
  function ProcessPacket(s: State, w: nat): State
    requires w < |s.workers| && s.workers[w].pc.Taken?
  {
    var p := s.workers[w].pc.p;
    var s' := SetPc(s, w, Processed(p));
    if p !in s.pkts || s.pkts[p].conn !in s.conns then Fail(s') else s'
  }

  /** The locked half of add_out_packet. */
  function AppendOutPacket(s: State, w: nat): State
    requires w < |s.workers| && s.workers[w].pc.Processed?
  {
    var p := s.workers[w].pc.p;
    var s' := SetPc(s, w, Appended).(outQ := s.outQ + [p], pkts := Relocate(s.pkts, [p], OutQueue));
    if p !in s.pkts then Fail(s') else s'
  }

  function Apply(cfg: Config, s: State, a: Step): State
    requires Enabled(cfg, s, a)
  {
    match a
    case Accept => AcceptConn(cfg, s)
    case PeerClosed(c) => CloseConn(cfg, s, c)
    case BeginParse(c) => s.(main := Parsing(c))
    case AppendIn(insert) => AppendInPacket(s, insert)
    case CountPacket => CountInPacket(s)
    case EndParse => s.(main := EventLoop)
    case PipeReadable => s.(main := Reading(0))
    case ReadPipe(k) => s.(pipe := s.pipe - k, main := Reading(s.main.num + k))
    case TakeBatch => TakeOutBatch(cfg, s)
    case DeliverHead(accept) => Deliver(cfg, s, accept)
    case EndBatch => s.(main := EventLoop)
    case SendReady(c, gone, left) => Send(s, c, gone, left)
    case SendFailed(c, gone, left) => CloseConn(cfg, Send(s, c, gone, left), c)
    case RequestStop => s.(running := false)
    case LeaveLoop => s.(main := Stopped)
    case Take(w) => TakeInPacket(s, w)
    case Process(w) => ProcessPacket(s, w)
    case AppendOut(w) => AppendOutPacket(s, w)
    case WriteByte(w) => SetPc(s, w, Waiting).(pipe := s.pipe + 1)
    case Quit(w) => SetPc(s, w, Exited)
  }

  ghost predicate Init(s: State) {
    && s.conns == map[] && s.pkts == map[]
    && s.insertQ == [] && s.queryQ == [] && s.outQ == []
    && (forall w :: 0 <= w < |s.workers| ==> s.workers[w].pc.Waiting?)
    && s.pipe == 0 && s.main.EventLoop? && s.running
    && s.total == 0 && s.listening && !s.fault
  }

  /** `b` is an execution of the server: its steps, by any thread in any order, are `acts`. */
  ghost predicate Execution(cfg: Config, b: seq<State>, acts: seq<Step>) {
    && |b| == |acts| + 1 && Init(b[0])
    && forall i :: 0 <= i < |acts| ==> Enabled(cfg, b[i], acts[i]) && b[i + 1] == Apply(cfg, b[i], acts[i])
  }
}
