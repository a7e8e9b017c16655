/**
 The server's threads as a step system: the selector (the main thread, which also runs
 cleanup and the destructor of the worker pool), the workers, and signal delivery.
 A step is what one thread does between two points where another thread can intervene.
 */
module ServerProtocol {
  import opened Wire
  import opened Connection
  import opened Phases
  import opened Fencing

  /** A client object, by its index in the pool. */
  type Id = int

  datatype Owner = Nobody | Selector | Worker(w: int)

  /** Program points of the selector. A name ending in Wait is a thread that wants a lock. */
  datatype SelPc =
    | Enable                            // before enable_wakeup_fd
    | Check                             // at the test of the stop signal
    | BuildWait | Build                 // com_queue_lock: collecting the fd sets
    | Select                            // in select
    | Accept                            // the listening socket was ready
    | AcceptWait(c: Id) | AcceptAdd(c: Id)
    | Drain                             // emptying the trigger pipe
    | IoWait | Io(todo: seq<Id>)        // com_queue_lock: the I/O loop, clients still to visit
    | MoveWait(c: Id, todo: seq<Id>)    // com_queue_lock held, wants action_queue_lock
    | Move(c: Id, todo: seq<Id>)        // holds both
    | ActWait | ActDrain                // cleanup: the action queue
    | ComWait | ComSignal | ComDrain    // cleanup: the stop signal, then com_queue
    | StopWait | Stop                   // ~WorkerPool: stop_threads
    | Join                              // await_threads_termination
    | Done

  /** Program points of a worker. */
  datatype WorkPc =
    | LoopWait                          // wants action_queue_lock: thread start or end of a wait
    | Loop                              // at the test of stop_workers
    | Take                              // at remove_first
    | Exec(c: Id)                       // outside all locks
    | CloseFree(c: Id)                  // about to close outside all locks
    | RequeueWait(c: Id)                // wants com_queue_lock
    | RequeueTest(c: Id)                // com_queue_lock: at the test of the stop signal
    | RequeueAdd(c: Id) | RequeueWake   // com_queue_lock: add_last, then wakeup_selector
    | RequeueClose(c: Id)               // com_queue_lock: shutdown in progress
    | Relock                            // wants action_queue_lock
    | Idle                              // action_queue_lock: the queue was empty
    | Waiting                           // in the condition variable
    | Exited
    | Unowned                           // an exception left process_client_message; back in
                                        //   worker_loop without the lock, at the test of stop_workers
    | UnownedWait                       // about to wait without owning the lock
    | UnownedExit                       // about to leave worker_loop without owning the lock

  /** The descriptor sets of select: first what to wait for, then what is ready. */
  datatype FdSets = FdSets(read: set<int>, write: set<int>, listen: bool, trigger: bool)

  datatype Threads = Threads(
    sel: SelPc, workers: seq<WorkPc>, comOwner: Owner, actOwner: Owner, stopWorkers: bool)

  /**
   The free list of the pool, used as a stack, the two queues, and the client objects that an
   exception has left without any owner.
   */
  datatype Queues = Queues(free: seq<Id>, com: seq<Id>, act: seq<Id>, lost: seq<Id>)

  /** The client objects, and the history of descriptors and of plugin calls. */
  datatype Net = Net(conns: seq<Conn>, accepted: multiset<int>, closed: multiset<int>, calls: seq<Call>)

  datatype Wake = Wake(flag: bool, wakeupFd: bool, pipe: int, pipeOpen: bool, fds: FdSets)

  datatype State = State(th: Threads, q: Queues, net: Net, wake: Wake)

  const PIPE_CAPACITY: int := 65536

  /** A write to the non-blocking trigger pipe; it is dropped only when the pipe is full. */
  function PipeWrite(pipe: int): int {
    if pipe < PIPE_CAPACITY then pipe + 1 else pipe
  }

  datatype SelStep =
    | EnableWakeup | CheckSignal
    | AcquireCom | AcquireAct
    | BuildSets
    | SelectReturn(ready: FdSets) | SelectInterrupted | SelectFails
    | AcceptConn(fd: int) | AddAccepted
    | DrainByte | DrainEnd
    | VisitCanceled | VisitSkip | VisitGot(data: seq<byte>) | VisitEnded | VisitSent(r: SendResult)
    | IoEnd
    | MoveToAction(notified: Option<int>)
    | CleanAct | CleanActEnd
    | SignalStop | CleanCom | CleanComEnd
    | StopAll | JoinAll

  datatype WorkStep =
    | LockAct | LoopTest | TakeClient | Execute(ok: bool)
    | LockCom | TestSignal | Requeue | WakeSelector | CloseStopped
    | CloseDetached
    | GoWait | SpuriousWake
    | UnownedTest | Release

  datatype Step = Sel(ss: SelStep) | Work(w: int, ws: WorkStep) | Signal

  // ----- queues and the pool

  /** Queue::remove of a member. */
  function Without(q: seq<Id>, c: Id): seq<Id> {
    if q == [] then [] else if q[0] == c then q[1..] else [q[0]] + Without(q[1..], c)
  }

  predicate AnyWaiting(ws: seq<WorkPc>) {
    exists w :: 0 <= w < |ws| && ws[w] == Waiting
  }

  function NotifyAll(ws: seq<WorkPc>): (r: seq<WorkPc>)
    ensures |r| == |ws|
    ensures forall w :: 0 <= w < |ws| ==> r[w] == if ws[w] == Waiting then LoopWait else ws[w]
  {
    seq(|ws|, w requires 0 <= w < |ws| => if ws[w] == Waiting then LoopWait else ws[w])
  }

  predicate Valid(s: State, id: Id) {
    0 <= id < |s.net.conns|
  }

  function ConnOf(s: State, id: Id): Conn
    requires Valid(s, id)
  {
    s.net.conns[id]
  }

  function FdsOf(s: State, op: IoOp): set<int>
    requires forall id :: id in s.q.com ==> Valid(s, id)
  {
    set id | id in s.q.com && ConnOf(s, id).io == op :: ConnOf(s, id).fd
  }

  // ----- which steps are possible

  predicate SelWantsCom(pc: SelPc) {
    pc.BuildWait? || pc.AcceptWait? || pc.IoWait? || pc.ComWait?
  }

  predicate SelWantsAct(pc: SelPc) {
    pc.MoveWait? || pc.ActWait? || pc.StopWait?
  }

  predicate Visiting(s: State) {
    s.th.sel.Io? && s.th.sel.todo != [] && Valid(s, s.th.sel.todo[0])
  }

  /** The client that the I/O loop looks at. */
  function Visited(s: State): Conn
    requires Visiting(s)
  {
    ConnOf(s, s.th.sel.todo[0])
  }

  predicate SelEnabled(s: State, st: SelStep) {
    var pc, fds := s.th.sel, s.wake.fds;
    match st
    case EnableWakeup => pc == Enable
    case CheckSignal => pc == Check
    case AcquireCom => SelWantsCom(pc) && s.th.comOwner == Nobody
    case AcquireAct => SelWantsAct(pc) && s.th.actOwner == Nobody
    case BuildSets => pc == Build && forall id :: id in s.q.com ==> Valid(s, id)
    case SelectReturn(ready) =>
      && pc == Select
      && ready.read <= fds.read && ready.write <= fds.write && (ready.listen ==> fds.listen)
      && (ready.trigger <==> s.wake.pipe > 0)
      && (ready.read != {} || ready.write != {} || ready.listen || ready.trigger)
    case SelectInterrupted => pc == Select
    case SelectFails => pc == Select
    case AcceptConn(fd) =>
      // accept is not checked; it is taken to deliver a descriptor that is not open
      && pc == Accept && fd >= 0
      && (forall id :: 0 <= id < |s.net.conns| ==> s.net.conns[id].fd != fd)
      && (s.q.free != [] ==> Valid(s, s.q.free[|s.q.free| - 1]))
    case AddAccepted => pc.AcceptAdd?
    case DrainByte => pc == Drain && fds.trigger && s.wake.pipe > 0
    case DrainEnd => pc == Drain && (fds.trigger ==> s.wake.pipe <= 0)
    case VisitCanceled => Visiting(s) && Visited(s).phase == CANCELED
    case VisitSkip =>
      && Visiting(s) && Visited(s).phase != CANCELED
      && Visited(s).fd !in fds.read && Visited(s).fd !in fds.write
    case VisitGot(data) =>
      && Visiting(s) && Visited(s).phase != CANCELED && Visited(s).fd in fds.read
      && 1 <= |data| <= RecvReq(Visited(s)) && RecvStep(Visited(s), data) != Overrun
    case VisitEnded =>
      Visiting(s) && Visited(s).phase != CANCELED && Visited(s).fd in fds.read
    case VisitSent(r) =>
      && Visiting(s) && Visited(s).phase != CANCELED
      && Visited(s).fd !in fds.read && Visited(s).fd in fds.write
      && |Visited(s).ioBuffer| >= HEADER_SIZE && Written(r) <= SendReq(Prepare(Visited(s)))
    case IoEnd => pc == Io([])
    case MoveToAction(notified) =>
      // notify_one wakes exactly one waiting worker if there is one
      && pc.Move?
      && (if AnyWaiting(s.th.workers)
          then notified.Some? && 0 <= notified.value < |s.th.workers| && s.th.workers[notified.value] == Waiting
          else notified.None?)
    case CleanAct => pc == ActDrain && s.q.act != [] && Valid(s, s.q.act[0])
    case CleanActEnd => pc == ActDrain && s.q.act == []
    case SignalStop => pc == ComSignal
    case CleanCom => pc == ComDrain && s.q.com != [] && Valid(s, s.q.com[0])
    case CleanComEnd => pc == ComDrain && s.q.com == []
    case StopAll => pc == Stop
    case JoinAll => pc == Join && forall w :: 0 <= w < |s.th.workers| ==> s.th.workers[w] == Exited
  }

  predicate WorkEnabled(s: State, w: int, st: WorkStep) {
    && 0 <= w < |s.th.workers|
    && var pc := s.th.workers[w];
    match st
    case LockAct => (pc.LoopWait? || pc.Relock?) && s.th.actOwner == Nobody
    case LoopTest => pc.Loop?
    case TakeClient => pc.Take?
    case Execute(_) => pc.Exec? && Valid(s, pc.c) && ConnOf(s, pc.c).ioOffset <= |ConnOf(s, pc.c).ioBuffer|
    case LockCom => pc.RequeueWait? && s.th.comOwner == Nobody
    case TestSignal => pc.RequeueTest?
    case Requeue => pc.RequeueAdd?
    case WakeSelector => pc.RequeueWake?
    case CloseStopped => pc.RequeueClose? && Valid(s, pc.c)
    case CloseDetached => pc.CloseFree? && Valid(s, pc.c)
    case GoWait => pc.Idle?
    case SpuriousWake => pc.Waiting?
    case UnownedTest => pc.Unowned?
    case Release =>
      // gives up a mutex that is not owned: only if it is free, and not to wait after the last
      // notification; module ServerDefects has the step without these conditions
      s.th.actOwner == Nobody && (pc.UnownedExit? || (pc.UnownedWait? && !s.th.stopWorkers))
  }

  predicate Enabled(s: State, step: Step) {
    match step
    case Sel(ss) => SelEnabled(s, ss)
    case Work(w, ws) => WorkEnabled(s, w, ws)
    case Signal => true
  }

  // ----- what the steps do, component by component

  /** What a visit leaves of the client it looks at. */
  function VisitResult(s: State, st: SelStep): (Conn, Fate)
    requires Visiting(s) && SelEnabled(s, st)
  {
    match st
    case VisitCanceled => (Visited(s), Close)
    case VisitGot(data) => VisitRead(Visited(s), data)
    case VisitEnded => (Visited(s), Close)
    case VisitSent(r) => VisitWrite(Visited(s), r)
    case _ => (Visited(s), Stay)
  }

  function VisitPc(todo: seq<Id>, fate: Fate): SelPc
    requires todo != []
  {
    if fate == ToAction then MoveWait(todo[0], todo[1..]) else Io(todo[1..])
  }

  /** A closed client goes back to the pool; one with a complete message leaves com_queue. */
  function VisitQueues(q: Queues, id: Id, fate: Fate): Queues {
    match fate
    case Stay => q
    case Close => q.(com := Without(q.com, id), free := q.free + [id])
    case ToAction => q.(com := Without(q.com, id))
  }

  function SelNext(s: State, st: SelStep): SelPc
    requires SelEnabled(s, st)
  {
    var pc := s.th.sel;
    match pc
    case Enable => Check
    case Check => if s.wake.flag then ActWait else BuildWait
    case BuildWait => Build
    case Build => Select
    case Select =>
      if st.SelectFails? then ActWait
      else if st.SelectInterrupted? then Check
      else if st.SelectReturn? && st.ready.listen then Accept
      else Drain
    case Accept => if s.q.free == [] then Drain else AcceptWait(s.q.free[|s.q.free| - 1])
    case AcceptWait(c) => AcceptAdd(c)
    case AcceptAdd(c) => Drain
    case Drain => if st.DrainByte? then Drain else IoWait
    case IoWait => Io(s.q.com)
    case Io(todo) =>
      if todo == [] then Check
      else if Visiting(s) then VisitPc(todo, VisitResult(s, st).1)
      else pc
    case MoveWait(c, todo) => Move(c, todo)
    case Move(c, todo) => Io(todo)
    case ActWait => ActDrain
    case ActDrain => if st.CleanAct? then ActDrain else ComWait
    case ComWait => ComSignal
    case ComSignal => ComDrain
    case ComDrain => if st.CleanCom? then ComDrain else StopWait
    case StopWait => Stop
    case Stop => Join
    case Join => Done
    case Done => Done
  }

  function AfterExec(c: Id, o: Outcome): WorkPc {
    if o.escaped then Unowned
    else if o.conn.phase == RECV || o.conn.phase == SEND then RequeueWait(c)
    else CloseFree(c)
  }

  function WorkNext(s: State, w: int, st: WorkStep): WorkPc
    requires WorkEnabled(s, w, st)
  {
    match s.th.workers[w]
    case LoopWait => Loop
    case Loop => if s.th.stopWorkers then Exited else Take
    case Take => if s.q.act == [] then Idle else Exec(s.q.act[0])
    case Exec(c) => AfterExec(c, Process(ConnOf(s, c), st.ok))
    case CloseFree(c) => Relock
    case RequeueWait(c) => RequeueTest(c)
    case RequeueTest(c) => if s.wake.flag then RequeueClose(c) else RequeueAdd(c)
    case RequeueAdd(c) => RequeueWake
    case RequeueWake => Relock
    case RequeueClose(c) => Relock
    case Relock => Take
    case Idle => if s.th.stopWorkers then Loop else Waiting
    case Waiting => LoopWait
    case Exited => Exited
    case Unowned => if s.th.stopWorkers then UnownedExit else UnownedWait
    case UnownedWait => Waiting
    case UnownedExit => Exited
  }

  function SelThreads(s: State, ss: SelStep): Threads
    requires SelEnabled(s, ss)
  {
    var t, pc := s.th, SelNext(s, ss);
    match ss
    case AcquireCom => t.(sel := pc, comOwner := Selector)
    case AcquireAct => t.(sel := pc, actOwner := Selector)
    case BuildSets => t.(sel := pc, comOwner := Nobody)
    case AddAccepted => t.(sel := pc, comOwner := Nobody)
    case IoEnd => t.(sel := pc, comOwner := Nobody)
    case MoveToAction(notified) =>
      t.(sel := pc, actOwner := Nobody,
         workers := if notified.None? then t.workers else t.workers[notified.value := LoopWait])
    case CleanActEnd => t.(sel := pc, actOwner := Nobody)
    case CleanComEnd => t.(sel := pc, comOwner := Nobody)
    case StopAll =>
      t.(sel := pc, actOwner := Nobody, workers := NotifyAll(t.workers), stopWorkers := true)
    case _ => t.(sel := pc)
  }

  function WorkThreads(s: State, w: int, ws: WorkStep): Threads
    requires WorkEnabled(s, w, ws)
  {
    var t, pc := s.th, WorkNext(s, w, ws);
    var com := if ws.LockCom? then Worker(w)
               else if ws.WakeSelector? || ws.CloseStopped? then Nobody else t.comOwner;
    var act := if ws.LockAct? then Worker(w)
               else if pc.Exited? || pc.Waiting? || (ws.TakeClient? && pc.Exec?) then Nobody else t.actOwner;
    t.(workers := t.workers[w := pc], comOwner := com, actOwner := act)
  }

  function SelQueues(s: State, ss: SelStep): Queues
    requires SelEnabled(s, ss)
  {
    var q := s.q;
    match s.th.sel
    case Accept => if q.free == [] then q else q.(free := q.free[..|q.free| - 1])
    case AcceptAdd(c) => q.(com := q.com + [c])
    case Move(c, _) => q.(act := q.act + [c])
    case ActDrain => if q.act == [] then q else q.(act := q.act[1..], free := q.free + [q.act[0]])
    case ComDrain => if q.com == [] then q else q.(com := q.com[1..], free := q.free + [q.com[0]])
    case Io(todo) =>
      if Visiting(s) then VisitQueues(q, todo[0], VisitResult(s, ss).1) else q
    case _ => q
  }

  function WorkQueues(s: State, w: int, ws: WorkStep): Queues
    requires WorkEnabled(s, w, ws)
  {
    var q := s.q;
    match s.th.workers[w]
    case Take => if q.act == [] then q else q.(act := q.act[1..])
    case Exec(c) => if Process(ConnOf(s, c), ws.ok).escaped then q.(lost := q.lost + [c]) else q
    case RequeueAdd(c) => q.(com := q.com + [c])
    case CloseFree(c) => q.(free := q.free + [c])
    case RequeueClose(c) => q.(free := q.free + [c])
    case _ => q
  }

  /** close_fd on the client's descriptor, and clear. */
  function CloseConn(n: Net, c: Id): Net
    requires 0 <= c < |n.conns|
  {
    var fd := n.conns[c].fd;
    n.(conns := n.conns[c := CLEARED], closed := if fd >= 0 then n.closed + multiset{fd} else n.closed)
  }

  function SelNet(s: State, ss: SelStep): Net
    requires SelEnabled(s, ss)
  {
    var n := s.net;
    match s.th.sel
    case Accept =>
      if s.q.free == [] || !ss.AcceptConn? then n
      else n.(conns := n.conns[s.q.free[|s.q.free| - 1] := Accepted(ss.fd)],
              accepted := n.accepted + multiset{ss.fd})
    case ActDrain => if ss.CleanAct? then CloseConn(n, s.q.act[0]) else n
    case ComDrain => if ss.CleanCom? then CloseConn(n, s.q.com[0]) else n
    case Io(todo) =>
      if !Visiting(s) then n
      else
        var (c, fate) := VisitResult(s, ss);
        if fate == Close then CloseConn(n, todo[0]) else n.(conns := n.conns[todo[0] := c])
    case _ => n
  }

  function WorkNet(s: State, w: int, ws: WorkStep): Net
    requires WorkEnabled(s, w, ws)
  {
    var n := s.net;
    match ws
    case Execute(ok) =>
      var c := s.th.workers[w].c;
      var o := Process(n.conns[c], ok);
      n.(conns := n.conns[c := o.conn], calls := n.calls + o.calls)
    case CloseStopped => CloseConn(n, s.th.workers[w].c)
    case CloseDetached => CloseConn(n, s.th.workers[w].c)
    case _ => n
  }

  function SelWake(s: State, ss: SelStep): Wake
    requires SelEnabled(s, ss)
  {
    var k := s.wake;
    match ss
    case EnableWakeup => k.(wakeupFd := true)
    case BuildSets => k.(fds := FdSets(FdsOf(s, READ), FdsOf(s, WRITE), |s.q.free| >= 1, true))
    case SelectReturn(ready) => k.(fds := ready)
    case DrainByte => k.(pipe := k.pipe - 1)
    case SignalStop => k.(wakeupFd := false, flag := true)
    case CleanComEnd => k.(pipeOpen := false)
    case _ => k
  }

  function WorkWake(s: State, ws: WorkStep): Wake {
    if ws.WakeSelector? && s.wake.pipeOpen then s.wake.(pipe := PipeWrite(s.wake.pipe)) else s.wake
  }

  function SignalWake(k: Wake): Wake {
    k.(flag := true, pipe := if k.wakeupFd then PipeWrite(k.pipe) else k.pipe)
  }

  function Apply(s: State, step: Step): State
    requires Enabled(s, step)
  {
    match step
    case Sel(ss) => State(SelThreads(s, ss), SelQueues(s, ss), SelNet(s, ss), SelWake(s, ss))
    case Work(w, ws) => State(WorkThreads(s, w, ws), WorkQueues(s, w, ws), WorkNet(s, w, ws), WorkWake(s, ws))
    case Signal => s.(wake := SignalWake(s.wake))
  }

  ghost predicate Next(s: State, step: Step, t: State) {
    Enabled(s, step) && t == Apply(s, step)
  }

  // ----- runs

  /** All objects in the pool, all worker threads started, nothing signalled. */
  predicate Init(s: State) {
    && |s.th.workers| == |s.net.conns|
    && s.q == Queues(seq(|s.net.conns|, i => i), [], [], [])
    && (forall id :: 0 <= id < |s.net.conns| ==> s.net.conns[id].fd == FD_NONE)
    && (forall w :: 0 <= w < |s.th.workers| ==> s.th.workers[w] == LoopWait)
    && s.th.sel == Enable && s.th.comOwner == Nobody && s.th.actOwner == Nobody && !s.th.stopWorkers
    && !s.wake.wakeupFd && s.wake.pipe == 0 && s.wake.pipeOpen
    && s.net.accepted == multiset{} && s.net.closed == multiset{} && s.net.calls == []
  }

  /** `steps` can be taken one after the other from `s`. */
  predicate Run(s: State, steps: seq<Step>)
    decreases |steps|
  {
    steps == [] || (Enabled(s, steps[0]) && Run(Apply(s, steps[0]), steps[1..]))
  }

  function Final(s: State, steps: seq<Step>): State
    requires Run(s, steps)
    decreases |steps|
  {
    if steps == [] then s else Final(Apply(s, steps[0]), steps[1..])
  }
}
