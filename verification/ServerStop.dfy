/**
 From the stop signal to the destructor of the worker pool: the selector gets there in a
 bounded number of steps, whatever the workers do.
 */
module ServerStop {
  import opened Connection
  import opened Phases
  import opened Fencing
  import opened ServerProtocol
  import opened ServerOwnership
  import opened ServerWorkers
  import opened ServerConnections
  import opened ServerDescriptors
  import opened ServerInvariant
  import opened ServerTheorems
  import opened ServerShutdown
  import opened Sums

  /** How many steps the selector has left once the stop flag is set, but for bytes still to be written to the pipe. */
  function StopRank(s: State): int {
    var n := |s.net.conns|;
    match s.th.sel
    case Done => 0
    case Join => 1
    case Stop => 2
    case StopWait => 3
    case ComDrain => 4 + |s.q.com|
    case ComSignal => 5 + n
    case ComWait => 6 + n
    case ActDrain => 7 + n + |s.q.act|
    case ActWait => 8 + 2 * n
    case Check => 9 + 2 * n
    case Enable => 10 + 2 * n
    case Io(todo) => 10 + 2 * n + 3 * |todo|
    case Move(_, todo) => 11 + 2 * n + 3 * |todo|
    case MoveWait(_, todo) => 12 + 2 * n + 3 * |todo|
    case IoWait => 11 + 5 * n
    case Drain => 12 + 5 * n + s.wake.pipe
    case AcceptAdd(_) => 13 + 5 * n + s.wake.pipe
    case AcceptWait(_) => 14 + 5 * n + s.wake.pipe
    case Accept => 15 + 5 * n + s.wake.pipe
    case Select => 16 + 5 * n + s.wake.pipe
    case Build => 17 + 5 * n + s.wake.pipe
    case BuildWait => 18 + 5 * n + s.wake.pipe
  }

  lemma QueueBounds(s: State)
    requires Inv(s)
    ensures |s.q.com| <= |s.net.conns| && |s.q.act| <= |s.net.conns| && s.wake.pipe >= 0
    ensures LockInv(s.th) && TailInv(s.th, s.q)
  {
    hide Sum, LockInv, TailInv, IdleInv, AstrayInv, SufficiencyInv, ShutdownInv, OwnInv, ConnInv, FdInv;
    hide FdSetInv, ListenInv;
    SumBounds(BUSY, s.th.workers, 1);
  }

  lemma RankBounds(s: State)
    requires Inv(s)
    ensures 0 <= StopRank(s) <= 18 + 5 * |s.net.conns| + s.wake.pipe
  {
    hide Inv, LockInv;
    QueueBounds(s);
    var todo := if s.th.sel.Io? || s.th.sel.MoveWait? || s.th.sel.Move? then s.th.sel.todo else [];
    assert |todo| <= |s.q.com|;
  }

  /** Bytes that a step can put into the trigger pipe. */
  function Writes(step: Step): int {
    if step.Signal? || (step.Work? && step.ws.WakeSelector?) then 1 else 0
  }

  lemma RankSelStep(s: State, ss: SelStep, t: State)
    requires Next(s, Sel(ss), t) && s.wake.flag
    requires |s.q.com| <= |s.net.conns| && |s.q.act| <= |s.net.conns| == |t.net.conns| && s.wake.pipe >= 0
    ensures StopRank(t) < StopRank(s) && t.wake.flag
  {
    hide StopRank, SelEnabled, SelThreads, SelQueues, SelNet, SelWake;
    if s.th.sel.Io? || s.th.sel.Move? || s.th.sel.MoveWait? {
      RankLoop(s, ss, t);
    } else {
      RankElsewhere(s, ss, t);
    }
  }

  lemma RankLoop(s: State, ss: SelStep, t: State)
    requires Next(s, Sel(ss), t) && s.wake.flag && |s.net.conns| == |t.net.conns|
    requires s.th.sel.Io? || s.th.sel.Move? || s.th.sel.MoveWait?
    ensures StopRank(t) < StopRank(s) && t.wake.flag
  {
    hide VisitResult, SelNet, SelQueues, FdsOf, NotifyAll, SelThreads;
    SelPcNext(s, ss);
  }

  /** From select up to the I/O loop. */
  predicate BeforeLoop(pc: SelPc) {
    pc.Select? || pc.Accept? || pc.AcceptWait? || pc.AcceptAdd? || pc.Drain? || pc.IoWait?
  }

  lemma RankElsewhere(s: State, ss: SelStep, t: State)
    requires Next(s, Sel(ss), t) && s.wake.flag
    requires |s.q.com| <= |s.net.conns| && |s.q.act| <= |s.net.conns| == |t.net.conns| && s.wake.pipe >= 0
    requires !s.th.sel.Io? && !s.th.sel.Move? && !s.th.sel.MoveWait?
    ensures StopRank(t) < StopRank(s) && t.wake.flag
  {
    hide StopRank, SelEnabled, SelThreads, SelQueues, SelNet, SelWake;
    if BeforeLoop(s.th.sel) {
      RankBeforeLoop(s, ss, t);
    } else {
      RankOutside(s, ss, t);
    }
  }

  lemma RankBeforeLoop(s: State, ss: SelStep, t: State)
    requires Next(s, Sel(ss), t) && s.wake.flag && BeforeLoop(s.th.sel)
    requires |s.q.com| <= |s.net.conns| == |t.net.conns| && s.wake.pipe >= 0
    ensures StopRank(t) < StopRank(s) && t.wake.flag
  {
    hide VisitResult, VisitPc, SelNet, SelQueues, FdsOf, NotifyAll, SelThreads;
    SelPcNext(s, ss);
  }

  lemma RankOutside(s: State, ss: SelStep, t: State)
    requires Next(s, Sel(ss), t) && s.wake.flag && !BeforeLoop(s.th.sel)
    requires |s.q.com| <= |s.net.conns| && |s.q.act| <= |s.net.conns| == |t.net.conns| && s.wake.pipe >= 0
    requires !s.th.sel.Io? && !s.th.sel.Move? && !s.th.sel.MoveWait?
    ensures StopRank(t) < StopRank(s) && t.wake.flag
  {
    hide VisitResult, VisitPc, SelNet, FdsOf, NotifyAll, VisitQueues, SelThreads;
    SelPcNext(s, ss);
  }

  lemma RankWorkStep(s: State, w: int, ws: WorkStep, t: State)
    requires Next(s, Work(w, ws), t) && LockInv(s.th) && s.wake.flag && |s.net.conns| == |t.net.conns|
    ensures StopRank(t) <= StopRank(s) + Writes(Work(w, ws)) && t.wake.flag
  {
    hide Process, WorkNet;
  }

  /** Every step of the selector brings it closer, and no other takes it back but by a byte in the pipe. */
  lemma RankStep(s: State, step: Step, t: State)
    requires Next(s, step, t) && Inv(s) && s.wake.flag
    ensures t.wake.flag
    ensures if step.Sel? then StopRank(t) < StopRank(s) else StopRank(t) <= StopRank(s) + Writes(step)
  {
    hide Inv, StopRank, LockInv, TailInv, SelThreads, SelQueues, SelNet, SelWake, SelEnabled, WorkThreads;
    hide WorkQueues, WorkNet, WorkWake, WorkEnabled;
    QueueBounds(s);
    PoolStep(s, step, t);
    match step
    case Sel(ss) => RankSelStep(s, ss, t);
    case Work(w, ws) => RankWorkStep(s, w, ws, t);
    case Signal => RankSignal(s, t);
  }

  lemma RankSignal(s: State, t: State)
    requires Next(s, Signal, t)
    ensures StopRank(t) <= StopRank(s) + 1 && t.wake.flag
  {
  }

  function SelSteps(steps: seq<Step>): nat {
    if steps == [] then 0 else (if steps[0].Sel? then 1 else 0) + SelSteps(steps[1..])
  }

  function PipeWrites(steps: seq<Step>): int {
    if steps == [] then 0 else Writes(steps[0]) + PipeWrites(steps[1..])
  }

  /**
   Once the stop flag is set the selector takes, in any run and up to the end of the program, at
   most five steps for each object of the pool, eighteen more, and one for each byte that was in
   the pipe or is still written to it.
   */
  lemma {:induction false} StopBounded(s: State, steps: seq<Step>)
    requires Inv(s) && s.wake.flag && Run(s, steps)
    ensures SelSteps(steps) + StopRank(Final(s, steps)) <= StopRank(s) + PipeWrites(steps)
    ensures SelSteps(steps) <= 18 + 5 * |s.net.conns| + s.wake.pipe + PipeWrites(steps)
    decreases |steps|
  {
    hide Inv, Enabled, Apply, StopRank;
    RankBounds(s);
    if steps != [] {
      var t := Apply(s, steps[0]);
      RankStep(s, steps[0], t);
      InvStep(s, steps[0], t);
      StopBounded(t, steps[1..]);
    }
    InvRun(s, steps);
    RankBounds(Final(s, steps));
  }

  // ----- progress

  lemma {:induction false} UnusedFd(conns: seq<Conn>) returns (fd: int)
    ensures fd >= 0 && forall id :: 0 <= id < |conns| ==> conns[id].fd < fd
  {
    if conns == [] {
      fd := 0;
    } else {
      var n := |conns| - 1;
      fd := UnusedFd(conns[..n]);
      fd := if conns[n].fd < fd then fd else conns[n].fd + 1;
      assert forall id :: 0 <= id < n ==> conns[id] == conns[..n][id];
    }
  }

  lemma OutsideSection(s: State) returns (ss: SelStep)
    requires Inv(s) && (s.th.sel.Select? ==> s.wake.flag || s.wake.pipe > 0)
    requires s.th.sel.Enable? || s.th.sel.Check? || s.th.sel.Select? || s.th.sel.Accept? || s.th.sel.Drain?
    ensures SelEnabled(s, ss) && Progress(Sel(ss))
  {
    hide ThreadInv, OwnInv, FdInv, ConnInv, FdSetInv;
    match s.th.sel
    case Enable => ss := EnableWakeup;
    case Check => ss := CheckSignal;
    case Select => ss := TRIGGERED;
    case Accept =>
      var fd := UnusedFd(s.net.conns);
      FreeValid(s);
      ss := AcceptConn(fd);
    case Drain => ss := if s.wake.fds.trigger && s.wake.pipe > 0 then DrainByte else DrainEnd;
  }

  lemma FreeValid(s: State)
    requires OwnInv(s)
    ensures s.q.free != [] ==> Valid(s, s.q.free[|s.q.free| - 1])
  {
    hide OwnInv;
    if s.q.free != [] {
      Exclusive(s, s.q.free[|s.q.free| - 1]);
    }
  }

  /** Until it joins the workers the selector can step, or the owner of the lock that it waits for can. */
  lemma StopProgress(s: State) returns (step: Step)
    requires Inv(s) && s.wake.flag && s.th.sel != Join && s.th.sel != Done
    ensures Enabled(s, step) && Progress(step)
    ensures || By(step) == Selector
            || (SelWantsCom(s.th.sel) && By(step) == s.th.comOwner)
            || (SelWantsAct(s.th.sel) && By(step) == s.th.actOwner)
  {
    hide Inv, Core, LockInv, SelEnabled, WorkEnabled;
    if SelWantsCom(s.th.sel) {
      step := LockProgress(s, ComLock, Selector);
    } else if SelWantsAct(s.th.sel) {
      step := LockProgress(s, ActLock, Selector);
    } else if SelHoldsCom(s.th.sel) || SelHoldsAct(s.th.sel) {
      InvLocks(s);
      step := SelectorInSection(s);
    } else {
      var ss := OutsideSection(s);
      step := Sel(ss);
    }
  }

  /** How many steps a worker has left in its section. */
  function SectionLeft(pc: WorkPc): nat {
    match pc
    case RequeueTest(_) => 3
    case RequeueAdd(_) => 2
    case RequeueWake => 1
    case RequeueClose(_) => 1
    case Loop => 3
    case Take => 2
    case Idle => 1
    case _ => 0
  }

  function OwnerLeft(t: Threads, owner: Owner): (n: nat)
    ensures n <= 3
  {
    if owner.Worker? && 0 <= owner.w < |t.workers| then SectionLeft(t.workers[owner.w]) else 0
  }

  function StopMeasure(s: State): int {
    StopRank(s) + 2 * OwnerLeft(s.th, s.th.comOwner) + 2 * OwnerLeft(s.th, s.th.actOwner)
  }

  lemma OwnersSelStep(s: State, ss: SelStep, t: State)
    requires Next(s, Sel(ss), t) && LockInv(s.th)
    ensures OwnerLeft(t.th, t.th.comOwner) <= OwnerLeft(s.th, s.th.comOwner)
    ensures OwnerLeft(t.th, t.th.actOwner) <= OwnerLeft(s.th, s.th.actOwner)
  {
    hide SelThreads, SelEnabled, SelQueues, SelNet, SelWake;
    SelOwners(s, ss);
    SelKeepsWorkers(s, ss);
  }

  lemma OwnersWorkStep(s: State, w: int, ws: WorkStep, t: State)
    requires Next(s, Work(w, ws), t) && LockInv(s.th) && !s.th.stopWorkers
    requires Worker(w) == s.th.comOwner || Worker(w) == s.th.actOwner
    ensures OwnerLeft(t.th, t.th.comOwner) + OwnerLeft(t.th, t.th.actOwner)
          < OwnerLeft(s.th, s.th.comOwner) + OwnerLeft(s.th, s.th.actOwner)
  {
    hide Process, WorkQueues, WorkNet;
  }

  lemma MeasureStep(s: State, step: Step, t: State)
    requires Next(s, step, t) && Inv(s) && s.wake.flag && s.th.sel != Join && s.th.sel != Done
    requires step.Sel? || (step.Work? && (Worker(step.w) == s.th.comOwner || Worker(step.w) == s.th.actOwner))
    ensures StopMeasure(t) < StopMeasure(s)
  {
    hide Inv, LockInv, StopRank, OwnerLeft, Enabled, Apply, ShutdownInv;
    RankStep(s, step, t);
    QueueBounds(s);
    InvShutdown(s);
    NotStopped(s);
    if step.Sel? {
      OwnersSelStep(s, step.ss, t);
    } else {
      OwnersWorkStep(s, step.w, step.ws, t);
    }
  }

  lemma NotStopped(s: State)
    requires ShutdownInv(s) && s.th.sel != Join && s.th.sel != Done
    ensures !s.th.stopWorkers
  {
  }

  lemma MeasureBounds(s: State)
    requires Inv(s)
    ensures 0 <= StopMeasure(s) <= 30 + 5 * |s.net.conns| + s.wake.pipe
    ensures StopMeasure(s) >= StopRank(s)
  {
    hide Inv, StopRank;
    RankBounds(s);
  }

  /** Workers that are about to wait without owning the lock are left at that. */
  ghost predicate Bystanders(s: State, t: State) {
    && |t.th.workers| == |s.th.workers|
    && forall w :: 0 <= w < |s.th.workers| && s.th.workers[w].UnownedWait? ==> t.th.workers[w].UnownedWait?
  }

  lemma NoneMoved(s: State)
    ensures Bystanders(s, s)
  {
  }

  lemma BystandersChain(s: State, t: State, u: State)
    requires Bystanders(s, t) && Bystanders(t, u)
    ensures Bystanders(s, u)
  {
  }

  lemma BystandersStep(s: State, step: Step, t: State)
    requires Next(s, step, t) && Inv(s)
    requires step.Sel? || (step.Work? && (Worker(step.w) == s.th.comOwner || Worker(step.w) == s.th.actOwner))
    ensures Bystanders(s, t)
  {
    hide Inv, TailInv, SelEnabled, SelThreads, SelQueues, SelNet, SelWake, WorkQueues, WorkNet, WorkNext, Process;
    QueueBounds(s);
    if step.Sel? {
      SelKeepsWorkers(s, step.ss);
    }
  }

  /**
   From every reachable state with the stop flag set the selector gets to joining the workers,
   by steps of its own and of workers inside the locks that it waits for, within a bound.
   */
  lemma {:induction false} StopReachesJoin(s: State) returns (steps: seq<Step>)
    requires Inv(s) && s.wake.flag && s.th.sel != Done
    ensures Run(s, steps) && Final(s, steps).th.sel == Join
    ensures Bystanders(s, Final(s, steps))
    ensures |steps| <= StopMeasure(s) <= 30 + 5 * |s.net.conns| + s.wake.pipe
    decreases StopMeasure(s)
  {
    hide Inv, Enabled, Apply, StopMeasure, Bystanders;
    MeasureBounds(s);
    NoneMoved(s);
    steps := [];
    if s.th.sel != Join {
      var step := StopProgress(s);
      var t := Apply(s, step);
      ByOwner(s, step);
      RankStep(s, step, t);
      MeasureStep(s, step, t);
      InvStep(s, step, t);
      NotYetDone(s, step, t);
      BystandersStep(s, step, t);
      var rest := StopReachesJoin(t);
      steps := [step] + rest;
      assert steps[1..] == rest;
      BystandersChain(s, t, Final(t, rest));
    }
  }

  lemma ByOwner(s: State, step: Step)
    requires || By(step) == Selector
             || ((By(step) == s.th.comOwner || By(step) == s.th.actOwner) && Progress(step))
    ensures step.Sel? || (step.Work? && (Worker(step.w) == s.th.comOwner || Worker(step.w) == s.th.actOwner))
  {
  }

  lemma NotYetDone(s: State, step: Step, t: State)
    requires Next(s, step, t) && s.th.sel != Join && s.th.sel != Done
    ensures t.th.sel != Done
  {
    hide VisitResult, Process, SelQueues, SelNet, SelWake, WorkQueues, WorkNet;
  }
}
