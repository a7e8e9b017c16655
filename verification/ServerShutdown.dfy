/**
 Locks are never deadlocked, shutdown leaves nothing behind, and it comes to an end.
 */
module ServerShutdown {
  import opened Wire
  import opened Connection
  import opened Phases
  import opened Fencing
  import opened ServerProtocol
  import opened ServerOwnership
  import opened ServerWorkers
  import opened ServerConnections
  import opened ServerDescriptors
  import opened ServerInvariant
  import opened ServerTheorems
  import opened Sums

  // ----- locks

  /** A step that some thread takes on its own: no signal, no spurious wakeup and no failing call. */
  predicate Progress(step: Step) {
    match step
    case Sel(ss) =>
      && !ss.SelectInterrupted? && !ss.SelectFails? && !ss.VisitEnded?
      && (ss.VisitSent? ==> !ss.r.SendFailed?)
    case Work(_, ws) => !ws.SpuriousWake?
    case Signal => false
  }

  /** A worker inside a lock's section can always go on. */
  lemma WorkerInSection(s: State, w: int) returns (step: Step)
    requires OwnInv(s) && 0 <= w < |s.th.workers|
    requires WorkHoldsCom(s.th.workers[w]) || WorkHoldsAct(s.th.workers[w])
    ensures Enabled(s, step) && Progress(step) && By(step) == Worker(w)
  {
    hide OwnInv;
    var pc := s.th.workers[w];
    if WorkHeld(pc) != [] {
      HeldExclusive(s, w, pc.c);
    }
    step := Work(w, match pc
                    case RequeueTest(_) => TestSignal
                    case RequeueAdd(_) => Requeue
                    case RequeueWake => WakeSelector
                    case RequeueClose(_) => CloseStopped
                    case Loop => LoopTest
                    case Take => TakeClient
                    case _ => GoWait);
  }

  lemma VisitPossible(s: State) returns (ss: SelStep)
    requires Core(s) && Visiting(s)
    ensures SelEnabled(s, ss) && Progress(Sel(ss))
  {
    hide OwnInv, Receiving, VisitReady, Sending, RecvStep, RecvReq;
    VisitedOnCom(s);
    assert QueueConnOk(s, s.th.sel.todo[0]);
    var c := Visited(s);
    NotCanceled(c);
    if c.fd in s.wake.fds.read {
      ss := VisitGot([0]);
      ReadReady(s);
    } else if c.fd in s.wake.fds.write {
      ss := VisitSent(Again);
      WriteReady(s);
    } else {
      ss := VisitSkip;
    }
  }

  /** A client in the read set can receive a byte. */
  lemma ReadReady(s: State)
    requires VisitReady(s) && Visiting(s) && Visited(s).fd in s.wake.fds.read
    ensures 1 <= RecvReq(Visited(s)) && RecvStep(Visited(s), [0]) != Overrun
  {
    hide RecvStep, RecvReq;
    var c := Visited(s);
    RecvRequestExact(c, Payload(c));
    VisitReadKeeps(c, [0]);
  }

  lemma WriteReady(s: State)
    requires VisitReady(s) && Visiting(s) && Visited(s).fd in s.wake.fds.write
    ensures |Visited(s).ioBuffer| >= HEADER_SIZE && 0 <= SendReq(Prepare(Visited(s)))
  {
  }

  lemma QueuesValid(s: State)
    requires OwnInv(s)
    ensures forall id :: id in s.q.com || id in s.q.act ==> Valid(s, id)
  {
    hide OwnInv;
    forall id | id in s.q.com || id in s.q.act ensures Valid(s, id) { Exclusive(s, id); }
  }

  lemma LoopPossible(s: State) returns (step: Step)
    requires Core(s) && s.th.sel.Io?
    ensures Enabled(s, step) && step.Sel? && Progress(step)
  {
    hide OwnInv, ConnInv, VisitReady, RecvStep, RecvReq, Prepare, SendReq;
    var com, todo := s.q.com, s.th.sel.todo;
    if todo == [] {
      step := Sel(IoEnd);
    } else {
      assert com[|com| - |todo|] == todo[0];
      Exclusive(s, todo[0]);
      var ss := VisitPossible(s);
      step := Sel(ss);
    }
  }

  /** The selector inside a lock's section can go on, unless it wants the second lock. */
  lemma SelectorInSection(s: State) returns (step: Step)
    requires Core(s) && (SelHoldsCom(s.th.sel) || SelHoldsAct(s.th.sel)) && !s.th.sel.MoveWait?
    ensures Enabled(s, step) && step.Sel? && Progress(step)
  {
    hide OwnInv, Core, Enabled;
    CoreOwn(s);
    match s.th.sel
    case Io(_) =>
      step := LoopPossible(s);
    case Move(_, _) =>
      step := MovePossible(s);
    case _ =>
      QueuesValid(s);
      step := SectionStep(s);
  }

  lemma MovePossible(s: State) returns (step: Step)
    requires s.th.sel.Move?
    ensures Enabled(s, step) && step.Sel? && Progress(step)
  {
    if AnyWaiting(s.th.workers) {
      var w :| 0 <= w < |s.th.workers| && s.th.workers[w] == Waiting;
      step := Sel(MoveToAction(Some(w)));
    } else {
      step := Sel(MoveToAction(None));
    }
  }

  lemma SectionStep(s: State) returns (step: Step)
    requires (SelHoldsCom(s.th.sel) || SelHoldsAct(s.th.sel)) && !s.th.sel.MoveWait? && !s.th.sel.Move? && !s.th.sel.Io?
    requires forall id :: id in s.q.com || id in s.q.act ==> Valid(s, id)
    ensures Enabled(s, step) && step.Sel? && Progress(step)
  {
    step := Sel(match s.th.sel
                case Build => BuildSets
                case AcceptAdd(_) => AddAccepted
                case ActDrain => if s.q.act == [] then CleanActEnd else CleanAct
                case ComSignal => SignalStop
                case ComDrain => if s.q.com == [] then CleanComEnd else CleanCom
                case _ => StopAll);
  }

  lemma InvLocks(s: State)
    requires Inv(s)
    ensures LockInv(s.th) && Core(s)
  {
    hide LockInv, Load, IdleInv, AstrayInv, SufficiencyInv, ShutdownInv, OwnInv, ConnInv, FdInv, FdSetInv;
    hide WakeupInv, ListenInv, TailInv, VisitReady;
    FdSetGivesVisitReady(s);
  }

  lemma LockOwnerCanStep(s: State, owner: Owner) returns (step: Step)
    requires LockInv(s.th) && Core(s)
    requires owner != Nobody && (owner == s.th.comOwner || owner == s.th.actOwner)
    requires s.th.sel.MoveWait? ==> owner != Selector
    ensures Enabled(s, step) && Progress(step) && By(step) == owner
  {
    hide Core, Enabled;
    if owner == Selector {
      step := SelectorInSection(s);
    } else {
      CoreOwn(s);
      step := WorkerInSection(s, owner.w);
    }
  }

  lemma CoreOwn(s: State)
    requires Core(s)
    ensures OwnInv(s)
  {
  }

  datatype Lock = ComLock | ActLock

  function OwnerOf(t: Threads, lock: Lock): Owner {
    if lock.ComLock? then t.comOwner else t.actOwner
  }

  /** The thread `who` waits for the lock. */
  predicate Wants(s: State, lock: Lock, who: Owner) {
    match who
    case Nobody => false
    case Selector => if lock.ComLock? then SelWantsCom(s.th.sel) else SelWantsAct(s.th.sel)
    case Worker(w) =>
      && 0 <= w < |s.th.workers|
      && var pc := s.th.workers[w];
      if lock.ComLock? then pc.RequeueWait? else pc.LoopWait? || pc.Relock?
  }

  /** The thread that takes the step. */
  function By(step: Step): Owner {
    match step
    case Sel(_) => Selector
    case Work(w, _) => Worker(w)
    case Signal => Nobody
  }

  /** The step by which a thread that waits for a free lock acquires it. */
  function Acquire(lock: Lock, who: Owner): Step
    requires who != Nobody
  {
    match who
    case Selector => Sel(if lock.ComLock? then AcquireCom else AcquireAct)
    case Worker(w) => Work(w, if lock.ComLock? then LockCom else LockAct)
  }

  /**
   Deadlock freedom: whenever a thread waits for a lock, that very lock moves on. If it is free
   the thread can acquire it. If not, the thread inside can take a step, the selector inside
   com_queue_lock once it has got action_queue_lock, which in turn is free or has an owner
   that can step. No thread waits for com_queue_lock while it holds action_queue_lock.
   */
  lemma NoDeadlock(s: State, lock: Lock, who: Owner) returns (step: Step)
    requires Reached(s) && Wants(s, lock, who)
    ensures Enabled(s, step)
    ensures var owner := OwnerOf(s.th, lock);
            if owner == Nobody then step == Acquire(lock, who)
            else if lock == ComLock && s.th.sel.MoveWait? then
              owner == Selector
              && if s.th.actOwner == Nobody then step == Sel(AcquireAct) else By(step) == s.th.actOwner != Selector
            else By(step) == owner
    ensures lock == ComLock ==> s.th.actOwner != who
  {
    hide *;
    ReachedInv(s);
    step := LockProgress(s, lock, who);
  }

  lemma LockProgress(s: State, lock: Lock, who: Owner) returns (step: Step)
    requires Inv(s) && Wants(s, lock, who)
    ensures Enabled(s, step) && Progress(step)
    ensures var owner := OwnerOf(s.th, lock);
            if owner == Nobody then step == Acquire(lock, who)
            else if lock == ComLock && s.th.sel.MoveWait? then
              owner == Selector
              && if s.th.actOwner == Nobody then step == Sel(AcquireAct) else By(step) == s.th.actOwner != Selector
            else By(step) == owner
    ensures lock == ComLock ==> s.th.actOwner != who
  {
    hide Inv, Core;
    InvLocks(s);
    var t := s.th;
    var owner := OwnerOf(t, lock);
    if owner == Nobody {
      step := Acquire(lock, who);
    } else if lock == ComLock && t.sel.MoveWait? {
      step := if t.actOwner == Nobody then Sel(AcquireAct) else Sel(CheckSignal);
      if t.actOwner != Nobody {
        step := LockOwnerCanStep(s, t.actOwner);
      }
    } else {
      step := LockOwnerCanStep(s, owner);
    }
  }

  // ----- what cleanup leaves behind

  lemma DrainedStep(s: State, step: Step, t: State)
    requires Next(s, step, t) && ComDrained(s.th.sel)
    ensures ComDrained(t.th.sel)
  {
    hide VisitResult, Process, SelQueues, SelNet, WorkQueues, WorkNet;
  }

  /**
   Shutdown safety: from the moment cleanup has left com_queue, no run of any length ever
   puts a client on com_queue or on the action queue again.
   */
  lemma {:induction false} NothingQueuedAfterCleanup(s: State, steps: seq<Step>)
    requires Inv(s) && ComDrained(s.th.sel) && Run(s, steps)
    ensures Final(s, steps).q.com == [] && Final(s, steps).q.act == []
    decreases |steps|
  {
    hide Inv;
    if steps == [] {
      InvShutdown(s);
    } else {
      var t := Apply(s, steps[0]);
      InvStep(s, steps[0], t);
      DrainedStep(s, steps[0], t);
      NothingQueuedAfterCleanup(t, steps[1..]);
    }
  }

  lemma InvShutdown(s: State)
    requires Inv(s)
    ensures ShutdownInv(s)
  {
    hide ClientInv, LockInv, Load, IdleInv, AstrayInv, SufficiencyInv, TailInv, ShutdownInv;
  }

  /**
   When the worker threads are joined, every client object is back in the pool or was lost to an
   exception, each accepted descriptor was closed as often as it was accepted unless a lost
   object has it open, and so all is as it was if and only if nothing was lost.
   */
  lemma NothingLeaks(s: State)
    requires Reached(s) && s.th.sel == Done
    ensures forall id :: Valid(s, id) <==> id in s.q.free || id in s.q.lost
    ensures forall id :: !(id in s.q.free && id in s.q.lost)
    ensures forall fd :: s.net.accepted[fd] == s.net.closed[fd] + (if OpenLost(s, fd) then 1 else 0)
    ensures (forall id :: Valid(s, id) ==> id in s.q.free) <==> s.q.lost == []
    ensures s.net.closed == s.net.accepted <==> s.q.lost == []
  {
    hide Inv, Reached, OwnInv, FdInv, QueueConnOk, OpenLost;
    ReachedInv(s);
    InvShutdown(s);
    InvClients(s);
    forall id
      ensures Valid(s, id) <==> id in s.q.free || id in s.q.lost
      ensures !(id in s.q.free && id in s.q.lost)
      ensures id in s.q.lost ==> Valid(s, id) && ConnOf(s, id).fd >= 0
    {
      AllPlaced(s, id);
    }
    forall fd
      ensures s.net.accepted[fd] == s.net.closed[fd] + (if OpenLost(s, fd) then 1 else 0)
    {
      LostDescriptor(s, fd);
    }
    if s.q.lost != [] {
      var id := s.q.lost[0];
      OneOpenLost(s, id);
      assert s.net.accepted[ConnOf(s, id).fd] != s.net.closed[ConnOf(s, id).fd];
    } else {
      NoneOpen(s);
      assert forall fd :: s.net.accepted[fd] == s.net.closed[fd];
      assert s.net.closed == s.net.accepted;
    }
  }

  /** A lost object has the descriptor open. */
  ghost predicate OpenLost(s: State, fd: int) {
    fd >= 0 && exists id :: id in s.q.lost && Valid(s, id) && ConnOf(s, id).fd == fd
  }

  lemma OneOpenLost(s: State, id: Id)
    requires id in s.q.lost && Valid(s, id) && ConnOf(s, id).fd >= 0
    ensures OpenLost(s, ConnOf(s, id).fd)
  {
  }

  lemma NoneOpen(s: State)
    requires s.q.lost == []
    ensures forall fd :: !OpenLost(s, fd)
  {
  }

  lemma AllPlaced(s: State, id: Id)
    requires OwnInv(s) && QueueConnOk(s, id) && ShutdownInv(s) && s.th.sel == Done
    ensures Valid(s, id) <==> id in s.q.free || id in s.q.lost
    ensures !(id in s.q.free && id in s.q.lost)
    ensures id in s.q.lost ==> Valid(s, id) && ConnOf(s, id).fd >= 0
  {
    hide OwnInv, QueueConnOk;
    Exclusive(s, id);
    LostOpen(s, id);
    if Valid(s, id) && id !in s.q.lost {
      var p := FindPlace(s, id);
    }
  }

  lemma LostDescriptor(s: State, fd: int)
    requires FdInv(s.net) && (forall id :: QueueConnOk(s, id))
    requires forall id :: Valid(s, id) <==> id in s.q.free || id in s.q.lost
    requires forall id :: !(id in s.q.free && id in s.q.lost)
    ensures s.net.accepted[fd] == s.net.closed[fd] + (if OpenLost(s, fd) then 1 else 0)
  {
    hide Sum, Receiving, Replying, Queued, FdInv;
    Accounted(s.net, fd);
    var conns := s.net.conns;
    if OpenLost(s, fd) {
      var id :| id in s.q.lost && Valid(s, id) && ConnOf(s, id).fd == fd;
      OpenOnce(s.net, id);
    } else if fd >= 0 {
      forall i | 0 <= i < |conns| ensures conns[i].fd != fd { assert QueueConnOk(s, i) && Valid(s, i); }
      SumBounds(HasFd(fd), conns, 0);
    }
  }

  lemma Accounted(n: Net, fd: int)
    requires FdInv(n)
    ensures n.accepted[fd] == n.closed[fd] + (if fd >= 0 then Sum(HasFd(fd), n.conns) else 0)
  {
  }

  lemma OpenOnce(n: Net, id: Id)
    requires FdInv(n) && 0 <= id < |n.conns| && n.conns[id].fd >= 0
    ensures Sum(HasFd(n.conns[id].fd), n.conns) == 1
  {
    hide Sum;
    var fd, others := n.conns[id].fd, n.conns[id := CLEARED];
    SumUpdate(HasFd(fd), n.conns, id, CLEARED);
    assert forall i :: 0 <= i < |others| && i != id ==> others[i].fd != fd;
    SumBounds(HasFd(fd), others, 0);
  }

  /** Over whole runs: all is as it was if and only if no request with an oversize name was served. */
  lemma NothingLeaksExact(s: State, steps: seq<Step>)
    requires Init(s) && Run(s, steps) && Final(s, steps).th.sel == Done
    ensures var t := Final(s, steps);
            (forall id :: Valid(t, id) ==> id in t.q.free) && t.net.closed == t.net.accepted <==> NeverFatal(s, steps)
  {
    hide Inv, NeverFatal, Init, ServerProtocol.Run, Final;
    InvInit(s);
    LostRun(s, steps);
    NothingLostAtStart(s);
    NothingLeaks(Final(s, steps));
  }

  lemma InvClients(s: State)
    requires Inv(s)
    ensures OwnInv(s) && FdInv(s.net) && forall id :: QueueConnOk(s, id)
  {
    hide ThreadInv, OwnInv, FdInv, FdSetInv, WakeupInv, ListenInv, QueueConnOk, WorkerConnOk;
  }

  // ----- the end of the worker threads

  /** How many steps a worker has left once stop_workers is set and the action queue is empty. */
  const LEFT: WorkPc -> int := (pc: WorkPc) =>
    match pc
    case Exited => 0
    case Loop => 1
    case LoopWait => 2
    case Idle => 2
    case Take => 3
    case Waiting => 3
    case Relock => 4
    case CloseFree(_) => 5
    case RequeueClose(_) => 5
    case RequeueWake => 5
    case RequeueAdd(_) => 6
    case RequeueTest(_) => 7
    case RequeueWait(_) => 8
    case Exec(_) => 9
    case UnownedExit => 1
    case Unowned => 4
    case UnownedWait => 4

  lemma JoinStep(s: State, w: int, ws: WorkStep, t: State)
    requires Next(s, Work(w, ws), t) && ShutdownInv(s) && s.th.sel == Join
    ensures Sum(LEFT, t.th.workers) < Sum(LEFT, s.th.workers)
    ensures t.th.sel == Join
  {
    hide Sum, Process, WorkQueues, WorkNet;
    SumUpdate(LEFT, s.th.workers, w, WorkNext(s, w, ws));
    assert WorkerStage(s, s.th.workers[w]);
  }

  /**
   After stop_workers is set the workers can take only a bounded number of steps, at most
   nine each, however they are interleaved.
   */
  lemma {:induction false} JoinTerminates(s: State, steps: seq<Step>)
    requires Inv(s) && s.th.sel == Join && Run(s, steps)
    requires forall i :: 0 <= i < |steps| ==> steps[i].Work?
    ensures |steps| <= Sum(LEFT, s.th.workers) <= 9 * |s.th.workers|
    decreases |steps|
  {
    hide Inv, Sum;
    SumBounds(LEFT, s.th.workers, 9);
    if steps != [] {
      var t := Apply(s, steps[0]);
      InvStep(s, steps[0], t);
      InvShutdown(s);
      JoinStep(s, steps[0].w, steps[0].ws, t);
      JoinTerminates(t, steps[1..]);
    }
  }

  /** A worker that passed the test of stop_workers without the lock before the flag was set. */
  predicate MissedStop(pc: WorkPc) {
    pc.UnownedWait?
  }

  /** And until all have exited one of them can take a step, unless one is going to miss the notification. */
  lemma JoinProgress(s: State) returns (step: Step)
    requires Inv(s) && s.th.sel == Join
    requires forall w :: 0 <= w < |s.th.workers| ==> !MissedStop(s.th.workers[w])
    ensures Enabled(s, step) && Progress(step)
  {
    hide Inv, Core, ShutdownInv;
    if forall w :: 0 <= w < |s.th.workers| ==> s.th.workers[w] == Exited {
      step := Sel(JoinAll);
    } else {
      var w :| 0 <= w < |s.th.workers| && s.th.workers[w] != Exited;
      InvLocks(s);
      InvShutdown(s);
      StageAt(s, w);
      step := WorkerJoins(s, w);
    }
  }

  lemma WorkerJoins(s: State, w: int) returns (step: Step)
    requires Inv(s) && LockInv(s.th) && Core(s) && s.th.sel == Join && 0 <= w < |s.th.workers|
    requires !s.th.workers[w].Exited? && !s.th.workers[w].Waiting? && !s.th.workers[w].UnownedWait?
    ensures Enabled(s, step) && Progress(step)
  {
    hide Inv, Core;
    var pc := s.th.workers[w];
    if pc.RequeueWait? {
      step := LockProgress(s, ComLock, Worker(w));
    } else if pc.LoopWait? || pc.Relock? {
      step := LockProgress(s, ActLock, Worker(w));
    } else if WorkHoldsCom(pc) || WorkHoldsAct(pc) {
      CoreOwn(s);
      step := WorkerInSection(s, w);
    } else if pc.UnownedExit? && s.th.actOwner != Nobody {
      step := LockOwnerCanStep(s, s.th.actOwner);
    } else {
      step := Work(w, match pc
                      case CloseFree(_) => CloseDetached
                      case Unowned => UnownedTest
                      case UnownedExit => Release
                      case _ => Execute(false));
      ServerCanWork(s, w);
    }
  }

  lemma StageAt(s: State, w: int)
    requires ShutdownInv(s) && s.th.sel == Join && 0 <= w < |s.th.workers|
    ensures !s.th.workers[w].Waiting?
  {
    assert WorkerStage(s, s.th.workers[w]);
  }

  lemma ServerCanWork(s: State, w: int)
    requires Core(s) && 0 <= w < |s.th.workers|
    ensures s.th.workers[w].Exec? ==> WorkEnabled(s, w, Execute(false))
    ensures s.th.workers[w].CloseFree? ==> WorkEnabled(s, w, CloseDetached)
  {
    assert WorkerConnOk(s, w);
    if WorkHeld(s.th.workers[w]) != [] {
      HeldExclusive(s, w, s.th.workers[w].c);
    }
  }
}
