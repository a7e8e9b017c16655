/**
 The worker pool: enough workers are awake for the clients that are queued, and the
 stages of shutdown.
 */
module ServerWorkers {
  import opened Connection
  import opened Phases
  import opened Fencing
  import opened ServerProtocol
  import opened ServerOwnership
  import opened Sums

  const BUSY: WorkPc -> int := (pc: WorkPc) => |WorkHeld(pc)|

  /** An exception has brought the worker back to worker_loop without the lock. */
  predicate Astray(pc: WorkPc) {
    pc.Unowned? || pc.UnownedWait? || pc.UnownedExit?
  }

  const ASTRAY: WorkPc -> int := (pc: WorkPc) => if Astray(pc) then 1 else 0

  /**
   Workers that cannot take a client now: they hold one, wait for the condition variable or are
   going to wait without another look at the action queue.
   */
  const TAKEN: WorkPc -> int := (pc: WorkPc) => if pc.Waiting? || Astray(pc) then 1 else |WorkHeld(pc)|

  /** Workers that will look at the action queue before they wait. */
  const AVAILABLE: WorkPc -> int := (pc: WorkPc) => 1 - TAKEN(pc)

  // ----- the number of client objects

  function Load(t: Threads, q: Queues): int {
    |q.free| + |q.com| + |q.act| + |q.lost| + |SelHeld(t.sel)| + Sum(BUSY, t.workers)
  }

  lemma {:induction false} WithoutLength(q: seq<Id>, c: Id)
    requires c in q
    ensures |Without(q, c)| == |q| - 1
  {
    if q[0] != c {
      WithoutLength(q[1..], c);
    }
  }

  lemma LoadVisit(q: Queues, todo: seq<Id>, fate: Fate)
    requires todo != [] && todo[0] in q.com
    ensures var r := VisitQueues(q, todo[0], fate);
            && r.lost == q.lost
            && |r.free| + |r.com| + |r.act| + |SelHeld(VisitPc(todo, fate))| == |q.free| + |q.com| + |q.act|
  {
    WithoutLength(q.com, todo[0]);
  }

  lemma BusyUnchanged(s: State, ss: SelStep)
    requires SelEnabled(s, ss)
    ensures Sum(BUSY, SelThreads(s, ss).workers) == Sum(BUSY, s.th.workers)
  {
    SelKeepsWorkers(s, ss);
    SumEqual(BUSY, SelThreads(s, ss).workers, s.th.workers);
  }

  lemma LoadSelStep(s: State, ss: SelStep)
    requires SelEnabled(s, ss) && TailInv(s.th, s.q)
    ensures Load(SelThreads(s, ss), SelQueues(s, ss)) == Load(s.th, s.q)
  {
    hide Sum, SelThreads, SelEnabled, SelNext, SelQueues;
    BusyUnchanged(s, ss);
    SelPcNext(s, ss);
    if s.th.sel.Io? {
      LoadLoop(s, ss);
    } else {
      LoadElsewhere(s, ss);
    }
  }

  /** The number of objects in queues, with the selector and lost. */
  function SelLoad(pc: SelPc, q: Queues): int {
    |q.free| + |q.com| + |q.act| + |q.lost| + |SelHeld(pc)|
  }

  lemma LoadLoop(s: State, ss: SelStep)
    requires SelEnabled(s, ss) && TailInv(s.th, s.q) && s.th.sel.Io?
    ensures SelLoad(SelNext(s, ss), SelQueues(s, ss)) == SelLoad(s.th.sel, s.q)
  {
    hide SelEnabled, VisitResult, VisitQueues, VisitPc;
    if Visiting(s) {
      var todo := s.th.sel.todo;
      assert s.q.com[|s.q.com| - |todo|] == todo[0];
      LoadVisit(s.q, todo, VisitResult(s, ss).1);
    }
  }

  lemma LoadElsewhere(s: State, ss: SelStep)
    requires SelEnabled(s, ss) && !s.th.sel.Io?
    ensures SelLoad(SelNext(s, ss), SelQueues(s, ss)) == SelLoad(s.th.sel, s.q)
  {
    hide SelEnabled, VisitResult, VisitQueues, VisitPc;
  }

  lemma LoadWorkStep(s: State, w: int, ws: WorkStep)
    requires WorkEnabled(s, w, ws)
    ensures Load(WorkThreads(s, w, ws), WorkQueues(s, w, ws)) == Load(s.th, s.q)
  {
    hide Sum, Process;
    SumUpdate(BUSY, s.th.workers, w, WorkNext(s, w, ws));
  }

  // ----- the order of a worker's work

  /**
   A worker that comes back from a client takes the next one whether or not it is to stop; one
   that is woken tests the flag first; and one that has found the queue empty tests it before
   it waits.
   */
  lemma WorkerOrder(s: State, w: int)
    requires 0 <= w < |s.th.workers|
    ensures s.th.workers[w].Relock? && s.th.actOwner == Nobody && s.q.act != [] ==>
              var u := WorkThreads(s, w, LockAct);
              u.actOwner == Worker(w) && WorkNext(s.(th := u), w, TakeClient) == Exec(s.q.act[0])
    ensures s.th.workers[w].Waiting? ==>
              var u := WorkThreads(s, w, SpuriousWake);
              u.actOwner == s.th.actOwner
              && (u.actOwner == Nobody ==>
                   var v := WorkThreads(s.(th := u), w, LockAct);
                   WorkNext(s.(th := v), w, LoopTest) == if s.th.stopWorkers then Exited else Take)
    ensures s.th.workers[w].Idle? ==>
              WorkNext(s, w, GoWait) == if s.th.stopWorkers then Loop else Waiting
  {
  }

  // ----- worker sufficiency

  /** A worker about to wait has seen the queue empty and still holds its lock. */
  ghost predicate IdleInv(t: Threads, q: Queues) {
    forall w :: 0 <= w < |t.workers| && t.workers[w] == Idle ==> q.act == []
  }

  ghost predicate SufficiencyInv(t: Threads, q: Queues) {
    !t.stopWorkers ==> |q.act| + Sum(TAKEN, t.workers) <= |t.workers|
  }

  lemma IdleSelStep(s: State, ss: SelStep)
    requires SelEnabled(s, ss) && LockInv(s.th) && IdleInv(s.th, s.q)
    ensures IdleInv(SelThreads(s, ss), SelQueues(s, ss))
  {
    hide SelThreads, SelNext, SelEnabled, VisitResult;
    SelKeepsWorkers(s, ss);
  }

  lemma IdleWorkStep(s: State, w: int, ws: WorkStep)
    requires WorkEnabled(s, w, ws) && LockInv(s.th) && IdleInv(s.th, s.q)
    ensures IdleInv(WorkThreads(s, w, ws), WorkQueues(s, w, ws))
  {
    hide Process;
  }

  /** Each worker that is astray has lost a client. */
  ghost predicate AstrayInv(t: Threads, q: Queues) {
    Sum(ASTRAY, t.workers) <= |q.lost|
  }

  lemma AstraySelStep(s: State, ss: SelStep)
    requires SelEnabled(s, ss) && AstrayInv(s.th, s.q)
    ensures AstrayInv(SelThreads(s, ss), SelQueues(s, ss))
  {
    hide Sum, SelThreads, SelEnabled, SelNext, VisitResult;
    SelKeepsWorkers(s, ss);
    SumEqual(ASTRAY, SelThreads(s, ss).workers, s.th.workers);
  }

  lemma AstrayWorkStep(s: State, w: int, ws: WorkStep)
    requires WorkEnabled(s, w, ws) && AstrayInv(s.th, s.q)
    ensures AstrayInv(WorkThreads(s, w, ws), WorkQueues(s, w, ws))
  {
    hide Sum, Process;
    SumUpdate(ASTRAY, s.th.workers, w, WorkNext(s, w, ws));
  }

  /** Adding a client to the action queue wakes a worker, or none is waiting. */
  lemma SufficiencyMove(s: State, ss: SelStep)
    requires SelEnabled(s, ss) && ss.MoveToAction? && SufficiencyInv(s.th, s.q)
    requires Load(s.th, s.q) == |s.th.workers| && AstrayInv(s.th, s.q)
    ensures SufficiencyInv(SelThreads(s, ss), SelQueues(s, ss))
  {
    hide Sum;
    var ws := s.th.workers;
    if ss.notified.Some? {
      SumUpdate(TAKEN, ws, ss.notified.value, LoopWait);
    } else {
      var sum: WorkPc -> int := (pc: WorkPc) => BUSY(pc) + ASTRAY(pc);
      SumMono(TAKEN, sum, ws);
      SumPlus(BUSY, ASTRAY, sum, ws);
    }
  }

  lemma SufficiencySelStep(s: State, ss: SelStep)
    requires SelEnabled(s, ss) && SufficiencyInv(s.th, s.q)
    requires Load(s.th, s.q) == |s.th.workers| && AstrayInv(s.th, s.q)
    ensures SufficiencyInv(SelThreads(s, ss), SelQueues(s, ss))
  {
    hide Sum, VisitResult, NotifyAll, SelNext;
    if ss.MoveToAction? {
      SufficiencyMove(s, ss);
    }
  }

  lemma SufficiencyWorkStep(s: State, w: int, ws: WorkStep)
    requires WorkEnabled(s, w, ws) && IdleInv(s.th, s.q) && SufficiencyInv(s.th, s.q)
    ensures SufficiencyInv(WorkThreads(s, w, ws), WorkQueues(s, w, ws))
  {
    hide Sum, Process;
    SumUpdate(TAKEN, s.th.workers, w, WorkNext(s, w, ws));
    SumBounds(TAKEN, WorkThreads(s, w, ws).workers, 1);
  }

  // ----- the stages of shutdown

  /** cleanup has emptied the action queue. */
  predicate ActionsDrained(pc: SelPc) {
    pc.ComWait? || pc.ComSignal? || pc.ComDrain? || ComDrained(pc)
  }

  /** cleanup has emptied com_queue and left. */
  predicate ComDrained(pc: SelPc) {
    pc.StopWait? || pc.Stop? || pc.Join? || pc.Done?
  }

  ghost predicate ShutdownInv(s: State) {
    && (ActionsDrained(s.th.sel) ==> s.q.act == [])
    && (ComDrained(s.th.sel) ==> s.q.com == [] && !s.wake.pipeOpen)
    && (s.th.sel.ComDrain? || ComDrained(s.th.sel) ==> s.wake.flag)
    && (s.th.stopWorkers <==> s.th.sel.Join? || s.th.sel.Done?)
    && forall w :: 0 <= w < |s.th.workers| ==> WorkerStage(s, s.th.workers[w])
  }

  ghost predicate WorkerStage(s: State, pc: WorkPc) {
    && (pc.Waiting? ==> !s.th.stopWorkers)
    && (pc.Exited? || pc.UnownedExit? ==> s.th.stopWorkers)
    && (pc.RequeueAdd? || pc.RequeueWake? ==> !ComDrained(s.th.sel))
    && (s.th.sel.Done? ==> pc.Exited?)
  }

  lemma ShutdownSelStep(s: State, ss: SelStep)
    requires SelEnabled(s, ss) && LockInv(s.th) && ShutdownInv(s)
    ensures ShutdownInv(Apply(s, Sel(ss)))
  {
    hide SelEnabled, SelThreads, SelNext, SelQueues, SelNet, SelWake, WorkerStage, LockInv;
    SelPcNext(s, ss);
    SelStages(s, ss);
    DrainedQueues(s, ss);
    DrainedWake(s, ss);
    WorkersSelStage(s, ss);
  }

  lemma DrainedQueues(s: State, ss: SelStep)
    requires SelEnabled(s, ss) && ShutdownInv(s)
    ensures var pc, q := SelNext(s, ss), SelQueues(s, ss);
            && (ActionsDrained(pc) ==> q.act == [])
            && (ComDrained(pc) ==> q.com == [])
  {
    hide SelNext, VisitResult, VisitQueues, WorkerStage;
    SelNextStages(s, ss);
    SelNextCleanup(s, ss);
  }

  lemma DrainedWake(s: State, ss: SelStep)
    requires SelEnabled(s, ss) && ShutdownInv(s)
    ensures var pc, k := SelNext(s, ss), SelWake(s, ss);
            && (ComDrained(pc) ==> !k.pipeOpen)
            && (pc.ComDrain? || ComDrained(pc) ==> k.flag)
            && (pc.Join? || pc.Done? <==> s.th.sel.Join? || s.th.sel.Done? || ss.StopAll?)
  {
    hide SelNext, FdsOf, WorkerStage, ActionsDrained;
    SelNextStages(s, ss);
    SelNextCleanup(s, ss);
  }

  lemma SelNextCleanup(s: State, ss: SelStep)
    requires SelEnabled(s, ss)
    ensures var pc := SelNext(s, ss);
            && (ActionsDrained(pc) ==> ActionsDrained(s.th.sel) || ss.CleanActEnd?)
            && (pc.ComDrain? ==> s.th.sel.ComDrain? || ss.SignalStop?)
            && (pc.Join? || pc.Done? <==> s.th.sel.Join? || s.th.sel.Done? || ss.StopAll?)
  {
    hide VisitResult;
  }

  /** The selector reaches a stage of shutdown by one step only. */
  lemma SelStages(s: State, ss: SelStep)
    requires SelEnabled(s, ss)
    ensures var t := SelThreads(s, ss);
            && (ComDrained(t.sel) ==> ComDrained(s.th.sel) || (ss.CleanComEnd? && s.th.sel.ComDrain?))
            && t.stopWorkers == (s.th.stopWorkers || ss.StopAll?)
            && (t.sel.Done? ==> s.th.sel.Done? || ss.JoinAll?)
  {
    hide SelThreads, SelNext, SelEnabled;
    SelPcNext(s, ss);
    SelNextStages(s, ss);
    StopSetBy(s, ss);
  }

  lemma SelNextStages(s: State, ss: SelStep)
    requires SelEnabled(s, ss)
    ensures var pc := SelNext(s, ss);
            && (ComDrained(pc) ==> ComDrained(s.th.sel) || (ss.CleanComEnd? && s.th.sel.ComDrain?))
            && (pc.Done? ==> s.th.sel.Done? || ss.JoinAll?)
  {
    hide VisitResult;
  }

  lemma StopSetBy(s: State, ss: SelStep)
    requires SelEnabled(s, ss)
    ensures SelThreads(s, ss).stopWorkers == (s.th.stopWorkers || ss.StopAll?)
  {
    hide SelNext, NotifyAll, SelEnabled;
  }

  lemma WorkersSelStage(s: State, ss: SelStep)
    requires SelEnabled(s, ss) && LockInv(s.th) && ShutdownInv(s)
    ensures var t := Apply(s, Sel(ss)); forall w :: 0 <= w < |t.th.workers| ==> WorkerStage(t, t.th.workers[w])
  {
    hide SelNext, SelQueues, SelNet, SelWake, ActionsDrained;
    SelStages(s, ss);
    SelKeepsWorkers(s, ss);
  }

  lemma ShutdownWorkStep(s: State, w: int, ws: WorkStep)
    requires WorkEnabled(s, w, ws) && LockInv(s.th) && ShutdownInv(s)
    ensures ShutdownInv(Apply(s, Work(w, ws)))
  {
    hide Process, WorkNet;
  }
}
