/**
 What the server does for a client while it is not being stopped: the selector comes to a client
 on com_queue, and a worker takes a client from the action queue, within a bounded number of
 steps and without the help of any failure or of the end of another client's fencing action.
 */
module ServerService {
  import opened Connection
  import opened Phases
  import opened Fencing
  import opened ServerProtocol
  import opened ServerOwnership
  import opened ServerWorkers
  import opened ServerConnections
  import opened ServerDescriptors
  import opened ServerInvariant
  import opened ServerTheorems
  import opened ServerShutdown
  import opened ServerStop
  import opened ServerSessions
  import opened Sums
  import E = EndToEnd

  /** No stop signal, and no failure of select, has led to shutdown. */
  predicate Serving(s: State) {
    !s.wake.flag && !Stopping(s.th.sel)
  }

  /** The steps lead from `s` to `t` without a failure, and for the client object they are just these moves. */
  ghost predicate GoesThrough(s: State, steps: seq<Step>, id: Id, moves: seq<E.Move>, t: State)
    decreases |steps|
  {
    if steps == [] then moves == [] && t == s
    else
      && Enabled(s, steps[0]) && Progress(steps[0])
      && match TurnOf(s, steps[0], id)
         case Still => GoesThrough(Apply(s, steps[0]), steps[1..], id, moves, t)
         case Moving(m) =>
           moves != [] && moves[0] == m && GoesThrough(Apply(s, steps[0]), steps[1..], id, moves[1..], t)
         case Connects(_) => false
  }

  /** One more step in front, which is nothing to the client object. */
  lemma StillFirst(s: State, step: Step, u: State, rest: seq<Step>, id: Id, moves: seq<E.Move>, t: State)
    requires Next(s, step, u) && Progress(step) && TurnOf(s, step, id) == Still && GoesThrough(u, rest, id, moves, t)
    ensures GoesThrough(s, [step] + rest, id, moves, t)
  {
    hide Enabled, Apply, TurnOf, Progress;
    assert ([step] + rest)[1..] == rest;
  }

  lemma {:induction false} ThroughAppend(s: State, a: seq<Step>, id: Id, ms: seq<E.Move>, u: State,
                                        b: seq<Step>, ns: seq<E.Move>, t: State)
    requires GoesThrough(s, a, id, ms, u) && GoesThrough(u, b, id, ns, t)
    ensures GoesThrough(s, a + b, id, ms + ns, t)
    decreases |a|
  {
    hide Enabled, Apply, TurnOf, Progress;
    if a == [] {
      assert a + b == b && ms + ns == ns;
    } else {
      var s1 := Apply(s, a[0]);
      assert (a + b)[0] == a[0] && (a + b)[1..] == a[1..] + b;
      match TurnOf(s, a[0], id)
      case Still => ThroughAppend(s1, a[1..], id, ms, u, b, ns, t);
      case Moving(_) =>
        ThroughAppend(s1, a[1..], id, ms[1..], u, b, ns, t);
        assert (ms + ns)[0] == ms[0] && (ms + ns)[1..] == ms[1..] + ns;
    }
  }

  lemma ThroughLater(s: State, a: seq<Step>, id: Id, u: State, b: seq<Step>, ns: seq<E.Move>, t: State)
    requires GoesThrough(s, a, id, [], u) && GoesThrough(u, b, id, ns, t)
    ensures GoesThrough(s, a + b, id, ns, t)
  {
    hide GoesThrough;
    ThroughAppend(s, a, id, [], u, b, ns, t);
    assert [] + ns == ns;
  }

  lemma {:induction false} ThroughRun(s: State, steps: seq<Step>, id: Id, moves: seq<E.Move>, t: State)
    requires GoesThrough(s, steps, id, moves, t)
    ensures Run(s, steps) && Final(s, steps) == t
    ensures SameConnection(Turns(s, steps, id)) && MovesIn(Turns(s, steps, id)) == moves
    ensures forall i :: 0 <= i < |steps| ==> Progress(steps[i])
    decreases |steps|
  {
    hide Enabled, Apply, TurnOf, Progress;
    if steps != [] {
      var s1, turn := Apply(s, steps[0]), TurnOf(s, steps[0], id);
      var later := if turn.Moving? then moves[1..] else moves;
      ThroughRun(s1, steps[1..], id, later, t);
      var turns := Turns(s, steps, id);
      assert turns[0] == turn && turns[1..] == Turns(s1, steps[1..], id);
      assert forall i :: 1 <= i < |turns| ==> turns[i] == turns[1..][i - 1];
      assert forall i :: 1 <= i < |steps| ==> steps[i] == steps[1..][i - 1];
    }
  }

  /** A step that is nothing to the client object. */
  lemma KeptClient(s: State, step: Step, t: State, id: Id)
    requires Next(s, step, t) && Inv(s) && Valid(s, id) && TurnOf(s, step, id) == Still
    ensures Inv(t) && Valid(t, id) && ConnOf(t, id) == ConnOf(s, id) && |t.net.conns| == |s.net.conns|
  {
    hide Inv, Enabled, Apply, TurnOf;
    StepFollows(s, step, t, id);
    InvStep(s, step, t);
    PoolStep(s, step, t);
  }

  // ----- what ends the selector loop

  /** A signal, or a select that fails. */
  predicate StartsShutdown(step: Step) {
    step == Signal || step == Sel(SelectFails)
  }

  /**
   The selector leaves its loop exactly with the stop flag or when select fails; an interrupted
   select makes it look at the flag and go on.
   */
  lemma LoopLeft(s: State, ss: SelStep, t: State)
    requires Next(s, Sel(ss), t) && !Stopping(s.th.sel)
    ensures t.th.sel == ActWait <==> ss.SelectFails? || (s.th.sel == Check && s.wake.flag)
    ensures Stopping(t.th.sel) <==> t.th.sel == ActWait
    ensures ss.SelectInterrupted? ==> t.th.sel == Check && t.wake == s.wake
    ensures t.wake.flag == s.wake.flag
  {
    hide VisitResult, SelQueues, SelNet, FdsOf, NotifyAll, SelThreads;
    SelPcNext(s, ss);
  }

  lemma ServingStep(s: State, step: Step, t: State)
    requires Next(s, step, t)
    ensures Serving(t) <==> Serving(s) && !StartsShutdown(step)
  {
    hide SelThreads, SelQueues, SelNet, SelWake, WorkThreads, WorkQueues, WorkNet, WorkNext, SelEnabled, SelNext;
    match step
    case Sel(ss) =>
      if Stopping(s.th.sel) {
        StillStopping(s, ss, t);
      } else {
        LoopLeft(s, ss, t);
      }
    case Work(w, ws) => WorkSelFrame(s, w, ws);
    case Signal =>
  }

  lemma StillStopping(s: State, ss: SelStep, t: State)
    requires Next(s, Sel(ss), t) && Stopping(s.th.sel)
    ensures Stopping(t.th.sel)
  {
    hide VisitResult, SelQueues, SelNet, SelWake, SelThreads;
    SelPcNext(s, ss);
  }

  /** Over whole runs: the server goes on serving if and only if no signal comes and no select fails. */
  lemma {:induction false} ServingExact(s: State, steps: seq<Step>)
    requires Run(s, steps)
    ensures Serving(Final(s, steps)) <==> Serving(s) && forall i :: 0 <= i < |steps| ==> !StartsShutdown(steps[i])
    decreases |steps|
  {
    hide Enabled, Apply, Serving, StartsShutdown;
    if steps != [] {
      var t := Apply(s, steps[0]);
      ServingStep(s, steps[0], t);
      ServingExact(t, steps[1..]);
      assert forall i :: 1 <= i < |steps| ==> steps[i] == steps[1..][i - 1];
    }
  }

  // ----- a client on the action queue is taken

  function Position(q: seq<Id>, id: Id): nat {
    if q == [] || q[0] == id then 0 else 1 + Position(q[1..], id)
  }

  lemma {:induction false} PositionExact(q: seq<Id>, id: Id)
    requires id in q
    ensures Position(q, id) < |q| && q[Position(q, id)] == id
    ensures forall c :: Position(q + [c], id) == Position(q, id)
  {
    if q[0] != id {
      PositionExact(q[1..], id);
      assert forall c :: (q + [c])[1..] == q[1..] + [c];
    }
  }

  /** A worker waits for action_queue_lock, to look at the queue next. */
  predicate Wanted(t: Threads) {
    exists w :: 0 <= w < |t.workers| && (t.workers[w].LoopWait? || t.workers[w].Relock?)
  }

  /** How many steps there are up to the next time that a worker takes a client. */
  function TakeLeft(t: Threads): (n: nat)
    ensures 1 <= n <= 5
  {
    match t.actOwner
    case Nobody => if Wanted(t) then 3 else 4
    case Selector => 5
    case Worker(w) => if 0 <= w < |t.workers| && t.workers[w].Take? then 1 else 2
  }

  function TakeMeasure(s: State, id: Id): (n: nat)
    ensures 1 <= n <= 5 * Position(s.q.act, id) + 5
  {
    5 * Position(s.q.act, id) + TakeLeft(s.th)
  }

  /** While a client is queued and the action queue is not locked, a worker is on the way to it. */
  lemma WorkerOnTheWay(s: State) returns (w: int)
    requires Inv(s) && Serving(s) && s.q.act != [] && s.th.actOwner == Nobody
    ensures 0 <= w < |s.th.workers|
    ensures s.th.workers[w].LoopWait? || s.th.workers[w].Relock? || s.th.workers[w].RequeueWake?
  {
    hide Inv, Sum, SufficiencyInv, LockInv, ShutdownInv;
    InvLocks(s);
    InvShutdown(s);
    InvSufficiency(s);
    NotStopped(s);
    var ws := s.th.workers;
    Untaken(s);
    w := SumWitness(AVAILABLE, ws);
    AvailableAt(s, w);
  }

  lemma AvailableAt(s: State, w: int)
    requires LockInv(s.th) && ShutdownInv(s) && !s.th.stopWorkers && s.th.actOwner == Nobody
    requires 0 <= w < |s.th.workers| && AVAILABLE(s.th.workers[w]) > 0
    ensures s.th.workers[w].LoopWait? || s.th.workers[w].Relock? || s.th.workers[w].RequeueWake?
  {
    assert WorkerStage(s, s.th.workers[w]);
  }

  predicate TakingStep(s: State, step: Step) {
    match step
    case Sel(ss) => ss.MoveToAction?
    case Work(w, ws) =>
      || ws.LoopTest? || ws.TakeClient? || ws.LockAct?
      || (ws.WakeSelector? && !Wanted(s.th) && s.th.actOwner == Nobody)
    case Signal => false
  }

  lemma NextTaking(s: State) returns (step: Step)
    requires Inv(s) && Serving(s) && s.q.act != []
    ensures Enabled(s, step) && TakingStep(s, step)
  {
    hide Inv, LockInv, IdleInv;
    match s.th.actOwner
    case Nobody =>
      var v := WorkerOnTheWay(s);
      if Wanted(s.th) {
        v :| 0 <= v < |s.th.workers| && (s.th.workers[v].LoopWait? || s.th.workers[v].Relock?);
        step := Work(v, LockAct);
      } else {
        step := Work(v, WakeSelector);
      }
    case Selector =>
      InvLocks(s);
      SelectorAtMove(s);
      step := MovePossible(s);
    case Worker(w) =>
      InvLocks(s);
      InvIdle(s);
      OwnerTakes(s, w);
      step := Work(w, if s.th.workers[w].Loop? then LoopTest else TakeClient);
  }

  lemma InvIdle(s: State)
    requires Inv(s)
    ensures IdleInv(s.th, s.q)
  {
    hide ClientInv, LockInv, TailInv, Load, IdleInv, AstrayInv, SufficiencyInv, ShutdownInv;
  }

  lemma SelectorAtMove(s: State)
    requires LockInv(s.th) && Serving(s) && s.th.actOwner == Selector
    ensures s.th.sel.Move?
  {
  }

  lemma OwnerTakes(s: State, w: int)
    requires LockInv(s.th) && IdleInv(s.th, s.q) && s.q.act != [] && s.th.actOwner == Worker(w)
    ensures 0 <= w < |s.th.workers| && (s.th.workers[w].Loop? || s.th.workers[w].Take?)
  {
  }

  /** A step on the way either takes the client or keeps it queued and the end comes nearer. */
  lemma TakingEffect(s: State, step: Step, t: State, id: Id)
    requires Next(s, step, t) && TakingStep(s, step) && LockInv(s.th) && id in s.q.act && !s.th.stopWorkers
    ensures if step.Work? && step.ws.TakeClient? && s.q.act[0] == id then
              0 <= step.w < |t.th.workers| && t.th.workers[step.w] == Exec(id)
            else id in t.q.act && TakeMeasure(t, id) < TakeMeasure(s, id)
  {
    hide LockInv, Wanted, Enabled, SelEnabled, SelThreads, SelNext, SelQueues, SelNet, SelWake;
    hide WorkEnabled, WorkThreads, WorkQueues, WorkNet, WorkWake, WorkNext;
    PositionExact(s.q.act, id);
    match step
    case Sel(ss) => MovesBehind(s, ss, t);
    case Work(w, ws) =>
      if ws.TakeClient? {
        TakesFirst(s, w, t);
      } else {
        Approaches(s, w, ws, t);
      }
  }

  lemma MovesBehind(s: State, ss: SelStep, t: State)
    requires Next(s, Sel(ss), t) && ss.MoveToAction? && LockInv(s.th)
    ensures t.q.act == s.q.act + [s.th.sel.c] && s.th.actOwner == Selector && t.th.actOwner == Nobody
  {
  }

  lemma TakesFirst(s: State, w: int, t: State)
    requires Next(s, Work(w, TakeClient), t) && LockInv(s.th) && s.q.act != []
    ensures s.th.actOwner == Worker(w) && t.th.actOwner == Nobody && TakeLeft(s.th) == 1
    ensures t.q.act == s.q.act[1..] && 0 <= w < |t.th.workers| && t.th.workers[w] == Exec(s.q.act[0])
  {
  }

  lemma Approaches(s: State, w: int, ws: WorkStep, t: State)
    requires Next(s, Work(w, ws), t) && LockInv(s.th) && !s.th.stopWorkers
    requires ws.LoopTest? || ws.LockAct? || (ws.WakeSelector? && !Wanted(s.th) && s.th.actOwner == Nobody)
    ensures t.q.act == s.q.act && TakeLeft(t.th) < TakeLeft(s.th)
  {
    hide Process, WorkNet;
    if ws.WakeSelector? {
      assert t.th.workers[w].Relock?;
    }
  }

  lemma TakingIsStill(s: State, step: Step, id: Id)
    requires Enabled(s, step) && TakingStep(s, step)
    ensures Progress(step) && TurnOf(s, step, id) == Still && !ServesClient(step)
  {
    hide SelEnabled, WorkEnabled;
  }

  /** A worker carries out a client's request. */
  predicate ServesClient(step: Step) {
    step.Work? && step.ws.Execute?
  }

  predicate NoneServed(steps: seq<Step>) {
    forall i :: 0 <= i < |steps| ==> !ServesClient(steps[i])
  }

  lemma StillServing(s: State, step: Step, t: State)
    requires Next(s, step, t) && Serving(s) && Progress(step)
    ensures Serving(t)
  {
    hide Enabled, Apply, Serving;
    ServingStep(s, step, t);
  }

  lemma {:induction false} IsTaken(s: State, id: Id) returns (steps: seq<Step>, t: State, w: int)
    requires Inv(s) && Serving(s) && id in s.q.act && Valid(s, id)
    ensures GoesThrough(s, steps, id, [], t) && Inv(t) && Serving(t) && NoneServed(steps)
    ensures 0 <= w < |t.th.workers| && t.th.workers[w] == Exec(id)
    ensures Valid(t, id) && ConnOf(t, id) == ConnOf(s, id) && |t.net.conns| == |s.net.conns|
    ensures |steps| <= TakeMeasure(s, id)
    decreases TakeMeasure(s, id)
  {
    hide Inv, LockInv, ShutdownInv, Enabled, Apply, TurnOf, Progress, TakingStep, Serving, TakeMeasure, Position;
    var step := NextTaking(s);
    var u := Apply(s, step);
    InvLocks(s);
    InvShutdown(s);
    ServingRuns(s);
    TakingIsStill(s, step, id);
    KeptClient(s, step, u, id);
    StillServing(s, step, u);
    TakingEffect(s, step, u, id);
    if step.Work? && step.ws.TakeClient? && s.q.act[0] == id {
      steps, t, w := [step], u, step.w;
      assert [step] == [step] + [];
      StillFirst(s, step, u, [], id, [], u);
    } else {
      var rest;
      rest, t, w := IsTaken(u, id);
      steps := [step] + rest;
      StillFirst(s, step, u, rest, id, [], t);
    }
  }

  lemma ServingRuns(s: State)
    requires ShutdownInv(s) && Serving(s)
    ensures !s.th.stopWorkers
  {
  }

  /**
   No client that is queued waits for another client's fencing action: with no stop under way a
   worker comes to serve it within five steps for each client in the queue, although no worker
   meanwhile carries out anything for any client.
   */
  lemma QueuedTaken(s: State, id: Id) returns (steps: seq<Step>, w: int)
    requires Reached(s) && Serving(s) && id in s.q.act
    ensures Run(s, steps) && NoneServed(steps) && |steps| <= 5 * |s.q.act|
    ensures 0 <= w < |Final(s, steps).th.workers| && Final(s, steps).th.workers[w] == Exec(id)
  {
    hide Inv, Reached, GoesThrough, Serving, NoneServed, OwnInv, QueueConnOk, FdInv;
    ReachedInv(s);
    InvClients(s);
    Exclusive(s, id);
    PositionExact(s.q.act, id);
    var t;
    steps, t, w := IsTaken(s, id);
    ThroughRun(s, steps, id, [], t);
  }

  // ----- the selector comes to a client on com_queue

  /** The selector is going to find the client ready in this pass. */
  ghost predicate Due(s: State, id: Id)
    requires Valid(s, id)
  {
    Covered(s, id) && (InSelect(s.th.sel) || (InLoop(s.th.sel) && id in s.th.sel.todo))
  }

  /** It has come to the client. */
  ghost predicate UnderVisit(s: State, id: Id) {
    Valid(s, id) && Covered(s, id) && s.th.sel.Io? && s.th.sel.todo != [] && s.th.sel.todo[0] == id
  }

  /** How many program points there are up to the I/O loop. */
  function Ahead(pc: SelPc): nat {
    match pc
    case Enable => 9
    case Check => 8
    case BuildWait => 7
    case Build => 6
    case Select => 5
    case Accept => 4
    case AcceptWait(_) => 3
    case AcceptAdd(_) => 2
    case Drain => 1
    case _ => 0
  }

  function LoopOffset(pc: SelPc): nat {
    if pc.Move? then 1 else if pc.MoveWait? then 2 else 0
  }

  /** How many steps the selector is away from the client, but for bytes still to be written to the pipe. */
  ghost function LapRank(s: State, id: Id): int
    requires Valid(s, id)
  {
    var n, pc := |s.net.conns|, s.th.sel;
    if InLoop(pc) then
      LoopOffset(pc) + if Due(s, id) then 3 * Position(pc.todo, id) else 3 * n + 12 + s.wake.pipe + 3 * |pc.todo|
    else
      3 * n + 3 + Ahead(pc) + s.wake.pipe + if InSelect(pc) && !Due(s, id) then 3 * n + 10 else 0
  }

  /** What a step on the way to the client must keep: select tells that the client is ready. */
  ghost predicate LapStep(s: State, step: Step, id: Id)
    requires Valid(s, id)
  {
    match step
    case Sel(ss) =>
      ss.SelectReturn? ==>
        !ss.ready.listen && (Covered(s, id) ==> ConnOf(s, id).fd in ss.ready.read || ConnOf(s, id).fd in ss.ready.write)
    case Work(w, _) => Worker(w) == s.th.comOwner || Worker(w) == s.th.actOwner
    case Signal => false
  }

  lemma SelectStepInLap(s: State, id: Id) returns (step: Step)
    requires WakeupInv(s) && s.th.sel.Select? && id in s.q.com && Valid(s, id)
    ensures Enabled(s, step) && Progress(step) && LapStep(s, step, id)
  {
    var fd, fds, trigger := ConnOf(s, id).fd, s.wake.fds, s.wake.pipe > 0;
    if fd in fds.read {
      step := Sel(SelectReturn(FdSets({fd}, {}, false, trigger)));
    } else if fd in fds.write {
      step := Sel(SelectReturn(FdSets({}, {fd}, false, trigger)));
    } else if trigger {
      step := Sel(TRIGGERED);
    } else {
      step := Work(s.th.comOwner.w, WakeSelector);
    }
  }

  lemma OtherStepInLap(s: State, id: Id, step: Step)
    requires Enabled(s, step) && !s.th.sel.Select? && Valid(s, id)
    requires By(step) == Selector || (By(step).Worker? && (By(step) == s.th.comOwner || By(step) == s.th.actOwner))
    ensures LapStep(s, step, id)
  {
  }

  lemma NextInLap(s: State, id: Id) returns (step: Step)
    requires Inv(s) && Serving(s) && id in s.q.com && Valid(s, id)
    ensures Enabled(s, step) && Progress(step) && LapStep(s, step, id)
  {
    hide Inv, Core, LockInv, SelEnabled, WorkEnabled, LapStep, Progress, WakeupInv;
    var pc := s.th.sel;
    if pc.Select? {
      InvWakeup(s);
      step := SelectStepInLap(s, id);
    } else {
      if SelWantsCom(pc) {
        step := LockProgress(s, ComLock, Selector);
      } else if SelWantsAct(pc) {
        step := LockProgress(s, ActLock, Selector);
      } else if SelHoldsCom(pc) || SelHoldsAct(pc) {
        InvLocks(s);
        step := SelectorInSection(s);
      } else {
        var ss := OutsideSection(s);
        step := Sel(ss);
      }
      OtherStepInLap(s, id, step);
    }
  }

  lemma InvWakeup(s: State)
    requires Inv(s)
    ensures WakeupInv(s)
  {
    hide ThreadInv, OwnInv, FdInv, FdSetInv, ConnInv, WakeupInv, ListenInv;
  }

  /** Such a step leaves the client alone, unless it is the visit. */
  lemma LapIsStill(s: State, step: Step, id: Id)
    requires Valid(s, id) && Enabled(s, step) && LapStep(s, step, id)
    requires OwnInv(s) && QueueConnOk(s, id) && LockInv(s.th)
    requires Serving(s) && id in s.q.com && !UnderVisit(s, id)
    ensures TurnOf(s, step, id) == Still
  {
    hide OwnInv, LockInv, Receiving, Replying, Queued;
    Exclusive(s, id);
    match step
    case Sel(ss) =>
      if Visiting(s) && s.th.sel.todo[0] == id {
        ReceivingPhase(ConnOf(s, id));
      }
    case Work(w, _) =>
      if WorkHeld(s.th.workers[w]) == [id] {
        HeldExclusive(s, w, id);
      }
  }

  lemma StaysOnCom(s: State, step: Step, t: State, id: Id)
    requires Next(s, step, t) && OwnInv(s) && Serving(s) && id in s.q.com
    requires TurnOf(s, step, id) == Still
    ensures id in t.q.com
  {
    hide OwnInv, VisitResult, SelThreads, SelNet, SelWake, WorkThreads, WorkNet, WorkWake, WorkQueues, SelNext;
    Exclusive(s, id);
    match step
    case Sel(ss) =>
      if SelTouches(s) != [id] {
        SelPlaceFrame(s, ss, id);
      } else {
        SkippedStays(s, ss, id);
      }
    case Work(w, ws) => WorkComFrame(s, w, ws);
    case Signal =>
  }

  lemma SkippedStays(s: State, ss: SelStep, id: Id)
    requires SelEnabled(s, ss) && SelTouches(s) == [id] && SelTurn(s, ss, id) == Still && id !in s.q.free && Serving(s)
    ensures SelQueues(s, ss).com == s.q.com
  {
  }

  /** What a step on the way keeps of the client. */
  ghost predicate SameClient(s: State, t: State, id: Id) {
    && Valid(s, id) && Valid(t, id) && ConnOf(t, id) == ConnOf(s, id) && |t.net.conns| == |s.net.conns|
    && id in s.q.com && id in t.q.com
  }

  lemma RankInSelect(s: State, ss: SelStep, t: State, id: Id)
    requires Next(s, Sel(ss), t) && SameClient(s, t, id) && LapStep(s, Sel(ss), id) && Progress(Sel(ss))
    requires InSelect(s.th.sel) && |s.q.com| <= |s.net.conns| && s.wake.pipe >= 0
    ensures LapRank(t, id) < LapRank(s, id)
  {
    hide SelQueues, SelNet, SelThreads, Position;
    SelPcNext(s, ss);
    SelectPhase(s, ss);
    PositionExact(s.q.com, id);
  }

  lemma RankInLoop(s: State, ss: SelStep, t: State, id: Id)
    requires Next(s, Sel(ss), t) && SameClient(s, t, id) && LapStep(s, Sel(ss), id)
    requires InLoop(s.th.sel) && !UnderVisit(s, id)
    ensures LapRank(t, id) < LapRank(s, id)
  {
    hide SelQueues, SelNet, SelThreads, VisitResult;
    SelPcNext(s, ss);
    PhaseSets(s, ss);
    LoopPhase(s, ss);
  }

  lemma RankBefore(s: State, ss: SelStep, t: State, id: Id)
    requires Next(s, Sel(ss), t) && SameClient(s, t, id) && Core(s) && FdInv(s.net)
    requires !InSelect(s.th.sel) && !InLoop(s.th.sel) && Serving(s)
    ensures LapRank(t, id) < LapRank(s, id)
  {
    hide SelQueues, SelNet, SelThreads, Core, FdInv, FdsOf, Covered;
    SelPcNext(s, ss);
    if ss.BuildSets? {
      BuiltCovered(s, ss, t, id);
    }
  }

  lemma BuiltCovered(s: State, ss: SelStep, t: State, id: Id)
    requires Next(s, Sel(ss), t) && ss.BuildSets? && Core(s) && FdInv(s.net) && id in t.q.com && Valid(t, id)
    ensures Covered(t, id)
  {
    hide SelThreads, OwnInv, FdInv, SelNet, FdsOf, VisitReady, QueueConnOk, WorkerConnOk;
    BuiltReady(s, ss, t);
  }

  lemma RankWorker(s: State, w: int, ws: WorkStep, t: State, id: Id)
    requires Next(s, Work(w, ws), t) && SameClient(s, t, id)
    ensures LapRank(t, id) <= LapRank(s, id) + Writes(Work(w, ws))
  {
    hide WorkThreads, WorkNet, WorkQueues, Position;
    WorkSelFrame(s, w, ws);
    WorkComFrame(s, w, ws);
  }

  ghost function LapMeasure(s: State, id: Id): int
    requires Valid(s, id)
  {
    LapRank(s, id) + 2 * OwnerLeft(s.th, s.th.comOwner) + 2 * OwnerLeft(s.th, s.th.actOwner)
  }

  /** A bound for it, by the size of the pool. */
  function LapBound(n: nat): nat {
    6 * n + 30 + PIPE_CAPACITY
  }

  lemma LapBounds(s: State, id: Id)
    requires Inv(s) && Valid(s, id) && id in s.q.com
    ensures 0 <= LapMeasure(s, id) <= LapBound(|s.net.conns|)
  {
    hide Inv, LockInv, WakeupInv, Position, Due;
    QueueBounds(s);
    InvWakeup(s);
    PipeBounds(s);
    var todo := if InLoop(s.th.sel) then s.th.sel.todo else [];
    assert |todo| <= |s.q.com|;
    if id in todo {
      PositionExact(todo, id);
    }
    assert Due(s, id) && InLoop(s.th.sel) ==> id in todo by { DueInTodo(s, id); }
  }

  lemma PipeBounds(s: State)
    requires WakeupInv(s)
    ensures 0 <= s.wake.pipe <= PIPE_CAPACITY
  {
  }

  lemma DueInTodo(s: State, id: Id)
    requires Valid(s, id)
    ensures Due(s, id) && InLoop(s.th.sel) ==> id in s.th.sel.todo
  {
  }

  lemma LapSelStep(s: State, ss: SelStep, t: State, id: Id)
    requires Next(s, Sel(ss), t) && SameClient(s, t, id) && LapStep(s, Sel(ss), id) && Progress(Sel(ss))
    requires Inv(s) && Serving(s) && !UnderVisit(s, id)
    ensures LapRank(t, id) < LapRank(s, id)
  {
    hide Inv, LockInv, SelEnabled, SelThreads, SelQueues, SelNet, SelWake, LapRank, LapStep, SameClient;
    hide Progress, Serving;
    hide UnderVisit, Core, FdInv;
    QueueBounds(s);
    if InSelect(s.th.sel) {
      SameId(s, t, id);
      RankInSelect(s, ss, t, id);
    } else if InLoop(s.th.sel) {
      RankInLoop(s, ss, t, id);
    } else {
      InvLocks(s);
      InvClients(s);
      RankBefore(s, ss, t, id);
    }
  }

  lemma SameId(s: State, t: State, id: Id)
    requires SameClient(s, t, id)
    ensures Valid(s, id) && Valid(t, id) && id in s.q.com && id in t.q.com
  {
  }

  lemma LapDecreases(s: State, step: Step, t: State, id: Id)
    requires Next(s, step, t) && SameClient(s, t, id) && LapStep(s, step, id) && Progress(step)
    requires Inv(s) && Serving(s) && !UnderVisit(s, id)
    ensures LapMeasure(t, id) < LapMeasure(s, id)
  {
    hide Inv, LockInv, Enabled, Apply, LapRank, OwnerLeft, SameClient, Progress, Serving, UnderVisit;
    hide ShutdownInv, Due, Covered;
    SameId(s, t, id);
    InvLocks(s);
    match step
    case Sel(ss) =>
      LapSelStep(s, ss, t, id);
      OwnersSelStep(s, ss, t);
    case Work(w, ws) =>
      InvShutdown(s);
      ServingRuns(s);
      RankWorker(s, w, ws, t, id);
      OwnersWorkStep(s, w, ws, t);
    case Signal =>
  }

  /**
   While no stop is under way the selector comes to every client on com_queue, and finds it ready
   for its operation, within a bound; up to then nothing happens to the client.
   */
  lemma {:induction false} Comes(s: State, id: Id) returns (steps: seq<Step>, t: State)
    requires Inv(s) && Serving(s) && id in s.q.com && Valid(s, id)
    ensures GoesThrough(s, steps, id, [], t) && |steps| <= LapMeasure(s, id)
    ensures Inv(t) && Serving(t) && UnderVisit(t, id) && SameClient(s, t, id)
    decreases LapMeasure(s, id)
  {
    hide Inv, LockInv, Enabled, Apply, TurnOf, LapMeasure, LapStep, Progress, Serving, Core, OwnInv;
    hide UnderVisit, QueueConnOk, FdInv;
    LapBounds(s, id);
    if UnderVisit(s, id) {
      steps, t := [], s;
    } else {
      var step := NextInLap(s, id);
      var u := Apply(s, step);
      InvLocks(s);
      InvClients(s);
      LapIsStill(s, step, id);
      KeptClient(s, step, u, id);
      StaysOnCom(s, step, u, id);
      StillServing(s, step, u);
      LapDecreases(s, step, u, id);
      var rest;
      rest, t := Comes(u, id);
      steps := [step] + rest;
      StillFirst(s, step, u, rest, id, [], t);
    }
  }
}
