/**
 What the server guarantees in every state that a run from start-up can reach.
 */
module ServerTheorems {
  import opened Wire
  import opened Connection
  import opened Phases
  import opened Fencing
  import opened ServerProtocol
  import opened ServerOwnership
  import opened ServerWorkers
  import opened ServerConnections
  import opened ServerDescriptors
  import opened ServerInvariant
  import opened Sums

  ghost predicate Reached(s: State) {
    exists s0, steps :: Init(s0) && Run(s0, steps) && Final(s0, steps) == s
  }

  lemma ReachedInv(s: State)
    requires Reached(s)
    ensures Inv(s)
  {
    hide Inv;
    var s0, steps :| Init(s0) && Run(s0, steps) && Final(s0, steps) == s;
    Reachable(s0, steps);
  }

  // ----- ownership

  datatype Place = InPool | OnComQueue | OnActionQueue | WithSelector | WithWorker(w: int)

  predicate IsAt(s: State, id: Id, p: Place) {
    match p
    case InPool => id in s.q.free
    case OnComQueue => id in s.q.com
    case OnActionQueue => id in s.q.act
    case WithSelector => SelHeld(s.th.sel) == [id]
    case WithWorker(w) => 0 <= w < |s.th.workers| && WorkHeld(s.th.workers[w]) == [id]
  }

  lemma FindPlace(s: State, id: Id) returns (p: Place)
    requires OwnInv(s) && Valid(s, id) && id !in s.q.lost
    ensures IsAt(s, id, p)
  {
    hide Sum;
    assert Places(s.th, s.q, id) == 1;
    CountBounds(s.q.free, id);
    CountBounds(s.q.com, id);
    CountBounds(s.q.act, id);
    CountBounds(s.q.lost, id);
    CountBounds(SelHeld(s.th.sel), id);
    if id in s.q.free { return InPool; }
    if id in s.q.com { return OnComQueue; }
    if id in s.q.act { return OnActionQueue; }
    if id in SelHeld(s.th.sel) { return WithSelector; }
    var w := SumWitness(Holds(id), s.th.workers);
    p := WithWorker(w);
  }

  lemma OnePlace(s: State, id: Id, p: Place, p1: Place)
    requires OwnInv(s) && IsAt(s, id, p) && IsAt(s, id, p1)
    ensures p == p1 && Valid(s, id) && id !in s.q.lost
  {
    hide OwnInv;
    Exclusive(s, id);
    if p.WithWorker? { HeldExclusive(s, p.w, id); }
    if p1.WithWorker? { HeldExclusive(s, p1.w, id); }
  }

  /**
   The ownership partition: in every reachable state each client object of the pool is in
   exactly one place, except those that an exception has left without an owner, no other
   object is anywhere, and no queue holds an object twice. In particular no two threads ever
   hold the same client.
   */
  lemma OwnershipPartition(s: State, id: Id)
    requires Reached(s)
    ensures Valid(s, id) && id !in s.q.lost <==> exists p :: IsAt(s, id, p)
    ensures forall p, p1 :: IsAt(s, id, p) && IsAt(s, id, p1) ==> p == p1
    ensures Count(s.q.free, id) <= 1 && Count(s.q.com, id) <= 1 && Count(s.q.act, id) <= 1
    ensures Count(s.q.lost, id) <= 1 && (id in s.q.lost ==> Valid(s, id) && ConnOf(s, id).fd >= 0)
  {
    hide Inv, Reached;
    ReachedInv(s);
    InvPlaces(s);
    PlacesExact(s, id);
    QueuedOnce(s, id);
    LostOpen(s, id);
  }

  lemma InvPlaces(s: State)
    requires Inv(s)
    ensures OwnInv(s) && forall id :: QueueConnOk(s, id)
  {
    hide ThreadInv, OwnInv, FdInv, FdSetInv, WakeupInv, ListenInv, QueueConnOk, WorkerConnOk;
  }

  lemma PlacesExact(s: State, id: Id)
    requires OwnInv(s)
    ensures Valid(s, id) && id !in s.q.lost <==> exists p :: IsAt(s, id, p)
    ensures forall p, p1 :: IsAt(s, id, p) && IsAt(s, id, p1) ==> p == p1
  {
    hide OwnInv, IsAt;
    if Valid(s, id) && id !in s.q.lost {
      var p := FindPlace(s, id);
    }
    forall p, p1 | IsAt(s, id, p) && IsAt(s, id, p1)
      ensures p == p1 && Valid(s, id) && id !in s.q.lost
    {
      OnePlace(s, id, p, p1);
    }
    assert forall p :: IsAt(s, id, p) ==> IsAt(s, id, p) && IsAt(s, id, p);
  }

  lemma LostOpen(s: State, id: Id)
    requires OwnInv(s) && QueueConnOk(s, id)
    ensures id in s.q.lost ==> Valid(s, id) && ConnOf(s, id).fd >= 0
  {
    hide OwnInv, Receiving, Replying, Queued;
    Exclusive(s, id);
  }

  // ----- clients without an owner

  /** A fencing request with a node name over 255 or a secret over 64 bytes where the parser meets it. */
  predicate Fatal(c: Conn) {
    c.ioOffset <= |c.ioBuffer| && FenceAction(c.header.msgType).Some? && NamesTooLong(Payload(c))
  }

  /** The step serves such a message. */
  predicate ServesFatal(s: State, step: Step)
    requires Enabled(s, step)
  {
    step.Work? && step.ws.Execute? && Fatal(ConnOf(s, s.th.workers[step.w].c))
  }

  /** A step makes its client lose its owner exactly if it serves such a message. */
  lemma LostStep(s: State, step: Step, t: State)
    requires Next(s, step, t) && Inv(s)
    ensures t.q.lost == s.q.lost + (if ServesFatal(s, step) then [s.th.workers[step.w].c] else [])
  {
    hide Inv, Fatal, Process, VisitResult, VisitQueues;
    if step.Work? && step.ws.Execute? {
      InvServed(s, step.w);
      EscapesFatal(ConnOf(s, s.th.workers[step.w].c), step.ws.ok);
    } else if step.Sel? {
      SelKeepsLost(s, step.ss);
    }
  }

  lemma SelKeepsLost(s: State, ss: SelStep)
    requires SelEnabled(s, ss)
    ensures SelQueues(s, ss).lost == s.q.lost
  {
    hide SelEnabled, VisitResult;
  }

  lemma InvServed(s: State, w: int)
    requires Inv(s) && 0 <= w < |s.th.workers| && s.th.workers[w].Exec?
    ensures Valid(s, s.th.workers[w].c) && Queued(ConnOf(s, s.th.workers[w].c))
  {
    hide ThreadInv, OwnInv, FdInv, FdSetInv, WakeupInv, ListenInv, QueueConnOk, Queued;
    assert WorkerConnOk(s, w);
  }

  lemma EscapesFatal(c: Conn, ok: bool)
    requires Queued(c)
    ensures c.ioOffset <= |c.ioBuffer| && (Process(c, ok).escaped <==> Fatal(c))
  {
    hide Process, NamesTooLong;
    QueuedNameless(c);
    EscapeExact(c, ok);
  }

  predicate NeverFatal(s: State, steps: seq<Step>)
    requires Run(s, steps)
    decreases |steps|
  {
    steps != [] ==> !ServesFatal(s, steps[0]) && NeverFatal(Apply(s, steps[0]), steps[1..])
  }

  lemma {:induction false} LostRun(s: State, steps: seq<Step>)
    requires Inv(s) && Run(s, steps)
    ensures |s.q.lost| <= |Final(s, steps).q.lost|
    ensures |s.q.lost| == |Final(s, steps).q.lost| <==> NeverFatal(s, steps)
    decreases |steps|
  {
    hide Inv, Enabled, Apply, ServesFatal;
    if steps != [] {
      var t := Apply(s, steps[0]);
      LostStep(s, steps[0], t);
      InvStep(s, steps[0], t);
      LostRun(t, steps[1..]);
    }
  }

  /**
   The exact condition: at the end of a run every object of the pool is in exactly one place if
   and only if the run has served no fencing request with an oversize node name or secret.
   */
  lemma OwnershipExact(s: State, steps: seq<Step>)
    requires Init(s) && Run(s, steps)
    ensures (forall id :: Valid(s, id) ==> exists p :: IsAt(Final(s, steps), id, p)) <==> NeverFatal(s, steps)
  {
    hide Inv, IsAt, NeverFatal, Init, OwnInv;
    InvInit(s);
    InvRun(s, steps);
    LostRun(s, steps);
    SamePool(s, steps);
    var t := Final(s, steps);
    InvPlaces(t);
    NothingLostAtStart(s);
    forall id
      ensures Valid(t, id) && id !in t.q.lost <==> exists p :: IsAt(t, id, p)
    {
      PlacesExact(t, id);
    }
    if t.q.lost != [] {
      LostOpen(t, t.q.lost[0]);
    }
  }

  lemma NothingLostAtStart(s: State)
    requires Init(s)
    ensures s.q.lost == []
  {
  }

  lemma {:induction false} SamePool(s: State, steps: seq<Step>)
    requires Inv(s) && Run(s, steps)
    ensures forall id :: Valid(Final(s, steps), id) <==> Valid(s, id)
    decreases |steps|
  {
    hide Inv, Enabled, Apply;
    if steps != [] {
      var t := Apply(s, steps[0]);
      PoolStep(s, steps[0], t);
      InvStep(s, steps[0], t);
      SamePool(t, steps[1..]);
    }
  }

  lemma PoolStep(s: State, step: Step, t: State)
    requires Next(s, step, t)
    ensures |t.net.conns| == |s.net.conns|
  {
    hide SelEnabled, SelThreads, SelQueues, SelNet, SelWake, WorkEnabled, WorkThreads, WorkQueues, WorkNet, WorkWake;
    match step
    case Sel(ss) => SelNetFrame(s, ss);
    case Work(w, ws) => WorkNetFrame(s, w, ws);
    case Signal =>
  }

  lemma QueuedOnce(s: State, id: Id)
    requires OwnInv(s)
    ensures Count(s.q.free, id) <= 1 && Count(s.q.com, id) <= 1 && Count(s.q.act, id) <= 1 && Count(s.q.lost, id) <= 1
  {
    hide Sum;
    assert Places(s.th, s.q, id) <= 1;
    CountBounds(s.q.free, id);
    CountBounds(s.q.com, id);
    CountBounds(s.q.act, id);
    CountBounds(s.q.lost, id);
    CountBounds(SelHeld(s.th.sel), id);
    SumBounds(Holds(id), s.th.workers, 1);
  }

  // ----- workers

  const AWAKE: WorkPc -> int := (pc: WorkPc) => if pc.Waiting? then 0 else 1

  /**
   Worker sufficiency: until the pool is stopped, at least as many workers are awake as
   there are clients queued or being served; and at least as many workers are awake and
   without a client as there are clients queued. That no queued client has to wait for another
   client's fencing action to end follows in module ServerService.
   */
  lemma WorkerSufficiency(s: State)
    requires Reached(s) && !s.th.stopWorkers
    ensures Sum(AWAKE, s.th.workers) >= |s.q.act| + Sum(BUSY, s.th.workers)
    ensures Sum(AVAILABLE, s.th.workers) >= |s.q.act|
  {
    hide Inv, ClientInv, LockInv, TailInv, Load, IdleInv, AstrayInv, ShutdownInv, Sum, Reached;
    ReachedInv(s);
    InvSufficiency(s);
    Untaken(s);
    var ws := s.th.workers;
    var both: WorkPc -> int := (pc: WorkPc) => AVAILABLE(pc) + BUSY(pc);
    SumPlus(AVAILABLE, BUSY, both, ws);
    SumMono(both, AWAKE, ws);
  }

  lemma Untaken(s: State)
    requires SufficiencyInv(s.th, s.q) && !s.th.stopWorkers
    ensures Sum(AVAILABLE, s.th.workers) >= |s.q.act|
  {
    hide Sum;
    var one: WorkPc -> int := (pc: WorkPc) => 1;
    SumConst(one, s.th.workers);
    SumPlus(TAKEN, AVAILABLE, one, s.th.workers);
  }

  lemma InvSufficiency(s: State)
    requires Inv(s)
    ensures SufficiencyInv(s.th, s.q)
  {
    hide ClientInv, LockInv, TailInv, Load, IdleInv, AstrayInv, ShutdownInv;
  }

  lemma {:induction false} SumConst(one: WorkPc -> int, ws: seq<WorkPc>)
    requires forall pc :: one(pc) == 1
    ensures Sum(one, ws) == |ws|
  {
    if ws != [] {
      SumConst(one, ws[1..]);
    }
  }

  // ----- the selector is woken

  /**
   No lost wakeup: whenever the selector is in select and neither the trigger pipe holds a
   byte nor a worker that has just added a client is about to write one, every client on
   com_queue is in the set for its operation and the stop signal is not set.
   */
  lemma NoLostWakeup(s: State)
    requires Reached(s) && s.th.sel == Select && s.wake.pipe == 0 && !WakePending(s.th)
    ensures !s.wake.flag
    ensures forall id :: id in s.q.com ==>
              && Valid(s, id)
              && (ConnOf(s, id).io == READ ==> ConnOf(s, id).fd in s.wake.fds.read)
              && (ConnOf(s, id).io == WRITE ==> ConnOf(s, id).fd in s.wake.fds.write)
              && (ConnOf(s, id).io == READ || ConnOf(s, id).io == WRITE)
  {
    hide ThreadInv, OwnInv, FdInv, ListenInv, Reached;
    ReachedInv(s);
    forall id | id in s.q.com
      ensures
        && Valid(s, id)
        && (ConnOf(s, id).io == READ ==> ConnOf(s, id).fd in s.wake.fds.read)
        && (ConnOf(s, id).io == WRITE ==> ConnOf(s, id).fd in s.wake.fds.write)
        && (ConnOf(s, id).io == READ || ConnOf(s, id).io == WRITE)
    {
      Exclusive(s, id);
      assert QueueConnOk(s, id) && Ready(s, id) && Covered(s, id);
    }
  }

  const TRIGGERED := SelectReturn(FdSets({}, {}, false, true))

  /**
   A byte in the pipe or a pending stop signal: select is going to return. A pending write:
   the worker can do it, and then select is going to return.
   */
  lemma WakeupReturnsSelect(s: State)
    requires Reached(s) && s.th.sel == Select
    ensures s.wake.flag || s.wake.pipe > 0 ==> SelEnabled(s, TRIGGERED)
    ensures WakePending(s.th) ==>
              var step := Work(s.th.comOwner.w, WakeSelector);
              Enabled(s, step) && SelEnabled(Apply(s, step), TRIGGERED)
  {
    hide ThreadInv, OwnInv, FdInv, ListenInv, Reached, ConnInv, FdSetInv, WorkNet, WorkQueues;
    ReachedInv(s);
  }

  /** The step writes to the trigger pipe: a signal handler that may, or a worker's wakeup. */
  predicate WritesPipe(s: State, step: Step) {
    match step
    case Signal => s.wake.wakeupFd
    case Work(_, ws) => ws.WakeSelector?
    case Sel(_) => false
  }

  /** Nobody, and no signal handler either, writes to the trigger pipe once cleanup has closed it. */
  lemma NoWriteAfterClose(s: State, step: Step)
    requires Reached(s) && Enabled(s, step) && WritesPipe(s, step)
    ensures s.wake.pipeOpen
    ensures Apply(s, step).wake.pipe == PipeWrite(s.wake.pipe)
  {
    hide OwnInv, FdInv, ListenInv, Reached, ConnInv, FdSetInv, WorkNet, WorkQueues, WorkThreads;
    hide LockInv, TailInv, Load, IdleInv, AstrayInv, SufficiencyInv;
    ReachedInv(s);
    if step.Work? {
      assert WorkerStage(s, s.th.workers[step.w]);
    }
  }

  // ----- phases

  /**
   The phase invariant: a client on com_queue is receiving an incomplete message or
   replying, so it is never CANCELED at the top of the I/O loop; a client on the action
   queue has exactly one complete message; and a client that reads, waits or is about to
   be served has no node name or secret from an earlier message or connection.
   */
  lemma PhaseInvariant(s: State, id: Id)
    requires Reached(s) && Valid(s, id)
    ensures id in s.q.com ==> Receiving(ConnOf(s, id)) || Replying(ConnOf(s, id))
    ensures id in s.q.act ==> Queued(ConnOf(s, id))
    ensures forall w :: 0 <= w < |s.th.workers| && s.th.workers[w] == Exec(id) ==> Queued(ConnOf(s, id))
    ensures ConnOf(s, id).fd < 0 <==> id in s.q.free
  {
    hide ThreadInv, OwnInv, FdInv, FdSetInv, WakeupInv, ListenInv, Reached, Receiving, Replying, Queued;
    ReachedInv(s);
    assert QueueConnOk(s, id);
    forall w | 0 <= w < |s.th.workers| && s.th.workers[w] == Exec(id)
      ensures Queued(ConnOf(s, id))
    {
      assert WorkerConnOk(s, w);
    }
  }

  /**
   The branches of the selector that deal with a CANCELED client or an exhausted pool are
   never reached, and no receive can overrun a client's buffer, whatever its size up to the
   one requested.
   */
  lemma UnreachableBranches(s: State, data: seq<byte>)
    requires Reached(s)
    ensures !SelEnabled(s, VisitCanceled)
    ensures s.th.sel == Accept ==> s.q.free != []
    ensures Visiting(s) && Visited(s).fd in s.wake.fds.read && 1 <= |data| <= RecvReq(Visited(s))
            ==> RecvStep(Visited(s), data) != Overrun
  {
    hide OwnInv, FdInv, WakeupInv, Reached, LockInv, Load, IdleInv, SufficiencyInv, ShutdownInv, Receiving;
    hide Replying, RecvStep;
    ReachedInv(s);
    FdSetGivesVisitReady(s);
    if Visiting(s) {
      var c := Visited(s);
      VisitedOnCom(s);
      assert QueueConnOk(s, s.th.sel.todo[0]);
      NotCanceled(c);
      if c.fd in s.wake.fds.read && 1 <= |data| <= RecvReq(c) {
        VisitReadKeeps(c, data);
      }
    }
  }

  lemma VisitedOnCom(s: State)
    requires TailInv(s.th, s.q) && Visiting(s)
    ensures s.th.sel.todo[0] in s.q.com
  {
    var com, todo := s.q.com, s.th.sel.todo;
    assert com[|com| - |todo|] == todo[0];
  }

  lemma NotCanceled(c: Conn)
    ensures Receiving(c) || Replying(c) ==> c.phase != CANCELED
  {
  }

  /**
   No stale name: when a worker serves a client, what is added to the plugin's call log is
   determined by the message alone: one call, for the action of its type and the node that
   its own payload names, or none.
   */
  lemma NoStaleName(s: State, w: int, ok: bool, t: State)
    requires Reached(s) && Next(s, Work(w, Execute(ok)), t)
    ensures var c := ConnOf(s, s.th.workers[w].c);
            var m := Payload(c);
            t.net.calls == s.net.calls +
              (if FenceAction(c.header.msgType).Some? && WellFormed(m) && NodeOf(m) != []
               then [Call(FenceAction(c.header.msgType).value, NodeOf(m), ok)] else [])
  {
    hide ThreadInv, OwnInv, FdInv, FdSetInv, WakeupInv, ListenInv, Reached, Process, WellFormed, NodeOf;
    ReachedInv(s);
    assert WorkerConnOk(s, w);
    var c := ConnOf(s, s.th.workers[w].c);
    ServedCalls(c, ok);
  }

  lemma ServedCalls(c: Conn, ok: bool)
    requires Queued(c)
    ensures Process(c, ok).calls ==
              (if FenceAction(c.header.msgType).Some? && WellFormed(Payload(c)) && NodeOf(Payload(c)) != []
               then [Call(FenceAction(c.header.msgType).value, NodeOf(Payload(c)), ok)] else [])
  {
    QueuedNameless(c);
    var act := FenceAction(c.header.msgType);
    if act.Some? {
      FenceExact(c.(phase := EXECUTING), act.value, ok);
    }
  }

  /** No other step calls the plugin. */
  lemma OnlyExecuteCalls(s: State, step: Step, t: State)
    requires Next(s, step, t)
    ensures (step.Work? && step.ws.Execute?) || t.net.calls == s.net.calls
  {
    hide VisitResult, Process;
  }
}
