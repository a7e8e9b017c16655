/**
 Where the server as written departs from what the other modules show: close_connection
 always unlinks from com_queue, a worker that an exception brings back to worker_loop gives
 up a mutex that it does not own, and a worker that closes does not wake the selector.
 */
module ServerDefects {
  import opened Wire
  import opened Connection
  import opened Phases
  import opened Fencing
  import opened ServerProtocol
  import opened ServerOwnership
  import opened ServerWorkers
  import opened ServerConnections
  import opened ServerDescriptors
  import opened ServerInvariant
  import opened ServerTheorems
  import opened Sums

  // ----- the steps as written

  /** The steps that call close_connection for a client that com_queue does not hold any more. */
  predicate Detached(step: Step) {
    || (step.Sel? && (step.ss.CleanAct? || step.ss.CleanCom?))
    || (step.Work? && (step.ws.CloseStopped? || step.ws.CloseDetached?))
  }

  predicate Releases(step: Step) {
    step.Work? && step.ws.Release?
  }

  /**
   As written a worker that is astray waits or leaves in any case. C++ leaves that undefined; as
   with a plain mutex of the usual implementations, the mutex is free afterwards, whoever had it.
   */
  predicate WrittenEnabled(s: State, step: Step) {
    if Releases(step) then
      0 <= step.w < |s.th.workers| && (s.th.workers[step.w].UnownedWait? || s.th.workers[step.w].UnownedExit?)
    else Enabled(s, step)
  }

  function ReleaseAt(s: State, w: int): State
    requires 0 <= w < |s.th.workers|
  {
    var pc := if s.th.workers[w].UnownedWait? then Waiting else Exited;
    s.(th := s.th.(workers := s.th.workers[w := pc], actOwner := Nobody))
  }

  /**
   Queue::remove of an unlinked node sets head and tail to null. The nodes that were on
   com_queue stay linked to each other, so what a step as written does to a queue is meant up
   to the first such loss.
   */
  function Dropping(step: Step, t: State): State {
    if Detached(step) then t.(q := t.q.(com := [])) else t
  }

  function WrittenApply(s: State, step: Step): State
    requires WrittenEnabled(s, step)
  {
    if Releases(step) then ReleaseAt(s, step.w) else Dropping(step, Apply(s, step))
  }

  /** The step as written drops clients: it closes a detached one while com_queue holds others. */
  predicate Drops(s: State, step: Step)
    requires WrittenEnabled(s, step)
  {
    !Releases(step) && Detached(step) && Apply(s, step).q.com != []
  }

  /** The step as written is a step of the intended server. */
  predicate Sound(s: State, step: Step)
    requires WrittenEnabled(s, step)
  {
    Enabled(s, step) && !Drops(s, step)
  }

  // ----- giving up a mutex that is not owned

  /**
   Mutual exclusion survives if and only if no other thread has the mutex at that moment, and
   the whole invariant if besides the worker does not go to wait after the last notification.
   */
  lemma ReleaseExact(s: State, w: int)
    requires Inv(s) && WrittenEnabled(s, Work(w, Release))
    ensures var u := ReleaseAt(s, w);
            && (LockInv(u.th) <==> s.th.actOwner == Nobody)
            && (Inv(u) <==> s.th.actOwner == Nobody && (s.th.workers[w].UnownedWait? ==> !s.th.stopWorkers))
  {
    hide Inv, LockInv;
    var u := ReleaseAt(s, w);
    InvThreads(s);
    if Enabled(s, Work(w, Release)) {
      assert Apply(s, Work(w, Release)) == u;
      InvStep(s, Work(w, Release), u);
      InvThreads(u);
    } else if s.th.actOwner != Nobody {
      Intrudes(s, w);
    } else {
      FreeRelease(s, w);
      Oversleeps(u, w);
    }
    if Inv(u) {
      InvThreads(u);
    }
  }

  lemma InvThreads(s: State)
    requires Inv(s)
    ensures LockInv(s.th) && ShutdownInv(s) && AstrayInv(s.th, s.q)
  {
    hide ClientInv, LockInv, TailInv, Load, IdleInv, SufficiencyInv, ShutdownInv, AstrayInv;
  }

  lemma Intrudes(s: State, w: int)
    requires LockInv(s.th) && s.th.actOwner != Nobody && WrittenEnabled(s, Work(w, Release))
    ensures !LockInv(ReleaseAt(s, w).th)
  {
    var u := ReleaseAt(s, w);
    match s.th.actOwner
    case Selector => assert SelHoldsAct(u.th.sel);
    case Worker(v) => assert v != w && WorkHoldsAct(u.th.workers[v]);
  }

  lemma FreeRelease(s: State, w: int)
    requires LockInv(s.th) && s.th.actOwner == Nobody && WrittenEnabled(s, Work(w, Release))
    ensures LockInv(ReleaseAt(s, w).th)
  {
    var u := ReleaseAt(s, w);
    forall v | 0 <= v < |u.th.workers|
      ensures u.th.comOwner == Worker(v) <==> WorkHoldsCom(u.th.workers[v])
      ensures u.th.actOwner == Worker(v) <==> WorkHoldsAct(u.th.workers[v])
    {
    }
  }

  lemma Oversleeps(u: State, w: int)
    requires 0 <= w < |u.th.workers| && u.th.workers[w].Waiting? && u.th.stopWorkers
    ensures !Inv(u)
  {
    hide LockInv, TailInv, Load, IdleInv, SufficiencyInv, AstrayInv, ClientInv;
    assert !WorkerStage(u, u.th.workers[w]);
  }

  // ----- closing a client that is on no queue, and losing one

  /** A client object that no thread and no queue has, with an open descriptor. */
  ghost predicate Leaked(s: State, id: Id) {
    Valid(s, id) && ConnOf(s, id).fd >= 0 && forall p :: !IsAt(s, id, p)
  }

  /** Every object of the pool is in exactly one place. */
  ghost predicate Partitioned(s: State) {
    OwnInv(s) && s.q.lost == []
  }

  /**
   The step as written leads to a state of the intended server if and only if it neither drops
   clients nor gives up a mutex that another thread has or that it needs to be woken with.
   */
  lemma WrittenStepExact(s: State, step: Step)
    requires Inv(s) && WrittenEnabled(s, step)
    ensures Inv(WrittenApply(s, step)) <==> Sound(s, step)
    ensures Sound(s, step) ==> WrittenApply(s, step) == Apply(s, step)
  {
    hide *;
    if Releases(step) {
      ReleaseStepExact(s, step);
    } else {
      CloseStepExact(s, step);
    }
  }

  lemma ReleaseStepExact(s: State, step: Step)
    requires Inv(s) && WrittenEnabled(s, step) && Releases(step)
    ensures Inv(WrittenApply(s, step)) <==> Sound(s, step)
    ensures Sound(s, step) ==> WrittenApply(s, step) == Apply(s, step)
  {
    hide Inv, LockInv;
    ReleaseExact(s, step.w);
  }

  lemma CloseStepExact(s: State, step: Step)
    requires Inv(s) && WrittenEnabled(s, step) && !Releases(step)
    ensures Inv(WrittenApply(s, step)) <==> Sound(s, step)
    ensures Sound(s, step) ==> WrittenApply(s, step) == Apply(s, step)
  {
    hide Inv, Detached, Leaked, Enabled, Apply, OwnInv;
    var t := Apply(s, step);
    InvStep(s, step, t);
    if Detached(step) && t.q.com != [] {
      InvPlaces(t);
      Dropped(t, Dropping(step, t), t.q.com[0]);
      NotInv(Dropping(step, t));
    } else {
      assert Dropping(step, t) == t;
    }
  }

  lemma NotInv(s: State)
    requires !OwnInv(s)
    ensures !Inv(s)
  {
    hide ThreadInv, OwnInv, FdInv, FdSetInv, WakeupInv, ListenInv, ConnInv;
  }

  /**
   A step as written leaks exactly the clients that it drops from com_queue and the one whose
   oversize name or secret it meets, and so it keeps the partition if and only if it does
   neither.
   */
  lemma WrittenCloseExact(s: State, step: Step)
    requires Inv(s) && WrittenEnabled(s, step)
    ensures var u := WrittenApply(s, step);
            forall id :: Leaked(u, id) <==>
              || id in s.q.lost
              || (Drops(s, step) && id in Apply(s, step).q.com)
              || (!Releases(step) && ServesFatal(s, step) && id == s.th.workers[step.w].c)
    ensures s.q.lost == [] ==>
              (Partitioned(WrittenApply(s, step)) <==> !Drops(s, step) && (Releases(step) || !ServesFatal(s, step)))
  {
    hide Inv, OwnInv, IsAt, Leaked, Detached, QueueConnOk, Enabled, Apply, ServesFatal;
    var u := WrittenApply(s, step);
    if Releases(step) {
      InvPlaces(s);
      forall id ensures Leaked(u, id) <==> id in s.q.lost { ReleaseKeeps(s, u, step.w, id); }
      ReleaseOwns(s, u, step.w);
    } else {
      var t := Apply(s, step);
      InvStep(s, step, t);
      InvPlaces(t);
      LostStep(s, step, t);
      forall id
        ensures Leaked(u, id) <==> id in t.q.lost || (Detached(step) && id in t.q.com)
      {
        if id in t.q.lost || (Detached(step) && id in t.q.com) {
          Dropped(t, u, id);
        } else {
          Kept(t, u, id);
        }
      }
      if Detached(step) && t.q.com != [] {
        Dropped(t, u, t.q.com[0]);
      } else {
        assert u == t;
      }
    }
  }

  lemma ReleaseKeeps(s: State, u: State, w: int, id: Id)
    requires OwnInv(s) && QueueConnOk(s, id) && WrittenEnabled(s, Work(w, Release)) && u == ReleaseAt(s, w)
    ensures Leaked(u, id) <==> id in s.q.lost
  {
    hide OwnInv, QueueConnOk;
    PlacesExact(s, id);
    LostOpen(s, id);
    forall p
      ensures IsAt(u, id, p) <==> IsAt(s, id, p)
    {
    }
  }

  lemma ReleaseOwns(s: State, u: State, w: int)
    requires OwnInv(s) && WrittenEnabled(s, Work(w, Release)) && u == ReleaseAt(s, w)
    ensures OwnInv(u)
  {
    hide Sum, Count;
    forall id
      ensures Places(u.th, u.q, id) == Places(s.th, s.q, id)
    {
      SumUpdate(Holds(id), s.th.workers, w, u.th.workers[w]);
    }
  }

  lemma Dropped(t: State, u: State, id: Id)
    requires OwnInv(t) && QueueConnOk(t, id)
    requires u == t || u == t.(q := t.q.(com := []))
    requires id in t.q.lost || (id in t.q.com && u.q.com == [])
    ensures Leaked(u, id)
    ensures id in t.q.com ==> !OwnInv(u)
  {
    hide OwnInv, Receiving, Replying, Queued;
    Exclusive(t, id);
    LostOpen(t, id);
    forall p
      ensures !IsAt(u, id, p)
    {
      if IsAt(u, id, p) {
        OnePlace(t, id, p, if id in t.q.com then OnComQueue else p);
      }
    }
    if OwnInv(u) && id in t.q.com {
      var p := FindPlace(u, id);
    }
  }

  lemma Kept(t: State, u: State, id: Id)
    requires OwnInv(t) && id !in t.q.lost && (u == t || (id !in t.q.com && u == t.(q := t.q.(com := []))))
    ensures !Leaked(u, id)
  {
    hide OwnInv;
    if Valid(t, id) {
      var p := FindPlace(t, id);
      assert IsAt(u, id, p);
    }
  }

  // ----- runs

  /**
   A run of the server as written; as to what it does to com_queue, up to the first step that
   drops clients.
   */
  predicate WrittenRun(s: State, steps: seq<Step>)
    decreases |steps|
  {
    steps == [] || (WrittenEnabled(s, steps[0]) && WrittenRun(WrittenApply(s, steps[0]), steps[1..]))
  }

  function WrittenFinal(s: State, steps: seq<Step>): State
    requires WrittenRun(s, steps)
    decreases |steps|
  {
    if steps == [] then s else WrittenFinal(WrittenApply(s, steps[0]), steps[1..])
  }

  predicate SoundThroughout(s: State, steps: seq<Step>)
    requires WrittenRun(s, steps)
    decreases |steps|
  {
    steps != [] ==> Sound(s, steps[0]) && SoundThroughout(WrittenApply(s, steps[0]), steps[1..])
  }

  ghost predicate InvThroughout(s: State, steps: seq<Step>)
    requires WrittenRun(s, steps)
    decreases |steps|
  {
    Inv(s) && (steps != [] ==> InvThroughout(WrittenApply(s, steps[0]), steps[1..]))
  }

  /**
   Over whole runs: the server as written stays within what is shown of the intended server if
   and only if every step is sound, and then its run is one of the intended server.
   */
  lemma {:induction false} WrittenSoundExact(s: State, steps: seq<Step>)
    requires Inv(s) && WrittenRun(s, steps)
    ensures InvThroughout(s, steps) <==> SoundThroughout(s, steps)
    ensures SoundThroughout(s, steps) ==> Run(s, steps) && WrittenFinal(s, steps) == Final(s, steps)
    decreases |steps|
  {
    hide Inv, Sound, WrittenEnabled, WrittenApply, Enabled, Apply;
    if steps != [] {
      WrittenStepExact(s, steps[0]);
      var u := WrittenApply(s, steps[0]);
      if Sound(s, steps[0]) {
        SoundEnabled(s, steps[0]);
        WrittenSoundExact(u, steps[1..]);
      } else {
        assert !InvThroughout(u, steps[1..]);
      }
    }
  }

  lemma SoundEnabled(s: State, step: Step)
    requires WrittenEnabled(s, step) && Sound(s, step)
    ensures Enabled(s, step)
  {
  }

  /** No step drops clients and none meets an oversize name or secret. */
  predicate Harmless(s: State, steps: seq<Step>)
    requires WrittenRun(s, steps)
    decreases |steps|
  {
    steps != [] ==>
      && !Drops(s, steps[0]) && (Releases(steps[0]) || !ServesFatal(s, steps[0]))
      && Harmless(WrittenApply(s, steps[0]), steps[1..])
  }

  ghost predicate PartitionedThroughout(s: State, steps: seq<Step>)
    requires WrittenRun(s, steps)
    decreases |steps|
  {
    Partitioned(s) && (steps != [] ==> PartitionedThroughout(WrittenApply(s, steps[0]), steps[1..]))
  }

  /**
   Over whole runs: the server as written has every client object in exactly one place in every
   state of a run if and only if com_queue is empty at each close of a detached client and no
   request with an oversize name or secret is served; and then the run is one of the intended
   server, so that everything shown of that one holds of it.
   */
  lemma {:induction false} WrittenRunExact(s: State, steps: seq<Step>)
    requires Inv(s) && s.q.lost == [] && WrittenRun(s, steps)
    ensures PartitionedThroughout(s, steps) <==> Harmless(s, steps)
    ensures Harmless(s, steps) ==> Run(s, steps) && WrittenFinal(s, steps) == Final(s, steps)
    decreases |steps|
  {
    hide Inv, OwnInv, WrittenEnabled, WrittenApply, Enabled, Apply, Leaked, Drops, ServesFatal, Releases;
    InvPlaces(s);
    if steps != [] {
      var u := WrittenApply(s, steps[0]);
      NoneAstray(s, steps[0]);
      WrittenCloseExact(s, steps[0]);
      if !Drops(s, steps[0]) && !ServesFatal(s, steps[0]) {
        NotDropping(s, steps[0]);
        InvStep(s, steps[0], u);
        WrittenRunExact(u, steps[1..]);
      } else {
        assert !PartitionedThroughout(u, steps[1..]);
      }
    }
  }

  lemma NotDropping(s: State, step: Step)
    requires WrittenEnabled(s, step) && !Releases(step) && !Drops(s, step)
    ensures Enabled(s, step) && WrittenApply(s, step) == Apply(s, step)
  {
    hide Enabled, Apply;
    if Detached(step) {
      var t := Apply(s, step);
      assert t.(q := t.q.(com := [])) == t;
    }
  }

  /** As long as no client is lost, no worker is astray. */
  lemma NoneAstray(s: State, step: Step)
    requires Inv(s) && s.q.lost == [] && WrittenEnabled(s, step)
    ensures !Releases(step) && Enabled(s, step)
  {
    hide Inv, Sum, LockInv, ShutdownInv;
    InvThreads(s);
    SumBounds(ASTRAY, s.th.workers, 1);
  }

  // ----- a freed slot that the selector does not learn of

  /** The selector waits without the listening socket although the pool has an object. */
  predicate ListenMissed(s: State) {
    s.th.sel == Select && !s.wake.fds.listen && s.q.free != []
  }

  /**
   A step leads into that state if and only if a worker closes a connection while the
   selector is in select without the listening socket; closing by the selector itself, or
   at any other moment, never does.
   */
  lemma ListenMissedExact(s: State, step: Step, t: State)
    requires Next(s, step, t) && !ListenMissed(s)
    ensures ListenMissed(t) <==>
              && s.th.sel == Select && !s.wake.fds.listen
              && step.Work? && (step.ws.CloseStopped? || step.ws.CloseDetached?)
  {
    hide ListenMissed, Enabled, Apply, SelEnabled, WorkEnabled;
    match step
    case Sel(ss) => ListenBySelector(s, ss, t);
    case Work(w, ws) => ListenByWorker(s, w, ws, t);
    case Signal => ListenBySignal(s, t);
  }

  lemma ListenBySelector(s: State, ss: SelStep, t: State)
    requires Next(s, Sel(ss), t) && !ListenMissed(s)
    ensures !ListenMissed(t)
  {
    hide VisitResult, VisitQueues, FdsOf, NotifyAll, SelNet;
  }

  lemma ListenByWorker(s: State, w: int, ws: WorkStep, t: State)
    requires Next(s, Work(w, ws), t) && !ListenMissed(s)
    ensures ListenMissed(t) <==>
              s.th.sel == Select && !s.wake.fds.listen && (ws.CloseStopped? || ws.CloseDetached?)
  {
    hide Process, WorkNet;
  }

  lemma ListenBySignal(s: State, t: State)
    requires Next(s, Signal, t)
    ensures ListenMissed(t) <==> ListenMissed(s)
  {
  }

  predicate Resting(pc: WorkPc) {
    pc.LoopWait? || pc.Loop? || pc.Take? || pc.Relock? || pc.Idle? || pc.Waiting?
  }

  /** The whole pool is free and nobody is served, but the listening socket is not watched. */
  ghost predicate Deaf(s: State) {
    && s.th.sel == Select && !s.wake.fds.listen && !s.th.stopWorkers
    && s.q.com == [] && s.q.act == [] && s.wake.pipe == 0
    && s.wake.fds.read == {} && s.wake.fds.write == {}
    && forall w :: 0 <= w < |s.th.workers| ==> Resting(s.th.workers[w])
  }

  /** An event from outside that makes select return without a ready descriptor. */
  predicate External(step: Step) {
    step.Signal? || (step.Sel? && (step.ss.SelectInterrupted? || step.ss.SelectFails?))
  }

  /** A deaf server stays deaf: without an external event no run brings it back to accepting. */
  lemma {:induction false} DeafForever(s: State, steps: seq<Step>)
    requires Deaf(s) && Run(s, steps) && forall i :: 0 <= i < |steps| ==> !External(steps[i])
    ensures Deaf(Final(s, steps))
    decreases |steps|
  {
    hide Deaf, External;
    if steps != [] {
      var t := Apply(s, steps[0]);
      DeafStep(s, steps[0], t);
      DeafForever(t, steps[1..]);
    }
  }

  lemma DeafStep(s: State, step: Step, t: State)
    requires Deaf(s) && Next(s, step, t) && !External(step)
    ensures Deaf(t)
  {
    hide Process;
  }
}
