/**
 How shutdown comes to an end: from the stop signal to the destructor of the worker pool,
 and exactly when that destructor can finish joining the threads.
 */
module ServerJoin {
  import opened Connection
  import opened Phases
  import opened Fencing
  import opened ServerProtocol
  import opened ServerOwnership
  import opened ServerWorkers
  import opened ServerConnections
  import opened ServerInvariant
  import opened ServerTheorems
  import opened ServerShutdown
  import opened ServerDefects
  import opened Sums

  // ----- joining

  ghost predicate NoneMissed(s: State) {
    forall w :: 0 <= w < |s.th.workers| ==> !MissedStop(s.th.workers[w])
  }

  lemma NoneMissedStep(s: State, w: int, ws: WorkStep, t: State)
    requires Next(s, Work(w, ws), t) && NoneMissed(s) && s.th.stopWorkers
    ensures NoneMissed(t)
  {
    hide Process, WorkQueues, WorkNet;
  }

  /** A run that joins all workers. */
  lemma {:induction false} Joins(s: State) returns (steps: seq<Step>)
    requires Inv(s) && s.th.sel == Join && NoneMissed(s)
    ensures Run(s, steps) && Final(s, steps).th.sel == Done
    ensures NoSpuriousWake(steps)
    decreases Sum(LEFT, s.th.workers)
  {
    hide Inv, Enabled, Apply, Sum, ShutdownInv, NoneMissed;
    InvShutdown(s);
    NoneMissedAt(s);
    var step := JoinProgress(s);
    var t := Apply(s, step);
    InvStep(s, step, t);
    SumBounds(LEFT, s.th.workers, 9);
    if step.Work? {
      StopSet(s);
      NoneMissedStep(s, step.w, step.ws, t);
      JoinStep(s, step.w, step.ws, t);
      var rest := Joins(t);
      steps := [step] + rest;
      assert steps[1..] == rest;
    } else {
      JoinDone(s, step, t);
      steps := [step];
      assert steps[1..] == [];
    }
  }

  lemma NoneMissedAt(s: State)
    requires NoneMissed(s)
    ensures forall w :: 0 <= w < |s.th.workers| ==> !MissedStop(s.th.workers[w])
  {
  }

  lemma StopSet(s: State)
    requires ShutdownInv(s) && s.th.sel == Join
    ensures s.th.stopWorkers
  {
  }

  lemma JoinDone(s: State, step: Step, t: State)
    requires Next(s, step, t) && s.th.sel == Join && step.Sel?
    ensures t.th.sel == Done
  {
  }

  predicate NoSpuriousWake(steps: seq<Step>) {
    forall i :: 0 <= i < |steps| && steps[i].Work? ==> !steps[i].ws.SpuriousWake?
  }

  /** The worker waits although nobody is going to notify it, or is about to. */
  predicate Asleep(s: State, w: int) {
    0 <= w < |s.th.workers| && (s.th.workers[w].UnownedWait? || s.th.workers[w].Waiting?)
  }

  lemma AsleepStep(s: State, step: Step, w: int)
    requires WrittenEnabled(s, step) && Asleep(s, w) && s.th.sel == Join
    requires step.Work? ==> !step.ws.SpuriousWake?
    ensures var u := WrittenApply(s, step); Asleep(u, w) && u.th.sel == Join
  {
    hide Process, WorkQueues, WorkNet, SelQueues, SelNet, SelWake, VisitResult;
  }

  lemma {:induction false} AsleepRun(s: State, steps: seq<Step>, w: int)
    requires WrittenRun(s, steps) && Asleep(s, w) && s.th.sel == Join
    requires NoSpuriousWake(steps)
    ensures WrittenFinal(s, steps).th.sel == Join
    decreases |steps|
  {
    hide WrittenEnabled, WrittenApply, Asleep;
    if steps != [] {
      AsleepStep(s, steps[0], w);
      AsleepRun(WrittenApply(s, steps[0]), steps[1..], w);
    }
  }

  lemma {:induction false} RunIsWritten(s: State, steps: seq<Step>)
    requires Inv(s) && Run(s, steps) && ComDrained(s.th.sel)
    ensures WrittenRun(s, steps) && WrittenFinal(s, steps) == Final(s, steps)
    decreases |steps|
  {
    hide Inv, Enabled, Apply, WrittenEnabled, WrittenApply, ShutdownInv;
    if steps != [] {
      var t := Apply(s, steps[0]);
      InvStep(s, steps[0], t);
      DrainedStep(s, steps[0], t);
      InvShutdown(t);
      SameAsWritten(s, steps[0], t);
      RunIsWritten(t, steps[1..]);
    }
  }

  lemma SameAsWritten(s: State, step: Step, t: State)
    requires Next(s, step, t) && Inv(s) && ShutdownInv(t) && ComDrained(t.th.sel)
    ensures WrittenEnabled(s, step) && WrittenApply(s, step) == t
  {
    hide Inv, Apply, ShutdownInv, WrittenApply;
    DrainedCom(t);
    EnabledAsWritten(s, step);
    WrittenStepExact(s, step);
  }

  lemma EnabledAsWritten(s: State, step: Step)
    requires Enabled(s, step)
    ensures WrittenEnabled(s, step)
  {
    hide SelEnabled;
  }

  lemma DrainedCom(s: State)
    requires ShutdownInv(s) && ComDrained(s.th.sel)
    ensures s.q.com == []
  {
  }

  /**
   The server as written, and without a spurious wakeup: the destructor of the worker pool can
   finish joining if and only if no worker passed the test of stop_workers without the lock
   before the flag was set. Such a worker waits for a notification that has already been sent.
   */
  lemma JoinExact(s: State)
    requires Reached(s) && s.th.sel == Join
    ensures (exists steps ::
               WrittenRun(s, steps) && WrittenFinal(s, steps).th.sel == Done && NoSpuriousWake(steps))
       <==> NoneMissed(s)
  {
    hide Inv, Reached, WrittenEnabled, WrittenApply, Enabled, Apply;
    ReachedInv(s);
    if NoneMissed(s) {
      var steps := Joins(s);
      RunIsWritten(s, steps);
    } else {
      var w :| 0 <= w < |s.th.workers| && MissedStop(s.th.workers[w]);
      forall steps | WrittenRun(s, steps) && NoSpuriousWake(steps)
        ensures WrittenFinal(s, steps).th.sel == Join
      {
        AsleepRun(s, steps, w);
      }
    }
  }
}
