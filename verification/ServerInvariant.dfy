/**
 The inductive invariant of the server, over every interleaving of the selector, the
 workers and signals.
 */
module ServerInvariant {
  import opened Connection
  import opened Phases
  import opened Fencing
  import opened ServerProtocol
  import opened ServerOwnership
  import opened ServerWorkers
  import opened ServerConnections
  import opened ServerDescriptors
  import opened Sums

  ghost predicate ThreadInv(s: State) {
    && |s.th.workers| == |s.net.conns|
    && LockInv(s.th)
    && TailInv(s.th, s.q)
    && Load(s.th, s.q) == |s.th.workers|
    && IdleInv(s.th, s.q)
    && AstrayInv(s.th, s.q)
    && SufficiencyInv(s.th, s.q)
    && ShutdownInv(s)
  }

  ghost predicate ClientInv(s: State) {
    && OwnInv(s)
    && ConnInv(s)
    && FdInv(s.net)
    && FdSetInv(s)
    && WakeupInv(s)
    && ListenInv(s)
  }

  ghost predicate Inv(s: State) {
    ThreadInv(s) && ClientInv(s)
  }

  lemma OwnInit(s: State)
    requires Init(s)
    ensures OwnInv(s)
  {
    hide Sum;
    forall id
      ensures Places(s.th, s.q, id) == if Valid(s, id) then 1 else 0
    {
      FirstNumbers(|s.net.conns|, id);
      CountFacts([], 0, id);
      SumBounds(Holds(id), s.th.workers, 0);
    }
  }

  lemma FdInit(s: State)
    requires Init(s)
    ensures FdInv(s.net)
  {
    hide Sum;
    forall fd | fd >= 0
      ensures Sum(HasFd(fd), s.net.conns) == 0
    {
      SumBounds(HasFd(fd), s.net.conns, 0);
    }
  }

  lemma InvInit(s: State)
    requires Init(s)
    ensures Inv(s)
  {
    hide Sum, OwnInv, FdInv;
    OwnInit(s);
    FdInit(s);
    ThreadInit(s);
    assert forall id :: Valid(s, id) ==> s.q.free[id] == id;
  }

  lemma ThreadInit(s: State)
    requires Init(s)
    ensures ThreadInv(s)
  {
    hide Sum;
    SumBounds(BUSY, s.th.workers, 0);
    SumBounds(TAKEN, s.th.workers, 0);
    SumBounds(ASTRAY, s.th.workers, 0);
  }

  lemma {:induction false} FirstNumbers(n: nat, id: Id)
    ensures Count(seq(n, i => i), id) == if 0 <= id < n then 1 else 0
  {
    if n > 0 {
      FirstNumbers(n - 1, id);
      assert seq(n, i => i) == seq(n - 1, i => i) + [n - 1];
      SumPush(Is(id), seq(n - 1, i => i), n - 1);
    }
  }

  lemma ThreadSelStep(s: State, ss: SelStep, t: State)
    requires Next(s, Sel(ss), t) && Inv(s)
    ensures ThreadInv(t)
  {
    hide SelEnabled, SelThreads, SelQueues, SelNet, SelWake, SelNext, OwnInv, ConnInv, FdInv, FdSetInv;
    hide WakeupInv, ListenInv;
    hide LockInv, TailInv, IdleInv, AstrayInv, SufficiencyInv, ShutdownInv, Load;
    SelKeepsWorkers(s, ss);
    SelNetFrame(s, ss);
    LockSelStep(s, ss);
    TailSelStep(s, ss);
    LoadSelStep(s, ss);
    IdleSelStep(s, ss);
    AstraySelStep(s, ss);
    SufficiencySelStep(s, ss);
    ShutdownSelStep(s, ss);
  }

  lemma ClientSelStep(s: State, ss: SelStep, t: State)
    requires Next(s, Sel(ss), t) && Inv(s)
    ensures ClientInv(t)
  {
    hide SelEnabled, SelThreads, SelQueues, SelNet, SelWake, SelNext, OwnInv, ConnInv, FdInv, FdSetInv;
    hide WakeupInv, ListenInv;
    hide LockInv, TailInv, IdleInv, AstrayInv, SufficiencyInv, ShutdownInv, Load;
    FdSetGivesVisitReady(s);
    OwnSel(s, ss, t);
    ConnSel(s, ss, t);
    FdSel(s, ss, t);
    FdSetSelStep(s, ss, t);
    WakeupSelStep(s, ss, t);
    ListenSelStep(s, ss, t);
  }

  lemma OwnSel(s: State, ss: SelStep, t: State)
    requires Next(s, Sel(ss), t) && OwnInv(s) && TailInv(s.th, s.q)
    ensures OwnInv(t)
  {
    hide SelEnabled, SelThreads, SelQueues, SelNet, SelWake, SelNext, Places, TailInv;
    SelNetFrame(s, ss);
    forall id
      ensures Places(t.th, t.q, id) == if Valid(t, id) then 1 else 0
    {
      OwnSelStep(s, ss, id);
    }
  }

  lemma ConnSel(s: State, ss: SelStep, t: State)
    requires Next(s, Sel(ss), t) && Core(s) && OwnInv(t) && |s.th.workers| == |s.net.conns|
    ensures ConnInv(t)
  {
    hide SelEnabled, SelThreads, SelQueues, SelNet, SelWake, SelNext, Core, OwnInv, QueueConnOk, WorkerConnOk;
    SelKeepsWorkers(s, ss);
    forall id ensures QueueConnOk(t, id) { ConnSelStep(s, ss, t, id); }
    forall w | 0 <= w < |t.th.workers| ensures WorkerConnOk(t, w) { WorkersSelStep(s, ss, t, w); }
  }

  lemma FdSel(s: State, ss: SelStep, t: State)
    requires Next(s, Sel(ss), t) && ConnInv(s) && FdInv(s.net)
    ensures FdInv(t.net)
  {
    hide SelEnabled, SelThreads, SelQueues, SelNet, SelWake, SelNext, QueueConnOk, WorkerConnOk, FdInv, FdStep;
    FdSelStep(s, ss);
    FdInvStep(s.net, t.net, Touched(s));
  }

  lemma ThreadWorkStep(s: State, w: int, ws: WorkStep, t: State)
    requires Next(s, Work(w, ws), t) && Inv(s)
    ensures ThreadInv(t)
  {
    hide WorkEnabled, WorkThreads, WorkQueues, WorkNet, WorkNext, OwnInv, ConnInv, FdInv, FdSetInv, WakeupInv;
    hide ListenInv;
    hide LockInv, TailInv, IdleInv, AstrayInv, SufficiencyInv, ShutdownInv, Load;
    WorkSelFrame(s, w, ws);
    WorkNetFrame(s, w, ws);
    LockWorkStep(s, w, ws);
    TailWorkStep(s, w, ws);
    LoadWorkStep(s, w, ws);
    IdleWorkStep(s, w, ws);
    AstrayWorkStep(s, w, ws);
    SufficiencyWorkStep(s, w, ws);
    ShutdownWorkStep(s, w, ws);
  }

  lemma ClientWorkStep(s: State, w: int, ws: WorkStep, t: State)
    requires Next(s, Work(w, ws), t) && Inv(s)
    ensures ClientInv(t)
  {
    hide WorkEnabled, WorkThreads, WorkQueues, WorkNet, WorkNext, OwnInv, ConnInv, FdInv, FdSetInv, WakeupInv;
    hide ListenInv;
    hide LockInv, TailInv, IdleInv, AstrayInv, SufficiencyInv, ShutdownInv, Load;
    FdSetGivesVisitReady(s);
    OwnWork(s, w, ws, t);
    ConnWork(s, w, ws, t);
    FdWork(s, w, ws, t);
    FdSetWorkStep(s, w, ws, t);
    WakeupWorkStep(s, w, ws, t);
    ListenWorkStep(s, w, ws, t);
  }

  lemma OwnWork(s: State, w: int, ws: WorkStep, t: State)
    requires Next(s, Work(w, ws), t) && OwnInv(s)
    ensures OwnInv(t)
  {
    hide WorkEnabled, WorkThreads, WorkQueues, WorkNet, WorkNext, Places;
    WorkNetFrame(s, w, ws);
    forall id
      ensures Places(t.th, t.q, id) == if Valid(t, id) then 1 else 0
    {
      OwnWorkStep(s, w, ws, id);
    }
  }

  lemma ConnWork(s: State, w: int, ws: WorkStep, t: State)
    requires Next(s, Work(w, ws), t) && Core(s) && OwnInv(t)
    ensures ConnInv(t)
  {
    hide WorkEnabled, WorkThreads, WorkQueues, WorkNet, WorkNext, Core, OwnInv, QueueConnOk, WorkerConnOk;
    WorkSelFrame(s, w, ws);
    forall id ensures QueueConnOk(t, id) { ConnWorkStep(s, w, ws, t, id); }
    forall v | 0 <= v < |t.th.workers| ensures WorkerConnOk(t, v) { WorkersWorkStep(s, w, ws, t, v); }
  }

  lemma FdWork(s: State, w: int, ws: WorkStep, t: State)
    requires Next(s, Work(w, ws), t) && FdInv(s.net)
    ensures FdInv(t.net)
  {
    hide WorkEnabled, WorkThreads, WorkQueues, WorkNet, WorkNext, FdInv, FdStep;
    WorkSelFrame(s, w, ws);
    FdWorkStep(s, w, ws);
    var held := WorkHeld(s.th.workers[w]);
    FdInvStep(s.net, t.net, if held == [] then 0 else held[0]);
  }

  lemma InvSignal(s: State, t: State)
    requires Next(s, Signal, t) && Inv(s)
    ensures Inv(t)
  {
    hide OwnInv, ConnInv, FdInv, WakeupInv, Load, LockInv, FdSetInv;
    WakeupSignal(s);
    ClientSignal(s, t);
  }

  lemma ClientSignal(s: State, t: State)
    requires Next(s, Signal, t) && OwnInv(s) && ConnInv(s) && FdSetInv(s)
    ensures OwnInv(t) && ConnInv(t) && FdSetInv(t)
  {
    hide Sum, Receiving, Replying, Queued, FreshReply;
    assert forall id :: Places(t.th, t.q, id) == Places(s.th, s.q, id);
    assert forall id :: QueueConnOk(s, id) ==> QueueConnOk(t, id);
    assert forall w | 0 <= w < |s.th.workers| :: WorkerConnOk(s, w) ==> WorkerConnOk(t, w);
    assert forall id :: Ready(s, id) ==> Ready(t, id);
    assert forall fd :: OnCom(s, fd) ==> OnCom(t, fd);
  }

  /** Every step of every thread, and every signal, keeps the invariant. */
  lemma InvStep(s: State, step: Step, t: State)
    requires Next(s, step, t) && Inv(s)
    ensures Inv(t)
  {
    hide ThreadInv, ClientInv, Next;
    match step
    case Sel(ss) =>
      ThreadSelStep(s, ss, t);
      ClientSelStep(s, ss, t);
    case Work(w, ws) =>
      ThreadWorkStep(s, w, ws, t);
      ClientWorkStep(s, w, ws, t);
    case Signal =>
      InvSignal(s, t);
  }

  /** The invariant holds at the end of every run. */
  lemma {:induction false} InvRun(s: State, steps: seq<Step>)
    requires Inv(s) && Run(s, steps)
    ensures Inv(Final(s, steps))
    decreases |steps|
  {
    hide Inv;
    if steps != [] {
      var t := Apply(s, steps[0]);
      InvStep(s, steps[0], t);
      InvRun(t, steps[1..]);
    }
  }

  lemma Reachable(s: State, steps: seq<Step>)
    requires Init(s) && Run(s, steps)
    ensures Inv(Final(s, steps))
  {
    InvInit(s);
    InvRun(s, steps);
  }
}
