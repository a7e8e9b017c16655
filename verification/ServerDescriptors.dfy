/**
 File descriptors in the server: none is leaked or closed twice, the sets given to
 select name the right clients, and the trigger pipe makes up for what they lack.
 */
module ServerDescriptors {
  import opened Wire
  import opened Connection
  import opened Phases
  import opened Fencing
  import opened ServerProtocol
  import opened ServerOwnership
  import opened ServerConnections
  import opened ServerWorkers
  import opened Sums

  // ----- conservation

  function HasFd(fd: int): Conn -> int {
    (c: Conn) => if c.fd == fd then 1 else 0
  }

  /** Every accepted descriptor is either closed or in exactly one client object. */
  ghost predicate FdInv(n: Net) {
    && (forall fd :: n.accepted[fd] == n.closed[fd] + (if fd >= 0 then Sum(HasFd(fd), n.conns) else 0))
    && (forall i, j :: 0 <= i < j < |n.conns| && n.conns[i].fd >= 0 ==> n.conns[i].fd != n.conns[j].fd)
  }

  predicate SameFds(n: Net, m: Net) {
    |m.conns| == |n.conns| && forall id :: 0 <= id < |n.conns| ==> m.conns[id].fd == n.conns[id].fd
  }

  /** What one step does to descriptors: nothing, close the one in object x, or put a new one there. */
  ghost predicate FdStep(n: Net, m: Net, x: Id) {
    || (SameFds(n, m) && m.accepted == n.accepted && m.closed == n.closed)
    || (0 <= x < |n.conns| && m == CloseConn(n, x).(calls := m.calls))
    || (&& 0 <= x < |n.conns| == |m.conns| && n.conns[x].fd < 0 <= m.conns[x].fd
        && m.conns == n.conns[x := m.conns[x]] && m.closed == n.closed
        && m.accepted == n.accepted + multiset{m.conns[x].fd}
        && forall id :: 0 <= id < |n.conns| ==> n.conns[id].fd != m.conns[x].fd)
  }

  lemma FdInvStep(n: Net, m: Net, x: Id)
    requires FdInv(n) && FdStep(n, m, x)
    ensures FdInv(m)
  {
    hide Sum;
    forall fd
      ensures m.accepted[fd] == m.closed[fd] + (if fd >= 0 then Sum(HasFd(fd), m.conns) else 0)
    {
      if SameFds(n, m) {
        SumEqual(HasFd(fd), n.conns, m.conns);
      }
      if 0 <= x < |n.conns| {
        SumUpdate(HasFd(fd), n.conns, x, CLEARED);
        if |m.conns| == |n.conns| {
          SumUpdate(HasFd(fd), n.conns, x, m.conns[x]);
        }
      }
    }
  }

  lemma VisitKeepsFd(s: State, ss: SelStep)
    requires SelEnabled(s, ss) && Visiting(s)
    ensures VisitResult(s, ss).0.fd == Visited(s).fd
  {
  }

  function Touched(s: State): Id {
    if SelTouches(s) == [] then 0 else SelTouches(s)[0]
  }

  lemma FdVisit(s: State, ss: SelStep)
    requires SelEnabled(s, ss) && Visiting(s)
    ensures FdStep(s.net, SelNet(s, ss), s.th.sel.todo[0])
  {
    hide VisitResult;
    VisitKeepsFd(s, ss);
  }

  lemma FdAccept(s: State, ss: SelStep)
    requires SelEnabled(s, ss) && ss.AcceptConn? && s.q.free != []
    requires ConnOf(s, s.q.free[|s.q.free| - 1]).fd < 0
    ensures FdStep(s.net, SelNet(s, ss), s.q.free[|s.q.free| - 1])
  {
    var x := s.q.free[|s.q.free| - 1];
    var m := SelNet(s, ss);
    assert m.conns == s.net.conns[x := Accepted(ss.fd)] && m.conns[x].fd == ss.fd;
  }

  lemma FdSelStep(s: State, ss: SelStep)
    requires SelEnabled(s, ss)
    requires forall id :: QueueConnOk(s, id)
    ensures FdStep(s.net, SelNet(s, ss), Touched(s))
  {
    hide VisitResult, FdStep, Receiving, Replying, Queued;
    assert QueueConnOk(s, Touched(s));
    if Visiting(s) {
      FdVisit(s, ss);
    } else if ss.AcceptConn? && s.q.free != [] {
      FdAccept(s, ss);
    } else {
      FdClean(s, ss);
    }
  }

  lemma FdClean(s: State, ss: SelStep)
    requires SelEnabled(s, ss) && !Visiting(s) && (ss.AcceptConn? ==> s.q.free == [])
    ensures FdStep(s.net, SelNet(s, ss), Touched(s))
  {
  }

  lemma ProcessKeepsFd(c: Conn, ok: bool)
    requires c.ioOffset <= |c.ioBuffer|
    ensures Process(c, ok).conn.fd == c.fd
  {
  }

  lemma FdWorkStep(s: State, w: int, ws: WorkStep)
    requires WorkEnabled(s, w, ws)
    ensures var held := WorkHeld(s.th.workers[w]);
            FdStep(s.net, WorkNet(s, w, ws), if held == [] then 0 else held[0])
  {
    hide Process;
    if ws.Execute? {
      ProcessKeepsFd(ConnOf(s, s.th.workers[w].c), ws.ok);
    }
  }

  // ----- the sets given to select

  predicate InSelect(pc: SelPc) {
    pc.Select? || pc.Accept? || pc.AcceptWait? || pc.AcceptAdd? || pc.Drain? || pc.IoWait?
  }

  predicate InLoop(pc: SelPc) {
    pc.Io? || pc.MoveWait? || pc.Move?
  }

  ghost predicate Ready(s: State, id: Id) {
    Valid(s, id) ==>
      && (ConnOf(s, id).fd in s.wake.fds.read ==> Receiving(ConnOf(s, id)))
      && (ConnOf(s, id).fd in s.wake.fds.write ==> Replying(ConnOf(s, id)))
  }

  ghost predicate OnCom(s: State, fd: int) {
    exists id :: id in s.q.com && Valid(s, id) && ConnOf(s, id).fd == fd
  }

  /** Clients on com_queue are ready for what the sets say, and the sets name only them. */
  ghost predicate SetsOk(s: State) {
    && (forall id :: id in s.q.com ==> Ready(s, id))
    && (forall fd :: fd in s.wake.fds.read || fd in s.wake.fds.write ==> OnCom(s, fd))
  }

  ghost predicate FdSetInv(s: State) {
    && (InSelect(s.th.sel) ==> SetsOk(s))
    && (InLoop(s.th.sel) ==> forall id :: id in s.th.sel.todo ==> Ready(s, id))
  }

  lemma FdSetGivesVisitReady(s: State)
    requires FdSetInv(s)
    ensures VisitReady(s)
  {
    if Visiting(s) {
      assert Ready(s, s.th.sel.todo[0]);
    }
  }

  lemma ReadyFrame(s: State, t: State, id: Id)
    requires Ready(s, id) && |t.net.conns| == |s.net.conns|
    requires t.wake.fds.read <= s.wake.fds.read && t.wake.fds.write <= s.wake.fds.write
    requires Valid(s, id) ==> ConnOf(t, id) == ConnOf(s, id)
    ensures Ready(t, id)
  {
  }

  ghost predicate Shrinks(a: FdSets, b: FdSets) {
    b.read <= a.read && b.write <= a.write
  }

  /** SetsOk survives while clients keep their connection and newcomers join com_queue. */
  lemma SetsFrame(s: State, t: State, added: seq<Id>)
    requires SetsOk(s) && FdInv(t.net)
    requires Shrinks(s.wake.fds, t.wake.fds) && |t.net.conns| == |s.net.conns|
    requires t.q.com == s.q.com + added
    requires forall id :: id in s.q.com && Valid(s, id) ==> t.net.conns[id] == s.net.conns[id]
    requires forall id :: id in added ==> Valid(t, id) && t.net.conns[id].fd >= 0 && id !in s.q.com
    ensures SetsOk(t)
  {
    hide Receiving, Replying;
    forall fd | fd in t.wake.fds.read || fd in t.wake.fds.write
      ensures OnCom(t, fd)
    {
      assert OnCom(s, fd);
      var id :| id in s.q.com && Valid(s, id) && ConnOf(s, id).fd == fd;
      assert id in t.q.com && ConnOf(t, id).fd == fd;
    }
    forall id | id in t.q.com
      ensures Ready(t, id)
    {
      if id in s.q.com {
        assert Ready(s, id);
      } else if OnCom(s, ConnOf(t, id).fd) {
        assert false;
      }
    }
  }

  lemma BuiltReady(s: State, ss: SelStep, t: State)
    requires Next(s, Sel(ss), t) && ss.BuildSets? && (forall id :: QueueConnOk(s, id)) && FdInv(s.net) && OwnInv(s)
    ensures forall id :: id in t.q.com ==> Ready(t, id) && (Valid(t, id) ==> Covered(t, id))
    ensures forall fd :: fd in t.wake.fds.read || fd in t.wake.fds.write ==> OnCom(t, fd)
  {
    hide Next, Ready, Covered, OnCom, QueueConnOk, FdInv, OwnInv;
    forall id | id in t.q.com
      ensures Ready(t, id) && (Valid(t, id) ==> Covered(t, id))
    {
      BuiltClient(s, ss, t, id);
    }
    BuiltSets(s, ss, t);
  }

  lemma BuiltClient(s: State, ss: SelStep, t: State, id: Id)
    requires Next(s, Sel(ss), t) && ss.BuildSets? && QueueConnOk(s, id) && FdInv(s.net) && OwnInv(s) && id in t.q.com
    ensures Ready(t, id) && (Valid(t, id) ==> Covered(t, id))
  {
    hide SelThreads, SelNext, OwnInv;
    Exclusive(s, id);
  }

  lemma BuiltSets(s: State, ss: SelStep, t: State)
    requires Next(s, Sel(ss), t) && ss.BuildSets?
    ensures forall fd :: fd in t.wake.fds.read || fd in t.wake.fds.write ==> OnCom(t, fd)
  {
    hide SelThreads, SelNext;
  }

  ghost predicate Covered(s: State, id: Id)
    requires Valid(s, id)
  {
    ConnOf(s, id).fd in s.wake.fds.read || ConnOf(s, id).fd in s.wake.fds.write
  }

  lemma PhaseSets(s: State, ss: SelStep)
    requires SelEnabled(s, ss) && !s.th.sel.Build?
    ensures Shrinks(s.wake.fds, SelWake(s, ss).fds)
    ensures InLoop(s.th.sel) ==> SelWake(s, ss).fds == s.wake.fds
  {
    hide FdsOf;
  }

  /** Outside the I/O loop a selector step in these phases moves no client but a new one. */
  lemma SelectPhase(s: State, ss: SelStep)
    requires SelEnabled(s, ss) && InSelect(s.th.sel)
    ensures SelQueues(s, ss).com == s.q.com + (if s.th.sel.AcceptAdd? then [s.th.sel.c] else [])
    ensures SelTouches(s) != [] ==> SelTouches(s)[0] in s.q.free
    ensures InLoop(SelNext(s, ss)) ==> SelNext(s, ss) == Io(s.q.com) && !s.th.sel.AcceptAdd?
  {
    hide SelEnabled, VisitResult;
  }

  lemma LoopPhase(s: State, ss: SelStep)
    requires SelEnabled(s, ss) && InLoop(s.th.sel)
    ensures !InSelect(SelNext(s, ss))
    ensures InLoop(SelNext(s, ss)) ==>
      var todo, rest := s.th.sel.todo, SelNext(s, ss).todo;
      rest == if s.th.sel.Io? && Visiting(s) then todo[1..] else todo
    ensures InLoop(SelNext(s, ss)) && s.th.sel.Io? ==> Visiting(s)
  {
    hide VisitResult;
  }

  lemma TodoDistinct(s: State, id: Id)
    requires OwnInv(s) && TailInv(s.th, s.q) && Visiting(s) && id in s.th.sel.todo[1..]
    ensures id != s.th.sel.todo[0]
  {
    var com, todo := s.q.com, s.th.sel.todo;
    var pre := com[..|com| - |todo|];
    assert com == pre + [todo[0]] + todo[1..];
    OnceOnCom(s, todo[0]);
    SumAppend(Is(todo[0]), pre + [todo[0]], todo[1..]);
    SumAppend(Is(todo[0]), pre, [todo[0]]);
    SumOne(Is(todo[0]), todo[0]);
    CountBounds(pre, todo[0]);
    CountBounds(todo[1..], todo[0]);
  }

  lemma FdSetSelStep(s: State, ss: SelStep, t: State)
    requires Next(s, Sel(ss), t) && Core(s) && FdInv(s.net) && FdSetInv(s)
    requires OwnInv(t) && FdInv(t.net) && ConnInv(t)
    ensures FdSetInv(t)
  {
    hide SelEnabled, SelThreads, SelQueues, SelNet, SelWake, SelNext, OwnInv, FdInv, Ready, Replying, Receiving;
    SelPcNext(s, ss);
    SelNetFrame(s, ss);
    if ss.BuildSets? {
      BuildPhase(s, ss);
      BuiltReady(s, ss, t);
    } else if InSelect(s.th.sel) {
      PhaseSets(s, ss);
      SelectPhase(s, ss);
      SelectStep(s, ss, t);
    } else if InLoop(s.th.sel) {
      LoopStep(s, ss, t);
    } else {
      OtherPhase(s, ss);
    }
  }

  lemma BuildPhase(s: State, ss: SelStep)
    requires SelEnabled(s, ss) && ss.BuildSets?
    ensures SelNext(s, ss) == Select
  {
  }

  lemma OtherPhase(s: State, ss: SelStep)
    requires SelEnabled(s, ss) && !ss.BuildSets? && !InSelect(s.th.sel) && !InLoop(s.th.sel)
    ensures !InSelect(SelNext(s, ss)) && !InLoop(SelNext(s, ss))
  {
  }

  lemma SelectStep(s: State, ss: SelStep, t: State)
    requires Next(s, Sel(ss), t) && Core(s) && SetsOk(s) && InSelect(s.th.sel)
    requires OwnInv(t) && FdInv(t.net) && ConnInv(t)
    ensures SetsOk(t)
    ensures InLoop(t.th.sel) ==> t.th.sel.todo == t.q.com
  {
    hide SelEnabled, SelThreads, SelQueues, SelNet, SelWake, SelNext, OwnInv, FdInv, SetsOk, Replying, Receiving;
    SelPcNext(s, ss);
    SelNetFrame(s, ss);
    PhaseSets(s, ss);
    SelectPhase(s, ss);
    if SelTouches(s) != [] {
      Exclusive(s, SelTouches(s)[0]);
    }
    var added := if s.th.sel.AcceptAdd? then [s.th.sel.c] else [];
    if added != [] {
      Exclusive(s, added[0]);
      Exclusive(t, added[0]);
      assert QueueConnOk(t, added[0]);
    }
    SetsFrame(s, t, added);
  }

  lemma LoopStep(s: State, ss: SelStep, t: State)
    requires Next(s, Sel(ss), t) && Core(s) && InLoop(s.th.sel)
    requires forall id :: id in s.th.sel.todo ==> Ready(s, id)
    ensures FdSetInv(t)
  {
    hide SelEnabled, SelThreads, SelQueues, SelNet, SelWake, SelNext, OwnInv, Ready, SetsOk;
    SelPcNext(s, ss);
    SelNetFrame(s, ss);
    PhaseSets(s, ss);
    LoopPhase(s, ss);
    if InLoop(t.th.sel) {
      forall id | id in t.th.sel.todo
        ensures Ready(t, id)
      {
        if Visiting(s) {
          TodoDistinct(s, id);
        }
        ReadyFrame(s, t, id);
      }
    }
  }

  lemma WorkComFrame(s: State, w: int, ws: WorkStep)
    requires WorkEnabled(s, w, ws)
    ensures WorkQueues(s, w, ws).com
         == s.q.com + (if s.th.workers[w].RequeueAdd? then [s.th.workers[w].c] else [])
    ensures WorkWake(s, ws).fds == s.wake.fds
  {
    hide Process;
  }

  lemma FdSetWorkStep(s: State, w: int, ws: WorkStep, t: State)
    requires Next(s, Work(w, ws), t) && Core(s) && FdSetInv(s)
    requires OwnInv(t) && FdInv(t.net) && ConnInv(t)
    ensures FdSetInv(t)
  {
    hide WorkEnabled, WorkThreads, WorkQueues, WorkNet, WorkNext, OwnInv, FdInv, Ready, SetsOk, Replying;
    hide Receiving, Queued;
    WorkSelFrame(s, w, ws);
    WorkNetFrame(s, w, ws);
    WorkComFrame(s, w, ws);
    var held := WorkHeld(s.th.workers[w]);
    if held != [] {
      HeldExclusive(s, w, held[0]);
    }
    var added := if s.th.workers[w].RequeueAdd? then [s.th.workers[w].c] else [];
    if added != [] {
      Exclusive(t, added[0]);
      assert QueueConnOk(t, added[0]);
    }
    if InSelect(s.th.sel) {
      SetsFrame(s, t, added);
    } else if InLoop(s.th.sel) {
      forall id | id in s.th.sel.todo
        ensures Ready(t, id)
      {
        var com, todo := s.q.com, s.th.sel.todo;
        assert id in com[|com| - |todo|..];
        ReadyFrame(s, t, id);
      }
    }
  }

  // ----- no lost wakeup

  /** Past the test of the stop signal and before the trigger pipe is emptied. */
  predicate BeforeDrain(pc: SelPc) {
    pc.BuildWait? || pc.Build? || pc.Select?
  }

  predicate Stopping(pc: SelPc) {
    pc.ActWait? || pc.ActDrain? || ActionsDrained(pc)
  }

  /** A worker has added a client and is about to write to the pipe. */
  predicate WakePending(t: Threads) {
    t.comOwner.Worker? && 0 <= t.comOwner.w < |t.workers| && t.workers[t.comOwner.w].RequeueWake?
  }

  ghost predicate WakeupInv(s: State) {
    && 0 <= s.wake.pipe <= PIPE_CAPACITY
    && (s.wake.pipeOpen <==> !ComDrained(s.th.sel))
    && (s.wake.wakeupFd || s.th.sel.Enable? || Stopping(s.th.sel))
    && (s.th.sel.ComDrain? || ComDrained(s.th.sel) ==> !s.wake.wakeupFd)
    && (BeforeDrain(s.th.sel) && s.wake.flag ==> s.wake.pipe > 0)
    && (s.th.sel.Select? ==>
         forall id :: id in s.q.com && Valid(s, id) ==> Covered(s, id) || s.wake.pipe > 0 || WakePending(s.th))
  }

  /** The listening socket is watched only while the pool has an object for a new client. */
  ghost predicate ListenInv(s: State) {
    && (s.th.sel.Select? && s.wake.fds.listen ==> s.q.free != [])
    && (s.th.sel.Accept? ==> s.q.free != [])
  }

  lemma SelectBuilt(s: State, ss: SelStep, t: State)
    requires Next(s, Sel(ss), t) && !ss.BuildSets?
    ensures !t.th.sel.Select?
  {
    hide VisitResult, SelQueues, SelNet, SelWake, FdsOf, NotifyAll, AnyWaiting;
  }

  lemma WakeupSelStep(s: State, ss: SelStep, t: State)
    requires Next(s, Sel(ss), t) && Core(s) && FdInv(s.net) && WakeupInv(s)
    ensures WakeupInv(t)
  {
    hide SelEnabled, SelThreads, SelQueues, SelNet, SelWake, Core, FdInv, Covered, VisitResult;
    if ss.BuildSets? {
      WakeupBuilt(s, ss, t);
    } else {
      WakeupOther(s, ss, t);
    }
  }

  lemma WakeupBuilt(s: State, ss: SelStep, t: State)
    requires Next(s, Sel(ss), t) && ss.BuildSets? && Core(s) && FdInv(s.net) && WakeupInv(s)
    ensures WakeupInv(t)
  {
    hide OwnInv, FdInv, Covered, FdsOf, TailInv, VisitReady, QueueConnOk, WorkerConnOk;
    BuiltReady(s, ss, t);
  }

  lemma WakeupOther(s: State, ss: SelStep, t: State)
    requires Next(s, Sel(ss), t) && !ss.BuildSets? && WakeupInv(s)
    ensures WakeupInv(t)
  {
    hide SelThreads, SelQueues, SelNet, FdsOf, VisitResult, Covered;
    SelPcNext(s, ss);
    SelectBuilt(s, ss, t);
  }

  lemma WakeupWorkStep(s: State, w: int, ws: WorkStep, t: State)
    requires Next(s, Work(w, ws), t) && Core(s) && LockInv(s.th) && WakeupInv(s)
    ensures WakeupInv(t)
  {
    hide Process, WorkQueues, WorkNet, OwnInv, Receiving, Replying, Queued, TailInv, VisitReady;
    WorkNetFrame(s, w, ws);
    WorkComFrame(s, w, ws);
    var held := WorkHeld(s.th.workers[w]);
    if held != [] {
      HeldExclusive(s, w, held[0]);
    }
  }

  lemma WakeupSignal(s: State)
    requires WakeupInv(s)
    ensures WakeupInv(Apply(s, Signal))
  {
  }

  lemma ListenSelStep(s: State, ss: SelStep, t: State)
    requires Next(s, Sel(ss), t) && ListenInv(s)
    ensures ListenInv(t)
  {
    hide VisitResult, SelNet, FdsOf;
  }

  lemma ListenWorkStep(s: State, w: int, ws: WorkStep, t: State)
    requires Next(s, Work(w, ws), t) && ListenInv(s)
    ensures ListenInv(t)
  {
    hide Process, WorkNet;
  }
}
