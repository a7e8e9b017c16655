/**
 Pieces of runs of the server, for showing that a state can be reached: what the selector and
 a worker do in the ordinary case, from any state.
 */
module ServerRuns {
  import opened Wire
  import opened Connection
  import opened Phases
  import opened Fencing
  import opened ServerProtocol
  import opened ServerTheorems

  const NO_FDS := FdSets({}, {}, false, false)
  const LISTEN := FdSets({}, {}, true, false)

  /** `t` can be reached from `s`. */
  ghost predicate Leads(s: State, t: State) {
    exists steps :: Run(s, steps) && Final(s, steps) == t
  }

  lemma {:induction false} RunAppend(s: State, a: seq<Step>, b: seq<Step>)
    requires Run(s, a) && Run(Final(s, a), b)
    ensures Run(s, a + b) && Final(s, a + b) == Final(Final(s, a), b)
    decreases |a|
  {
    hide Enabled, Apply;
    if a == [] {
      assert a + b == b;
    } else {
      RunAppend(Apply(s, a[0]), a[1..], b);
      assert (a + b)[0] == a[0] && (a + b)[1..] == a[1..] + b;
    }
  }

  lemma TwoSteps(u: State, a: Step, u1: State, b: Step, v: State)
    requires Next(u, a, u1) && Next(u1, b, v)
    ensures Run(u, [a, b]) && Final(u, [a, b]) == v
  {
    hide Enabled, Apply;
    assert [a, b][1..] == [b] && [b][1..] == [];
    assert Run(u1, [b]) && Final(u1, [b]) == v;
  }

  lemma Here(s: State)
    ensures Leads(s, s)
  {
    assert Run(s, []) && Final(s, []) == s;
  }

  /** One more step. */
  lemma Go(start: State, s: State, step: Step, t: State)
    requires Leads(start, s) && Next(s, step, t)
    ensures Leads(start, t)
  {
    hide Enabled, Apply;
    var steps :| Run(start, steps) && Final(start, steps) == s;
    assert [step][1..] == [];
    RunAppend(start, steps, [step]);
  }

  /** What leads from a start-up state is reached. */
  lemma LeadsReached(start: State, t: State)
    requires Init(start) && Leads(start, t)
    ensures Reached(t)
  {
    hide Init;
    var steps :| Run(start, steps) && Final(start, steps) == t;
  }

  /** A server with `n` client objects, all free, and as many workers at the start of their loop. */
  function PoolOf(n: nat): State {
    State(Threads(Enable, seq(n, _ => LoopWait), Nobody, Nobody, false), Queues(seq(n, i => i), [], [], []),
          Net(seq(n, _ => CLEARED), multiset{}, multiset{}, []), Wake(false, false, 0, true, NO_FDS))
  }

  /** The same with the selector in its loop. */
  function Up(n: nat): State {
    var s := PoolOf(n);
    s.(th := s.th.(sel := Check), wake := s.wake.(wakeupFd := true))
  }

  lemma PoolSize(n: nat)
    ensures |Up(n).th.workers| == |Up(n).net.conns| == n && Up(n).q.lost == []
    ensures n >= 1 ==> Up(n).q.free != [] && Top(Up(n)) == n - 1
    ensures n >= 2 ==> Up(n).q.free[n - 2] == n - 2 && |Up(n).q.free| == n
  {
  }

  lemma ComesUp(n: nat)
    ensures Init(PoolOf(n)) && Leads(PoolOf(n), Up(n))
    ensures Quiet(Up(n)) && !AnyWaiting(Up(n).th.workers)
  {
    hide Leads;
    Here(PoolOf(n));
    Go(PoolOf(n), PoolOf(n), Sel(EnableWakeup), Up(n));
  }

  // ----- the selector

  /** At the test of the stop signal, with nothing unusual. */
  predicate Quiet(s: State) {
    && s.th.sel == Check && s.th.comOwner == Nobody && !s.wake.flag && s.wake.pipe == 0
    && forall id :: id in s.q.com ==> Valid(s, id)
  }

  function AtSel(s: State, pc: SelPc, owner: Owner): State {
    s.(th := s.th.(sel := pc, comOwner := owner))
  }

  function WithFds(s: State, fds: FdSets): State {
    s.(wake := s.wake.(fds := fds))
  }

  lemma SetsAgree(s: State, t: State, op: IoOp)
    requires s.q == t.q && s.net == t.net && forall id :: id in s.q.com ==> Valid(s, id)
    ensures FdsOf(s, op) == FdsOf(t, op)
  {
    assert forall id :: id in s.q.com ==> ConnOf(s, id) == ConnOf(t, id);
  }

  /** What the selector waits for. */
  function Watched(s: State): FdSets
    requires forall id :: id in s.q.com ==> Valid(s, id)
  {
    FdSets(FdsOf(s, READ), FdsOf(s, WRITE), |s.q.free| >= 1, true)
  }

  lemma Builds(start: State, s: State)
    requires Leads(start, s) && Quiet(s)
    ensures Leads(start, WithFds(AtSel(s, Select, Nobody), Watched(s)))
  {
    hide Leads, FdsOf;
    var s1, s2 := AtSel(s, BuildWait, Nobody), AtSel(s, Build, Selector);
    Go(start, s, Sel(CheckSignal), s1);
    Go(start, s1, Sel(AcquireCom), s2);
    SetsAgree(s, s2, READ);
    SetsAgree(s, s2, WRITE);
    Go(start, s2, Sel(BuildSets), WithFds(AtSel(s, Select, Nobody), Watched(s)));
  }

  /** Some sockets are ready, the listening one is not: the selector comes to its I/O loop. */
  lemma Polls(start: State, s: State, ready: FdSets)
    requires Leads(start, s) && Quiet(s) && !ready.listen && !ready.trigger
    requires ready.read <= FdsOf(s, READ) && ready.write <= FdsOf(s, WRITE) && (ready.read != {} || ready.write != {})
    ensures Leads(start, WithFds(AtSel(s, Io(s.q.com), Selector), ready))
  {
    hide Leads, FdsOf;
    Builds(start, s);
    var s1 := WithFds(AtSel(s, Select, Nobody), Watched(s));
    var s2 := WithFds(AtSel(s, Drain, Nobody), ready);
    Go(start, s1, Sel(SelectReturn(ready)), s2);
    Drains(start, s2);
  }

  lemma Drains(start: State, s: State)
    requires Leads(start, s) && s.th.sel == Drain && s.th.comOwner == Nobody && !s.wake.fds.trigger
    ensures Leads(start, AtSel(s, Io(s.q.com), Selector))
  {
    hide Leads;
    var s1 := AtSel(s, IoWait, Nobody);
    Go(start, s, Sel(DrainEnd), s1);
    Go(start, s1, Sel(AcquireCom), AtSel(s, Io(s.q.com), Selector));
  }

  /** The state after a new client got the object on top of the free list. */
  function WithClient(s: State, fd: int): State
    requires s.q.free != [] && Valid(s, s.q.free[|s.q.free| - 1])
  {
    var n := |s.q.free| - 1;
    var c := s.q.free[n];
    s.(th := s.th.(sel := Drain, comOwner := Nobody),
       q := s.q.(free := s.q.free[..n], com := s.q.com + [c]),
       net := s.net.(conns := s.net.conns[c := Accepted(fd)], accepted := s.net.accepted + multiset{fd}),
       wake := s.wake.(fds := LISTEN))
  }

  lemma Accepts(start: State, s: State, fd: int)
    requires Leads(start, s) && Quiet(s) && s.q.free != [] && Valid(s, s.q.free[|s.q.free| - 1])
    requires fd >= 0 && forall id :: 0 <= id < |s.net.conns| ==> s.net.conns[id].fd != fd
    ensures Leads(start, WithClient(s, fd))
  {
    hide Leads, FdsOf, Accepted;
    Builds(start, s);
    var s1 := WithFds(AtSel(s, Select, Nobody), Watched(s));
    var s2 := WithFds(AtSel(s, ServerProtocol.Accept, Nobody), LISTEN);
    Go(start, s1, Sel(SelectReturn(LISTEN)), s2);
    AcceptsOne(start, s2, fd);
  }

  lemma AcceptsOne(start: State, s: State, fd: int)
    requires Leads(start, s) && s.th.sel == ServerProtocol.Accept && s.th.comOwner == Nobody && s.wake.fds == LISTEN
    requires s.q.free != [] && Valid(s, s.q.free[|s.q.free| - 1])
    requires fd >= 0 && forall id :: 0 <= id < |s.net.conns| ==> s.net.conns[id].fd != fd
    ensures Leads(start, WithClient(s, fd))
  {
    hide Leads, Accepted;
    var n := |s.q.free| - 1;
    var c, t := s.q.free[n], WithClient(s, fd);
    var s1 := t.(th := t.th.(sel := AcceptWait(c)), q := t.q.(com := s.q.com));
    Go(start, s, Sel(AcceptConn(fd)), s1);
    AddsOne(start, s1, c);
  }

  lemma AddsOne(start: State, s: State, c: Id)
    requires Leads(start, s) && s.th.sel == AcceptWait(c) && s.th.comOwner == Nobody
    ensures Leads(start, AtSel(s, Drain, Nobody).(q := s.q.(com := s.q.com + [c])))
  {
    hide Leads;
    var s1 := AtSel(s, AcceptAdd(c), Selector);
    Go(start, s, Sel(AcquireCom), s1);
    Go(start, s1, Sel(AddAccepted), AtSel(s, Drain, Nobody).(q := s.q.(com := s.q.com + [c])));
  }

  lemma Skips(start: State, s: State)
    requires Leads(start, s) && Visiting(s) && Visited(s).phase != CANCELED
    requires Visited(s).fd !in s.wake.fds.read && Visited(s).fd !in s.wake.fds.write
    ensures Leads(start, s.(th := s.th.(sel := Io(s.th.sel.todo[1..]))))
  {
    hide Leads;
    var id := s.th.sel.todo[0];
    assert s.net.conns[id := Visited(s)] == s.net.conns;
    Go(start, s, Sel(VisitSkip), s.(th := s.th.(sel := Io(s.th.sel.todo[1..]))));
  }

  /** The client under visit receives. */
  lemma Gets(start: State, s: State, data: seq<byte>, c: Conn, fate: Fate)
    requires Leads(start, s) && Visiting(s) && Visited(s).phase != CANCELED && Visited(s).fd in s.wake.fds.read
    requires 1 <= |data| <= RecvReq(Visited(s)) && RecvStep(Visited(s), data) != Overrun
    requires VisitRead(Visited(s), data) == (c, fate) && fate != Close
    ensures var id, todo := s.th.sel.todo[0], s.th.sel.todo;
            Leads(start, s.(th := s.th.(sel := VisitPc(todo, fate)), q := VisitQueues(s.q, id, fate),
                            net := s.net.(conns := s.net.conns[id := c])))
  {
    hide Leads, RecvStep, RecvReq, VisitRead;
    var id, todo := s.th.sel.todo[0], s.th.sel.todo;
    var t := s.(th := s.th.(sel := VisitPc(todo, fate)), q := VisitQueues(s.q, id, fate),
                net := s.net.(conns := s.net.conns[id := c]));
    Go(start, s, Sel(VisitGot(data)), t);
  }

  lemma LoopEnds(start: State, s: State)
    requires Leads(start, s) && s.th.sel == Io([])
    ensures Leads(start, AtSel(s, Check, Nobody))
  {
    hide Leads;
    Go(start, s, Sel(IoEnd), AtSel(s, Check, Nobody));
  }

  /** A client goes to the action queue while no worker waits. */
  lemma HandsOver(start: State, s: State, c: Id, todo: seq<Id>)
    requires Leads(start, s) && s.th.sel == MoveWait(c, todo) && s.th.actOwner == Nobody && !AnyWaiting(s.th.workers)
    ensures Leads(start, s.(th := s.th.(sel := Io(todo)), q := s.q.(act := s.q.act + [c])))
  {
    hide Leads;
    var s1 := s.(th := s.th.(sel := Move(c, todo), actOwner := Selector));
    Go(start, s, Sel(AcquireAct), s1);
    Go(start, s1, Sel(MoveToAction(None)), s.(th := s.th.(sel := Io(todo)), q := s.q.(act := s.q.act + [c])));
  }

  // ----- a worker

  function AtWorker(s: State, w: int, pc: WorkPc, owner: Owner): State
    requires 0 <= w < |s.th.workers|
  {
    s.(th := s.th.(workers := s.th.workers[w := pc], actOwner := owner))
  }

  lemma Takes(start: State, s: State, w: int)
    requires Leads(start, s) && 0 <= w < |s.th.workers| && s.th.workers[w] == LoopWait
    requires s.th.actOwner == Nobody && !s.th.stopWorkers && s.q.act != []
    ensures Leads(start, AtWorker(s, w, Exec(s.q.act[0]), Nobody).(q := s.q.(act := s.q.act[1..])))
  {
    hide Leads;
    var s1, s2 := AtWorker(s, w, Loop, Worker(w)), AtWorker(s, w, Take, Worker(w));
    Go(start, s, Work(w, LockAct), s1);
    assert s.th.workers[w := Loop][w := Take] == s.th.workers[w := Take];
    Go(start, s1, Work(w, LoopTest), s2);
    assert s.th.workers[w := Take][w := Exec(s.q.act[0])] == s.th.workers[w := Exec(s.q.act[0])];
    Go(start, s2, Work(w, TakeClient), AtWorker(s, w, Exec(s.q.act[0]), Nobody).(q := s.q.(act := s.q.act[1..])));
  }

  /** The message served asks for the connection to be closed: VERSION_REQUEST, for one. */
  lemma Serves(start: State, s: State, w: int, c: Id)
    requires Leads(start, s) && 0 <= w < |s.th.workers| && s.th.workers[w] == Exec(c) && Valid(s, c)
    requires ConnOf(s, c).ioOffset <= |ConnOf(s, c).ioBuffer|
    requires var o := Process(ConnOf(s, c), false); !o.escaped && o.calls == [] && o.conn.phase == EXECUTING
    ensures Leads(start, s.(th := s.th.(workers := s.th.workers[w := CloseFree(c)]),
                            net := s.net.(conns := s.net.conns[c := Process(ConnOf(s, c), false).conn])))
  {
    hide Leads, Process;
    assert s.net.calls + [] == s.net.calls;
    Go(start, s, Work(w, Execute(false)),
       s.(th := s.th.(workers := s.th.workers[w := CloseFree(c)]),
          net := s.net.(conns := s.net.conns[c := Process(ConnOf(s, c), false).conn])));
  }

  // ----- a client and its request

  function Reading(fd: int): FdSets {
    FdSets({fd}, {}, false, false)
  }

  /** The object that the next client gets. */
  function Top(s: State): Id
    requires s.q.free != []
  {
    s.q.free[|s.q.free| - 1]
  }

  predicate CanConnect(s: State, fd: int) {
    && Quiet(s) && s.q.com == [] && s.q.free != [] && Valid(s, Top(s))
    && fd >= 0 && forall id :: 0 <= id < |s.net.conns| ==> s.net.conns[id].fd != fd
  }

  lemma QuietConnects(s: State, fd: int)
    requires Quiet(s) && s.q.com == [] && s.q.free != [] && Valid(s, Top(s))
    requires fd >= 0 && forall id :: 0 <= id < |s.net.conns| ==> s.net.conns[id].fd != fd
    ensures CanConnect(s, fd)
  {
  }

  /** A client has connected and the selector is back in its loop. */
  function Connected(s: State, fd: int): State
    requires s.q.free != [] && Valid(s, Top(s))
  {
    s.(q := s.q.(free := s.q.free[..|s.q.free| - 1], com := [Top(s)]),
       net := s.net.(conns := s.net.conns[Top(s) := Accepted(fd)], accepted := s.net.accepted + multiset{fd}),
       wake := s.wake.(fds := LISTEN))
  }

  lemma Client(fd: int)
    ensures Accepted(fd).fd == fd && Accepted(fd).phase == RECV && Accepted(fd).io == READ
  {
  }

  lemma ClientConnects(start: State, s: State, fd: int)
    requires Leads(start, s) && CanConnect(s, fd)
    ensures Leads(start, Connected(s, fd)) && Quiet(Connected(s, fd))
  {
    hide Leads, Accepted;
    Client(fd);
    Accepts(start, s, fd);
    var s1, t := WithClient(s, fd), Connected(s, fd);
    assert s.q.com + [Top(s)] == [Top(s)];
    Drains(start, s1);
    var s2 := AtSel(s1, Io(s1.q.com), Selector);
    assert s1.q.com[1..] == [];
    Skips(start, s2);
    LoopEnds(start, AtSel(s1, Io([]), Selector));
    assert AtSel(s1, Check, Nobody) == t;
  }

  /** The only client on com_queue has received a part of its message. */
  function PartRead(s: State, c: Id, conn: Conn): State
    requires Valid(s, c)
  {
    s.(net := s.net.(conns := s.net.conns[c := conn]), wake := s.wake.(fds := Reading(s.net.conns[c].fd)))
  }

  lemma ReadsPart(start: State, s: State, c: Id, data: seq<byte>, conn: Conn)
    requires Leads(start, s) && Quiet(s) && s.q.com == [c] && Valid(s, c)
    requires ConnOf(s, c).io == READ && ConnOf(s, c).phase == RECV
    requires 1 <= |data| <= RecvReq(ConnOf(s, c)) && RecvStep(ConnOf(s, c), data) == Incomplete(conn)
    ensures Leads(start, PartRead(s, c, conn)) && Quiet(PartRead(s, c, conn))
  {
    hide Leads, RecvStep, RecvReq;
    var fd := ConnOf(s, c).fd;
    assert c in s.q.com && fd in FdsOf(s, READ);
    Polls(start, s, Reading(fd));
    var s1 := WithFds(AtSel(s, Io([c]), Selector), Reading(fd));
    assert s1.th.sel.todo[1..] == [];
    Gets(start, s1, data, conn, Stay);
    LoopEnds(start, AtSel(PartRead(s, c, conn), Io([]), Selector));
  }

  /** The only client on com_queue has received a whole message and is on the action queue. */
  function HandedOver(s: State, c: Id, conn: Conn): State
    requires Valid(s, c)
  {
    s.(q := s.q.(com := [], act := s.q.act + [c]),
       net := s.net.(conns := s.net.conns[c := conn.(phase := PENDING, io := NOOP)]),
       wake := s.wake.(fds := Reading(s.net.conns[c].fd)))
  }

  lemma ReadsAll(start: State, s: State, c: Id, data: seq<byte>, conn: Conn)
    requires Leads(start, s) && Quiet(s) && s.q.com == [c] && Valid(s, c)
    requires s.th.actOwner == Nobody && !AnyWaiting(s.th.workers)
    requires ConnOf(s, c).io == READ && ConnOf(s, c).phase == RECV && conn.nextPhase == PENDING
    requires 1 <= |data| <= RecvReq(ConnOf(s, c)) && RecvStep(ConnOf(s, c), data) == RecvOut.Complete(conn)
    ensures Leads(start, HandedOver(s, c, conn)) && Quiet(HandedOver(s, c, conn))
  {
    hide Leads, RecvStep, RecvReq;
    var fd := ConnOf(s, c).fd;
    assert c in s.q.com && fd in FdsOf(s, READ);
    Polls(start, s, Reading(fd));
    var s1 := WithFds(AtSel(s, Io([c]), Selector), Reading(fd));
    assert s1.th.sel.todo[1..] == [] && Without([c], c) == [];
    Gets(start, s1, data, conn.(phase := PENDING, io := NOOP), ToAction);
    var t := HandedOver(s, c, conn);
    var s2 := AtSel(t, MoveWait(c, []), Selector).(q := t.q.(act := s.q.act));
    HandsOver(start, s2, c, []);
    LoopEnds(start, AtSel(t, Io([]), Selector));
  }

  /** A client has connected, sent the message `m` and is on the action queue. */
  function HasAsked(s: State, fd: int, m: seq<byte>): State
    requires s.q.free != [] && Valid(s, Top(s)) && |m| <= IO_BUFFER_SIZE
  {
    s.(q := s.q.(free := s.q.free[..|s.q.free| - 1], act := s.q.act + [Top(s)]),
       net := s.net.(conns := s.net.conns[Top(s) := Pending(fd, m)], accepted := s.net.accepted + multiset{fd}),
       wake := s.wake.(fds := Reading(fd)))
  }

  function Pending(fd: int, m: seq<byte>): Conn
    requires |m| <= IO_BUFFER_SIZE
  {
    After(Accepted(fd), m).(phase := PENDING, io := NOOP)
  }

  lemma PartOfMessage(fd: int, got: seq<byte>)
    requires |got| <= IO_BUFFER_SIZE
    ensures Accepted(fd) == ClearIo(Accepted(fd))
    ensures var c := After(Accepted(fd), got); c.fd == fd && c.phase == RECV && c.io == READ && c.nextPhase == PENDING
  {
  }

  lemma ClientAsks(start: State, s: State, fd: int, m: seq<byte>)
    requires Leads(start, s) && CanConnect(s, fd) && |m| == Need(m) >= HEADER_SIZE
    requires s.th.actOwner == Nobody && !AnyWaiting(s.th.workers)
    ensures Leads(start, HasAsked(s, fd, m)) && Quiet(HasAsked(s, fd, m))
  {
    hide Leads, RecvStep, RecvReq, Accepted, After, CanConnect;
    ClientConnects(start, s, fd);
    Client(fd);
    ConnectedFacts(s, fd);
    var c, s1 := Top(s), Connected(s, fd);
    var head, rest := m[..HEADER_SIZE], m[HEADER_SIZE..];
    PartOfMessage(fd, m);
    PartOfMessage(fd, head);
    MessageRead(Accepted(fd), m);
    if rest == [] {
      ReadsAll(start, s1, c, m, After(Accepted(fd), m));
      assert HandedOver(s1, c, After(Accepted(fd), m)) == HasAsked(s, fd, m);
    } else {
      var part := After(Accepted(fd), head);
      ReadsPart(start, s1, c, head, part);
      var s2 := PartRead(s1, c, part);
      ReadsAll(start, s2, c, rest, After(Accepted(fd), m));
      assert HandedOver(s2, c, After(Accepted(fd), m)) == HasAsked(s, fd, m);
    }
  }

  lemma ConnectedFacts(s: State, fd: int)
    requires CanConnect(s, fd)
    ensures s.q.free != [] && Valid(s, Top(s))
    ensures var s1 := Connected(s, fd); s1.q.com == [Top(s)] && Valid(s1, Top(s)) && ConnOf(s1, Top(s)) == Accepted(fd)
    ensures s.q.com == []
  {
    hide Accepted;
  }

  // ----- the first client of all

  /** The first client has sent `m`, and a worker has taken it; its object is the last one. */
  function FirstTaken(n: nat, fd: int, m: seq<byte>): State
    requires n >= 1 && |m| <= IO_BUFFER_SIZE
  {
    var s := HasAsked(Up(n), fd, m);
    AtWorker(s, 0, Exec(n - 1), Nobody).(q := s.q.(act := []))
  }

  lemma FirstAsks(n: nat, fd: int, m: seq<byte>)
    requires n >= 1 && fd >= 0 && |m| == Need(m) >= HEADER_SIZE
    ensures Leads(PoolOf(n), HasAsked(Up(n), fd, m)) && Quiet(HasAsked(Up(n), fd, m))
  {
    hide Leads, Pending, Quiet;
    ComesUp(n);
    QuietConnects(Up(n), fd);
    ClientAsks(PoolOf(n), Up(n), fd, m);
  }

  lemma FirstIsTaken(n: nat, fd: int, m: seq<byte>)
    requires n >= 1 && fd >= 0 && |m| == Need(m) >= HEADER_SIZE
    ensures Leads(PoolOf(n), FirstTaken(n, fd, m)) && Quiet(FirstTaken(n, fd, m))
  {
    hide Leads, Pending, Quiet;
    FirstAsks(n, fd, m);
    var s := HasAsked(Up(n), fd, m);
    assert s.q.act == [n - 1] && s.q.act[1..] == [];
    Takes(PoolOf(n), s, 0);
    StillQuiet(s, FirstTaken(n, fd, m));
  }

  lemma StillQuiet(s: State, t: State)
    requires Quiet(s)
    requires t == s.(th := s.th.(workers := t.th.workers, actOwner := t.th.actOwner), q := s.q.(act := t.q.act))
    ensures Quiet(t)
  {
  }
}
