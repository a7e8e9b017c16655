/**
 What holds of the client objects, of their descriptors and of the descriptor sets
 while the threads of the server hand the objects around.
 */
module ServerConnections {
  import opened Wire
  import opened Connection
  import opened Phases
  import opened Fencing
  import opened ServerProtocol
  import opened ServerOwnership
  import opened Sums

  /** A client object held by a worker is in no queue, not with the selector and with no other worker. */
  lemma Exclusive(s: State, id: Id)
    requires OwnInv(s)
    ensures id in s.q.free ==> id !in s.q.com && id !in s.q.act && SelHeld(s.th.sel) != [id]
    ensures id in s.q.com ==> id !in s.q.act && SelHeld(s.th.sel) != [id]
    ensures id in s.q.act ==> SelHeld(s.th.sel) != [id]
    ensures id in s.q.lost ==> id !in s.q.free && id !in s.q.com && id !in s.q.act && SelHeld(s.th.sel) != [id]
    ensures id in s.q.free || id in s.q.com || id in s.q.act || id in s.q.lost || SelHeld(s.th.sel) == [id]
            ==> Valid(s, id)
  {
    hide Sum;
    assert Places(s.th, s.q, id) <= 1;
    CountBounds(s.q.free, id);
    CountBounds(s.q.com, id);
    CountBounds(s.q.act, id);
    CountBounds(s.q.lost, id);
    CountBounds(SelHeld(s.th.sel), id);
    SumBounds(Holds(id), s.th.workers, 1);
  }

  lemma HeldExclusive(s: State, w: int, id: Id)
    requires OwnInv(s) && 0 <= w < |s.th.workers| && WorkHeld(s.th.workers[w]) == [id]
    ensures Valid(s, id) && id !in s.q.free && id !in s.q.com && id !in s.q.act && SelHeld(s.th.sel) != [id]
    ensures id !in s.q.lost
    ensures forall v :: 0 <= v < |s.th.workers| && v != w ==> WorkHeld(s.th.workers[v]) != [id]
  {
    hide Sum;
    assert Places(s.th, s.q, id) <= 1;
    CountBounds(s.q.free, id);
    CountBounds(s.q.com, id);
    CountBounds(s.q.act, id);
    CountBounds(s.q.lost, id);
    CountBounds(SelHeld(s.th.sel), id);
    SumBounds(Holds(id), s.th.workers, 1);
    assert Holds(id)(s.th.workers[w]) == 1;
    forall v | 0 <= v < |s.th.workers| && v != w
      ensures WorkHeld(s.th.workers[v]) != [id]
    {
      SumTwo(Holds(id), s.th.workers, if v < w then v else w, if v < w then w else v);
    }
  }

  // ----- the phase of every client object

  ghost predicate QueueConnOk(s: State, id: Id) {
    Valid(s, id) ==>
    var c := ConnOf(s, id);
    && (id in s.q.free <==> c.fd < 0)
    && (id in s.q.com ==> Receiving(c) || Replying(c))
    && (id in s.q.act ==> Queued(c))
    && (SelHeld(s.th.sel) == [id] ==> if s.th.sel.AcceptWait? || s.th.sel.AcceptAdd? then Receiving(c) else Queued(c))
  }

  ghost predicate WorkerConnOk(s: State, w: int)
    requires 0 <= w < |s.th.workers|
  {
    var pc := s.th.workers[w];
    WorkHeld(pc) != [] ==>
      && Valid(s, pc.c)
      && (pc.Exec? ==> Queued(ConnOf(s, pc.c)))
      && (pc.RequeueWait? || pc.RequeueTest? || pc.RequeueAdd? || pc.RequeueClose?
          ==> Replying(ConnOf(s, pc.c)) && FreshReply(ConnOf(s, pc.c)))
  }

  /** The phase invariant. */
  ghost predicate ConnInv(s: State) {
    && (forall id :: QueueConnOk(s, id))
    && (forall w :: 0 <= w < |s.th.workers| ==> WorkerConnOk(s, w))
  }

  /** The client object a selector step takes from or puts into a place. */
  function SelTouches(s: State): seq<Id> {
    match s.th.sel
    case Accept => if s.q.free == [] then [] else [s.q.free[|s.q.free| - 1]]
    case ActDrain => if s.q.act == [] then [] else [s.q.act[0]]
    case ComDrain => if s.q.com == [] then [] else [s.q.com[0]]
    case Io(todo) => if todo == [] then [] else [todo[0]]
    case _ => []
  }

  lemma SelNetFrame(s: State, ss: SelStep)
    requires SelEnabled(s, ss)
    ensures |SelNet(s, ss).conns| == |s.net.conns|
    ensures forall id :: Valid(s, id) && SelTouches(s) != [id] ==> SelNet(s, ss).conns[id] == s.net.conns[id]
  {
    hide VisitResult;
  }

  lemma {:induction false} WithoutOthers(q: seq<Id>, c: Id, id: Id)
    requires id != c
    ensures id in Without(q, c) <==> id in q
  {
    if q != [] {
      assert id in q <==> q[0] == id || id in q[1..];
      if q[0] != c {
        WithoutOthers(q[1..], c, id);
      }
    }
  }

  lemma MemberEnds(q: seq<Id>, id: Id)
    requires q != []
    ensures q[0] != id ==> (id in q[1..] <==> id in q)
    ensures q[|q| - 1] != id ==> (id in q[..|q| - 1] <==> id in q)
  {
    assert q == [q[0]] + q[1..] == q[..|q| - 1] + [q[|q| - 1]];
  }

  lemma VisitPlaceFrame(q: Queues, todo: seq<Id>, fate: Fate, id: Id)
    requires todo != [] && todo[0] != id
    ensures var r := VisitQueues(q, todo[0], fate);
            && (id in r.free <==> id in q.free)
            && (id in r.com <==> id in q.com)
            && r.act == q.act
  {
    WithoutOthers(q.com, todo[0], id);
  }

  lemma SelHeldFrame(s: State, ss: SelStep, id: Id)
    requires SelEnabled(s, ss) && SelTouches(s) != [id] && SelHeld(s.th.sel) != [id]
    ensures SelHeld(SelNext(s, ss)) != [id]
  {
    hide VisitResult, SelEnabled;
  }

  /** A selector step leaves every other client object where it is. */
  lemma SelPlaceFrame(s: State, ss: SelStep, id: Id)
    requires SelEnabled(s, ss) && SelTouches(s) != [id] && SelHeld(s.th.sel) != [id]
    ensures var q := SelQueues(s, ss);
            && (id in q.free <==> id in s.q.free)
            && (id in q.com <==> id in s.q.com)
            && (id in q.act <==> id in s.q.act)
  {
    hide VisitResult, VisitQueues, SelEnabled, SelNext;
    var q := s.q;
    match s.th.sel
    case Accept => if q.free != [] { MemberEnds(q.free, id); }
    case ActDrain => if q.act != [] { MemberEnds(q.act, id); }
    case ComDrain => if q.com != [] { MemberEnds(q.com, id); }
    case Io(todo) => if Visiting(s) { VisitPlaceFrame(q, todo, VisitResult(s, ss).1, id); }
    case _ =>
  }

  /** Where a selector step puts the object that the selector holds, or the one that it touches. */
  lemma SelPlaceMoves(s: State, ss: SelStep, id: Id)
    requires SelEnabled(s, ss)
    ensures var q, pc := SelQueues(s, ss), SelNext(s, ss);
            && (SelHeld(s.th.sel) == [id] ==>
                 if s.th.sel.AcceptAdd? then id in q.com
                 else if s.th.sel.Move? then id in q.act
                 else SelHeld(pc) == [id] && (s.th.sel.AcceptWait? <==> pc.AcceptAdd?) && !pc.AcceptWait?)
            && (SelTouches(s) == [id] && s.th.sel.Accept? ==> pc == AcceptWait(id))
            && (SelTouches(s) == [id] && (ss.CleanAct? || ss.CleanCom?) ==> id in q.free)
  {
    hide VisitResult, FdsOf;
  }

  /** The object under visit: its fate decides both its place and what holds of it. */
  lemma VisitConnOk(s: State, ss: SelStep)
    requires Visiting(s) && SelEnabled(s, ss)
    requires Receiving(Visited(s)) || Replying(Visited(s))
    requires Visited(s).fd in s.wake.fds.read ==> Receiving(Visited(s))
    requires Visited(s).fd in s.wake.fds.write ==> Replying(Visited(s))
    ensures var (c, fate) := VisitResult(s, ss);
            && c.fd == Visited(s).fd
            && (fate == Stay ==> Receiving(c) || Replying(c))
            && (fate == ToAction ==> Queued(c))
  {
    match ss
    case VisitGot(data) => VisitReadKeeps(Visited(s), data);
    case VisitSent(r) => VisitWriteKeeps(Visited(s), r);
    case _ =>
  }

  lemma ReleasedOk(s: State, ss: SelStep, id: Id)
    requires SelEnabled(s, ss) && Valid(s, id) && (ss.CleanAct? || ss.CleanCom?) && SelTouches(s) == [id]
    ensures SelNet(s, ss).conns[id] == CLEARED
  {
  }

  lemma AcceptedOk(s: State, ss: SelStep, id: Id)
    requires SelEnabled(s, ss) && Valid(s, id) && s.th.sel.Accept? && SelTouches(s) == [id]
    ensures SelNet(s, ss).conns[id].fd >= 0 && Receiving(SelNet(s, ss).conns[id])
  {
    AcceptedReceives(ss.fd);
  }

  lemma VisitedOk(s: State, ss: SelStep)
    requires SelEnabled(s, ss) && Visiting(s)
    ensures var id, (c, fate) := s.th.sel.todo[0], VisitResult(s, ss);
            && SelNet(s, ss).conns[id] == (if fate == Close then CLEARED else c)
            && (fate == Close ==> id in SelQueues(s, ss).free)
            && (fate == ToAction ==> SelNext(s, ss) == MoveWait(id, s.th.sel.todo[1..]))
            && (fate == Stay ==> SelQueues(s, ss) == s.q && SelHeld(SelNext(s, ss)) == [])
  {
    hide VisitResult;
  }

  /** What FdSetInv (module ServerDescriptors) provides for the object under visit. */
  ghost predicate VisitReady(s: State) {
    Visiting(s) ==>
      && (Visited(s).fd in s.wake.fds.read ==> Receiving(Visited(s)))
      && (Visited(s).fd in s.wake.fds.write ==> Replying(Visited(s)))
  }

  /** What a step starts from. */
  ghost predicate Core(s: State) {
    OwnInv(s) && ConnInv(s) && VisitReady(s) && TailInv(s.th, s.q)
  }

  lemma ConnSelStep(s: State, ss: SelStep, t: State, id: Id)
    requires Next(s, Sel(ss), t) && Core(s) && OwnInv(t)
    ensures QueueConnOk(t, id)
  {
    hide SelEnabled, SelThreads, SelQueues, SelNet, SelWake, SelNext, VisitResult, Receiving, Replying, Queued, OwnInv;
    SelPcNext(s, ss);
    SelNetFrame(s, ss);
    SelPlaceMoves(s, ss, id);
    Exclusive(s, id);
    Exclusive(t, id);
    assert QueueConnOk(s, id);
    if SelTouches(s) == [id] {
      TouchedOk(s, ss, t, id);
    } else if SelHeld(s.th.sel) != [id] {
      SelHeldFrame(s, ss, id);
      SelPlaceFrame(s, ss, id);
    }
  }

  lemma TouchedOk(s: State, ss: SelStep, t: State, id: Id)
    requires Next(s, Sel(ss), t) && Core(s) && OwnInv(t) && SelTouches(s) == [id]
    ensures QueueConnOk(t, id)
  {
    hide SelThreads, SelQueues, SelNet, SelWake, SelNext, VisitResult, Receiving, Replying, Queued, OwnInv;
    SelPcNext(s, ss);
    SelNetFrame(s, ss);
    SelPlaceMoves(s, ss, id);
    Exclusive(s, id);
    Exclusive(t, id);
    assert QueueConnOk(s, id);
    if Valid(s, id) {
      if s.th.sel.Accept? {
        AcceptedOk(s, ss, id);
      } else if ss.CleanAct? || ss.CleanCom? {
        ReleasedOk(s, ss, id);
      } else if Visiting(s) {
        assert s.q.com[|s.q.com| - |s.th.sel.todo|] == id;
        VisitConnOk(s, ss);
        VisitedOk(s, ss);
      }
    }
  }

  lemma WorkersSelStep(s: State, ss: SelStep, t: State, w: int)
    requires Next(s, Sel(ss), t) && Core(s) && 0 <= w < |t.th.workers| == |s.th.workers|
    ensures WorkerConnOk(t, w)
  {
    hide SelEnabled, SelThreads, SelQueues, SelNet, SelWake, Replying, Queued, OwnInv;
    SelKeepsWorkers(s, ss);
    SelNetFrame(s, ss);
    assert WorkerConnOk(s, w);
    var held := WorkHeld(s.th.workers[w]);
    if held != [] {
      HeldExclusive(s, w, held[0]);
    }
  }

  /** A worker step changes only the object its worker holds. */
  lemma WorkNetFrame(s: State, w: int, ws: WorkStep)
    requires WorkEnabled(s, w, ws)
    ensures |WorkNet(s, w, ws).conns| == |s.net.conns|
    ensures forall id :: Valid(s, id) && WorkHeld(s.th.workers[w]) != [id]
                     ==> WorkNet(s, w, ws).conns[id] == s.net.conns[id]
  {
    hide Process;
  }

  lemma WorkPlaceFrame(s: State, w: int, ws: WorkStep, id: Id)
    requires WorkEnabled(s, w, ws)
    ensures var q, q1, pc := s.q, WorkQueues(s, w, ws), s.th.workers[w];
            && (id in q1.free <==> id in q.free || ((pc.CloseFree? || pc.RequeueClose?) && id == pc.c))
            && (id in q1.com <==> id in q.com || (pc.RequeueAdd? && id == pc.c))
            && (id in q1.act ==> id in q.act)
  {
    hide Process;
  }

  /** What the step makes of the object that its worker holds. */
  lemma HeldOk(s: State, w: int, ws: WorkStep, c: Id)
    requires WorkEnabled(s, w, ws) && WorkerConnOk(s, w) && WorkHeld(s.th.workers[w]) == [c]
    ensures Valid(s, c)
    ensures var d, pc := WorkNet(s, w, ws).conns[c], s.th.workers[w];
            && (d.fd == ConnOf(s, c).fd || (d == CLEARED && (pc.CloseFree? || pc.RequeueClose?)))
            && (pc.CloseFree? || pc.RequeueClose? ==> d == CLEARED)
            && (pc.RequeueWait? || pc.RequeueTest? || pc.RequeueAdd?
                ==> d == ConnOf(s, c) && Replying(d) && FreshReply(d))
            && (WorkNext(s, w, ws).RequeueWait? ==> Replying(d) && FreshReply(d))
  {
    hide Process, Replying, Queued;
    if ws.Execute? {
      QueuedNameless(ConnOf(s, c));
      ProcessLeadsToReplyOrClose(ConnOf(s, c), ws.ok);
    }
  }

  lemma QueuedNameless(c: Conn)
    requires Queued(c)
    ensures Nameless(c)
  {
  }

  lemma ConnWorkStep(s: State, w: int, ws: WorkStep, t: State, id: Id)
    requires Next(s, Work(w, ws), t) && Core(s) && OwnInv(t)
    ensures QueueConnOk(t, id)
  {
    hide WorkEnabled, WorkThreads, WorkQueues, WorkNet, WorkNext, Receiving, Replying, Queued, OwnInv;
    WorkSelFrame(s, w, ws);
    WorkNetFrame(s, w, ws);
    WorkPlaceFrame(s, w, ws, id);
    Exclusive(t, id);
    assert QueueConnOk(s, id) && WorkerConnOk(s, w);
    if WorkHeld(s.th.workers[w]) == [id] {
      HeldOk(s, w, ws, id);
      HeldExclusive(s, w, id);
    }
  }

  lemma WorkSelFrame(s: State, w: int, ws: WorkStep)
    requires WorkEnabled(s, w, ws)
    ensures 0 <= w < |s.th.workers| && WorkThreads(s, w, ws).sel == s.th.sel
    ensures WorkThreads(s, w, ws).workers == s.th.workers[w := WorkNext(s, w, ws)]
  {
  }

  lemma WorkHeldNext(s: State, w: int, ws: WorkStep)
    requires WorkEnabled(s, w, ws)
    ensures var pc, pc1 := s.th.workers[w], WorkNext(s, w, ws);
            && (WorkHeld(pc1) != [] ==>
                 if pc.Take? then pc1 == Exec(s.q.act[0]) && s.q.act != []
                 else WorkHeld(pc1) == WorkHeld(pc) && !pc1.Exec?)
            && (pc1.RequeueTest? || pc1.RequeueAdd? || pc1.RequeueClose? ==> pc.RequeueWait? || pc.RequeueTest?)
  {
    hide Process;
  }

  lemma WorkersWorkStep(s: State, w: int, ws: WorkStep, t: State, v: int)
    requires Next(s, Work(w, ws), t) && Core(s) && 0 <= v < |t.th.workers| == |s.th.workers|
    ensures WorkerConnOk(t, v)
  {
    hide WorkEnabled, WorkThreads, WorkQueues, WorkNet, WorkNext, Receiving, Replying, Queued, OwnInv;
    WorkSelFrame(s, w, ws);
    WorkNetFrame(s, w, ws);
    assert WorkerConnOk(s, v) && WorkerConnOk(s, w);
    var held := WorkHeld(s.th.workers[w]);
    if held != [] {
      HeldOk(s, w, ws, held[0]);
      HeldExclusive(s, w, held[0]);
    }
    WorkHeldNext(s, w, ws);
    if v == w && s.th.workers[w].Take? && WorkHeld(WorkNext(s, w, ws)) != [] {
      Exclusive(s, s.q.act[0]);
      assert QueueConnOk(s, s.q.act[0]);
    }
  }
}
