/**
 Who holds what: the two mutexes, the client objects and the file descriptors.
 Locks follow program points, and client objects and descriptors are conserved.
 */
module ServerOwnership {
  import opened Wire
  import opened Connection
  import opened Phases
  import opened Fencing
  import opened ServerProtocol
  import opened Sums

  // ----- locks

  predicate SelHoldsCom(pc: SelPc) {
    pc.Build? || pc.AcceptAdd? || pc.Io? || pc.MoveWait? || pc.Move? || pc.ComSignal? || pc.ComDrain?
  }

  predicate SelHoldsAct(pc: SelPc) {
    pc.Move? || pc.ActDrain? || pc.Stop?
  }

  predicate WorkHoldsCom(pc: WorkPc) {
    pc.RequeueTest? || pc.RequeueAdd? || pc.RequeueWake? || pc.RequeueClose?
  }

  predicate WorkHoldsAct(pc: WorkPc) {
    pc.Loop? || pc.Take? || pc.Idle?
  }

  /** A thread holds a lock exactly at the program points inside the lock's section. */
  ghost predicate LockInv(t: Threads) {
    && (t.comOwner == Selector <==> SelHoldsCom(t.sel))
    && (t.actOwner == Selector <==> SelHoldsAct(t.sel))
    && (forall w :: 0 <= w < |t.workers| ==> (t.comOwner == Worker(w) <==> WorkHoldsCom(t.workers[w])))
    && (forall w :: 0 <= w < |t.workers| ==> (t.actOwner == Worker(w) <==> WorkHoldsAct(t.workers[w])))
    && (t.comOwner.Worker? ==> 0 <= t.comOwner.w < |t.workers|)
    && (t.actOwner.Worker? ==> 0 <= t.actOwner.w < |t.workers|)
  }

  lemma SelPcNext(s: State, ss: SelStep)
    requires SelEnabled(s, ss)
    ensures SelThreads(s, ss).sel == SelNext(s, ss)
  {
    hide SelNext, SelEnabled;
  }

  predicate SelOwns(t: Threads) {
    && (t.comOwner == Selector <==> SelHoldsCom(t.sel))
    && (t.actOwner == Selector <==> SelHoldsAct(t.sel))
  }

  /** An owner that a selector step leaves or that changes between nobody and the selector. */
  predicate SelChange(a: Owner, b: Owner) {
    a == b || (a == Nobody && b == Selector) || (a == Selector && b == Nobody)
  }

  lemma SelOwners(s: State, ss: SelStep)
    requires SelOwns(s.th) && SelEnabled(s, ss)
    ensures var t := SelThreads(s, ss);
            && SelOwns(t)
            && SelChange(s.th.comOwner, t.comOwner) && SelChange(s.th.actOwner, t.actOwner)
  {
    hide SelThreads, SelEnabled;
    SelOwnsCom(s, ss);
    SelOwnsAct(s, ss);
  }

  lemma SelOwnsCom(s: State, ss: SelStep)
    requires SelOwns(s.th) && SelEnabled(s, ss)
    ensures var t := SelThreads(s, ss);
            (t.comOwner == Selector <==> SelHoldsCom(t.sel)) && SelChange(s.th.comOwner, t.comOwner)
  {
    hide VisitResult, NotifyAll, SelHoldsAct, SelNext, SelHoldsCom, SelEnabled;
    SelPcNext(s, ss);
    SelComNext(s, ss);
  }

  /** How a selector step moves into or out of the section of com_queue_lock. */
  lemma SelComNext(s: State, ss: SelStep)
    requires SelEnabled(s, ss)
    ensures if ss.AcquireCom? then s.th.comOwner == Nobody && SelHoldsCom(SelNext(s, ss))
            else if ss.BuildSets? || ss.AddAccepted? || ss.IoEnd? || ss.CleanComEnd? then
              SelHoldsCom(s.th.sel) && !SelHoldsCom(SelNext(s, ss))
            else SelHoldsCom(SelNext(s, ss)) == SelHoldsCom(s.th.sel)
  {
    hide VisitResult;
  }

  lemma SelOwnsAct(s: State, ss: SelStep)
    requires SelOwns(s.th) && SelEnabled(s, ss)
    ensures var t := SelThreads(s, ss);
            (t.actOwner == Selector <==> SelHoldsAct(t.sel)) && SelChange(s.th.actOwner, t.actOwner)
  {
    hide VisitResult, NotifyAll, SelHoldsCom, SelNext, SelHoldsAct, SelEnabled;
    SelPcNext(s, ss);
    SelActNext(s, ss);
  }

  /** The same for action_queue_lock. */
  lemma SelActNext(s: State, ss: SelStep)
    requires SelEnabled(s, ss)
    ensures if ss.AcquireAct? then s.th.actOwner == Nobody && SelHoldsAct(SelNext(s, ss))
            else if ss.MoveToAction? || ss.CleanActEnd? || ss.StopAll? then
              SelHoldsAct(s.th.sel) && !SelHoldsAct(SelNext(s, ss))
            else SelHoldsAct(SelNext(s, ss)) == SelHoldsAct(s.th.sel)
  {
    hide VisitResult;
  }

  /** A selector step changes a worker only by ending its wait. */
  lemma SelKeepsWorkers(s: State, ss: SelStep)
    requires SelEnabled(s, ss)
    ensures var ws, vs := s.th.workers, SelThreads(s, ss).workers;
            && |vs| == |ws|
            && forall w :: 0 <= w < |ws| ==> vs[w] == ws[w] || (ws[w] == Waiting && vs[w] == LoopWait)
  {
    hide SelNext;
  }

  lemma LockSelStep(s: State, ss: SelStep)
    requires LockInv(s.th) && SelEnabled(s, ss)
    ensures LockInv(SelThreads(s, ss))
  {
    hide SelThreads, SelEnabled;
    SelOwners(s, ss);
    SelKeepsWorkers(s, ss);
  }

  lemma LockWorkStep(s: State, w: int, ws: WorkStep)
    requires LockInv(s.th) && WorkEnabled(s, w, ws)
    ensures LockInv(WorkThreads(s, w, ws))
  {
    hide Process;
  }

  // ----- client objects

  function SelHeld(pc: SelPc): seq<Id> {
    match pc
    case AcceptWait(c) => [c]
    case AcceptAdd(c) => [c]
    case MoveWait(c, _) => [c]
    case Move(c, _) => [c]
    case _ => []
  }

  function WorkHeld(pc: WorkPc): seq<Id> {
    match pc
    case Exec(c) => [c]
    case CloseFree(c) => [c]
    case RequeueWait(c) => [c]
    case RequeueTest(c) => [c]
    case RequeueAdd(c) => [c]
    case RequeueClose(c) => [c]
    case _ => []
  }

  // Counting terms: occurrences of `id` in a queue, and workers that hold it.
  function Is(id: Id): Id -> int {
    x => if x == id then 1 else 0
  }

  function Holds(id: Id): WorkPc -> int {
    pc => if WorkHeld(pc) == [id] then 1 else 0
  }

  function Count(q: seq<Id>, id: Id): int {
    Sum(Is(id), q)
  }

  /** In how many places client object `id` is. */
  function Places(t: Threads, q: Queues, id: Id): int {
    Count(q.free, id) + Count(q.com, id) + Count(q.act, id) + Count(q.lost, id)
    + Count(SelHeld(t.sel), id) + Sum(Holds(id), t.workers)
  }

  /** Every object of the pool is in exactly one place or among the lost, nothing else is anywhere. */
  ghost predicate OwnInv(s: State) {
    forall id :: Places(s.th, s.q, id) == if Valid(s, id) then 1 else 0
  }

  /** During the I/O loop the clients still to visit are the tail of com_queue. */
  predicate TailInv(t: Threads, q: Queues) {
    t.sel.Io? || t.sel.MoveWait? || t.sel.Move?
    ==> |t.sel.todo| <= |q.com| && q.com[|q.com| - |t.sel.todo|..] == t.sel.todo
  }

  lemma {:induction false} CountBounds(q: seq<Id>, id: Id)
    ensures Count(q, id) >= 0
    ensures id in q <==> Count(q, id) > 0
  {
    if q != [] {
      CountBounds(q[1..], id);
    }
  }

  lemma {:induction false} WithoutCount(q: seq<Id>, c: Id, id: Id)
    ensures Count(Without(q, c), id) == Count(q, id) - (if id == c && c in q then 1 else 0)
  {
    if q != [] && q[0] != c {
      WithoutCount(q[1..], c, id);
      assert Without(q, c)[1..] == Without(q[1..], c);
      assert c in q <==> c in q[1..];
    }
  }

  /** Removing the client being visited leaves the clients in front of it and behind it in order. */
  lemma {:induction false} WithoutTail(pre: seq<Id>, c: Id, rest: seq<Id>)
    requires Count(pre + [c] + rest, c) == 1
    ensures Without(pre + [c] + rest, c) == pre + rest
  {
    var q := pre + [c] + rest;
    if pre == [] {
      assert q[0] == c && q[1..] == rest;
    } else {
      assert q[1..] == pre[1..] + [c] + rest;
      CountBounds(pre[1..] + [c] + rest, c);
      assert c in q[1..];
      WithoutTail(pre[1..], c, rest);
      assert [pre[0]] + (pre[1..] + rest) == pre + rest;
    }
  }

  lemma HeldUnchanged(s: State, ss: SelStep, id: Id)
    requires SelEnabled(s, ss)
    ensures Sum(Holds(id), SelThreads(s, ss).workers) == Sum(Holds(id), s.th.workers)
  {
    SelKeepsWorkers(s, ss);
    SumEqual(Holds(id), SelThreads(s, ss).workers, s.th.workers);
  }

  lemma CountFacts(q: seq<Id>, c: Id, id: Id)
    ensures Count(q + [c], id) == Count(q, id) + Is(id)(c)
    ensures Count([c], id) == Is(id)(c)
    ensures Count([], id) == 0
    ensures q != [] ==> Count(q[1..], id) == Count(q, id) - Is(id)(q[0])
    ensures q != [] ==> Count(q[..|q| - 1], id) == Count(q, id) - Is(id)(q[|q| - 1])
    ensures Count(Without(q, c), id) == Count(q, id) - (if id == c && c in q then 1 else 0)
  {
    SumPush(Is(id), q, c);
    SumOne(Is(id), c);
    WithoutCount(q, c, id);
    if q != [] {
      SumPop(Is(id), q);
    }
  }

  /** Conservation over one selector step: what leaves one place enters another. */
  lemma OwnSelStep(s: State, ss: SelStep, id: Id)
    requires SelEnabled(s, ss) && TailInv(s.th, s.q)
    ensures Places(SelThreads(s, ss), SelQueues(s, ss), id) == Places(s.th, s.q, id)
  {
    hide Sum, SelThreads, SelEnabled, SelNext, SelQueues, Count;
    HeldUnchanged(s, ss, id);
    SelPcNext(s, ss);
    if s.th.sel.Io? {
      OwnSelLoop(s, ss, id);
    } else {
      OwnSelQueues(s, ss, id);
    }
  }

  ghost predicate Moves(s: State, pc: SelPc, r: Queues, id: Id) {
    && r.lost == s.q.lost
    && Count(r.free, id) + Count(r.com, id) + Count(r.act, id) + Count(SelHeld(pc), id)
       == Count(s.q.free, id) + Count(s.q.com, id) + Count(s.q.act, id) + Count(SelHeld(s.th.sel), id)
  }

  lemma OwnSelLoop(s: State, ss: SelStep, id: Id)
    requires SelEnabled(s, ss) && TailInv(s.th, s.q) && s.th.sel.Io?
    ensures Moves(s, SelNext(s, ss), SelQueues(s, ss), id)
  {
    hide Sum, SelEnabled, VisitResult, VisitQueues, VisitPc;
    var q, todo := s.q, s.th.sel.todo;
    CountFacts([], 0, id);
    if Visiting(s) {
      assert q.com[|q.com| - |todo|] == todo[0];
      OwnVisit(q, todo, VisitResult(s, ss).1, id);
    }
  }

  lemma OwnSelQueues(s: State, ss: SelStep, id: Id)
    requires SelEnabled(s, ss) && !s.th.sel.Io?
    ensures Moves(s, SelNext(s, ss), SelQueues(s, ss), id)
  {
    hide Count, Sum, SelEnabled, VisitResult, VisitQueues, VisitPc, NotifyAll, CloseConn;
    var q := s.q;
    CountNone(id);
    match s.th.sel
    case Accept => if q.free != [] { CountPop(q.free, id); }
    case AcceptAdd(c) => CountPush(q.com, c, id);
    case Move(c, _) => CountPush(q.act, c, id);
    case ActDrain => if q.act != [] { CountShift(q.act, q.free, id); }
    case ComDrain => if q.com != [] { CountShift(q.com, q.free, id); }
    case _ =>
  }

  lemma CountNone(id: Id)
    ensures Count([], id) == 0
  {
  }

  lemma CountPush(q: seq<Id>, c: Id, id: Id)
    ensures Count(q + [c], id) == Count(q, id) + Count([c], id)
  {
    hide Sum;
    CountFacts(q, c, id);
  }

  lemma CountPop(q: seq<Id>, id: Id)
    requires q != []
    ensures Count(q, id) == Count(q[..|q| - 1], id) + Count([q[|q| - 1]], id)
  {
    assert q == q[..|q| - 1] + [q[|q| - 1]];
    CountPush(q[..|q| - 1], q[|q| - 1], id);
  }

  /** The first of `a` goes to the end of `b`. */
  lemma CountShift(a: seq<Id>, b: seq<Id>, id: Id)
    requires a != []
    ensures Count(a[1..], id) + Count(b + [a[0]], id) == Count(a, id) + Count(b, id)
  {
    hide Sum;
    CountFacts(a, a[0], id);
    CountFacts(b, a[0], id);
  }

  lemma OwnVisit(q: Queues, todo: seq<Id>, fate: Fate, id: Id)
    requires todo != [] && todo[0] in q.com
    ensures var r := VisitQueues(q, todo[0], fate);
            && r.lost == q.lost
            && Count(r.free, id) + Count(r.com, id) + Count(r.act, id) + Count(SelHeld(VisitPc(todo, fate)), id)
               == Count(q.free, id) + Count(q.com, id) + Count(q.act, id)
  {
    CountFacts([], 0, id);
    CountFacts(q.com, todo[0], id);
    CountFacts(q.free, todo[0], id);
  }

  lemma OwnWorkStep(s: State, w: int, ws: WorkStep, id: Id)
    requires WorkEnabled(s, w, ws)
    ensures Places(WorkThreads(s, w, ws), WorkQueues(s, w, ws), id) == Places(s.th, s.q, id)
  {
    hide Sum, Process;
    var q, pc := s.q, WorkNext(s, w, ws);
    SumUpdate(Holds(id), s.th.workers, w, pc);
    CountFacts([], 0, id);
    match s.th.workers[w]
    case Take => if q.act != [] { CountFacts(q.act, q.act[0], id); }
    case RequeueAdd(c) => CountFacts(q.com, c, id);
    case Exec(c) => CountFacts(q.lost, c, id);
    case CloseFree(c) => CountFacts(q.free, c, id);
    case RequeueClose(c) => CountFacts(q.free, c, id);
    case _ =>
  }

  lemma TailVisit(q: Queues, todo: seq<Id>, fate: Fate)
    requires todo != [] && |todo| <= |q.com| && q.com[|q.com| - |todo|..] == todo
    requires Count(q.com, todo[0]) == 1
    ensures var com := VisitQueues(q, todo[0], fate).com;
            |todo| - 1 <= |com| && com[|com| - |todo| + 1..] == todo[1..]
  {
    var pre := q.com[..|q.com| - |todo|];
    assert q.com == pre + [todo[0]] + todo[1..];
    WithoutTail(pre, todo[0], todo[1..]);
    assert (pre + todo[1..])[|pre|..] == todo[1..];
  }

  lemma TailSelStep(s: State, ss: SelStep)
    requires SelEnabled(s, ss) && TailInv(s.th, s.q) && OwnInv(s)
    ensures TailInv(SelThreads(s, ss), SelQueues(s, ss))
  {
    hide TailInv, OwnInv, SelThreads, SelQueues, SelEnabled;
    if s.th.sel.Io? {
      TailLoop(s, ss);
    } else {
      TailElsewhere(s, ss);
    }
  }

  lemma TailLoop(s: State, ss: SelStep)
    requires SelEnabled(s, ss) && TailInv(s.th, s.q) && OwnInv(s) && s.th.sel.Io?
    ensures TailInv(SelThreads(s, ss), SelQueues(s, ss))
  {
    hide VisitResult, VisitQueues, OwnInv, SelThreads, SelEnabled;
    SelPcNext(s, ss);
    if Visiting(s) {
      TailVisiting(s, VisitResult(s, ss).1);
    }
  }

  lemma TailElsewhere(s: State, ss: SelStep)
    requires SelEnabled(s, ss) && TailInv(s.th, s.q) && !s.th.sel.Io?
    ensures TailInv(SelThreads(s, ss), SelQueues(s, ss))
  {
    hide VisitResult, VisitQueues, VisitPc, SelThreads, SelEnabled;
    SelPcNext(s, ss);
    var com := s.q.com;
    assert com[|com|..] == [] && com[0..] == com && com[|com| - |com|..] == com;
  }

  lemma TailVisiting(s: State, fate: Fate)
    requires Visiting(s) && TailInv(s.th, s.q) && OwnInv(s)
    ensures var todo, com := s.th.sel.todo, VisitQueues(s.q, s.th.sel.todo[0], fate).com;
            |todo| - 1 <= |com| && com[|com| - |todo| + 1..] == todo[1..]
  {
    hide VisitQueues, OwnInv;
    var todo := s.th.sel.todo;
    assert s.q.com[|s.q.com| - |todo|] == todo[0];
    OnceOnCom(s, todo[0]);
    TailVisit(s.q, todo, fate);
  }

  lemma OnceOnCom(s: State, c: Id)
    requires OwnInv(s) && c in s.q.com
    ensures Count(s.q.com, c) == 1
  {
    assert Places(s.th, s.q, c) <= 1;
    CountBounds(s.q.free, c);
    CountBounds(s.q.com, c);
    CountBounds(s.q.act, c);
    CountBounds(s.q.lost, c);
    CountBounds(SelHeld(s.th.sel), c);
    SumBounds(Holds(c), s.th.workers, 1);
  }

  lemma TailWorkStep(s: State, w: int, ws: WorkStep)
    requires WorkEnabled(s, w, ws) && TailInv(s.th, s.q) && LockInv(s.th)
    ensures TailInv(WorkThreads(s, w, ws), WorkQueues(s, w, ws))
  {
    hide Process;
  }
}
