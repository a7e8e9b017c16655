/**
 The selector's I/O loop on the heap and the one of the step system are the same: visit by
 visit, and the whole loop.
 */
module ServerVisits {
  import opened Wire
  import opened Connection
  import opened Phases
  import opened Fencing
  import opened ServerProtocol
  import opened ServerOwnership
  import opened ServerConnections
  import opened ServerDescriptors
  import opened ServerInvariant
  import opened ServerTheorems
  import opened ServerShutdown
  import opened NetClients
  import opened SelectorLoops
  import opened ServerRuns
  import opened Sums

  /** The calls of the visit deliver what the operating system can deliver. */
  predicate Delivered(c: Conn, e: Event) {
    && (e.recv.Received? ==> 1 <= |e.recv.data| <= RecvReq(c))
    && (|c.ioBuffer| >= HEADER_SIZE ==> Written(e.send) <= SendReq(Prepare(c)))
  }

  /** The step by which the selector visits a client for which the calls would deliver `e`. */
  function VisitStep(c: Conn, fds: FdSets, e: Event): SelStep {
    if c.phase == CANCELED then VisitCanceled
    else if c.fd in fds.read then
      match e.recv
      case Ended => VisitEnded
      case Received(data) => VisitGot(data)
    else if c.fd in fds.write then VisitSent(e.send)
    else VisitSkip
  }

  /**
   In every state of the server the visit on the heap does to the client what the step does,
   whatever the calls deliver.
   */
  lemma VisitRefines(s: State, e: Event)
    requires Inv(s) && Visiting(s) && Delivered(Visited(s), e)
    ensures var c, ss := Visited(s), VisitStep(Visited(s), s.wake.fds, e);
            && Possible(c, s.wake.fds.read, s.wake.fds.write, e)
            && SelEnabled(s, ss)
            && VisitOf(c, s.wake.fds.read, s.wake.fds.write, e) == VisitResult(s, ss)
  {
    hide Inv, OwnInv, RecvStep, RecvReq, Prepare, SendReq, VisitRead, VisitWrite, LockInv;
    InvLocks(s);
    CoreVisit(s);
    var c := Visited(s);
    if c.fd in s.wake.fds.read {
      RecvRequestExact(c, Payload(c));
      if e.recv.Received? {
        VisitReadKeeps(c, e.recv.data);
      }
    }
    if c.fd in s.wake.fds.write {
      SendStays(c, e.send);
    }
  }

  lemma CoreVisit(s: State)
    requires Core(s) && Visiting(s)
    ensures var c := Visited(s);
            && (Receiving(c) || Replying(c)) && |c.ioBuffer| == IO_BUFFER_SIZE
            && (c.fd in s.wake.fds.read ==> Receiving(c)) && (c.fd in s.wake.fds.write ==> Replying(c))
  {
    hide OwnInv;
    VisitedOnCom(s);
    assert QueueConnOk(s, s.th.sel.todo[0]);
  }

  lemma SendStays(c: Conn, r: SendResult)
    requires Replying(c) && Written(r) <= SendReq(Prepare(c))
    ensures c.ioOffset + Written(r) <= IO_BUFFER_SIZE
  {
    hide SendReq, Prepare;
    SendStepExact(c, Again);
  }

  // ----- the whole loop

  /** The clients on com_queue, in order. */
  function ComConns(s: State): seq<Conn>
    requires forall id :: id in s.q.com ==> Valid(s, id)
  {
    seq(|s.q.com|, i requires 0 <= i < |s.q.com| => ConnOf(s, s.q.com[i]))
  }

  /** `u` is the state after the first `i` visits of a loop that started in `s`. */
  ghost predicate LoopAt(s: State, left: seq<Conn>, fates: seq<Fate>, i: nat, u: State)
    requires |left| == |fates| == |s.q.com|
  {
    var com := s.q.com;
    && Inv(u) && i <= |com| && u.wake == s.wake && u.th.sel == Io(com[i..]) && u.th.actOwner == Nobody
    && u.q.com == With(com[..i], fates[..i], Stay) + com[i..]
    && u.q.act == s.q.act + With(com[..i], fates[..i], ToAction)
    && u.q.free == s.q.free + With(com[..i], fates[..i], Close)
    && |u.net.conns| == |s.net.conns| && u.net.calls == s.net.calls
    && (forall j :: 0 <= j < i && Valid(s, com[j]) ==> u.net.conns[com[j]] == left[j])
    && (forall id :: Valid(s, id) && id !in com[..i] ==> u.net.conns[id] == s.net.conns[id])
  }

  lemma VisitKeepsRest(u: State, ss: SelStep, v: State)
    requires Next(u, Sel(ss), v) && Visiting(u) && OwnInv(u) && TailInv(u.th, u.q)
    ensures var id, todo, (c, fate) := u.th.sel.todo[0], u.th.sel.todo, VisitResult(u, ss);
            && v.wake == u.wake && v.th == u.th.(sel := VisitPc(todo, fate))
            && v.q == VisitQueues(u.q, id, fate)
            && |v.net.conns| == |u.net.conns| && v.net.calls == u.net.calls
            && v.net.conns == u.net.conns[id := if fate == Close then CLEARED else c]
  {
    hide VisitResult, OwnInv;
  }

  predicate NoRepeats(q: seq<Id>) {
    forall j, k :: 0 <= j < k < |q| ==> q[j] != q[k]
  }

  lemma QueuedApart(s: State)
    requires OwnInv(s)
    ensures NoRepeats(s.q.com) && forall id :: id in s.q.com ==> Valid(s, id)
  {
    hide OwnInv, Sum;
    var com := s.q.com;
    forall id | id in com ensures Valid(s, id) { Exclusive(s, id); }
    forall j, k | 0 <= j < k < |com| ensures com[j] != com[k] {
      if com[j] == com[k] {
        QueuedOnce(s, com[j]);
        SumTwo(Is(com[j]), com, j, k);
      }
    }
  }

  /** The queues after one more visit. */
  lemma PlacesOne(com: seq<Id>, fates: seq<Fate>, i: nat, free: seq<Id>, act: seq<Id>, q: Queues)
    requires |fates| == |com| && i < |com| && Count(q.com, com[i]) == 1
    requires q.com == With(com[..i], fates[..i], Stay) + com[i..]
    requires q.act == act + With(com[..i], fates[..i], ToAction)
    requires q.free == free + With(com[..i], fates[..i], Close)
    ensures var r := VisitQueues(q, com[i], fates[i]);
            && r.com == With(com[..i + 1], fates[..i + 1], Stay) + com[i + 1..]
            && r.free == free + With(com[..i + 1], fates[..i + 1], Close)
            && r.act + (if fates[i] == ToAction then [com[i]] else [])
               == act + With(com[..i + 1], fates[..i + 1], ToAction)
  {
    hide With, Count, Sum;
    var f := fates[i];
    assert fates[..i] + [f] == fates[..i + 1];
    WithMore(com, fates[..i], f, Stay);
    WithMore(com, fates[..i], f, Close);
    WithMore(com, fates[..i], f, ToAction);
    var pre := With(com[..i], fates[..i], Stay);
    assert com[i..] == [com[i]] + com[i + 1..];
    assert q.com == pre + [com[i]] + com[i + 1..];
    WithoutTail(pre, com[i], com[i + 1..]);
  }

  lemma Acquires(u: State, c: Id, todo: seq<Id>, u1: State)
    requires u.th.sel == MoveWait(c, todo) && u.th.actOwner == Nobody
    requires u1 == u.(th := u.th.(sel := Move(c, todo), actOwner := Selector))
    ensures Next(u, Sel(AcquireAct), u1)
  {
  }

  lemma HandedTo(u: State, step: Step, v: State)
    requires Next(u, step, v) && u.th.sel.Move? && step.Sel?
    ensures v.wake == u.wake && v.net == u.net && v.q == u.q.(act := u.q.act + [u.th.sel.c])
    ensures v.th.sel == Io(u.th.sel.todo) && v.th.actOwner == Nobody
  {
  }

  /** From MoveWait the selector hands the client over and goes on with the loop. */
  lemma HandsOn(u: State, c: Id, todo: seq<Id>) returns (steps: seq<Step>, v: State)
    requires Inv(u) && u.th.sel == MoveWait(c, todo) && u.th.actOwner == Nobody
    ensures Run(u, steps) && Final(u, steps) == v && |steps| == 2 && Inv(v)
    ensures v.wake == u.wake && v.net == u.net && v.q == u.q.(act := u.q.act + [c])
    ensures v.th.sel == Io(todo) && v.th.actOwner == Nobody
  {
    hide Inv, Enabled, Apply;
    var u1 := u.(th := u.th.(sel := Move(c, todo), actOwner := Selector));
    Acquires(u, c, todo, u1);
    InvStep(u, Sel(AcquireAct), u1);
    var step := MovePossible(u1);
    v := Apply(u1, step);
    InvStep(u1, step, v);
    HandedTo(u1, step, v);
    TwoSteps(u, Sel(AcquireAct), u1, step, v);
    steps := [Sel(AcquireAct), step];
  }

  lemma OneVisit(s: State, e: Event, left: seq<Conn>, fates: seq<Fate>, i: nat, u: State)
    returns (steps: seq<Step>, v: State)
    requires |left| == |fates| == |s.q.com| && i < |s.q.com| && NoRepeats(s.q.com)
    requires LoopAt(s, left, fates, i, u) && Valid(s, s.q.com[i])
    requires var c := ConnOf(s, s.q.com[i]);
             && Delivered(c, e) && Possible(c, s.wake.fds.read, s.wake.fds.write, e)
             && fates[i] == VisitOf(c, s.wake.fds.read, s.wake.fds.write, e).1
             && left[i] == Leaves(c, s.wake.fds.read, s.wake.fds.write, e)
    ensures Run(u, steps) && Final(u, steps) == v && |steps| <= 3
    ensures LoopAt(s, left, fates, i + 1, v)
  {
    hide Inv, With, VisitOf, VisitResult, Delivered, Possible, SelEnabled, Apply, VisitStep, LockInv, OwnInv, TailInv;
    hide ConnInv, VisitReady, Count, VisitQueues;
    var com := s.q.com;
    var id, c := com[i], ConnOf(s, com[i]);
    assert id !in com[..i];
    assert Visiting(u) && Visited(u) == c;
    VisitRefines(u, e);
    var ss := VisitStep(c, u.wake.fds, e);
    var w := Apply(u, Sel(ss));
    InvStep(u, Sel(ss), w);
    InvLocks(u);
    VisitKeepsRest(u, ss, w);
    VisitedOnCom(u);
    OnceOnCom(u, id);
    PlacesOne(com, fates, i, s.q.free, s.q.act, u.q);
    steps, v := [Sel(ss)], w;
    assert steps[1..] == [];
    if fates[i] == ToAction {
      var rest;
      rest, v := HandsOn(w, id, com[i..][1..]);
      steps := [Sel(ss)] + rest;
      assert steps[1..] == rest;
    }
    assert com[i..][1..] == com[i + 1..] && com[..i + 1] == com[..i] + [id];
  }

  lemma {:induction false} LoopRefinesFrom(s: State, events: seq<Event>, left: seq<Conn>, fates: seq<Fate>,
                                           i: nat, u: State)
    returns (steps: seq<Step>, t: State)
    requires |events| == |left| == |fates| == |s.q.com| && i <= |s.q.com| && NoRepeats(s.q.com)
    requires forall id :: id in s.q.com ==> Valid(s, id)
    requires forall j :: 0 <= j < |events| ==> Delivered(ComConns(s)[j], events[j])
    requires AllPossible(ComConns(s), s.wake.fds.read, s.wake.fds.write, events)
    requires Visits(ComConns(s), s.wake.fds.read, s.wake.fds.write, events, left, fates)
    requires LoopAt(s, left, fates, i, u)
    ensures Run(u, steps) && Final(u, steps) == t && |steps| <= 3 * (|s.q.com| - i)
    ensures LoopAt(s, left, fates, |s.q.com|, t)
    decreases |s.q.com| - i
  {
    hide LoopAt, Run, Final, VisitOf, Leaves, Possible, Delivered;
    if i == |s.q.com| {
      steps, t := [], u;
      EmptyRun(u);
    } else {
      assert ComConns(s)[i] == ConnOf(s, s.q.com[i]);
      var first, v := OneVisit(s, events[i], left, fates, i, u);
      var rest;
      rest, t := LoopRefinesFrom(s, events, left, fates, i + 1, v);
      RunAppend(u, first, rest);
      steps := first + rest;
    }
  }

  lemma EmptyRun(u: State)
    ensures Run(u, []) && Final(u, []) == u
  {
  }

  /** What the sets say of the clients on com_queue makes every visit of the loop possible. */
  lemma LoopIsPossible(s: State, events: seq<Event>)
    requires Inv(s) && s.th.sel == Io(s.q.com) && |events| == |s.q.com|
    requires forall id :: id in s.q.com ==> Valid(s, id)
    requires forall j :: 0 <= j < |events| ==> Delivered(ComConns(s)[j], events[j])
    ensures AllPossible(ComConns(s), s.wake.fds.read, s.wake.fds.write, events)
  {
    hide ThreadInv, OwnInv, FdInv, WakeupInv, ListenInv, Receiving, Replying, Possible, Delivered;
    forall j | 0 <= j < |events|
      ensures Possible(ComConns(s)[j], s.wake.fds.read, s.wake.fds.write, events[j])
    {
      var id := s.q.com[j];
      assert Ready(s, id) && QueueConnOk(s, id) && Delivered(ComConns(s)[j], events[j]);
      VisitPossibleFor(ConnOf(s, id), s.wake.fds, events[j]);
    }
  }

  lemma VisitPossibleFor(c: Conn, fds: FdSets, e: Event)
    requires Delivered(c, e) && (Receiving(c) || Replying(c))
    requires (c.fd in fds.read ==> Receiving(c)) && (c.fd in fds.write ==> Replying(c))
    ensures Possible(c, fds.read, fds.write, e)
  {
    hide RecvStep, RecvReq, Prepare, SendReq;
    if c.fd in fds.read && e.recv.Received? {
      VisitReadKeeps(c, e.recv.data);
    }
    if c.fd in fds.write {
      SendStays(c, e.send);
    }
  }

  /**
   The I/O loop of the selector on the heap refines the server: whatever the loop leaves in the
   clients, in the two queues and in the pool, for any results of the calls, is what a run of the
   selector's steps leaves there, and nothing else changes.
   */
  lemma LoopRefines(s: State, events: seq<Event>, left: seq<Conn>, fates: seq<Fate>)
    returns (steps: seq<Step>, t: State)
    requires Inv(s) && s.th.sel == Io(s.q.com) && s.th.actOwner == Nobody
    requires |events| == |left| == |fates| == |s.q.com|
    requires forall id :: id in s.q.com ==> Valid(s, id)
    requires forall j :: 0 <= j < |events| ==> Delivered(ComConns(s)[j], events[j])
    requires AllPossible(ComConns(s), s.wake.fds.read, s.wake.fds.write, events) ==>
               Visits(ComConns(s), s.wake.fds.read, s.wake.fds.write, events, left, fates)
    ensures AllPossible(ComConns(s), s.wake.fds.read, s.wake.fds.write, events)
    ensures Run(s, steps) && Final(s, steps) == t && |steps| <= 3 * |s.q.com|
    ensures Inv(t) && t.th.sel == Io([]) && t.wake == s.wake && t.net.calls == s.net.calls
    ensures t.q.com == With(s.q.com, fates, Stay)
    ensures t.q.act == s.q.act + With(s.q.com, fates, ToAction)
    ensures t.q.free == s.q.free + With(s.q.com, fates, Close)
    ensures forall j :: 0 <= j < |s.q.com| ==> Valid(t, s.q.com[j]) && ConnOf(t, s.q.com[j]) == left[j]
    ensures forall id :: Valid(s, id) && id !in s.q.com ==> Valid(t, id) && ConnOf(t, id) == ConnOf(s, id)
  {
    hide Inv, Run, Final, With, Visits, AllPossible, Delivered, OwnInv, FdInv, QueueConnOk;
    InvClients(s);
    QueuedApart(s);
    LoopIsPossible(s, events);
    LoopStarts(s, left, fates);
    steps, t := LoopRefinesFrom(s, events, left, fates, 0, s);
    var com := s.q.com;
    assert com[..|com|] == com && fates[..|com|] == fates && com[|com|..] == [];
    assert With(com, fates, Stay) + [] == With(com, fates, Stay);
  }

  lemma LoopStarts(s: State, left: seq<Conn>, fates: seq<Fate>)
    requires Inv(s) && s.th.sel == Io(s.q.com) && s.th.actOwner == Nobody && |left| == |fates| == |s.q.com|
    ensures LoopAt(s, left, fates, 0, s)
  {
    hide Inv;
    var com := s.q.com;
    assert com[0..] == com && com[..0] == [];
    assert [] + com == com && s.q.act + [] == s.q.act && s.q.free + [] == s.q.free;
  }
}
