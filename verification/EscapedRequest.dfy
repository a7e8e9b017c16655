/**
 Runs, for a server with any number of client objects, in which a fencing request names a node
 with 256 bytes: the worker loses the client and comes back to worker_loop without the lock.
 */
module EscapedRequest {
  import opened Wire
  import opened Connection
  import opened Phases
  import opened Fencing
  import opened ServerProtocol
  import opened ServerDefects
  import opened ServerInvariant
  import opened ServerJoin
  import opened ServerOwnership
  import opened ServerShutdown
  import opened ServerStop
  import opened ServerTheorems
  import opened ServerRuns
  import opened DeafServer
  import FencingClient
  import ServerConnections
  import E = EndToEnd

  /** 256 times "A" */
  function LongName(): (n: seq<byte>)
    ensures |n| == 256 && 0 !in n
  {
    seq(256, _ => 65)
  }

  lemma NameFits()
    ensures CStr(LongName()) == LongName()
    ensures FencingClient.RequestLength(LongName(), []) == 280 && FencingClient.Fits(LongName(), [])
  {
    assert CStr([]) == [];
  }

  /** What the client sends. */
  function OversizeRequest(): (m: seq<byte>)
    ensures |m| == 280
  {
    NameFits();
    FencingClient.Request(Off, LongName(), [])
  }

  lemma MessageNeed()
    ensures DecodeHeader(OversizeRequest()) == Header(FENCE_OFF, 280) && Need(OversizeRequest()) == 280
    ensures NamesTooLong(OversizeRequest())
  {
    hide FencingClient.Request, CStr, NamesTooLong;
    NameFits();
    E.RequestParsed(Off, LongName(), []);
  }

  const FD: int := 7

  lemma MessageFatal()
    ensures var c := Pending(FD, OversizeRequest());
            && c.ioOffset <= |c.ioBuffer| && c.fd == FD && Fatal(c)
            && Process(c, false).escaped && Process(c, false).calls == [] && Process(c, false).conn.fd == FD
  {
    hide OversizeRequest, NamesTooLong, WellFormed, NodeOf, ParseLoop;
    MessageNeed();
    var c := Pending(FD, OversizeRequest());
    assert Payload(c) == OversizeRequest() && Payload(c.(phase := EXECUTING)) == OversizeRequest();
    ParseFromClear(OversizeRequest());
  }

  /** The first worker has lost the client, whose object is the last one; its program point is `pc`. */
  function Escaped(n: nat, pc: WorkPc): State
    requires n >= 1
  {
    var s := HasAsked(Up(n), FD, OversizeRequest());
    s.(th := s.th.(workers := s.th.workers[0 := pc]),
       q := s.q.(act := [], lost := [n - 1]),
       net := s.net.(conns := s.net.conns[n - 1 := Process(Pending(FD, OversizeRequest()), false).conn]))
  }

  lemma Escapes(n: nat)
    requires n >= 1
    ensures Init(PoolOf(n)) && Leads(PoolOf(n), Escaped(n, Unowned))
  {
    hide Leads, Pending, Process, Fatal, Quiet, OversizeRequest;
    ComesUp(n);
    MessageNeed();
    MessageFatal();
    FirstIsTaken(n, FD, OversizeRequest());
    var s, s1 := HasAsked(Up(n), FD, OversizeRequest()), FirstTaken(n, FD, OversizeRequest());
    assert s1.net.calls + [] == s1.net.calls && s1.q.lost + [n - 1] == [n - 1];
    assert s1.th.workers[0 := Unowned] == s.th.workers[0 := Unowned];
    Go(PoolOf(n), s1, Work(0, Execute(false)), Escaped(n, Unowned));
  }

  /**
   An exception that leaves a client without an owner is reachable for every size of the pool:
   the descriptor stays open for good.
   */
  lemma EscapeReachable(n: nat)
    requires n >= 1
    ensures var s := Escaped(n, Unowned);
            && Reached(s) && |s.net.conns| == n && s.q.lost == [n - 1] && Leaked(s, n - 1) && !Partitioned(s)
  {
    hide Leads, Pending, Process, Reached, Init, OversizeRequest, Leaked, PoolOf, Inv, OwnInv;
    Escapes(n);
    PoolSize(n);
    var s := Escaped(n, Unowned);
    LeadsReached(PoolOf(n), s);
    ReachedInv(s);
    InvPlaces(s);
    LostLeaked(s, n - 1);
  }

  lemma LostLeaked(s: State, id: Id)
    requires OwnInv(s) && id in s.q.lost && ServerConnections.QueueConnOk(s, id)
    ensures Leaked(s, id)
  {
    hide OwnInv, ServerConnections.QueueConnOk;
    PlacesExact(s, id);
    LostOpen(s, id);
  }

  // ----- the worker goes on without the lock

  /** The worker has passed the test of stop_workers, and then the server is stopped. */
  function WentAstray(n: nat, sel: SelPc, act: Owner): State
    requires n >= 1
  {
    var s := Escaped(n, UnownedWait);
    s.(th := s.th.(sel := sel, actOwner := act), wake := s.wake.(flag := true, pipe := 1))
  }

  lemma GoesAstray(n: nat)
    requires n >= 1
    ensures Init(PoolOf(n)) && Leads(PoolOf(n), WentAstray(n, Check, Nobody))
  {
    hide Leads, Pending, Process, OversizeRequest;
    Escapes(n);
    var s, s1 := Escaped(n, Unowned), Escaped(n, UnownedWait);
    assert s.th.workers[0 := UnownedWait] == s1.th.workers;
    Go(PoolOf(n), s, Work(0, UnownedTest), s1);
    Go(PoolOf(n), s1, Signal, WentAstray(n, Check, Nobody));
  }

  /**
   Loss of mutual exclusion is reachable for every size of the pool: the worker gives up the
   action queue's mutex while the selector has it and closes the clients on that queue.
   */
  lemma IntrusionReachable(n: nat)
    requires n >= 1
    ensures var s, step := WentAstray(n, ActDrain, Selector), Work(0, Release);
            && Reached(s) && |s.net.conns| == n
            && WrittenEnabled(s, step) && s.th.actOwner == Selector && !LockInv(WrittenApply(s, step).th)
  {
    hide Leads, Pending, Process, OversizeRequest, Init, Reached, Inv, PoolOf, LockInv;
    GoesAstray(n);
    PoolSize(n);
    var s, step := WentAstray(n, ActDrain, Selector), Work(0, Release);
    Go(PoolOf(n), WentAstray(n, Check, Nobody), Sel(CheckSignal), WentAstray(n, ActWait, Nobody));
    Go(PoolOf(n), WentAstray(n, ActWait, Nobody), Sel(AcquireAct), s);
    LeadsReached(PoolOf(n), s);
    ReachedInv(s);
    assert s.th.workers[0] == UnownedWait;
    ReleaseExact(s, 0);
  }

  /**
   A worker that misses the last notification is reachable: from there the destructor of the
   worker pool can finish only with a spurious wakeup.
   */
  lemma MissedStopReachable(n: nat)
    requires n >= 1
    ensures exists s :: Reached(s) && |s.net.conns| == n && s.th.sel == Join && !NoneMissed(s)
  {
    hide Leads, Reached, Init, Pending, Process, OversizeRequest, Inv, Bystanders, PoolOf;
    GoesAstray(n);
    PoolSize(n);
    var s := WentAstray(n, Check, Nobody);
    LeadsReached(PoolOf(n), s);
    ReachedInv(s);
    var steps := StopReachesJoin(s);
    var t := Final(s, steps);
    LeadsOn(PoolOf(n), s, steps);
    LeadsReached(PoolOf(n), t);
    SamePool(s, steps);
    SameSize(s, t);
    StillThere(s, t);
  }

  lemma SameSize(s: State, t: State)
    requires forall id :: Valid(t, id) <==> Valid(s, id)
    ensures |t.net.conns| == |s.net.conns|
  {
    var n, m := |s.net.conns|, |t.net.conns|;
    assert Valid(s, n) <==> Valid(t, n);
    assert Valid(s, m) <==> Valid(t, m);
  }

  lemma StillThere(s: State, t: State)
    requires Bystanders(s, t) && |s.th.workers| > 0 && s.th.workers[0] == UnownedWait
    ensures !NoneMissed(t)
  {
    assert t.th.workers[0].UnownedWait?;
  }

  lemma LeadsOn(start: State, s: State, steps: seq<Step>)
    requires Leads(start, s) && Run(s, steps)
    ensures Leads(start, Final(s, steps))
  {
    hide Enabled, Apply;
    var first :| Run(start, first) && Final(start, first) == s;
    RunAppend(start, first, steps);
  }
}
