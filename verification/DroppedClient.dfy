/**
 Runs, for a server with two or more client objects, in which closing one client drops another:
 one client asks for the version, the other is accepted while a worker serves the first.
 */
module DroppedClient {
  import opened Wire
  import opened Connection
  import opened Phases
  import opened Fencing
  import opened ServerProtocol
  import opened ServerDefects
  import opened ServerInvariant
  import opened ServerTheorems
  import opened ServerRuns
  import opened DeafServer

  const FD: int := 7
  const OTHER_FD: int := 8

  /** The other client is connected; the worker is about to close the first one. */
  function Closing(n: nat): State
    requires n >= 2
  {
    var s := WithClient(FirstTaken(n, FD, REQUEST), OTHER_FD);
    s.(th := s.th.(workers := s.th.workers[0 := CloseFree(n - 1)]),
       net := s.net.(conns := s.net.conns[n - 1 := Pending(FD, REQUEST).(phase := EXECUTING)]))
  }

  lemma ComesToClose(n: nat)
    requires n >= 2
    ensures Leads(PoolOf(n), Closing(n)) && Closing(n).q.com == [n - 2] && Valid(Closing(n), n - 1)
  {
    hide Leads, Pending, Accepted, Process, Quiet;
    RequestNeed();
    FirstIsTaken(n, FD, REQUEST);
    RequestServed(FD);
    var s := FirstTaken(n, FD, REQUEST);
    assert s.q.com + [n - 2] == [n - 2];
    Accepts(PoolOf(n), s, OTHER_FD);
    Serves(PoolOf(n), WithClient(s, OTHER_FD), 0, n - 1);
  }

  /**
   A close that drops another client is reachable for every pool of at least two objects: the
   second client, which has only just connected, is left without an owner and with its
   descriptor open.
   */
  lemma DropReachable(n: nat)
    requires n >= 2
    ensures Reached(Closing(n)) && |Closing(n).net.conns| == n
    ensures WrittenEnabled(Closing(n), Work(0, CloseDetached)) && Drops(Closing(n), Work(0, CloseDetached))
    ensures Leaked(WrittenApply(Closing(n), Work(0, CloseDetached)), n - 2)
    ensures !Partitioned(WrittenApply(Closing(n), Work(0, CloseDetached)))
  {
    hide Leads, Pending, Accepted, Reached, Init, Inv, Leaked, Partitioned, PoolOf;
    ComesToClose(n);
    ComesUp(n);
    PoolSize(n);
    LeadsReached(PoolOf(n), Closing(n));
    ReachedInv(Closing(n));
    DropsThere(Closing(n), n);
    WrittenCloseExact(Closing(n), Work(0, CloseDetached));
  }

  lemma DropsThere(s: State, n: nat)
    requires |s.th.workers| > 0 && s.th.workers[0] == CloseFree(n - 1) && Valid(s, n - 1) && s.q.com == [n - 2]
    ensures WrittenEnabled(s, Work(0, CloseDetached)) && Drops(s, Work(0, CloseDetached))
    ensures Apply(s, Work(0, CloseDetached)).q.com == [n - 2]
  {
  }
}
