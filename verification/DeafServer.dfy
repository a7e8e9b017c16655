/**
 Runs, for a server with any number of client objects, into the state that ServerDefects calls
 deaf: as many clients as there are objects ask for the version, and the workers close their
 connections while the selector waits without the listening socket.
 */
module DeafServer {
  import opened Wire
  import opened Connection
  import opened Phases
  import opened Fencing
  import opened ServerProtocol
  import opened ServerDefects
  import opened ServerTheorems
  import opened ServerRuns

  /** The version request: a header and nothing else. */
  const REQUEST: seq<byte> := [0, 2, 0, 4]

  lemma RequestNeed()
    ensures DecodeHeader(REQUEST) == Header(VERSION_REQUEST, 4) && Need(REQUEST) == |REQUEST| == 4
  {
  }

  lemma RequestServed(fd: int)
    ensures Pending(fd, REQUEST).ioOffset <= |Pending(fd, REQUEST).ioBuffer| && Pending(fd, REQUEST).fd == fd
    ensures Process(Pending(fd, REQUEST), false) == Outcome(Pending(fd, REQUEST).(phase := EXECUTING), [], false)
  {
    RequestNeed();
  }

  // ----- the clients come

  /** `k` clients have asked; the one with object `id` has descriptor `id`. */
  ghost predicate Crowd(s: State, n: nat, k: nat) {
    && k <= n && Quiet(s)
    && s.th.workers == seq(n, _ => LoopWait) && s.th.actOwner == Nobody && !s.th.stopWorkers
    && s.q == Queues(seq(n - k, i => i), [], seq(k, i => n - 1 - i), [])
    && |s.net.conns| == n
    && (forall id :: 0 <= id < n - k ==> s.net.conns[id].fd == FD_NONE)
    && (forall id :: n - k <= id < n ==> s.net.conns[id] == Pending(id, REQUEST))
  }

  lemma CrowdGrows(start: State, s: State, n: nat, k: nat)
    requires Leads(start, s) && Crowd(s, n, k) && k < n
    ensures s.q.free != [] && Valid(s, Top(s)) && |REQUEST| <= IO_BUFFER_SIZE
    ensures Leads(start, HasAsked(s, n - 1 - k, REQUEST)) && Crowd(HasAsked(s, n - 1 - k, REQUEST), n, k + 1)
  {
    hide Leads, Pending, Quiet;
    RequestNeed();
    forall id | n - k <= id < n ensures s.net.conns[id].fd == id { RequestServed(id); }
    assert Top(s) == n - 1 - k && !AnyWaiting(s.th.workers);
    QuietConnects(s, n - 1 - k);
    ClientAsks(start, s, n - 1 - k, REQUEST);
    CrowdOfOneMore(s, n, k);
  }

  lemma CrowdOfOneMore(s: State, n: nat, k: nat)
    requires Crowd(s, n, k) && k < n && Top(s) == n - 1 - k && Quiet(HasAsked(s, n - 1 - k, REQUEST))
    ensures Crowd(HasAsked(s, n - 1 - k, REQUEST), n, k + 1)
  {
    hide Pending, Quiet;
    var t := HasAsked(s, n - 1 - k, REQUEST);
    assert t.q.act == seq(k + 1, i => n - 1 - i);
    assert t.q.free == seq(n - k - 1, i => i);
  }

  lemma {:induction false} ClientsCome(n: nat, k: nat) returns (s: State)
    requires k <= n
    ensures Leads(PoolOf(n), s) && Crowd(s, n, k)
    decreases k
  {
    hide Leads, Crowd, PoolOf;
    if k == 0 {
      ComesUp(n);
      s := Up(n);
      NoCrowd(n);
    } else {
      var t := ClientsCome(n, k - 1);
      CrowdGrows(PoolOf(n), t, n, k - 1);
      s := HasAsked(t, n - k, REQUEST);
    }
  }

  lemma NoCrowd(n: nat)
    ensures Crowd(Up(n), n, 0)
  {
    ComesUp(n);
  }

  // ----- and go

  const NOTHING := FdSets({}, {}, false, true)

  /** The selector waits for nothing but the trigger pipe; `j` workers have closed their clients. */
  ghost predicate Emptying(s: State, n: nat, j: nat) {
    && j <= n && s.th.sel == Select && s.th.comOwner == Nobody && s.th.actOwner == Nobody && !s.th.stopWorkers
    && s.wake.fds == NOTHING && s.wake.pipe == 0
    && |s.th.workers| == n
    && (forall w :: 0 <= w < n ==> s.th.workers[w] == if w < j then Relock else LoopWait)
    && s.q.com == [] && |s.q.free| == j && s.q.act == seq(n - j, i => n - 1 - j - i)
    && |s.net.conns| == n
    && (forall id :: 0 <= id < n - j ==> s.net.conns[id] == Pending(id, REQUEST))
  }

  lemma SelectorWaits(n: nat) returns (s: State)
    ensures Leads(PoolOf(n), s) && Emptying(s, n, 0)
  {
    hide Leads, Pending, Quiet, PoolOf;
    var t := ClientsCome(n, n);
    assert FdsOf(t, READ) == {} && FdsOf(t, WRITE) == {};
    QuietFacts(t);
    Builds(PoolOf(n), t);
    s := WithFds(AtSel(t, Select, Nobody), Watched(t));
  }

  lemma QuietFacts(s: State)
    requires Quiet(s)
    ensures s.wake.pipe == 0 && forall id :: id in s.q.com ==> Valid(s, id)
  {
  }

  lemma OneGoes(start: State, s: State, n: nat, j: nat) returns (t: State)
    requires Leads(start, s) && Emptying(s, n, j) && j < n
    ensures Leads(start, t) && Emptying(t, n, j + 1)
  {
    hide Leads, Pending, Process;
    var c := n - 1 - j;
    RequestServed(c);
    assert s.q.act[0] == c && s.q.act[1..] == seq(n - j - 1, i => n - 2 - j - i);
    Takes(start, s, j);
    var s1 := AtWorker(s, j, Exec(c), Nobody).(q := s.q.(act := s.q.act[1..]));
    Serves(start, s1, j, c);
    t := Gone(s, j, c);
    Goes(start, s, s1, j, c, t);
  }

  /** The worker has closed the client. */
  function Gone(s: State, j: nat, c: Id): State
    requires j < |s.th.workers| && Valid(s, c) && s.q.act != []
  {
    s.(th := s.th.(workers := s.th.workers[j := Relock]), q := s.q.(act := s.q.act[1..], free := s.q.free + [c]),
       net := CloseConn(s.net, c))
  }

  lemma Goes(start: State, s: State, s1: State, j: nat, c: Id, t: State)
    requires j < |s.th.workers| && Valid(s, c) && s.q.act != [] && t == Gone(s, j, c) && ConnOf(s, c).fd == c
    requires s.th.actOwner == Nobody
    requires s1 == AtWorker(s, j, Exec(c), Nobody).(q := s.q.(act := s.q.act[1..]))
    requires Leads(start, s1.(th := s1.th.(workers := s1.th.workers[j := CloseFree(c)]),
                              net := s1.net.(conns := s1.net.conns[c := ConnOf(s, c).(phase := EXECUTING)])))
    ensures Leads(start, t)
  {
    hide Leads;
    var s2 := s1.(th := s1.th.(workers := s1.th.workers[j := CloseFree(c)]),
                  net := s1.net.(conns := s1.net.conns[c := ConnOf(s, c).(phase := EXECUTING)]));
    assert s2.th.workers[j := Relock] == s.th.workers[j := Relock];
    assert s2.net.conns[c := CLEARED] == s.net.conns[c := CLEARED];
    Go(start, s2, Work(j, CloseDetached), t);
  }

  lemma {:induction false} ClientsGo(n: nat, j: nat) returns (s: State)
    requires j <= n
    ensures Leads(PoolOf(n), s) && Emptying(s, n, j)
    decreases j
  {
    hide Leads, Emptying, PoolOf;
    if j == 0 {
      s := SelectorWaits(n);
    } else {
      var t := ClientsGo(n, j - 1);
      s := OneGoes(PoolOf(n), t, n, j - 1);
    }
  }

  /**
   The deaf state is reachable for every size of the pool: after one ordinary request from each
   client the whole pool is free, yet the selector waits without the listening socket, and only
   an external event can change that.
   */
  lemma DeafStateReachable(n: nat)
    requires n >= 1
    ensures exists s ::
              && Reached(s) && |s.net.conns| == n && Deaf(s) && |s.q.free| == n
              && forall steps :: Run(s, steps) && (forall i :: 0 <= i < |steps| ==> !External(steps[i]))
                                 ==> Deaf(Final(s, steps))
  {
    hide Leads, Reached, Init, PoolOf, Deaf, Emptying;
    var s := ClientsGo(n, n);
    ComesUp(n);
    LeadsReached(PoolOf(n), s);
    IsDeaf(s, n);
    forall steps | Run(s, steps) && forall i :: 0 <= i < |steps| ==> !External(steps[i])
      ensures Deaf(Final(s, steps))
    {
      DeafForever(s, steps);
    }
  }

  lemma IsDeaf(s: State, n: nat)
    requires Emptying(s, n, n)
    ensures |s.net.conns| == n && Deaf(s) && |s.q.free| == n
  {
  }
}
