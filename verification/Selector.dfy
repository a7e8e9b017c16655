/**
 The selector's I/O loop and cleanup on the heap: clients are unlinked, freed and moved
 to the other queue while the loop walks along the links of the first.
 */
module SelectorLoops {
  import opened Wire
  import opened Connection
  import opened Phases
  import opened Fencing
  import opened NetClients
  import opened IntrusiveQueue
  import opened FixedPool

  type ClientNode = Node<NetClient>

  function First(s: seq<ClientNode>): seq<ClientNode> {
    if s == [] then [] else [s[0]]
  }

  /** The clients of these nodes share nothing. */
  ghost predicate Spread(s: seq<ClientNode>) {
    && Distinct(s)
    && forall i, j :: 0 <= i < |s| && 0 <= j < |s| && i != j ==>
         && s[i].owner != s[j].owner && s[i].owner.header != s[j].owner.header
         && s[i].owner.ioBuffer != s[j].owner.ioBuffer
  }

  /** The members of `s` that met the given fate, in order. */
  function With<T>(s: seq<T>, fates: seq<Fate>, fate: Fate): seq<T>
    requires |s| == |fates|
  {
    if s == [] then []
    else
      var n := |s| - 1;
      With(s[..n], fates[..n], fate) + (if fates[n] == fate then [s[n]] else [])
  }

  lemma WithMore<T>(s: seq<T>, fates: seq<Fate>, fate: Fate, f: Fate)
    requires |fates| < |s|
    ensures var i := |fates|;
            With(s[..i + 1], fates + [fate], f) == With(s[..i], fates, f) + (if f == fate then [s[i]] else [])
  {
    var i := |fates|;
    assert s[..i + 1][..i] == s[..i] && (fates + [fate])[..i] == fates;
  }

  /** A member is among those of its own fate and of no other. */
  lemma {:induction false} WithExact<T>(s: seq<T>, fates: seq<Fate>, i: int, f: Fate)
    requires |s| == |fates| && 0 <= i < |s| && (forall j, k :: 0 <= j < k < |s| ==> s[j] != s[k])
    ensures s[i] in With(s, fates, f) <==> fates[i] == f
  {
    var n := |s| - 1;
    if i < n {
      WithExact(s[..n], fates[..n], i, f);
    } else {
      WithFrom(s[..n], fates[..n], f);
      assert s[n] !in s[..n];
    }
  }

  lemma {:induction false} WithFrom<T>(s: seq<T>, fates: seq<Fate>, f: Fate)
    requires |s| == |fates|
    ensures forall x :: x in With(s, fates, f) ==> x in s
  {
    if s != [] {
      WithFrom(s[..|s| - 1], fates[..|s| - 1], f);
    }
  }

  /** The objects that make up the clients of `s`. */
  ghost function Storage(s: seq<ClientNode>): set<object> {
    (set n | n in s :: n.owner) + (set n | n in s :: n.owner.header) + (set n | n in s :: n.owner.ioBuffer)
  }

  lemma Stored(s: seq<ClientNode>, i: int)
    requires 0 <= i < |s|
    ensures s[i].owner in Storage(s) && s[i].owner.header in Storage(s) && s[i].owner.ioBuffer in Storage(s)
  {
    assert s[i] in s;
  }

  /** The states of the clients of `s`. */
  ghost predicate ViewsAre(s: seq<ClientNode>, v: seq<Conn>)
    reads Storage(s)
  {
    |v| == |s| && forall j :: 0 <= j < |s| ==> s[j].owner.View() == v[j]
  }

  /** What a visit leaves in the client object: one that is closed is cleared. */
  ghost function Leaves(c: Conn, read: set<int>, write: set<int>, e: Event): Conn
    requires Possible(c, read, write, e)
  {
    var (c1, fate) := VisitOf(c, read, write, e);
    if fate == Close then CLEARED else c1
  }

  /** The descriptors of the clients of `s` that wait for the given operation. */
  ghost function FdsWith(s: seq<ClientNode>, op: IoOp): set<int>
    reads set n | n in s :: n.owner
  {
    set i | 0 <= i < |s| && s[i].owner.ioState == op :: s[i].owner.socketFd
  }

  ghost predicate AllPossible(was: seq<Conn>, read: set<int>, write: set<int>, events: seq<Event>) {
    |events| == |was| && forall i :: 0 <= i < |was| ==> Possible(was[i], read, write, events[i])
  }

  /** The first |fates| clients were visited, each in the state it had in `was`, the others not at all. */
  ghost predicate Visits(was: seq<Conn>, read: set<int>, write: set<int>, events: seq<Event>,
                         left: seq<Conn>, fates: seq<Fate>)
    requires AllPossible(was, read, write, events)
  {
    && |left| == |was| && |fates| <= |was|
    && (forall i :: 0 <= i < |fates| ==>
         && fates[i] == VisitOf(was[i], read, write, events[i]).1
         && left[i] == Leaves(was[i], read, write, events[i]))
    && (forall i :: |fates| <= i < |was| ==> left[i] == was[i])
  }

  class ServerConnector {
    const com: Queue<NetClient>
    const act: Queue<NetClient>
    const pool: GenAlloc<ClientNode>
    /** Every descriptor passed to close, in order. */
    var closedFds: seq<int>

    constructor (clients: seq<ClientNode>)
      requires NoDuplicates(clients)
      requires forall n :: n in clients ==> n.owner.ioBuffer.Length == IO_BUFFER_SIZE
      requires forall m, n :: m in clients && n in clients && m != n ==>
                 m.owner != n.owner && m.owner.header != n.owner.header && m.owner.ioBuffer != n.owner.ioBuffer
      ensures Ok() && com.Contents == [] && act.Contents == [] && pool.pool == clients && closedFds == []
    {
      com := new Queue();
      act := new Queue();
      pool := new GenAlloc(clients);
      closedFds := [];
    }

    /** No two clients share storage, and none shares it with the pool. */
    ghost predicate Separate()
    {
      && (forall n :: n in pool.pool ==>
           && n.owner.ioBuffer.Length == IO_BUFFER_SIZE
           && (n.owner.ioBuffer as object) != (pool.freeList as object))
      && (forall m, n :: m in pool.pool && n in pool.pool && m != n ==>
           m.owner != n.owner && m.owner.header != n.owner.header && m.owner.ioBuffer != n.owner.ioBuffer)
    }

    /** Both queues and the pool are well formed. */
    ghost predicate Shape()
      reads this, com, com.Contents, act, act.Contents, pool, pool.freeList
    {
      com != act && Separate() && com.Linked() && act.Linked() && pool.Valid()
    }

    /** And the queues hold live objects only, none of them in both. */
    ghost predicate Ok()
      reads this, com, com.Contents, act, act.Contents, pool, pool.freeList
    {
      && Shape()
      && (forall i :: 0 <= i < |com.Contents| ==> com.Contents[i] in pool.Live())
      && (forall i :: 0 <= i < |act.Contents| ==> act.Contents[i] in pool.Live())
      && (forall i, j :: 0 <= i < |com.Contents| && 0 <= j < |act.Contents| ==> com.Contents[i] != act.Contents[j])
    }

    /** The end of close_connection: clear and deallocate. */
    method Recycle(n: ClientNode)
      requires Shape() && n in pool.Live()
      modifies pool, pool.freeList, n.owner, n.owner.header, n.owner.ioBuffer
      ensures Shape() && pool.Live() == old(pool.Live()) - {n} && n.owner.View() == CLEARED
    {
      hide GenAlloc.Live, GenAlloc.Valid, Queue.Linked;
      LiveInPool(n);
      n.owner.Clear();
      assert pool.Valid() && pool.Live() == old(pool.Live());
      pool.Deallocate(n);
      com.Untouched();
      act.Untouched();
    }

    /**
     close_connection as written. `k` is the position of the client on com_queue, or -1 if
     it is on no queue; then com_queue is emptied without closing the clients on it.
     */
    method CloseConnection(n: ClientNode, ghost k: int)
      requires Ok() && n in pool.Live() && n !in act.Contents
      requires if k == -1 then n !in com.Contents && n.Unlinked() else 0 <= k < |com.Contents| && com.Contents[k] == n
      modifies this, com, com.Contents, n, pool, pool.freeList, n.owner, n.owner.header, n.owner.ioBuffer
      ensures Ok() && n.Unlinked()
      ensures com.Contents == if k == -1 then [] else Cut(old(com.Contents), k)
      ensures act.Contents == old(act.Contents)
      ensures pool.Live() == old(pool.Live()) - {n}
      ensures n.owner.View() == CLEARED
      ensures closedFds == old(closedFds) + (if old(n.owner.socketFd) >= 0 then [old(n.owner.socketFd)] else [])
    {
      hide GenAlloc.Live, GenAlloc.Valid, Queue.Linked, Separate;
      com.MembersDistinct();
      if k != -1 {
        CutKeeps(com.Contents, k);
      }
      if n.owner.socketFd >= 0 {
        closedFds := closedFds + [n.owner.socketFd];
      }
      com.Remove(n, k);
      act.Untouched();
      assert pool.Valid() && pool.Live() == old(pool.Live());
      Recycle(n);
    }

    /**
     accept_connection, with what accept returned: a free object, if there is one, becomes a
     client that is ready to receive, at the end of com_queue; no other client is touched.
     */
    method AcceptConnection(fd: int) returns (added: Option<ClientNode>)
      requires Ok()
      modifies com, com.Contents, pool`allocIndex, pool.Free(), Storage(pool.Free())
      ensures Ok() && act.Contents == old(act.Contents)
      ensures added.None? <==> old(pool.Live()) == Elements(pool.pool)
      ensures added.None? ==> com.Contents == old(com.Contents) && pool.Live() == old(pool.Live())
      ensures added.Some? ==>
                && com.Contents == old(com.Contents) + [added.value]
                && added.value !in old(pool.Live()) && pool.Live() == old(pool.Live()) + {added.value}
                && added.value.owner.View() == Accepted(fd)
    {
      hide Ok, GenAlloc.Live, GenAlloc.Valid, Queue.Linked, Elements;
      added := TakeFree();
      if added.Some? {
        var n := added.value;
        label taken:
        OwnBuffer(n);
        WasFree(n);
        n.owner.Connect(fd);
        Undisturbed@taken();
        Requeue(n);
      }
    }

    method TakeFree() returns (obj: Option<ClientNode>)
      requires Ok()
      modifies pool`allocIndex
      ensures Ok() && old(pool.Valid())
      ensures obj.None? <==> old(pool.Live()) == Elements(pool.pool)
      ensures obj.None? ==> pool.Live() == old(pool.Live())
      ensures obj.Some? ==>
                && obj.value in pool.pool && obj.value !in old(pool.Live())
                && obj.value !in com.Contents && obj.value !in act.Contents
                && pool.Live() == old(pool.Live()) + {obj.value}
    {
      hide GenAlloc.Live, GenAlloc.Valid, Queue.Linked, Elements;
      obj := pool.Allocate();
      com.Untouched();
      act.Untouched();
    }

    twostate lemma WasFree(n: ClientNode)
      requires old(pool.Valid()) && n in pool.pool && n !in old(pool.Live())
      ensures n in old(pool.Free())
      ensures n.owner in Storage(old(pool.Free())) && n.owner.header in Storage(old(pool.Free()))
      ensures n.owner.ioBuffer in Storage(old(pool.Free()))
    {
    }

    /**
     One turn of process_action_queue as written, without another thread in between: the first
     client is served, then goes back to com_queue, or is closed, which drops whatever is on
     com_queue. If an exception escapes, the client is left in no place.
     */
    method ServeNext(stopped: bool, ok: bool) returns (served: Node?<NetClient>, calls: seq<Call>, escaped: bool)
      requires Ok()
      requires act.Contents != [] ==> act.Contents[0].owner.ioOffset <= IO_BUFFER_SIZE
      modifies this, com, com.Contents, act, act.Contents, pool, pool.freeList, Storage(First(act.Contents))
      ensures Ok() && served == NodeAt(old(act.Contents), 0)
      ensures served == null ==>
                && calls == [] && !escaped
                && act.Contents == [] && com.Contents == old(com.Contents) && pool.Live() == old(pool.Live())
      ensures served != null ==>
                var o := Process(old(act.Contents[0].owner.View()), ok);
                var back := o.conn.phase == RECV || o.conn.phase == SEND;
                && calls == o.calls && escaped == o.escaped
                && act.Contents == old(act.Contents)[1..]
                && com.Contents == (if escaped then old(com.Contents)
                                    else if back && !stopped then old(com.Contents) + [served]
                                    else [])
                && pool.Live() == (if escaped || (back && !stopped) then old(pool.Live())
                                   else old(pool.Live()) - {served})
                && served.owner.View() == (if escaped || (back && !stopped) then o.conn else CLEARED)
    {
      hide Ok, GenAlloc.Live, GenAlloc.Valid, Queue.Linked, Process;
      calls, escaped := [], false;
      served := PopAction();
      if served != null {
        label taken:
        OwnBuffer(served);
        calls, escaped := served.owner.ProcessClientMessage(ok);
        Undisturbed@taken();
        if !escaped {
          if (served.owner.currentPhase == RECV || served.owner.currentPhase == SEND) && !stopped {
            Requeue(served);
          } else {
            CloseConnection(served, -1);
          }
        }
      }
    }

    lemma OwnBuffer(n: ClientNode)
      requires Ok() && n in pool.Live()
      ensures n.owner.ioBuffer.Length == IO_BUFFER_SIZE
    {
      LiveInPool(n);
    }

    method Requeue(n: ClientNode)
      requires Ok() && n in pool.Live() && n !in com.Contents && n !in act.Contents
      modifies com, com.Contents, n
      ensures Ok() && com.Contents == old(com.Contents) + [n]
      ensures act.Contents == old(act.Contents) && pool.Live() == old(pool.Live())
    {
      hide GenAlloc.Live, GenAlloc.Valid, Queue.Linked, Separate;
      com.AddLast(n);
      act.Untouched();
    }

    /** A client with a complete message goes from com_queue to the end of the action queue. */
    method MoveToAction(n: ClientNode, ghost k: int)
      requires Ok() && 0 <= k < |com.Contents| && com.Contents[k] == n
      modifies com, com.Contents, act, act.Contents
      ensures Ok()
      ensures com.Contents == Cut(old(com.Contents), k)
      ensures act.Contents == old(act.Contents) + [n]
      ensures pool.Live() == old(pool.Live())
    {
      hide GenAlloc.Live, GenAlloc.Valid, Queue.Linked, Separate;
      com.MembersDistinct();
      CutKeeps(com.Contents, k);
      com.Remove(n, k);
      act.Untouched();
      label removed:
      act.AddLast(n);
      com.Untouched@removed();
    }

    /** What the selector waits for: the trigger pipe is always watched besides. */
    method BuildSets() returns (read: set<int>, write: set<int>, listen: bool)
      requires Ok()
      ensures read == FdsWith(com.Contents, READ) && write == FdsWith(com.Contents, WRITE)
      ensures listen <==> |pool.Live()| < |pool.pool|
    {
      hide Ok, FdsWith, GenAlloc.Live;
      var free := FreeCount();
      listen := free >= 1;
      ghost var s := com.Contents;
      FdsNone(s);
      read, write := {}, {};
      var i := 0;
      var node := com.head;
      HeadOf();
      while node != null
        invariant 0 <= i <= |s| && node == NodeAt(s, i)
        invariant read == FdsWith(s[..i], READ) && write == FdsWith(s[..i], WRITE)
        decreases |s| - i
      {
        FdsMore(s, i);
        if node.owner.ioState == READ {
          read := read + {node.owner.socketFd};
        } else if node.owner.ioState == WRITE {
          write := write + {node.owner.socketFd};
        }
        NextOf(i);
        node := node.next;
        i := i + 1;
      }
      assert s[..|s|] == s;
    }

    method FreeCount() returns (n: nat)
      requires Ok()
      ensures n == |pool.pool| - |pool.Live()|
    {
      n := pool.GetFreeCount();
    }

    lemma HeadOf()
      requires Ok()
      ensures com.head == NodeAt(com.Contents, 0)
    {
    }

    lemma FdsNone(s: seq<ClientNode>)
      ensures forall op :: FdsWith(s[..0], op) == {}
    {
    }

    lemma FdsMore(s: seq<ClientNode>, i: int)
      requires 0 <= i < |s|
      ensures forall op :: FdsWith(s[..i + 1], op)
                        == FdsWith(s[..i], op) + (if s[i].owner.ioState == op then {s[i].owner.socketFd} else {})
    {
      var t, u := s[..i], s[..i + 1];
      forall op
        ensures FdsWith(u, op) == FdsWith(t, op) + (if s[i].owner.ioState == op then {s[i].owner.socketFd} else {})
      {
        assert forall j :: 0 <= j < i ==> u[j] == t[j];
        assert u[i] == s[i];
      }
    }

    /** One turn of the I/O loop: the client's own I/O, and the queue operation it leads to. */
    method VisitClient(n: ClientNode, ghost k: int, read: set<int>, write: set<int>, e: Event)
      returns (fate: Fate)
      requires Ok() && 0 <= k < |com.Contents| && com.Contents[k] == n
      requires Possible(n.owner.View(), read, write, e)
      modifies this, com, com.Contents, act, act.Contents, pool, pool.freeList
      modifies n.owner, n.owner.header, n.owner.ioBuffer
      ensures Ok()
      ensures fate == VisitOf(old(n.owner.View()), read, write, e).1
      ensures n.owner.View() == if fate == Close then CLEARED else VisitOf(old(n.owner.View()), read, write, e).0
      ensures com.Contents == if fate == Stay then old(com.Contents) else Cut(old(com.Contents), k)
      ensures act.Contents == if fate == ToAction then old(act.Contents) + [n] else old(act.Contents)
      ensures pool.Live() == if fate == Close then old(pool.Live()) - {n} else old(pool.Live())
    {
      hide GenAlloc.Live, GenAlloc.Valid, Queue.Linked, Separate, VisitOf, Possible;
      fate := n.owner.DoIo(read, write, e);
      Undisturbed();
      match fate
      case Stay =>
      case Close => CloseConnection(n, k);
      case ToAction => MoveToAction(n, k);
    }

    /** Queues and pool do not depend on what is inside the clients. */
    twostate lemma Undisturbed()
      requires old(Ok()) && unchanged(com) && unchanged(act) && unchanged(pool) && unchanged(pool.freeList)
      requires forall i :: 0 <= i < |com.Contents| ==> unchanged(com.Contents[i])
      requires forall i :: 0 <= i < |act.Contents| ==> unchanged(act.Contents[i])
      ensures Ok() && pool.Live() == old(pool.Live())
    {
      com.Untouched();
      act.Untouched();
    }

    /**
     One iteration: the next node is read before the visit, which may unlink or free this
     one. `stay` are the clients in front that stayed.
     */
    method Turn(node: ClientNode, ghost s: seq<ClientNode>, ghost i: int,
                ghost stay: seq<ClientNode>, read: set<int>, write: set<int>, e: Event)
      returns (next: Node?<NetClient>, fate: Fate)
      requires Ok() && 0 <= i < |s| && node == s[i] && com.Contents == stay + s[i..]
      requires Possible(node.owner.View(), read, write, e)
      modifies this, com, com.Contents, act, act.Contents, pool, pool.freeList
      modifies node.owner, node.owner.header, node.owner.ioBuffer
      ensures Ok() && next == NodeAt(s, i + 1)
      ensures fate == VisitOf(old(node.owner.View()), read, write, e).1
      ensures node.owner.View() == Leaves(old(node.owner.View()), read, write, e)
      ensures com.Contents == stay + (if fate == Stay then [node] else []) + s[i + 1..]
      ensures act.Contents == if fate == ToAction then old(act.Contents) + [node] else old(act.Contents)
      ensures pool.Live() == if fate == Close then old(pool.Live()) - {node} else old(pool.Live())
    {
      hide Ok, GenAlloc.Live, VisitOf, Possible, Cut, NodeAt;
      ghost var k := |stay|;
      ghost var q := com.Contents;
      CutAt(stay, s, i);
      NextOf(k);
      next := node.next;
      fate := VisitClient(node, k, read, write, e);
    }

    /**
     The same in terms of the states of all the clients, of which the others do not change; `a` are
     those that were on the action queue.
     */
    method NextTurn(node: ClientNode, ghost s: seq<ClientNode>, ghost a: seq<ClientNode>, ghost v: seq<Conn>,
                    ghost i: int, ghost stay: seq<ClientNode>, read: set<int>, write: set<int>, e: Event)
      returns (next: Node?<NetClient>, fate: Fate)
      requires Ok() && Spread(s) && 0 <= i < |s| && node == s[i] && com.Contents == stay + s[i..]
      requires |v| == |s| && ViewsAre(s, v) && Possible(v[i], read, write, e)
      requires forall k :: 0 <= k < |com.Contents| ==> com.Contents[k] in a + s
      requires forall k :: 0 <= k < |act.Contents| ==> act.Contents[k] in a + s
      modifies this, com, act, a + s, pool, pool.freeList, Storage(s)
      ensures Ok() && next == NodeAt(s, i + 1)
      ensures fate == VisitOf(v[i], read, write, e).1
      ensures ViewsAre(s, v[i := Leaves(v[i], read, write, e)])
      ensures com.Contents == stay + (if fate == Stay then [node] else []) + s[i + 1..]
      ensures act.Contents == if fate == ToAction then old(act.Contents) + [node] else old(act.Contents)
      ensures pool.Live() == if fate == Close then old(pool.Live()) - {node} else old(pool.Live())
    {
      hide Ok, GenAlloc.Live, VisitOf, Leaves, Possible, NetClient.View, NodeAt;
      Stored(s, i);
      next, fate := Turn(node, s, i, stay, read, write, e);
    }

    lemma NextOf(k: int)
      requires Ok() && 0 <= k < |com.Contents|
      ensures com.Contents[k].next == NodeAt(com.Contents, k + 1)
    {
    }

    lemma CutAt(stay: seq<ClientNode>, s: seq<ClientNode>, i: int)
      requires 0 <= i < |s|
      ensures var q := stay + s[i..];
              && q[|stay|] == s[i] && NodeAt(q, |stay| + 1) == NodeAt(s, i + 1)
              && Cut(q, |stay|) == stay + [] + s[i + 1..]
              && q == stay + [s[i]] + s[i + 1..]
    {
    }

    /**
     The I/O loop: it visits each client that com_queue held when the lock was taken exactly
     once and in order, with the state it had then, although the visits unlink clients, free
     them and link them into the other queue. The clients that stay keep their order, those
     with a complete message join the action queue in order, and the closed ones are free.
     */
    method IoLoop(read: set<int>, write: set<int>, events: seq<Event>, ghost was: seq<Conn>)
      returns (ghost left: seq<Conn>, ghost fates: seq<Fate>)
      requires Ok() && |was| == |com.Contents| && ViewsAre(com.Contents, was) && AllPossible(was, read, write, events)
      modifies this, com, com.Contents, act, act.Contents, pool, pool.freeList
      modifies Storage(com.Contents)
      ensures Ok() && |fates| == |was| == |old(com.Contents)|
      ensures Visits(was, read, write, events, left, fates) && ViewsAre(old(com.Contents), left)
      ensures com.Contents == With(old(com.Contents), fates, Stay)
      ensures act.Contents == old(act.Contents) + With(old(com.Contents), fates, ToAction)
      ensures pool.Live() == old(pool.Live()) - Elements(With(old(com.Contents), fates, Close))
      ensures forall i :: 0 <= i < |was| && Leaving(was[i], read, write, events[i]) ==>
                var n := old(com.Contents)[i];
                n !in com.Contents && n !in pool.Live() && n.owner.View() == CLEARED
    {
      hide Ok, GenAlloc.Live, VisitOf, Leaves, Possible, Elements, With, ViewsAre, Spread, AllPossible, Visits, Storage;
      ghost var s, live := com.Contents, pool.Live();
      var i := 0;
      fates, left := [], was;
      WithNone(s);
      Apart();
      VisitsNone(was, read, write, events);
      var node := com.head;
      while node != null
        invariant Ok() && 0 <= i <= |s| && |fates| == i
        invariant node == NodeAt(s, i)
        invariant com.Contents == With(s[..i], fates, Stay) + s[i..]
        invariant act.Contents == old(act.Contents) + With(s[..i], fates, ToAction)
        invariant pool.Live() == live - Elements(With(s[..i], fates, Close))
        invariant ViewsAre(s, left) && Visits(was, read, write, events, left, fates)
        decreases |s| - i
      {
        VisitsOne(was, read, write, events, left, fates);
        StillMembers(s, old(act.Contents), fates);
        var next, fate :=
          NextTurn(node, s, old(act.Contents), left, i, With(s[..i], fates, Stay), read, write, events[i]);
        StayOne(s, fates, fate);
        ActionOne(s, old(act.Contents), fates, fate);
        CloseOne(s, live, fates, fate);
        left := left[i := Leaves(was[i], read, write, events[i])];
        fates := fates + [fate];
        node := next;
        i := i + 1;
      }
      assert s[..|s|] == s;
      Departed(s, was, read, write, events, left, fates, live);
    }

    /** Who is leaving is gone after the loop. */
    lemma Departed(s: seq<ClientNode>, was: seq<Conn>, read: set<int>, write: set<int>, events: seq<Event>,
                   left: seq<Conn>, fates: seq<Fate>, live: set<ClientNode>)
      requires Spread(s) && |s| == |was| == |fates| && AllPossible(was, read, write, events)
      requires Visits(was, read, write, events, left, fates) && ViewsAre(s, left)
      ensures forall i :: 0 <= i < |was| && Leaving(was[i], read, write, events[i]) ==>
                && s[i] !in With(s, fates, Stay) && s[i] !in live - Elements(With(s, fates, Close))
                && s[i].owner.View() == CLEARED
    {
      hide With;
      forall i | 0 <= i < |was| && Leaving(was[i], read, write, events[i])
        ensures s[i] !in With(s, fates, Stay) && s[i] !in live - Elements(With(s, fates, Close))
        ensures s[i].owner.View() == CLEARED
      {
        WithExact(s, fates, i, Stay);
        WithExact(s, fates, i, Close);
      }
    }

    lemma VisitsNone(was: seq<Conn>, read: set<int>, write: set<int>, events: seq<Event>)
      requires AllPossible(was, read, write, events)
      ensures |events| == |was| && Visits(was, read, write, events, was, [])
    {
    }

    lemma VisitsOne(was: seq<Conn>, read: set<int>, write: set<int>, events: seq<Event>,
                    left: seq<Conn>, fates: seq<Fate>)
      requires AllPossible(was, read, write, events) && Visits(was, read, write, events, left, fates)
      requires |fates| < |was|
      ensures var i := |fates|;
              && |left| == |was| && left[i] == was[i] && Possible(was[i], read, write, events[i])
              && Visits(was, read, write, events, left[i := Leaves(was[i], read, write, events[i])],
                        fates + [VisitOf(was[i], read, write, events[i]).1])
    {
      hide VisitOf, Leaves, Possible;
    }

    method PopAction() returns (n: Node?<NetClient>)
      requires Ok()
      modifies act, act.Contents
      ensures Ok() && n == NodeAt(old(act.Contents), 0)
      ensures act.Contents == if n == null then [] else old(act.Contents)[1..]
      ensures com.Contents == old(com.Contents) && pool.Live() == old(pool.Live())
      ensures n != null ==> n.Unlinked() && n in pool.Live() && n !in com.Contents && n !in act.Contents
    {
      hide GenAlloc.Live, GenAlloc.Valid, Queue.Linked, Separate;
      act.MembersDistinct();
      n := act.RemoveFirst();
      com.Untouched();
    }

    method PopCom() returns (n: Node?<NetClient>)
      requires Ok()
      modifies com, com.Contents
      ensures Ok() && n == NodeAt(old(com.Contents), 0)
      ensures com.Contents == if n == null then [] else old(com.Contents)[1..]
      ensures act.Contents == old(act.Contents) && pool.Live() == old(pool.Live())
      ensures n != null ==> n.Unlinked() && n in pool.Live() && n !in com.Contents && n !in act.Contents
    {
      hide GenAlloc.Live, GenAlloc.Valid, Queue.Linked, Separate;
      com.MembersDistinct();
      n := com.RemoveFirst();
      act.Untouched();
    }

    /**
     cleanup, first part, as written: every client on the action queue is closed; if there
     was one, the clients on com_queue are dropped without being closed.
     */
    method CleanActions()
      requires Ok()
      modifies this, com, com.Contents, act, act.Contents, pool, pool.freeList
      modifies Storage(act.Contents)
      ensures Ok() && act.Contents == []
      ensures pool.Live() == old(pool.Live()) - Elements(old(act.Contents))
      ensures com.Contents == if old(act.Contents) == [] then old(com.Contents) else []
    {
      hide GenAlloc.Live, GenAlloc.Valid, Ok, Elements;
      ghost var s, live := act.Contents, pool.Live();
      var n := PopAction();
      ghost var i := 0;
      NoElements(s);
      while n != null
        invariant Ok() && 0 <= i <= |s|
        invariant n == NodeAt(s, i)
        invariant act.Contents == if i < |s| then s[i + 1..] else []
        invariant i < |s| ==> n.Unlinked() && n in pool.Live() && n !in com.Contents && n !in act.Contents
        invariant pool.Live() == live - Elements(s[..i])
        invariant com.Contents == if i == 0 then old(com.Contents) else []
        decreases |s| - i
      {
        CloseConnection(n, -1);
        n := PopAction();
        OneMore(s, i);
        i := i + 1;
      }
      assert s[..|s|] == s;
    }

    lemma NoElements(s: seq<ClientNode>)
      ensures Elements(s[..0]) == {}
    {
    }

    lemma OneMore(s: seq<ClientNode>, i: int)
      requires 0 <= i < |s|
      ensures Elements(s[..i + 1]) == Elements(s[..i]) + {s[i]}
    {
    }

    /**
     cleanup, second part, as written: only the first client on com_queue is closed; closing
     it drops the others.
     */
    method CleanCom()
      requires Ok()
      modifies this, com, com.Contents, pool, pool.freeList
      modifies Storage(First(com.Contents))
      ensures Ok() && com.Contents == [] && act.Contents == old(act.Contents)
      ensures pool.Live() == old(pool.Live()) - Elements(First(old(com.Contents)))
    {
      hide GenAlloc.Live, GenAlloc.Valid, Ok, Elements;
      ghost var s, live := com.Contents, pool.Live();
      FirstElement(s);
      var n := PopCom();
      ghost var closed := false;
      while n != null
        invariant Ok() && act.Contents == old(act.Contents)
        invariant n != null ==> !closed && s != [] && n == s[0] && n.Unlinked() && com.Contents == s[1..]
                                && n in pool.Live() && n !in com.Contents && n !in act.Contents
        invariant n == null ==> com.Contents == [] && (closed <==> s != [])
        invariant pool.Live() == if closed then live - Elements(First(s)) else live
        decreases if closed then 0 else 1
      {
        assert n in First(s) && n in s && forall m :: m in s[1..] ==> m in s;
        CloseConnection(n, -1);
        closed := true;
        n := PopCom();
      }
    }

    /**
     cleanup as written returns every client that was queued to the pool if and only if no
     client is on com_queue, or the action queue is empty and com_queue holds a single one.
     The other clients stay allocated, with their descriptors open.
     */
    method Cleanup()
      requires Ok()
      modifies this, com, com.Contents, act, act.Contents, pool, pool.freeList
      modifies Storage(act.Contents + First(com.Contents))
      ensures Ok() && act.Contents == [] && com.Contents == []
      ensures pool.Live() == old(pool.Live()) - Elements(old(act.Contents))
                             - (if old(act.Contents) == [] then Elements(First(old(com.Contents))) else {})
      ensures pool.Live() * (Elements(old(act.Contents)) + Elements(old(com.Contents))) == {}
         <==> old(com.Contents) == [] || (old(act.Contents) == [] && |old(com.Contents)| == 1)
    {
      hide Ok, Elements, GenAlloc.Live;
      FirstElement([]);
      ghost var c, a, live := com.Contents, act.Contents, pool.Live();
      QueuesApart();
      CleanActions();
      CleanCom();
      CleanupExact(live, a, c);
    }

    lemma QueuesApart()
      requires Ok()
      ensures Distinct(com.Contents) && Elements(com.Contents) <= pool.Live()
      ensures Elements(com.Contents) !! Elements(act.Contents)
    {
    }

    lemma CleanupExact(live: set<ClientNode>, a: seq<ClientNode>, c: seq<ClientNode>)
      requires Distinct(c) && Elements(c) <= live && Elements(c) !! Elements(a)
      ensures var left := live - Elements(a) - (if a == [] then Elements(First(c)) else {});
              left * (Elements(a) + Elements(c)) == {} <==> c == [] || (a == [] && |c| == 1)
    {
      var left := live - Elements(a) - (if a == [] then Elements(First(c)) else {});
      if c != [] {
        assert c[|c| - 1] in Elements(c);
        if a == [] && |c| == 1 {
          assert First(c) == c;
        } else {
          assert c[|c| - 1] in left * (Elements(a) + Elements(c));
        }
      }
    }

    lemma FirstElement(s: seq<ClientNode>)
      ensures Elements(First(s)) == if s == [] then {} else {s[0]}
    {
    }

    lemma Apart()
      requires Ok()
      ensures Spread(com.Contents) && com.head == NodeAt(com.Contents, 0)
    {
      forall i | 0 <= i < |com.Contents| ensures com.Contents[i] in pool.pool { LiveInPool(com.Contents[i]); }
    }

    lemma StillMembers(s: seq<ClientNode>, a: seq<ClientNode>, fates: seq<Fate>)
      requires |fates| <= |s|
      ensures var c := With(s[..|fates|], fates, Stay) + s[|fates|..]; forall k :: 0 <= k < |c| ==> c[k] in a + s
      ensures var b := a + With(s[..|fates|], fates, ToAction); forall k :: 0 <= k < |b| ==> b[k] in a + s
    {
      hide With;
      var c, b := With(s[..|fates|], fates, Stay), With(s[..|fates|], fates, ToAction);
      WithFrom(s[..|fates|], fates, Stay);
      WithFrom(s[..|fates|], fates, ToAction);
      forall k | 0 <= k < |c| ensures c[k] in s { assert c[k] in s[..|fates|]; }
      forall k | 0 <= k < |b| ensures b[k] in s { assert b[k] in s[..|fates|]; }
    }

    lemma WithNone(s: seq<ClientNode>)
      ensures s[..0] == [] && forall f :: With(s[..0], [], f) == []
      ensures Elements<ClientNode>([]) == {}
      ensures [] + s[0..] == s
    {
    }

    lemma StayOne(s: seq<ClientNode>, fates: seq<Fate>, fate: Fate)
      requires |fates| < |s|
      ensures var i := |fates|;
              With(s[..i], fates, Stay) + (if fate == Stay then [s[i]] else []) + s[i + 1..]
              == With(s[..i + 1], fates + [fate], Stay) + s[i + 1..]
    {
      hide With;
      WithMore(s, fates, fate, Stay);
    }

    lemma ActionOne(s: seq<ClientNode>, a: seq<ClientNode>, fates: seq<Fate>, fate: Fate)
      requires |fates| < |s|
      ensures var i := |fates|;
              (if fate == ToAction then a + With(s[..i], fates, ToAction) + [s[i]]
               else a + With(s[..i], fates, ToAction))
              == a + With(s[..i + 1], fates + [fate], ToAction)
    {
      hide With;
      WithMore(s, fates, fate, ToAction);
      var w, n := With(s[..|fates|], fates, ToAction), s[|fates|];
      assert w + [] == w && a + (w + [n]) == a + w + [n];
    }

    lemma CloseOne(s: seq<ClientNode>, live: set<ClientNode>, fates: seq<Fate>, fate: Fate)
      requires |fates| < |s|
      ensures var i := |fates|;
              (if fate == Close then live - Elements(With(s[..i], fates, Close)) - {s[i]}
               else live - Elements(With(s[..i], fates, Close)))
              == live - Elements(With(s[..i + 1], fates + [fate], Close))
    {
      hide With, Elements;
      WithMore(s, fates, fate, Close);
      var w := With(s[..|fates|], fates, Close);
      assert w + [] == w;
      ElementsMore(w, s[|fates|]);
    }

    lemma ElementsMore(t: seq<ClientNode>, n: ClientNode)
      ensures Elements(t + [n]) == Elements(t) + {n}
    {
    }

    lemma LiveInPool(n: ClientNode)
      requires pool.Valid() && n in pool.Live()
      ensures n in pool.pool
    {
    }
  }
}
