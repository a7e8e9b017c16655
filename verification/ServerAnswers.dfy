/**
 The concurrent server answers: from every reachable state in which a connection is at rest on
 com_queue and no stop is under way, a bounded run without a failure receives a fencing request,
 makes the call and sends the whole reply.
 */
module ServerAnswers {
  import opened Wire
  import opened Connection
  import opened Phases
  import opened Fencing
  import opened ServerProtocol
  import opened ServerOwnership
  import opened ServerWorkers
  import opened ServerConnections
  import opened ServerDescriptors
  import opened ServerInvariant
  import opened ServerTheorems
  import opened ServerShutdown
  import opened ServerStop
  import opened ServerSessions
  import opened ServerService
  import FencingClient
  import E = EndToEnd
  import M = Messages
  import R = ServerRuns
  import T = EndToEndTheorems

  // ----- from the selector's hands to the action queue

  predicate InHand(s: State, id: Id) {
    (s.th.sel.MoveWait? || s.th.sel.Move?) && s.th.sel.c == id
  }

  function HandLeft(s: State): (n: nat)
    ensures 1 <= n <= 8
  {
    (if s.th.sel.MoveWait? then 2 else 1) + OwnerLeft(s.th, s.th.comOwner) + OwnerLeft(s.th, s.th.actOwner)
  }

  lemma NextOver(s: State, id: Id) returns (step: Step)
    requires Inv(s) && InHand(s, id)
    ensures Enabled(s, step) && Progress(step)
    ensures By(step) == Selector || (By(step).Worker? && By(step) == s.th.actOwner)
  {
    hide Inv, Core, Enabled, Progress, LockInv;
    if s.th.sel.MoveWait? {
      step := LockProgress(s, ActLock, Selector);
    } else {
      step := MovePossible(s);
    }
  }

  lemma OverEffect(s: State, step: Step, t: State, id: Id)
    requires Next(s, step, t) && LockInv(s.th) && OwnInv(s) && InHand(s, id) && !s.th.stopWorkers
    requires By(step) == Selector || (By(step).Worker? && By(step) == s.th.actOwner)
    ensures TurnOf(s, step, id) == Still
    ensures id in t.q.act || (InHand(t, id) && HandLeft(t) < HandLeft(s))
  {
    hide LockInv, OwnInv, WorkThreads, WorkNet, WorkQueues, SelNet, SelWake, OwnerLeft, WorkWake;
    match step
    case Sel(ss) => OwnersSelStep(s, ss, t);
    case Work(w, ws) =>
      if WorkHeld(s.th.workers[w]) == [id] {
        HeldExclusive(s, w, id);
      }
      WorkSelFrame(s, w, ws);
      OwnersWorkStep(s, w, ws, t);
    case Signal =>
  }

  lemma {:induction false} IsHandedOver(s: State, id: Id) returns (steps: seq<Step>, t: State)
    requires Inv(s) && Serving(s) && InHand(s, id) && Valid(s, id)
    ensures GoesThrough(s, steps, id, [], t) && |steps| <= HandLeft(s)
    ensures Inv(t) && Serving(t) && Valid(t, id) && ConnOf(t, id) == ConnOf(s, id) && id in t.q.act
    ensures |t.net.conns| == |s.net.conns|
    decreases HandLeft(s)
  {
    hide Inv, LockInv, Enabled, Apply, TurnOf, Progress, Serving, ShutdownInv, HandLeft, OwnInv, QueueConnOk, FdInv;
    var step := NextOver(s, id);
    var u := Apply(s, step);
    InvLocks(s);
    InvClients(s);
    InvShutdown(s);
    ServingRuns(s);
    OverEffect(s, step, u, id);
    KeptClient(s, step, u, id);
    StillServing(s, step, u);
    if id in u.q.act {
      steps, t := [step], u;
      assert [step] == [step] + [];
      StillFirst(s, step, u, [], id, [], u);
    } else {
      var rest;
      rest, t := IsHandedOver(u, id);
      steps := [step] + rest;
      StillFirst(s, step, u, rest, id, [], t);
    }
  }

  // ----- from a worker's hands back to com_queue

  predicate Returning(s: State, w: int, id: Id) {
    && 0 <= w < |s.th.workers|
    && var pc := s.th.workers[w];
       (pc.RequeueWait? || pc.RequeueTest? || pc.RequeueAdd?) && pc.c == id
  }

  /** How many steps the selector has left in its section of com_queue_lock. */
  function SelSection(pc: SelPc): nat {
    match pc
    case Build => 1
    case AcceptAdd(_) => 1
    case Io(todo) => 1 + 3 * |todo|
    case Move(_, todo) => 2 + 3 * |todo|
    case MoveWait(_, todo) => 3 + 3 * |todo|
    case _ => 0
  }

  function ReturnLeft(s: State, w: int): (n: nat)
    requires 0 <= w < |s.th.workers|
    ensures 1 <= n <= 9 + SelSection(s.th.sel)
  {
    var pc := s.th.workers[w];
    if pc.RequeueAdd? then 1 else if pc.RequeueTest? then 2
    else 3 + SelSection(s.th.sel) + OwnerLeft(s.th, s.th.comOwner) + OwnerLeft(s.th, s.th.actOwner)
  }

  lemma NextBack(s: State, w: int, id: Id) returns (step: Step)
    requires Inv(s) && Returning(s, w, id)
    ensures Enabled(s, step) && Progress(step)
    ensures || By(step) == Worker(w)
            || (s.th.workers[w].RequeueWait? && By(step) == Selector && SelHoldsCom(s.th.sel))
            || (s.th.workers[w].RequeueWait? && By(step).Worker?
                && (By(step) == s.th.comOwner || By(step) == s.th.actOwner))
  {
    hide Inv, Core, Enabled, Progress, LockInv;
    InvLocks(s);
    if s.th.workers[w].RequeueWait? {
      step := LockProgress(s, ComLock, Worker(w));
      SelectorsSection(s);
    } else {
      CoreOwn(s);
      step := WorkerInSection(s, w);
    }
  }

  lemma SelectorsSection(s: State)
    requires LockInv(s.th)
    ensures s.th.comOwner == Selector ==> SelHoldsCom(s.th.sel)
  {
  }

  /** The worker's own step. */
  lemma BackOwn(s: State, w: int, ws: WorkStep, t: State, id: Id)
    requires Next(s, Work(w, ws), t) && Returning(s, w, id) && Serving(s)
    ensures TurnOf(s, Work(w, ws), id) == Still
    ensures id in t.q.com || (Returning(t, w, id) && ReturnLeft(t, w) < ReturnLeft(s, w))
  {
    hide SelSection, OwnerLeft;
  }

  lemma BackSel(s: State, ss: SelStep, t: State, w: int, id: Id)
    requires Next(s, Sel(ss), t) && LockInv(s.th) && OwnInv(s) && TailInv(s.th, s.q) && Serving(s)
    requires Returning(s, w, id) && s.th.workers[w].RequeueWait? && SelHoldsCom(s.th.sel)
    ensures TurnOf(s, Sel(ss), id) == Still
    ensures Returning(t, w, id) && ReturnLeft(t, w) < ReturnLeft(s, w)
  {
    hide LockInv, OwnInv, TailInv, SelEnabled, SelThreads, SelQueues, SelNet, SelWake, OwnerLeft, SelSection;
    hide SelHoldsCom;
    HeldExclusive(s, w, id);
    OwnersSelStep(s, ss, t);
    SelKeepsWorkers(s, ss);
    SectionGoesOn(s, ss, t);
    TouchedQueued(s);
  }

  lemma SectionGoesOn(s: State, ss: SelStep, t: State)
    requires Next(s, Sel(ss), t) && SelHoldsCom(s.th.sel) && Serving(s)
    ensures SelSection(t.th.sel) < SelSection(s.th.sel)
  {
    hide SelThreads, SelQueues, SelNet, SelWake, VisitResult;
    SelPcNext(s, ss);
  }

  lemma TouchedQueued(s: State)
    requires SelHoldsCom(s.th.sel) && Serving(s) && TailInv(s.th, s.q)
    ensures SelTouches(s) == [] || SelTouches(s)[0] in s.q.com
  {
    var com := s.q.com;
    if s.th.sel.Io? && s.th.sel.todo != [] {
      assert com[|com| - |s.th.sel.todo|] == s.th.sel.todo[0];
    }
  }

  lemma BackOther(s: State, v: int, ws: WorkStep, t: State, w: int, id: Id)
    requires Next(s, Work(v, ws), t) && LockInv(s.th) && OwnInv(s) && !s.th.stopWorkers
    requires Returning(s, w, id) && s.th.workers[w].RequeueWait? && v != w
    requires Worker(v) == s.th.comOwner || Worker(v) == s.th.actOwner
    ensures TurnOf(s, Work(v, ws), id) == Still
    ensures Returning(t, w, id) && ReturnLeft(t, w) < ReturnLeft(s, w)
  {
    hide LockInv, OwnInv, WorkEnabled, WorkThreads, WorkQueues, WorkNet, WorkWake, WorkNext, OwnerLeft, SelSection;
    HeldExclusive(s, w, id);
    OwnersWorkStep(s, v, ws, t);
    WorkSelFrame(s, v, ws);
  }

  lemma BackEffect(s: State, step: Step, t: State, w: int, id: Id)
    requires Next(s, step, t) && Inv(s) && Serving(s) && Returning(s, w, id)
    requires || By(step) == Worker(w)
             || (s.th.workers[w].RequeueWait? && By(step) == Selector && SelHoldsCom(s.th.sel))
             || (s.th.workers[w].RequeueWait? && By(step).Worker?
                 && (By(step) == s.th.comOwner || By(step) == s.th.actOwner))
    ensures TurnOf(s, step, id) == Still
    ensures id in t.q.com || (Returning(t, w, id) && ReturnLeft(t, w) < ReturnLeft(s, w))
  {
    hide Inv, LockInv, Core, OwnInv, TailInv, Enabled, Apply, TurnOf, Serving, ShutdownInv, ReturnLeft;
    hide Returning, FdInv;
    hide QueueConnOk, SelHoldsCom;
    InvLocks(s);
    InvClients(s);
    InvShutdown(s);
    ServingRuns(s);
    match step
    case Sel(ss) =>
      QueueBounds(s);
      BackSel(s, ss, t, w, id);
    case Work(v, ws) =>
      if v == w {
        BackOwn(s, w, ws, t, id);
      } else {
        BackOther(s, v, ws, t, w, id);
      }
    case Signal =>
  }

  lemma {:induction false} Returns(s: State, w: int, id: Id) returns (steps: seq<Step>, t: State)
    requires Inv(s) && Serving(s) && Returning(s, w, id) && Valid(s, id)
    ensures GoesThrough(s, steps, id, [], t) && |steps| <= ReturnLeft(s, w)
    ensures Inv(t) && Serving(t) && Valid(t, id) && ConnOf(t, id) == ConnOf(s, id) && id in t.q.com
    ensures |t.net.conns| == |s.net.conns|
    decreases ReturnLeft(s, w)
  {
    hide Inv, Enabled, Apply, TurnOf, Progress, Serving, ReturnLeft, SelHoldsCom;
    var step := NextBack(s, w, id);
    var u := Apply(s, step);
    BackEffect(s, step, u, w, id);
    KeptClient(s, step, u, id);
    StillServing(s, step, u);
    if id in u.q.com {
      steps, t := [step], u;
      assert [step] == [step] + [];
      StillFirst(s, step, u, [], id, [], u);
    } else {
      var rest;
      rest, t := Returns(u, w, id);
      steps := [step] + rest;
      StillFirst(s, step, u, rest, id, [], t);
    }
  }

  // ----- what happens to the client itself

  lemma ThroughMove(s: State, step: Step, t: State, id: Id, m: E.Move)
    requires Next(s, step, t) && Progress(step) && TurnOf(s, step, id) == Moving(m)
    ensures GoesThrough(s, [step], id, [m], t)
  {
    hide Enabled, Apply, TurnOf, Progress;
    assert [step][1..] == [] && [m][1..] == [];
  }

  lemma MovedClient(s: State, step: Step, t: State, id: Id, m: E.Move)
    requires Next(s, step, t) && Inv(s) && Valid(s, id) && TurnOf(s, step, id) == Moving(m)
    ensures Inv(t) && Valid(t, id) && |t.net.conns| == |s.net.conns|
    ensures E.Allowed(ConnOf(s, id), m) && ConnOf(t, id) == E.AfterMove(ConnOf(s, id), m)
  {
    hide Inv, Enabled, Apply, TurnOf, E.Allowed, E.AfterMove;
    StepFollows(s, step, t, id);
    InvStep(s, step, t);
    PoolStep(s, step, t);
  }

  lemma ReadyToReceive(s: State, id: Id, data: seq<byte>)
    requires UnderVisit(s, id) && VisitReady(s) && Receiving(ConnOf(s, id)) && 1 <= |data| <= RecvReq(ConnOf(s, id))
    ensures SelEnabled(s, VisitGot(data)) && TurnOf(s, Sel(VisitGot(data)), id) == Moving(E.Receive(data))
    ensures VisitRead(ConnOf(s, id), data).1 != Close
  {
    hide RecvStep, RecvReq;
    VisitReadKeeps(ConnOf(s, id), data);
  }

  lemma AfterReceive(s: State, id: Id, data: seq<byte>, t: State)
    requires Next(s, Sel(VisitGot(data)), t) && UnderVisit(s, id) && TailInv(s.th, s.q)
    ensures var fate := VisitRead(ConnOf(s, id), data).1;
            && (fate == Stay ==> id in t.q.com)
            && (fate == ToAction ==> InHand(t, id))
  {
    hide RecvStep, RecvReq, VisitRead, SelNet, SelWake;
    VisitedOnCom(s);
  }

  /** The selector receives for the client that it has come to. */
  lemma ReceivesPart(s: State, id: Id, data: seq<byte>) returns (t: State)
    requires Inv(s) && Serving(s) && UnderVisit(s, id)
    requires Receiving(ConnOf(s, id)) && 1 <= |data| <= RecvReq(ConnOf(s, id))
    ensures GoesThrough(s, [Sel(VisitGot(data))], id, [E.Receive(data)], t)
    ensures Inv(t) && Serving(t) && Valid(t, id) && |t.net.conns| == |s.net.conns|
    ensures RecvStep(ConnOf(s, id), data) != Overrun
    ensures var (c, fate) := VisitRead(ConnOf(s, id), data);
            && ConnOf(t, id) == c && fate != Close
            && (fate == Stay ==> id in t.q.com)
            && (fate == ToAction ==> InHand(t, id))
  {
    hide Inv, Apply, TurnOf, UnderVisit, SelEnabled, Serving, VisitRead, RecvStep, RecvReq, Receiving;
    hide LockInv, OwnInv, ConnInv, TailInv, VisitReady, InHand;
    InvLocks(s);
    ValidVisit(s, id);
    ReadyToReceive(s, id, data);
    var step := Sel(VisitGot(data));
    t := Apply(s, step);
    ThroughMove(s, step, t, id, E.Receive(data));
    MovedClient(s, step, t, id, E.Receive(data));
    StillServing(s, step, t);
    AfterReceive(s, id, data, t);
  }

  lemma ValidVisit(s: State, id: Id)
    requires UnderVisit(s, id)
    ensures Valid(s, id)
  {
  }

  lemma ReadyToSend(s: State, id: Id, n: nat)
    requires UnderVisit(s, id) && VisitReady(s) && Replying(ConnOf(s, id))
    requires n <= SendReq(Prepare(ConnOf(s, id)))
    ensures SelEnabled(s, VisitSent(Sent(n))) && TurnOf(s, Sel(VisitSent(Sent(n))), id) == Moving(E.Send(Sent(n)))
  {
    hide SendReq, Prepare;
  }

  /** The selector sends for the client that it has come to. */
  lemma SendsReply(s: State, id: Id, n: nat) returns (t: State)
    requires Inv(s) && Serving(s) && UnderVisit(s, id)
    requires Replying(ConnOf(s, id)) && n <= SendReq(Prepare(ConnOf(s, id)))
    ensures GoesThrough(s, [Sel(VisitSent(Sent(n)))], id, [E.Send(Sent(n))], t)
    ensures Inv(t) && Valid(t, id) && E.Allowed(ConnOf(s, id), E.Send(Sent(n)))
    ensures ConnOf(t, id) == E.AfterMove(ConnOf(s, id), E.Send(Sent(n)))
    ensures |ConnOf(s, id).ioBuffer| >= HEADER_SIZE
    ensures VisitWrite(ConnOf(s, id), Sent(n)).1 == Stay ==> id in t.q.com
  {
    hide Inv, Apply, TurnOf, UnderVisit, SelEnabled, Serving, SendReq, Prepare, Replying, E.AfterMove, E.Allowed;
    hide LockInv, OwnInv, ConnInv, TailInv, VisitReady;
    InvLocks(s);
    ValidVisit(s, id);
    ReadyToSend(s, id, n);
    var step := Sel(VisitSent(Sent(n)));
    t := Apply(s, step);
    ThroughMove(s, step, t, id, E.Send(Sent(n)));
    MovedClient(s, step, t, id, E.Send(Sent(n)));
    AfterSend(s, id, n, t);
  }

  lemma AfterSend(s: State, id: Id, n: nat, t: State)
    requires Next(s, Sel(VisitSent(Sent(n))), t) && UnderVisit(s, id) && TailInv(s.th, s.q)
    ensures |ConnOf(s, id).ioBuffer| >= HEADER_SIZE
    ensures VisitWrite(ConnOf(s, id), Sent(n)).1 == Stay ==> id in t.q.com
  {
    hide VisitWrite, SelNet, SelWake, SendReq, Prepare;
    VisitedOnCom(s);
  }

  lemma ReadyToServe(s: State, w: int, id: Id, ok: bool)
    requires Core(s) && 0 <= w < |s.th.workers| && s.th.workers[w] == Exec(id)
    ensures WorkEnabled(s, w, Execute(ok)) && TurnOf(s, Work(w, Execute(ok)), id) == Moving(E.Serve(ok))
    ensures Valid(s, id)
  {
    hide OwnInv, VisitReady, TailInv, Receiving, Replying, After;
    assert WorkerConnOk(s, w);
  }

  lemma AfterServe(s: State, w: int, id: Id, ok: bool, t: State)
    requires Next(s, Work(w, Execute(ok)), t) && s.th.workers[w] == Exec(id) && Valid(t, id)
    requires ConnOf(t, id).phase == SEND && !Process(ConnOf(s, id), ok).escaped
    ensures Returning(t, w, id)
  {
    hide Process;
  }

  /** The worker that has taken the client serves it; the reply leaves it on the way back to com_queue. */
  lemma ServesIt(s: State, w: int, id: Id, ok: bool) returns (t: State)
    requires Inv(s) && Serving(s) && 0 <= w < |s.th.workers| && s.th.workers[w] == Exec(id) && Valid(s, id)
    requires ConnOf(s, id).ioOffset <= |ConnOf(s, id).ioBuffer|
    requires Process(ConnOf(s, id), ok).conn.phase == SEND && !Process(ConnOf(s, id), ok).escaped
    ensures GoesThrough(s, [Work(w, Execute(ok))], id, [E.Serve(ok)], t)
    ensures Inv(t) && Serving(t) && Valid(t, id) && |t.net.conns| == |s.net.conns|
    ensures ConnOf(t, id) == Process(ConnOf(s, id), ok).conn && Returning(t, w, id)
  {
    hide Inv, Apply, TurnOf, WorkEnabled, Serving, Core, LockInv, Process;
    InvLocks(s);
    ReadyToServe(s, w, id, ok);
    var step := Work(w, Execute(ok));
    t := Apply(s, step);
    ThroughMove(s, step, t, id, E.Serve(ok));
    MovedClient(s, step, t, id, E.Serve(ok));
    StillServing(s, step, t);
    AfterServe(s, w, id, ok, t);
  }

  // ----- a message and its reply

  /** The moves by which a connection at rest receives the message `m`. */
  function AskMoves(m: seq<byte>): seq<E.Move>
    requires |m| >= HEADER_SIZE
  {
    if |m| == HEADER_SIZE then [E.Receive(m)] else [E.Receive(m[..HEADER_SIZE]), E.Receive(m[HEADER_SIZE..])]
  }

  /** And those by which it is answered. */
  function ReplyMoves(ok: bool): seq<E.Move> {
    [E.Serve(ok), E.Send(Sent(HEADER_SIZE))]
  }

  /** A connection that has received the message `m`. */
  function HasReceived(c: Conn, m: seq<byte>): Conn
    requires |m| <= IO_BUFFER_SIZE
  {
    After(c, m).(phase := PENDING, io := NOOP)
  }

  lemma ReceivesMessage(c: Conn, m: seq<byte>)
    requires E.AtRest(c) && |m| == Need(m) >= HEADER_SIZE
    ensures |m| == HEADER_SIZE ==>
              RecvReq(c) == |m| && RecvStep(c, m) != Overrun && VisitRead(c, m) == (HasReceived(c, m), ToAction)
    ensures |m| > HEADER_SIZE ==>
              var head, rest := m[..HEADER_SIZE], m[HEADER_SIZE..];
              && RecvReq(c) == |head| && RecvStep(c, head) != Overrun && VisitRead(c, head) == (After(c, head), Stay)
              && Receiving(After(c, head)) && RecvReq(After(c, head)) == |rest| >= 1
              && RecvStep(After(c, head), rest) != Overrun
              && VisitRead(After(c, head), rest) == (HasReceived(c, m), ToAction)
    ensures Queued(HasReceived(c, m)) && Payload(HasReceived(c, m)) == m && HasReceived(c, m).fd == c.fd
  {
    hide RecvStep, RecvReq, Need;
    var head, rest := m[..HEADER_SIZE], m[HEADER_SIZE..];
    MessageRead(c, m);
    assert Payload(HasReceived(c, m)) == m;
    if |m| == HEADER_SIZE {
      VisitReadKeeps(c, m);
    } else {
      VisitReadKeeps(c, head);
      VisitReadKeeps(After(c, head), rest);
    }
  }

  lemma AtRestOpen(c: Conn)
    requires E.AtRest(c)
    ensures c.fd >= 0 && Receiving(c)
  {
  }

  /** The message in one move or two. */
  lemma ReceivesAlong(c: Conn, m: seq<byte>)
    requires E.AtRest(c) && |m| == Need(m) >= HEADER_SIZE
    ensures |m| == HEADER_SIZE ==> E.Allowed(c, E.Receive(m)) && E.AfterMove(c, E.Receive(m)) == HasReceived(c, m)
    ensures |m| > HEADER_SIZE ==>
              var head, rest := E.Receive(m[..HEADER_SIZE]), E.Receive(m[HEADER_SIZE..]);
              var c1 := After(c, head.data);
              && E.Allowed(c, head) && E.AfterMove(c, head) == c1
              && E.Allowed(c1, rest) && E.AfterMove(c1, rest) == HasReceived(c, m)
  {
    hide RecvStep, RecvReq, Need, VisitRead, Queued;
    ReceivesMessage(c, m);
  }

  lemma ReplySize(m: seq<byte>, ok: bool)
    requires Answerable(m)
    ensures |ReplyTo(m, ok)| == HEADER_SIZE
  {
    hide NamesNode, NodeOf;
  }

  /** The whole reply goes out by one send; then the connection is at rest again, or closed. */
  lemma SendsIt(c: Conn, m: seq<byte>, ok: bool)
    requires c.fd >= 0 && AnswersWith(c, m, ok) && Answerable(m)
    ensures var mv := E.Send(Sent(HEADER_SIZE));
            && SendReq(Prepare(c)) == HEADER_SIZE
            && E.Allowed(c, mv) && E.Emits(c, mv) == ReplyTo(m, ok)
            && if [0, 0] <= m then E.AtRest(E.AfterMove(c, mv)) && VisitWrite(c, mv.r).1 == Stay
               else E.AfterMove(c, mv) == CLEARED
  {
    hide SendReq, Prepare, Message, ReplyTo, Answerable, VisitWrite, SendStep;
    ReplySize(m, ok);
    SendStepExact(c, Again);
    SendStepExact(c, Sent(HEADER_SIZE));
    VisitWriteKeeps(c, Sent(HEADER_SIZE));
    assert Message(c)[0..HEADER_SIZE] == Message(c);
  }

  lemma OpenReply(c: Conn, m: seq<byte>, ok: bool)
    requires AnswersWith(c, m, ok)
    ensures c.phase == SEND && Replying(c)
  {
    hide Message;
  }

  /** One move in front of others. */
  lemma AlongCons(c: Conn, m: E.Move, rest: seq<E.Move>)
    requires E.Allowed(c, m) && T.AllowedAlong(E.AfterMove(c, m), rest)
    ensures T.AllowedAlong(c, [m] + rest)
    ensures T.DataAlong([m] + rest) == (if m.Receive? then m.data else []) + T.DataAlong(rest)
    ensures T.CallsAlong(c, [m] + rest) == E.CallsOf(c, m) + T.CallsAlong(E.AfterMove(c, m), rest)
    ensures T.OutputAlong(c, [m] + rest) == E.Emits(c, m) + T.OutputAlong(E.AfterMove(c, m), rest)
  {
    hide E.Allowed, E.AfterMove, E.CallsOf, E.Emits;
    assert ([m] + rest)[1..] == rest;
  }

  /** The reply in two moves. */
  lemma ReplyMeans(m: seq<byte>, ok: bool, c: Conn)
    requires Answerable(m) && Queued(c) && Payload(c) == m && c.fd >= 0
    ensures var moves := ReplyMoves(ok);
            && T.AllowedAlong(c, moves) && T.DataAlong(moves) == []
            && T.CallsAlong(c, moves) == CallsFrom(m, ok) && T.OutputAlong(c, moves) == ReplyTo(m, ok)
  {
    hide Process, Queued, Payload, Answerable, CallsFrom, ReplyTo, AnswersWith;
    hide T.AllowedAlong, T.DataAlong, T.CallsAlong, T.OutputAlong, E.Allowed, E.AfterMove, E.Emits, E.CallsOf;
    var serve, send := E.Serve(ok), E.Send(Sent(HEADER_SIZE));
    ServedBytes(c, ok);
    var d := Process(c, ok).conn;
    ServesAlong(c, ok);
    SendsIt(d, m, ok);
    NothingAlong(E.AfterMove(d, send));
    SilentMoves(c, serve);
    SilentMoves(d, send);
    assert [send] + [] == [send] && [serve] + [send] == [serve, send];
    assert CallsFrom(m, ok) + [] == CallsFrom(m, ok) && ReplyTo(m, ok) + [] == ReplyTo(m, ok);
    AlongCons(d, send, []);
    AlongCons(c, serve, [send]);
  }

  /** What the moves add up to. */
  lemma MessageMeans(m: seq<byte>, ok: bool, c: Conn)
    requires Answerable(m) && |m| == Need(m) >= HEADER_SIZE && E.AtRest(c)
    ensures var moves := AskMoves(m) + ReplyMoves(ok);
            && T.AllowedAlong(c, moves) && T.DataAlong(moves) == m
            && T.CallsAlong(c, moves) == CallsFrom(m, ok) && T.OutputAlong(c, moves) == ReplyTo(m, ok)
  {
    hide Queued, Receiving, After, Answerable, CallsFrom, ReplyTo, Payload, Need, ReplyMoves;
    hide T.AllowedAlong, T.DataAlong, T.CallsAlong, T.OutputAlong, E.Allowed, E.AfterMove, E.Emits, E.CallsOf;
    hide HasReceived, RecvStep, RecvReq, VisitRead, E.AtRest;
    AtRestOpen(c);
    ReceivesMessage(c, m);
    ReceivesAlong(c, m);
    var c2, last := HasReceived(c, m), ReplyMoves(ok);
    ReplyMeans(m, ok, c2);
    assert [] + CallsFrom(m, ok) == CallsFrom(m, ok) && [] + ReplyTo(m, ok) == ReplyTo(m, ok);
    if |m| == HEADER_SIZE {
      SilentMoves(c, E.Receive(m));
      AlongCons(c, E.Receive(m), last);
      assert m + [] == m;
    } else {
      var head, rest := E.Receive(m[..HEADER_SIZE]), E.Receive(m[HEADER_SIZE..]);
      var c1 := After(c, head.data);
      SilentMoves(c, head);
      SilentMoves(c1, rest);
      AlongCons(c1, rest, last);
      AlongCons(c, head, [rest] + last);
      assert [head] + ([rest] + last) == AskMoves(m) + last;
      assert head.data + (rest.data + []) == m;
    }
  }

  lemma NothingAlong(c: Conn)
    ensures T.AllowedAlong(c, []) && T.DataAlong([]) == [] && T.CallsAlong(c, []) == [] && T.OutputAlong(c, []) == []
  {
  }

  lemma ServesAlong(c: Conn, ok: bool)
    requires Queued(c) && c.fd >= 0
    ensures E.Allowed(c, E.Serve(ok)) && E.AfterMove(c, E.Serve(ok)) == Process(c, ok).conn
    ensures E.CallsOf(c, E.Serve(ok)) == Process(c, ok).calls
  {
    hide Process;
  }

  lemma SilentMoves(c: Conn, m: E.Move)
    requires E.Allowed(c, m)
    ensures !m.Send? ==> E.Emits(c, m) == []
    ensures !m.Serve? ==> E.CallsOf(c, m) == []
  {
  }

  // ----- the run

  /** From rest to the selector's hands, with the whole message. */
  lemma IsRead(s: State, id: Id, m: seq<byte>) returns (steps: seq<Step>, t: State)
    requires Inv(s) && Serving(s) && Valid(s, id) && id in s.q.com
    requires E.AtRest(ConnOf(s, id)) && |m| == Need(m) >= HEADER_SIZE
    ensures GoesThrough(s, steps, id, AskMoves(m), t)
    ensures Inv(t) && Serving(t) && Valid(t, id) && |t.net.conns| == |s.net.conns|
    ensures InHand(t, id) && ConnOf(t, id) == HasReceived(ConnOf(s, id), m)
    ensures |steps| <= 2 * LapBound(|s.net.conns|) + 2
  {
    hide Inv, GoesThrough, Serving, LapMeasure, LapBound, UnderVisit, InHand, LockInv, TailInv;
    hide RecvStep, RecvReq, VisitRead, Receiving, Queued, After, HasReceived, Need, Payload, E.AtRest;
    var c := ConnOf(s, id);
    ReceivesMessage(c, m);
    AtRestOpen(c);
    LapBounds(s, id);
    var a1, s1 := Comes(s, id);
    if |m| == HEADER_SIZE {
      t := ReceivesPart(s1, id, m);
      var a2 := [Sel(VisitGot(m))];
      ThroughLater(s, a1, id, s1, a2, AskMoves(m), t);
      steps := a1 + a2;
    } else {
      var head, rest := m[..HEADER_SIZE], m[HEADER_SIZE..];
      var s2 := ReceivesPart(s1, id, head);
      LapBounds(s2, id);
      var a3, s3 := Comes(s2, id);
      t := ReceivesPart(s3, id, rest);
      var a2, a4, m1, m2 := [Sel(VisitGot(head))], [Sel(VisitGot(rest))], [E.Receive(head)], [E.Receive(rest)];
      assert m1 + m2 == AskMoves(m);
      ThroughLater(s2, a3, id, s3, a4, m2, t);
      ThroughAppend(s1, a2, id, m1, s2, a3 + a4, m2, t);
      ThroughLater(s, a1, id, s1, a2 + (a3 + a4), m1 + m2, t);
      steps := a1 + (a2 + (a3 + a4));
    }
  }

  /** And to the hands of a worker that is about to serve it. */
  lemma IsAsked(s: State, id: Id, m: seq<byte>) returns (steps: seq<Step>, t: State, w: int)
    requires Inv(s) && Serving(s) && Valid(s, id) && id in s.q.com
    requires E.AtRest(ConnOf(s, id)) && |m| == Need(m) >= HEADER_SIZE
    ensures GoesThrough(s, steps, id, AskMoves(m), t)
    ensures Inv(t) && Serving(t) && Valid(t, id) && |t.net.conns| == |s.net.conns|
    ensures 0 <= w < |t.th.workers| && t.th.workers[w] == Exec(id) && ConnOf(t, id) == HasReceived(ConnOf(s, id), m)
    ensures |steps| <= 2 * LapBound(|s.net.conns|) + 5 * |s.net.conns| + 10
  {
    hide Inv, GoesThrough, Serving, LapBound, HandLeft, TakeMeasure, InHand, HasReceived, Need, E.AtRest, AskMoves;
    var a1, s1 := IsRead(s, id, m);
    var a2, s2 := IsHandedOver(s1, id);
    PositionInside(s2, id);
    var a3;
    a3, t, w := IsTaken(s2, id);
    ThroughLater(s1, a2, id, s2, a3, [], t);
    ThroughAppend(s, a1, id, AskMoves(m), s1, a2 + a3, [], t);
    assert AskMoves(m) + [] == AskMoves(m);
    steps := a1 + (a2 + a3);
  }

  lemma PositionInside(s: State, id: Id)
    requires Inv(s) && id in s.q.act
    ensures TakeMeasure(s, id) <= 5 * |s.net.conns|
  {
    hide Inv, LockInv, TailInv, TakeLeft;
    QueueBounds(s);
    PositionExact(s.q.act, id);
  }

  lemma SectionBound(s: State, w: int)
    requires Inv(s) && 0 <= w < |s.th.workers|
    ensures ReturnLeft(s, w) <= 12 + 3 * |s.net.conns|
  {
    hide Inv, LockInv, ReturnLeft;
    QueueBounds(s);
  }

  /** From the hands of the worker to the end of the reply. */
  lemma IsAnswered(m: seq<byte>, ok: bool, s: State, w: int, id: Id) returns (steps: seq<Step>, t: State)
    requires Inv(s) && Serving(s) && Valid(s, id) && 0 <= w < |s.th.workers| && s.th.workers[w] == Exec(id)
    requires Queued(ConnOf(s, id)) && Payload(ConnOf(s, id)) == m && Answerable(m)
    ensures GoesThrough(s, steps, id, ReplyMoves(ok), t) && Valid(t, id)
    ensures if [0, 0] <= m then id in t.q.com && E.AtRest(ConnOf(t, id)) else id in t.q.free
    ensures |steps| <= LapBound(|s.net.conns|) + 3 * |s.net.conns| + 14
  {
    hide Inv, GoesThrough, Serving, LapMeasure, LapBound, UnderVisit, LockInv, TailInv, ReturnLeft, Process;
    hide Replying, Queued, Payload, Prepare, SendReq, Answerable, AnswersWith, VisitWrite;
    hide E.Allowed, E.AfterMove, E.Emits, E.AtRest, OwnInv, QueueConnOk, FdInv, SelThreads, SelQueues, SelNet, SelWake;
    var c := ConnOf(s, id);
    InvServed(s, w);
    ServedBytes(c, ok);
    OpenReply(Process(c, ok).conn, m, ok);
    var s1 := ServesIt(s, w, id, ok);
    SectionBound(s1, w);
    var a2, s2 := Returns(s1, w, id);
    LapBounds(s2, id);
    var a3, s3 := Comes(s2, id);
    InvClients(s3);
    OnComOpen(s3, id);
    SendsIt(ConnOf(s3, id), m, ok);
    t := SendsReply(s3, id, HEADER_SIZE);
    InvClients(t);
    if !([0, 0] <= m) {
      ClosedIsFree(t, id);
    }
    var a1, a4 := [Work(w, Execute(ok))], [Sel(VisitSent(Sent(HEADER_SIZE)))];
    var m1, m2 := [E.Serve(ok)], [E.Send(Sent(HEADER_SIZE))];
    assert m1 + m2 == ReplyMoves(ok);
    ThroughLater(s2, a3, id, s3, a4, m2, t);
    ThroughLater(s1, a2, id, s2, a3 + a4, m2, t);
    ThroughAppend(s, a1, id, m1, s1, a2 + (a3 + a4), m2, t);
    steps := a1 + (a2 + (a3 + a4));
  }

  lemma OnComOpen(s: State, id: Id)
    requires OwnInv(s) && QueueConnOk(s, id) && id in s.q.com && Valid(s, id)
    ensures ConnOf(s, id).fd >= 0
  {
    hide OwnInv, Receiving, Replying, Queued;
    Exclusive(s, id);
  }

  lemma ClosedIsFree(s: State, id: Id)
    requires QueueConnOk(s, id) && Valid(s, id) && ConnOf(s, id) == CLEARED
    ensures id in s.q.free
  {
  }

  /**
   The server answers: from every reachable state in which a connection is at rest on com_queue
   and no stop is under way, whatever all threads and the other clients are doing, a run of
   bounded length and without any failure receives the message, makes exactly the call that it
   asks for and sends the whole reply. After an echo the connection is at rest again, after a
   fencing action it is closed and its object free.
   */
  lemma MessageAnswered(m: seq<byte>, ok: bool, s: State, id: Id) returns (steps: seq<Step>)
    requires |m| == Need(m) >= HEADER_SIZE && Answerable(m)
    requires Reached(s) && Serving(s) && Valid(s, id) && id in s.q.com && E.AtRest(ConnOf(s, id))
    ensures Run(s, steps) && SameConnection(Turns(s, steps, id)) && Valid(Final(s, steps), id)
    ensures forall i :: 0 <= i < |steps| ==> Progress(steps[i])
    ensures T.DataAlong(MovesIn(Turns(s, steps, id))) == m
    ensures CallsFor(s, steps, id) == CallsFrom(m, ok)
    ensures SentFor(s, steps, id) == ReplyTo(m, ok)
    ensures var t := Final(s, steps);
            if [0, 0] <= m then id in t.q.com && E.AtRest(ConnOf(t, id)) else id in t.q.free
    ensures |steps| <= 3 * LapBound(|s.net.conns|) + 8 * |s.net.conns| + 24
  {
    hide *;
    ReachedInv(s);
    var c := ConnOf(s, id);
    ReceivesMessage(c, m);
    var asked, t, w := IsAsked(s, id, m);
    var answered, u := IsAnswered(m, ok, t, w, id);
    steps := asked + answered;
    ThroughAppend(s, asked, id, AskMoves(m), t, answered, ReplyMoves(ok), u);
    ThroughRun(s, steps, id, AskMoves(m) + ReplyMoves(ok), u);
    RunIsSession(s, steps, id);
    MessageMeans(m, ok, c);
    SentIsOutput(s, steps, id);
  }

  /** A fencing request that names a node is answered with the result of the one call for it. */
  lemma RequestAnswered(a: Action, nodename: seq<byte>, secret: seq<byte>, ok: bool, s: State, id: Id)
    returns (steps: seq<Step>)
    requires FencingClient.Fits(nodename, secret)
    requires CStr(nodename) != [] && |CStr(nodename)| <= 255 && |CStr(secret)| <= 64
    requires Reached(s) && Serving(s) && Valid(s, id) && id in s.q.com && E.AtRest(ConnOf(s, id))
    ensures Run(s, steps) && SameConnection(Turns(s, steps, id))
    ensures forall i :: 0 <= i < |steps| ==> Progress(steps[i])
    ensures T.DataAlong(MovesIn(Turns(s, steps, id))) == FencingClient.Request(a, nodename, secret)
    ensures CallsFor(s, steps, id) == [Call(a, CStr(nodename), ok)]
    ensures SentFor(s, steps, id) == [0, if ok then 0xA0 else 0xA1, 0, 4]
    ensures id in Final(s, steps).q.free
    ensures |steps| <= 3 * LapBound(|s.net.conns|) + 8 * |s.net.conns| + 24
  {
    hide *;
    RequestMessage(a, nodename, secret, ok);
    steps := MessageAnswered(FencingClient.Request(a, nodename, secret), ok, s, id);
  }

  /** What a request asks for, by its bytes. */
  lemma RequestMessage(a: Action, nodename: seq<byte>, secret: seq<byte>, ok: bool)
    requires FencingClient.Fits(nodename, secret)
    ensures var m := FencingClient.Request(a, nodename, secret);
            && |m| == Need(m) >= HEADER_SIZE && !([0, 0] <= m)
            && (Answerable(m) <==> CStr(nodename) != [] && |CStr(nodename)| <= 255 && |CStr(secret)| <= 64)
            && (Answerable(m) ==>
                 && CallsFrom(m, ok) == [Call(a, CStr(nodename), ok)]
                 && ReplyTo(m, ok) == [0, if ok then 0xA0 else 0xA1, 0, 4])
  {
    hide FencingClient.Request, WellFormed, NodeOf, CStr, NamesTooLong, Need, FencingClient.PrintedField;
    var m := FencingClient.Request(a, nodename, secret);
    E.RequestParsed(a, nodename, secret);
    FencingClient.RequestSized(nodename, secret);
    FencingClient.RequestBytes(a, nodename, secret);
    assert m[..2] == FencingClient.TypeBytesOf(a);
    TypesByBytes(m, m[0] as int * 0x100 + m[1]);
  }

  // ----- what is not answered

  /**
   Over every run of all threads: a connection at rest on which one message arrives, whatever its
   bytes, makes no call but the one that they ask for and sends nothing but a part of the reply to
   them; and none at all if the message is not to be answered.
   */
  lemma ServerMessageSafety(m: seq<byte>, s: State, steps: seq<Step>, id: Id)
    requires |m| == Need(m) >= HEADER_SIZE
    requires Reached(s) && Run(s, steps) && Valid(s, id) && E.AtRest(ConnOf(s, id))
    requires SameConnection(Turns(s, steps, id)) && T.DataAlong(MovesIn(Turns(s, steps, id))) <= m
    ensures M.Owed(m, CallsFor(s, steps, id), SentFor(s, steps, id))
    ensures !Answerable(m) ==> CallsFor(s, steps, id) == [] && SentFor(s, steps, id) == []
  {
    hide *;
    ReachedInv(s);
    RunIsSession(s, steps, id);
    M.MessageSafety(m, ConnOf(s, id), MovesIn(Turns(s, steps, id)));
    SentIsOutput(s, steps, id);
  }

  /** A run in which the connection receives nothing but a part of `m`, and sends something. */
  ghost predicate Replies(s: State, steps: seq<Step>, id: Id, m: seq<byte>)
    requires Valid(s, id)
  {
    && Run(s, steps) && SameConnection(Turns(s, steps, id))
    && T.DataAlong(MovesIn(Turns(s, steps, id))) <= m && SentFor(s, steps, id) != []
  }

  /**
   Exactly the echo requests and the well-formed fencing requests that name a node are answered:
   for any message whatever, some run of the server replies to it if and only if it is one.
   */
  lemma MessageAnswerExact(m: seq<byte>, s: State, id: Id)
    requires |m| == Need(m) >= HEADER_SIZE
    requires Reached(s) && Serving(s) && Valid(s, id) && id in s.q.com && E.AtRest(ConnOf(s, id))
    ensures (exists steps :: Replies(s, steps, id, m)) <==> Answerable(m)
  {
    hide *;
    if Answerable(m) {
      var steps := MessageAnswered(m, true, s, id);
      ReplySize(m, true);
      RunReplies(s, steps, id, m);
    }
    forall steps | Replies(s, steps, id, m)
      ensures Answerable(m)
    {
      RepliesRun(s, steps, id, m);
      ServerMessageSafety(m, s, steps, id);
    }
  }

  lemma RunReplies(s: State, steps: seq<Step>, id: Id, m: seq<byte>)
    requires Run(s, steps) && Valid(s, id) && SameConnection(Turns(s, steps, id))
    requires T.DataAlong(MovesIn(Turns(s, steps, id))) == m && |SentFor(s, steps, id)| == HEADER_SIZE
    ensures Replies(s, steps, id, m)
  {
    hide Run, SameConnection, Turns, MovesIn, SentFor, T.DataAlong;
  }

  lemma RepliesRun(s: State, steps: seq<Step>, id: Id, m: seq<byte>)
    requires Valid(s, id) && Replies(s, steps, id, m)
    ensures Run(s, steps) && SameConnection(Turns(s, steps, id))
    ensures T.DataAlong(MovesIn(Turns(s, steps, id))) <= m && SentFor(s, steps, id) != []
  {
    hide Run, SameConnection, Turns, MovesIn, SentFor, T.DataAlong;
  }

  /** The client's requests among them: those that name a node, and nothing too long. */
  lemma ServerAnswerExact(a: Action, nodename: seq<byte>, secret: seq<byte>, s: State, id: Id)
    requires FencingClient.Fits(nodename, secret)
    requires Reached(s) && Serving(s) && Valid(s, id) && id in s.q.com && E.AtRest(ConnOf(s, id))
    ensures (exists steps :: Replies(s, steps, id, FencingClient.Request(a, nodename, secret)))
       <==> CStr(nodename) != [] && |CStr(nodename)| <= 255 && |CStr(secret)| <= 64
  {
    hide *;
    RequestMessage(a, nodename, secret, true);
    MessageAnswerExact(FencingClient.Request(a, nodename, secret), s, id);
  }

  /**
   A message that is not to be answered costs its sender the connection: unless it is one of those
   by which an exception escapes, the worker that serves it closes the descriptor with its next
   step, calls nothing and frees the object.
   */
  lemma Rejected(s: State, w: int, id: Id, ok: bool) returns (t: State)
    requires Reached(s) && 0 <= w < |s.th.workers| && s.th.workers[w] == Exec(id)
    ensures Valid(s, id) && ConnOf(s, id).ioOffset <= |ConnOf(s, id).ioBuffer| && ConnOf(s, id).fd >= 0
    ensures !Answerable(Payload(ConnOf(s, id))) && !Fatal(ConnOf(s, id)) ==>
              && Run(s, [Work(w, Execute(ok)), Work(w, CloseDetached)])
              && Final(s, [Work(w, Execute(ok)), Work(w, CloseDetached)]) == t
              && id in t.q.free && Valid(t, id) && ConnOf(t, id) == CLEARED
              && t.net.calls == s.net.calls
              && t.net.closed == s.net.closed + multiset{ConnOf(s, id).fd}
  {
    hide Inv, Reached, Process, Queued, Answerable, Fatal, Enabled, Apply, CallsFrom;
    ReachedInv(s);
    InvServed(s, w);
    var c := ConnOf(s, id);
    ServedBytes(c, ok);
    EscapesFatal(c, ok);
    HeldOpen(s, w, id);
    t := s;
    if !Answerable(Payload(c)) && !Fatal(c) {
      NotCalled(Payload(c), ok);
      var a, b := Work(w, Execute(ok)), Work(w, CloseDetached);
      var u := ServedWithoutReply(s, w, id, ok);
      t := ClosedByWorker(u, w, id);
      R.TwoSteps(s, a, u, b, t);
    }
  }

  lemma NotCalled(m: seq<byte>, ok: bool)
    requires !Answerable(m)
    ensures CallsFrom(m, ok) == []
  {
  }

  lemma HeldOpen(s: State, w: int, id: Id)
    requires Inv(s) && 0 <= w < |s.th.workers| && s.th.workers[w] == Exec(id)
    ensures Valid(s, id) && ConnOf(s, id).fd >= 0
  {
    hide Inv, OwnInv, FdInv, Receiving, Replying, Queued;
    InvClients(s);
    HeldExclusive(s, w, id);
    assert QueueConnOk(s, id);
  }

  lemma ServedWithoutReply(s: State, w: int, id: Id, ok: bool) returns (u: State)
    requires 0 <= w < |s.th.workers| && s.th.workers[w] == Exec(id) && Valid(s, id)
    requires ConnOf(s, id).ioOffset <= |ConnOf(s, id).ioBuffer|
    requires var o := Process(ConnOf(s, id), ok);
             !o.escaped && o.calls == [] && o.conn.phase != RECV && o.conn.phase != SEND
    ensures Next(s, Work(w, Execute(ok)), u)
    ensures 0 <= w < |u.th.workers| && u.th.workers[w] == CloseFree(id) && Valid(u, id)
    ensures ConnOf(u, id) == Process(ConnOf(s, id), ok).conn
    ensures u.net.calls == s.net.calls && u.net.closed == s.net.closed
  {
    hide Process;
    u := Apply(s, Work(w, Execute(ok)));
  }

  lemma ClosedByWorker(u: State, w: int, id: Id) returns (t: State)
    requires 0 <= w < |u.th.workers| && u.th.workers[w] == CloseFree(id) && Valid(u, id) && ConnOf(u, id).fd >= 0
    ensures Next(u, Work(w, CloseDetached), t)
    ensures id in t.q.free && Valid(t, id) && ConnOf(t, id) == CLEARED && t.net.calls == u.net.calls
    ensures t.net.closed == u.net.closed + multiset{ConnOf(u, id).fd}
  {
    t := Apply(u, Work(w, CloseDetached));
  }
}
