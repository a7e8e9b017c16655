/**
 The concurrent server seen from one client object: whatever the threads do, the object
 goes through the moves of a session, one connection after the other.
 */
module ServerSessions {
  import opened Wire
  import opened Connection
  import opened Phases
  import opened Fencing
  import opened ServerProtocol
  import opened ServerOwnership
  import opened ServerConnections
  import opened ServerDescriptors
  import opened ServerInvariant
  import opened ServerShutdown
  import opened ServerTheorems
  import FencingClient
  import E = EndToEnd
  import T = EndToEndTheorems

  /** What a step of the server is for one client object. */
  datatype Turn = Still | Connects(fd: int) | Moving(move: E.Move)

  function SelTurn(s: State, ss: SelStep, id: Id): Turn {
    if SelTouches(s) != [id] then Still
    else
      match ss
      case AcceptConn(fd) => Connects(fd)
      case VisitCanceled => Moving(E.Drop)
      case VisitEnded => Moving(E.Drop)
      case VisitGot(data) => Moving(E.Receive(data))
      case VisitSent(r) => Moving(E.Send(r))
      case CleanAct => Moving(E.Drop)
      case CleanCom => Moving(E.Drop)
      case _ => Still
  }

  function WorkTurn(s: State, w: int, ws: WorkStep, id: Id): Turn
    requires 0 <= w < |s.th.workers|
  {
    if WorkHeld(s.th.workers[w]) != [id] then Still
    else
      match ws
      case Execute(ok) => Moving(E.Serve(ok))
      case CloseStopped => Moving(E.Drop)
      case CloseDetached => Moving(E.Drop)
      case _ => Still
  }

  function TurnOf(s: State, step: Step, id: Id): Turn
    requires Enabled(s, step)
  {
    match step
    case Sel(ss) => SelTurn(s, ss, id)
    case Work(w, ws) => WorkTurn(s, w, ws, id)
    case Signal => Still
  }

  /** The turn is possible for an object in state `c` and takes it to `d`. */
  ghost predicate Follows(c: Conn, turn: Turn, d: Conn) {
    match turn
    case Still => d == c
    case Connects(fd) => fd >= 0 && c.fd < 0 && d == Accepted(fd)
    case Moving(m) => E.Allowed(c, m) && d == E.AfterMove(c, m)
  }

  /** What a visit of the selector is for the object under visit. */
  lemma VisitFollows(s: State, ss: SelStep)
    requires Visiting(s) && SelEnabled(s, ss) && VisitReady(s) && Visited(s).fd >= 0
    requires Visited(s).phase != CANCELED
    ensures var (c, fate) := VisitResult(s, ss);
            Follows(Visited(s), SelTurn(s, ss, s.th.sel.todo[0]), if fate == Close then CLEARED else c)
  {
    hide RecvStep, RecvReq, VisitRead, VisitWrite, Prepare, SendReq;
    var c := Visited(s);
    if ss.VisitSent? {
      SendInBuffer(c, ss.r);
    } else if ss.VisitGot? {
      ReceivingPhase(c);
    }
  }

  lemma ReceivingPhase(c: Conn)
    ensures Receiving(c) ==> c.phase == RECV
    ensures Replying(c) ==> c.phase == SEND
  {
  }

  lemma PendingQueued(c: Conn)
    ensures Queued(c) ==> c.phase == PENDING && c.ioOffset <= |c.ioBuffer|
  {
  }

  lemma SendInBuffer(c: Conn, r: SendResult)
    requires Replying(c) && Written(r) <= SendReq(Prepare(c))
    ensures c.phase == SEND && c.ioOffset + Written(r) <= |c.ioBuffer|
  {
    if !r.SendFailed? {
      SendStepExact(c, r);
    }
  }

  lemma TouchedVisit(s: State, ss: SelStep, t: State)
    requires Next(s, Sel(ss), t) && Core(s) && Visiting(s)
    ensures Valid(t, s.th.sel.todo[0])
    ensures Follows(Visited(s), SelTurn(s, ss, s.th.sel.todo[0]), ConnOf(t, s.th.sel.todo[0]))
  {
    hide Follows, VisitResult, Receiving, Replying, Queued, OwnInv, SelThreads, SelQueues, SelWake, SelTurn;
    hide TailInv, VisitReady, WorkerConnOk;
    var id := s.th.sel.todo[0];
    CoreVisited(s);
    VisitFollows(s, ss);
  }

  lemma CoreVisited(s: State)
    requires Core(s) && Visiting(s)
    ensures Visited(s).fd >= 0 && Visited(s).phase != CANCELED && VisitReady(s)
  {
    hide OwnInv, VisitReady;
    var com, todo := s.q.com, s.th.sel.todo;
    assert com[|com| - |todo|] == todo[0];
    Exclusive(s, todo[0]);
    assert QueueConnOk(s, todo[0]);
    ReceivingPhase(Visited(s));
  }

  lemma TouchedOther(s: State, ss: SelStep, t: State, id: Id)
    requires Next(s, Sel(ss), t) && QueueConnOk(s, id) && Valid(s, id) && SelTouches(s) == [id] && !s.th.sel.Io?
    ensures Valid(t, id) && Follows(ConnOf(s, id), SelTurn(s, ss, id), ConnOf(t, id))
  {
    hide Receiving, Replying, Queued, SelThreads, SelQueues, SelWake;
  }

  lemma SelFollows(s: State, ss: SelStep, t: State, id: Id)
    requires Next(s, Sel(ss), t) && Core(s) && Valid(s, id)
    ensures Valid(t, id) && Follows(ConnOf(s, id), SelTurn(s, ss, id), ConnOf(t, id))
    ensures t.net.calls == s.net.calls
  {
    hide VisitResult, Receiving, Replying, Queued, OwnInv, QueueConnOk, WorkerConnOk, VisitReady, SelThreads;
    hide SelQueues, SelWake, TailInv;
    SelNetFrame(s, ss);
    if SelTouches(s) == [id] {
      if s.th.sel.Io? {
        TouchedVisit(s, ss, t);
      } else {
        TouchedOther(s, ss, t, id);
      }
    }
  }

  lemma WorkFollows(s: State, w: int, ws: WorkStep, t: State, id: Id)
    requires Next(s, Work(w, ws), t) && Core(s) && Valid(s, id)
    ensures Valid(t, id) && Follows(ConnOf(s, id), WorkTurn(s, w, ws, id), ConnOf(t, id))
    ensures WorkTurn(s, w, ws, id).Moving? ==>
              t.net.calls == s.net.calls + E.CallsOf(ConnOf(s, id), WorkTurn(s, w, ws, id).move)
  {
    hide Receiving, Replying, Queued, OwnInv, VisitReady, WorkThreads, WorkQueues, WorkWake, TailInv, Process;
    WorkNetFrame(s, w, ws);
    if WorkHeld(s.th.workers[w]) == [id] {
      assert WorkerConnOk(s, w);
      HeldExclusive(s, w, id);
      assert QueueConnOk(s, id);
      PendingQueued(ConnOf(s, id));
    }
  }

  /**
   The server refines the session, object by object: each step of any thread is, for each
   client object, nothing, the start of a new connection or one move of the session that is
   allowed there; and a worker's move makes the calls that the session says.
   */
  lemma StepFollows(s: State, step: Step, t: State, id: Id)
    requires Next(s, step, t) && Inv(s) && Valid(s, id)
    ensures Valid(t, id) && Follows(ConnOf(s, id), TurnOf(s, step, id), ConnOf(t, id))
    ensures var turn := TurnOf(s, step, id);
            turn.Moving? ==> t.net.calls == s.net.calls + E.CallsOf(ConnOf(s, id), turn.move)
  {
    hide Inv, Follows, Core, SelTurn, WorkTurn;
    InvLocks(s);
    match step
    case Sel(ss) =>
      SelFollows(s, ss, t, id);
      SelMakesNoCall(s, ss, id);
    case Work(w, ws) => WorkFollows(s, w, ws, t, id);
    case Signal => SignalFollows(s, t, id);
  }

  lemma SelMakesNoCall(s: State, ss: SelStep, id: Id)
    ensures var turn := SelTurn(s, ss, id); turn.Moving? ==> !turn.move.Serve?
  {
  }

  lemma SignalFollows(s: State, t: State, id: Id)
    requires Next(s, Signal, t) && Valid(s, id)
    ensures Valid(t, id) && ConnOf(t, id) == ConnOf(s, id) && Follows(ConnOf(s, id), Still, ConnOf(t, id))
  {
  }

  /** The turns of one client object over a run. */
  function Turns(s: State, steps: seq<Step>, id: Id): seq<Turn>
    requires Run(s, steps)
    decreases |steps|
  {
    if steps == [] then [] else [TurnOf(s, steps[0], id)] + Turns(Apply(s, steps[0]), steps[1..], id)
  }

  ghost predicate FollowsAll(c: Conn, turns: seq<Turn>, d: Conn)
    decreases |turns|
  {
    if turns == [] then d == c
    else exists e :: Follows(c, turns[0], e) && FollowsAll(e, turns[1..], d)
  }

  /** Over whole runs: the history of every client object is one of the session model. */
  lemma {:induction false} RunFollows(s: State, steps: seq<Step>, id: Id)
    requires Inv(s) && Run(s, steps) && Valid(s, id)
    ensures Valid(Final(s, steps), id)
    ensures FollowsAll(ConnOf(s, id), Turns(s, steps, id), ConnOf(Final(s, steps), id))
    decreases |steps|
  {
    hide Inv, Enabled, Apply, Follows, TurnOf;
    if steps != [] {
      var t := Apply(s, steps[0]);
      StepFollows(s, steps[0], t, id);
      InvStep(s, steps[0], t);
      RunFollows(t, steps[1..], id);
      assert Turns(s, steps, id)[1..] == Turns(t, steps[1..], id);
    }
  }

  /** A new connection is ready for a request, so that every theorem on sessions applies to it. */
  lemma AcceptedReady(fd: int)
    requires fd >= 0
    ensures E.AtRest(Accepted(fd))
  {
    AcceptedReceives(fd);
  }

  function MovesIn(turns: seq<Turn>): seq<E.Move> {
    if turns == [] then [] else (if turns[0].Moving? then [turns[0].move] else []) + MovesIn(turns[1..])
  }

  predicate SameConnection(turns: seq<Turn>) {
    forall i :: 0 <= i < |turns| ==> !turns[i].Connects?
  }

  /** What the step added to the log of plugin calls. */
  function Added(s: State, t: State): seq<Call> {
    if |s.net.calls| <= |t.net.calls| then t.net.calls[|s.net.calls|..] else []
  }

  /** The plugin calls made for one client object over a run. */
  function CallsFor(s: State, steps: seq<Step>, id: Id): seq<Call>
    requires Run(s, steps)
    decreases |steps|
  {
    if steps == [] then []
    else
      var t := Apply(s, steps[0]);
      (if TurnOf(s, steps[0], id).Moving? then Added(s, t) else []) + CallsFor(t, steps[1..], id)
  }

  lemma FirstTurn(c: Conn, turn: Turn, d: Conn, rest: seq<E.Move>, s: State, t: State)
    requires Follows(c, turn, d) && !turn.Connects? && T.AllowedAlong(d, rest)
    requires turn.Moving? ==> t.net.calls == s.net.calls + E.CallsOf(c, turn.move)
    ensures var moves := (if turn.Moving? then [turn.move] else []) + rest;
            && T.AllowedAlong(c, moves)
            && T.CallsAlong(c, moves) == (if turn.Moving? then Added(s, t) else []) + T.CallsAlong(d, rest)
  {
    hide E.AfterMove, E.Allowed, E.CallsOf;
    if turn.Moving? {
      assert ([turn.move] + rest)[1..] == rest;
    } else {
      assert [] + rest == rest && [] + T.CallsAlong(d, rest) == T.CallsAlong(d, rest);
    }
  }

  /** The moves and calls of one connection over a run of the whole server are a session's. */
  lemma {:induction false} RunIsSession(s: State, steps: seq<Step>, id: Id)
    requires Inv(s) && Run(s, steps) && Valid(s, id) && SameConnection(Turns(s, steps, id))
    ensures var moves := MovesIn(Turns(s, steps, id));
            && T.AllowedAlong(ConnOf(s, id), moves)
            && T.CallsAlong(ConnOf(s, id), moves) == CallsFor(s, steps, id)
    decreases |steps|
  {
    hide Inv, Enabled, Apply, Follows, TurnOf, Added;
    if steps != [] {
      var t, turn := Apply(s, steps[0]), TurnOf(s, steps[0], id);
      var turns, rest := Turns(s, steps, id), Turns(t, steps[1..], id);
      assert turns[0] == turn && turns[1..] == rest;
      assert forall i :: 0 <= i < |rest| ==> rest[i] == turns[i + 1];
      StepFollows(s, steps[0], t, id);
      InvStep(s, steps[0], t);
      RunIsSession(t, steps[1..], id);
      FirstTurn(ConnOf(s, id), turn, ConnOf(t, id), MovesIn(rest), s, t);
    }
  }

  /** What the connection of the object sends over a run; nothing if the moves are not a session's. */
  function SentFor(s: State, steps: seq<Step>, id: Id): seq<byte>
    requires Run(s, steps) && Valid(s, id)
  {
    var moves := MovesIn(Turns(s, steps, id));
    if T.AllowedAlong(ConnOf(s, id), moves) then T.OutputAlong(ConnOf(s, id), moves) else []
  }

  /**
   Fencing safety of the concurrent server: over every run of all its threads, signals and
   the other clients included, a connection on which a fencing request arrives, complete or
   not and cut anyhow, leads to no plugin call but one, at most, for the requested action on
   the node named, and sends nothing but a prefix of the reply that tells that call's result.
   */
  lemma ServerFencingSafety(a: Action, nodename: seq<byte>, secret: seq<byte>, s: State, steps: seq<Step>, id: Id)
    requires FencingClient.Fits(nodename, secret)
    requires Reached(s) && Run(s, steps) && Valid(s, id) && E.AtRest(ConnOf(s, id))
    requires SameConnection(Turns(s, steps, id))
    requires T.DataAlong(MovesIn(Turns(s, steps, id))) <= FencingClient.Request(a, nodename, secret)
    ensures CallsFor(s, steps, id) == [] || exists ok :: CallsFor(s, steps, id) == [Call(a, CStr(nodename), ok)]
    ensures T.AllowedAlong(ConnOf(s, id), MovesIn(Turns(s, steps, id)))
    ensures SentFor(s, steps, id) <= E.Expected(E.FenceTask(a, nodename, secret), CallsFor(s, steps, id))
  {
    hide *;
    ReachedInv(s);
    RunIsSession(s, steps, id);
    RequestCalls(a, nodename, secret, ConnOf(s, id), MovesIn(Turns(s, steps, id)));
    SentIsOutput(s, steps, id);
  }

  lemma SentIsOutput(s: State, steps: seq<Step>, id: Id)
    requires Run(s, steps) && Valid(s, id) && T.AllowedAlong(ConnOf(s, id), MovesIn(Turns(s, steps, id)))
    ensures SentFor(s, steps, id) == T.OutputAlong(ConnOf(s, id), MovesIn(Turns(s, steps, id)))
  {
    hide Run, T.AllowedAlong, T.OutputAlong, MovesIn, Turns;
  }

  lemma RequestCalls(a: Action, nodename: seq<byte>, secret: seq<byte>, c: Conn, moves: seq<E.Move>)
    requires FencingClient.Fits(nodename, secret) && E.AtRest(c) && T.AllowedAlong(c, moves)
    requires T.DataAlong(moves) <= FencingClient.Request(a, nodename, secret)
    ensures T.CallsAlong(c, moves) == [] || exists ok :: T.CallsAlong(c, moves) == [Call(a, CStr(nodename), ok)]
    ensures T.OutputAlong(c, moves) <= E.Expected(E.FenceTask(a, nodename, secret), T.CallsAlong(c, moves))
  {
    hide E.AtRest, T.AllowedAlong, T.DataAlong, T.CallsAlong, T.OutputAlong, FencingClient.Request, CStr, E.Expected;
    T.ServerSideSafety(E.FenceTask(a, nodename, secret), c, moves);
    var calls := T.CallsAlong(c, moves);
    if calls != [] {
      assert calls == [Call(a, CStr(nodename), calls[0].ok)];
    }
  }

  /** A whole reply tells which call was made. */
  lemma ReplyTells(a: Action, nodename: seq<byte>, secret: seq<byte>, calls: seq<Call>, got: seq<byte>)
    requires got <= E.Expected(E.FenceTask(a, nodename, secret), calls) && Whole(got)
    requires calls == [] || exists ok :: calls == [Call(a, CStr(nodename), ok)]
    ensures FencingClient.Interpret(DecodeHeader(got)).Answer?
    ensures calls == [Call(a, CStr(nodename), FencingClient.Interpret(DecodeHeader(got)).ok)]
  {
    hide CStr, EncodeHeader, DecodeHeader, Whole;
    T.ExpectedWhole(E.FenceTask(a, nodename, secret), calls, got);
    assert calls != [] && got == E.Expected(E.FenceTask(a, nodename, secret), calls);
    E.HeaderOf(Header(if calls[0].ok then FENCE_SUCCESS else FENCE_FAIL, HEADER_SIZE));
  }

  /**
   From end to end over the concurrent server: a client sends a fencing request on a connection
   of the server, whatever else the server does meanwhile; the server has received a part of the
   request and the client a part of what the server sent. If the client's method returns an
   answer, the plugin was called for this request exactly once, with the requested action and
   the node named, and that was its result; and the method never reports a fault.
   */
  method FenceOverServer(client: FencingClient.ClientConnector, a: Action, nodename: seq<byte>, secret: seq<byte>,
                         sends: seq<FencingClient.Io<nat>>, receives: seq<FencingClient.Io<seq<byte>>>,
                         ghost s: State, ghost steps: seq<Step>, ghost id: Id)
    returns (reply: FencingClient.Reply)
    requires client.ioBuffer.Length == IO_BUFFER_SIZE
    requires FencingClient.Fits(nodename, secret)
    requires FencingClient.Sends(FencingClient.RequestLength(nodename, secret), client.socketFd, sends)
    requires FencingClient.Receives([], client.socketFd, false, receives)
    requires Reached(s) && Run(s, steps) && Valid(s, id) && E.AtRest(ConnOf(s, id))
    requires SameConnection(Turns(s, steps, id))
    requires T.DataAlong(MovesIn(Turns(s, steps, id))) <= FencingClient.Request(a, nodename, secret)
    requires FencingClient.Taken(receives) <= SentFor(s, steps, id)
    modifies client, client.header, client.ioBuffer
    ensures reply.Answer? || reply == FencingClient.NoReply
    ensures reply.Answer? ==> CallsFor(s, steps, id) == [Call(a, CStr(nodename), reply.ok)]
  {
    hide *;
    ServerFencingSafety(a, nodename, secret, s, steps, id);
    ghost var got := FencingClient.Taken(receives);
    var sent;
    reply, sent := client.FenceActionImpl(a, nodename, secret, sends, receives);
    if Whole(got) {
      ReplyTells(a, nodename, secret, CallsFor(s, steps, id), got);
    }
  }
}
