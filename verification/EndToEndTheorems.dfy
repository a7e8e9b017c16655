/**
 What a request means from end to end, over all runs: an answer implies that the plugin
 was called once for it, and without failures there always is an answer.
 */
module EndToEndTheorems {
  import opened Wire
  import opened Connection
  import opened Phases
  import opened Fencing
  import opened FencingClient
  import opened EndToEnd

  // ----- the invariant

  function Got(c: ClientPc): seq<byte> {
    if c.Requesting? then [] else c.got
  }

  function SentSoFar(task: Task, c: ClientPc): nat
    requires TaskFits(task)
  {
    if c.Requesting? then c.offset else |Msg(task)|
  }

  /** What the client has received and is going to receive, and what it makes of it. */
  ghost predicate ClientOk(task: Task, s: Session)
    requires TaskFits(task)
  {
    && CallOk(task, s.log)
    && Got(s.client) + s.down <= Expected(task, s.log)
    && SentSoFar(task, s.client) <= |Msg(task)|
    && (s.client.Requesting? ==> s.client.offset < |Msg(task)|)
    && (s.client.Awaiting? ==> |s.client.got| < HEADER_SIZE)
    && (s.client.Finished? ==>
         |s.client.got| == HEADER_SIZE && s.client.reply == ReplyOf(task, DecodeHeader(s.client.got)))
  }

  ghost predicate Asking(task: Task, s: Session)
    requires TaskFits(task)
  {
    && Receiving(s.conn) && s.log == [] && s.down == [] && Got(s.client) == []
    && SentSoFar(task, s.client) <= |Msg(task)|
    && Payload(s.conn) + s.up == Msg(task)[..SentSoFar(task, s.client)]
  }

  ghost predicate Asked(task: Task, s: Session)
    requires TaskFits(task)
  {
    && Queued(s.conn) && Payload(s.conn) == Msg(task) && s.up == []
    && !s.client.Requesting? && Got(s.client) == [] && s.down == [] && s.log == []
  }

  ghost predicate Answering(task: Task, s: Session) {
    && Replying(s.conn) && Message(s.conn) == Expected(task, s.log)
    && (s.conn.nextPhase == RECV <==> task.EchoTask?)
    && s.up == [] && !s.client.Requesting?
    && s.conn.ioOffset <= |Message(s.conn)|
    && Got(s.client) + s.down == Message(s.conn)[..s.conn.ioOffset]
  }

  /** An echo request has been answered, and the connection is as it was before it. */
  ghost predicate Answered(task: Task, s: Session) {
    && task.EchoTask? && AtRest(s.conn) && s.up == [] && !s.client.Requesting?
    && Got(s.client) + s.down == Expected(task, s.log)
  }

  ghost predicate ServerOk(task: Task, s: Session)
    requires TaskFits(task)
  {
    s.conn.fd >= 0 ==>
      match s.conn.phase
      case RECV => Asking(task, s) || Answered(task, s)
      case PENDING => Asked(task, s)
      case SEND => Answering(task, s)
      case _ => !Acceptable(task)
  }

  ghost predicate Safe(task: Task, s: Session)
    requires TaskFits(task)
  {
    ClientOk(task, s) && ServerOk(task, s)
  }

  lemma StartSafe(task: Task, s: Session)
    requires TaskFits(task) && SessionStart(s)
    ensures Safe(task, s) && Asking(task, s)
  {
    hide Msg, Receiving, Expected;
    ReceivingFacts(s.conn);
    assert Payload(s.conn) == [];
  }

  lemma ReceivingFacts(c: Conn)
    requires Receiving(c)
    ensures c.phase == RECV && c.ioOffset <= |c.ioBuffer| == IO_BUFFER_SIZE
    ensures |Payload(c)| < Need(Payload(c))
  {
  }

  // ----- the client's steps

  lemma SendsStep(task: Task, s: Session, n: nat, t: Session)
    requires SessionNext(task, s, ClientSends(n), t) && Safe(task, s)
    ensures Safe(task, t)
  {
    hide Msg, Expected, Receiving, Queued, Replying, Message, CallOk, ReplyOf, AtRest;
    var m, o := Msg(task), s.client.offset;
    assert m[..o] + m[o..o + n] == m[..o + n];
    if s.conn.fd >= 0 && s.conn.phase == RECV {
      ReceivingFacts(s.conn);
      assert Payload(t.conn) + t.up == Payload(s.conn) + s.up + m[o..o + n];
    }
  }

  lemma ExpectedWhole(task: Task, log: seq<Call>, got: seq<byte>)
    requires got <= Expected(task, log)
    ensures Whole(got) <==> |got| == HEADER_SIZE
    ensures |got| <= HEADER_SIZE
  {
    hide EncodeHeader, DecodeHeader;
    if |got| == HEADER_SIZE {
      assert got == Expected(task, log);
      match task
      case EchoTask => HeaderOf(Header(ECHO_REPLY, HEADER_SIZE));
      case FenceTask(_, _, _) => HeaderOf(Header(if log[0].ok then FENCE_SUCCESS else FENCE_FAIL, HEADER_SIZE));
    }
  }

  lemma ReceivesStep(task: Task, s: Session, n: nat, t: Session)
    requires SessionNext(task, s, ClientReceives(n), t) && Safe(task, s)
    ensures Safe(task, t)
  {
    hide Msg, Expected, Receiving, Queued, Replying, Message, CallOk, ReplyOf, AtRest, Whole, Need;
    var got := s.client.got + s.down[..n];
    assert got + s.down[n..] == s.client.got + s.down;
    assert got == (got + s.down[n..])[..|got|];
    ExpectedWhole(task, s.log, got);
    assert Got(t.client) + t.down == Got(s.client) + s.down;
  }

  // ----- the server's moves

  lemma MessageComplete(task: Task, got: seq<byte>)
    requires TaskFits(task) && got <= Msg(task) && |got| == Need(got) >= HEADER_SIZE
    ensures got == Msg(task)
  {
    hide Msg;
    MsgNeed(task);
    var rest := Msg(task)[|got|..];
    assert got + rest == Msg(task);
    DecodePrefix(got, rest);
  }

  lemma ServerReceives(task: Task, s: Session, data: seq<byte>, t: Session)
    requires SessionNext(task, s, Server(Receive(data)), t) && Safe(task, s)
    ensures Safe(task, t)
    ensures Asking(task, s) && t.conn.fd == s.conn.fd && (t.conn.phase == RECV || t.conn.phase == PENDING)
  {
    hide Msg, Expected, Receiving, Queued, Replying, Message, CallOk, ReplyOf, VisitRead, RecvStep, RecvReq;
    NoDataLeft(task, s, data);
    VisitReadKeeps(s.conn, data);
    var got := Payload(s.conn) + data;
    var (c1, fate) := VisitRead(s.conn, data);
    ReadPhase(s.conn, data);
    assert t.conn == c1 && Payload(c1) == got;
    assert got + t.up == Payload(s.conn) + s.up;
    assert got == (got + t.up)[..|got|];
    if fate == ToAction {
      QueuedNeed(c1);
      MessageComplete(task, got);
      assert |got + t.up| <= |Msg(task)|;
      assert t.up == [];
    }
  }

  lemma NoDataLeft(task: Task, s: Session, data: seq<byte>)
    requires TaskFits(task) && Safe(task, s) && Allowed(s.conn, Receive(data)) && data <= s.up
    ensures Asking(task, s) && Receiving(s.conn)
  {
  }

  lemma ReadPhase(c: Conn, data: seq<byte>)
    requires Receiving(c) && 1 <= |data| <= RecvReq(c) && RecvStep(c, data) != Overrun
    ensures var (c1, fate) := VisitRead(c, data);
            && c1.ioOffset == |Payload(c)| + |data| <= |c1.ioBuffer|
            && (fate == Stay ==> c1.phase == RECV) && (fate == ToAction ==> c1.phase == PENDING)
  {
  }

  lemma QueuedNeed(c: Conn)
    requires Queued(c)
    ensures c.ioOffset <= |c.ioBuffer| && |Payload(c)| == Need(Payload(c)) >= HEADER_SIZE
  {
  }

  lemma ServerServes(task: Task, s: Session, ok: bool, t: Session)
    requires SessionNext(task, s, Server(Serve(ok)), t) && Safe(task, s)
    ensures Safe(task, t)
    ensures t.conn.fd == s.conn.fd && (Acceptable(task) ==> t.conn.phase == SEND)
  {
    hide Msg, Expected, Receiving, Queued, Message, Process, ReplyOf;
    assert Asked(task, s);
    Served(task, s.conn, ok);
    var o := Process(s.conn, ok);
    assert s.log + o.calls == o.calls;
    ServedSession(task, s, ok, t);
  }

  lemma ServedSession(task: Task, s: Session, ok: bool, t: Session)
    requires TaskFits(task) && Asked(task, s) && ClientOk(task, s)
    requires t == s.(conn := Process(s.conn, ok).conn, log := Process(s.conn, ok).calls)
    requires CallOk(task, t.log)
    requires Acceptable(task) ==>
               && Replying(t.conn) && t.conn.ioOffset == 0 && Message(t.conn) == Expected(task, t.log)
               && (t.conn.nextPhase == RECV <==> task.EchoTask?)
    requires !Acceptable(task) ==> t.conn.phase == EXECUTING || t.conn.phase == CANCELED
    ensures Safe(task, t)
  {
    hide Msg, Expected, Receiving, Queued, Message, Process, ReplyOf, CallOk, Acceptable;
    assert Got(t.client) + t.down == [];
  }

  lemma ServerSends(task: Task, s: Session, r: SendResult, t: Session)
    requires SessionNext(task, s, Server(Send(r)), t) && Safe(task, s)
    ensures Safe(task, t)
    ensures !r.SendFailed? ==> (t.conn.fd == s.conn.fd && (t.conn.phase == SEND || t.conn.phase == RECV))
                               || Got(t.client) + t.down == Expected(task, t.log)
  {
    hide Safe, SessionNext, Expected, Msg;
    if r.SendFailed? {
      SendFails(task, s, r, t);
    } else {
      SendGoesOn(task, s, r, t);
    }
  }

  lemma SendFails(task: Task, s: Session, r: SendResult, t: Session)
    requires SessionNext(task, s, Server(Send(r)), t) && Safe(task, s) && r.SendFailed?
    ensures Safe(task, t)
  {
    hide Msg, Expected, Receiving, Queued, CallOk, ReplyOf, SendStep, Prepare, Message, SendReq;
    var c := s.conn;
    PrepareOnce(c, 0);
    assert Emitted(c, r) == [];
    assert t.down == s.down && t.log == s.log && t.conn.fd == FD_NONE;
  }

  lemma SendGoesOn(task: Task, s: Session, r: SendResult, t: Session)
    requires SessionNext(task, s, Server(Send(r)), t) && Safe(task, s) && !r.SendFailed?
    ensures Safe(task, t)
    ensures (t.conn.fd == s.conn.fd && (t.conn.phase == SEND || t.conn.phase == RECV))
            || Got(t.client) + t.down == Expected(task, t.log)
  {
    hide Msg, Expected, Receiving, Queued, CallOk, ReplyOf, SendStep, Prepare, Message, SendReq, VisitWrite;
    hide Emitted, ClientOk;
    assert Answering(task, s);
    var c := s.conn;
    assert t.log == s.log;
    SendStepExact(c, r);
    var (c1, done) := SendStep(c, r);
    assert Got(s.client) + t.down == Message(c)[..c.ioOffset] + Message(c)[c.ioOffset..c1.ioOffset]
                                  == Message(c)[..c1.ioOffset];
    WritePhase(c, r);
    if !done {
      MoreToSend(task, s, t, c1.ioOffset);
    } else {
      AllSent(task, s, t);
    }
  }

  lemma MoreToSend(task: Task, s: Session, t: Session, o: nat)
    requires TaskFits(task) && ClientOk(task, s) && s.conn.phase == SEND && Answering(task, s)
    requires t == s.(conn := t.conn, down := t.down) && t.conn.fd == s.conn.fd && t.conn.phase == SEND
    requires Replying(t.conn) && Message(t.conn) == Message(s.conn) && t.conn.nextPhase == s.conn.nextPhase
    requires o == t.conn.ioOffset <= |Message(s.conn)| && Got(s.client) + t.down == Message(s.conn)[..o]
    ensures Safe(task, t)
  {
    hide Msg, Expected, Receiving, Queued, CallOk, ReplyOf, Message, Replying;
  }

  lemma AllSent(task: Task, s: Session, t: Session)
    requires TaskFits(task) && ClientOk(task, s) && Answering(task, s)
    requires t == s.(conn := t.conn, down := t.down) && Got(s.client) + t.down == Message(s.conn)
    requires t.conn.fd < 0 || (s.conn.nextPhase == RECV && AtRest(t.conn) && t.conn.phase == RECV)
    ensures Safe(task, t) && Got(t.client) + t.down == Expected(task, t.log)
  {
    hide Msg, Expected, Receiving, Queued, CallOk, ReplyOf, Message, Replying;
  }

  lemma WritePhase(c: Conn, r: SendResult)
    requires Replying(c) && !r.SendFailed? && Written(r) <= SendReq(Prepare(c))
    ensures var ((c1, done), (d, fate)) := (SendStep(c, r), VisitWrite(c, r));
            && d.fd == c1.fd == c.fd && c1.phase == SEND && c1.nextPhase == c.nextPhase
            && (!done ==> fate == Stay && d == c1 && Replying(d))
            && (done && c.nextPhase == CANCELED ==> fate == Close)
            && (done && c.nextPhase == RECV ==> fate == Stay && Receiving(d) && d == ClearIo(d) && d.phase == RECV)
  {
    hide Receiving;
    VisitWriteKeeps(c, r);
    SendStepExact(c, r);
  }

  lemma DropStep(task: Task, s: Session, t: Session)
    requires SessionNext(task, s, Server(Drop), t) && Safe(task, s)
    ensures Safe(task, t)
  {
    hide Msg, Expected, CallOk, ReplyOf;
    assert t.down == s.down && t.log == s.log && t.conn.fd == FD_NONE;
  }

  /** Every step of either party keeps the invariant. */
  lemma SafeStep(task: Task, s: Session, st: SessionStep, t: Session)
    requires SessionNext(task, s, st, t) && Safe(task, s)
    ensures Safe(task, t)
  {
    hide Safe, SessionNext;
    match st
    case ClientSends(n) => SendsStep(task, s, n, t);
    case ClientReceives(n) => ReceivesStep(task, s, n, t);
    case Server(Receive(data)) => ServerReceives(task, s, data, t);
    case Server(Send(r)) => ServerSends(task, s, r, t);
    case Server(Serve(ok)) => ServerServes(task, s, ok, t);
    case Server(Drop) => DropStep(task, s, t);
  }

  lemma {:induction false} SafeRun(task: Task, s: Session, steps: seq<SessionStep>)
    requires TaskFits(task) && Safe(task, s) && SessionRun(task, s, steps)
    ensures Safe(task, SessionFinal(task, s, steps))
    decreases |steps|
  {
    hide Safe, SessionEnabled, SessionApply;
    if steps != [] {
      SafeStep(task, s, steps[0], SessionApply(task, s, steps[0]));
      SafeRun(task, SessionApply(task, s, steps[0]), steps[1..]);
    }
  }

  /**
   End-to-end fencing safety: over every run, however the bytes are cut and whatever fails,
   the plugin is called at most once and only for the requested action on exactly the node
   named; and a client that gets its reply returns what that one call returned, and never
   an exception.
   */
  lemma FencingSafety(a: Action, nodename: seq<byte>, secret: seq<byte>, s: Session, steps: seq<SessionStep>)
    requires Fits(nodename, secret) && SessionStart(s) && SessionRun(FenceTask(a, nodename, secret), s, steps)
    ensures var t := SessionFinal(FenceTask(a, nodename, secret), s, steps);
            && (t.log == [] || exists ok :: t.log == [Call(a, CStr(nodename), ok)])
            && (t.client.Finished? ==>
                 exists ok :: t.client.reply == Answer(ok) && t.log == [Call(a, CStr(nodename), ok)])
  {
    hide ServerOk, SessionEnabled, SessionApply;
    var task := FenceTask(a, nodename, secret);
    StartSafe(task, s);
    SafeRun(task, s, steps);
    var t := SessionFinal(task, s, steps);
    if t.client.Finished? {
      FinishedReply(task, t);
    }
  }

  /** What a client that has its reply returns. */
  lemma FinishedReply(task: Task, s: Session)
    requires TaskFits(task) && ClientOk(task, s) && s.client.Finished?
    ensures s.down == [] && s.client.got == Expected(task, s.log)
    ensures match task
            case EchoTask => s.log == [] && s.client.reply == Answer(true)
            case FenceTask(a, nodename, _) =>
              |s.log| == 1 && s.log == [Call(a, CStr(nodename), s.log[0].ok)] && s.client.reply == Answer(s.log[0].ok)
  {
    hide Msg, EncodeHeader, DecodeHeader;
    assert |s.client.got + s.down| <= HEADER_SIZE;
    assert s.down == [] && s.client.got + s.down == s.client.got;
    match task
    case EchoTask => HeaderOf(Header(ECHO_REPLY, HEADER_SIZE));
    case FenceTask(_, _, _) => HeaderOf(Header(if s.log[0].ok then FENCE_SUCCESS else FENCE_FAIL, HEADER_SIZE));
  }

  /**
   An echo request that is answered reports a working connection, calls no plugin, and
   leaves the connection, unless it was closed, ready for the next request; so the theorems
   about a request hold after any number of echo exchanges.
   */
  lemma EchoSafety(s: Session, steps: seq<SessionStep>)
    requires SessionStart(s) && SessionRun(EchoTask, s, steps) && SessionFinal(EchoTask, s, steps).client.Finished?
    ensures var t := SessionFinal(EchoTask, s, steps);
            && t.client.reply == Answer(true) && t.log == []
            && (t.conn.fd >= 0 ==> SessionStart(t.(client := Requesting(0))))
  {
    hide SessionEnabled, SessionApply, Expected, ReplyOf;
    StartSafe(EchoTask, s);
    SafeRun(EchoTask, s, steps);
    var t := SessionFinal(EchoTask, s, steps);
    FinishedReply(EchoTask, t);
    if t.conn.fd >= 0 {
      FinishedEcho(t);
    }
  }

  lemma FinishedEcho(s: Session)
    requires Safe(EchoTask, s) && s.client.Finished? && s.conn.fd >= 0
    ensures Answered(EchoTask, s)
  {
    hide Receiving, Queued, Msg, EncodeHeader;
  }

  lemma StillSending(c: Conn)
    requires Replying(c)
    ensures c.ioOffset < |Message(c)|
  {
  }

  // ----- progress

  /** Nothing has failed: the server is still on it, or the reply is complete. */
  ghost predicate Healthy(task: Task, s: Session)
    requires TaskFits(task)
  {
    && Safe(task, s) && Acceptable(task)
    && ((s.conn.fd >= 0 && (s.conn.phase == RECV || s.conn.phase == PENDING || s.conn.phase == SEND))
        || |Got(s.client) + s.down| == HEADER_SIZE)
  }

  predicate FailureFree(st: SessionStep) {
    st.Server? ==> !st.m.Drop? && (st.m.Send? ==> !st.m.r.SendFailed?)
  }

  /** A step that moves bytes or serves the request; a zero write or EAGAIN does not. */
  predicate Productive(st: SessionStep) {
    FailureFree(st) && (st.Server? && st.m.Send? ==> Written(st.m.r) >= 1)
  }

  function Work(c: Conn): int {
    if c.fd < 0 then 0 else if c.phase == RECV then 2 else if c.phase == PENDING then 1 else 0
  }

  /** What is left to do. */
  function Remaining(task: Task, s: Session): int
    requires TaskFits(task)
  {
    2 * (|Msg(task)| - SentSoFar(task, s.client)) + |s.up| + |s.down|
    + 4 * (HEADER_SIZE - |Got(s.client)| - |s.down|) + Work(s.conn)
  }

  lemma LeftBounds(task: Task, s: Session)
    requires TaskFits(task) && Safe(task, s)
    ensures Remaining(task, s) >= 0
    ensures SessionStart(s) ==> Remaining(task, s) == 2 * |Msg(task)| + 18
  {
    hide Msg, Expected, Receiving, CallOk, ReplyOf;
    assert |Got(s.client) + s.down| <= HEADER_SIZE;
    if SessionStart(s) {
      ReceivingFacts(s.conn);
    }
  }

  lemma LeftReceives(task: Task, s: Session, n: nat, t: Session)
    requires SessionNext(task, s, ClientReceives(n), t) && Safe(task, s)
    ensures Remaining(task, t) < Remaining(task, s) && Got(t.client) + t.down == Got(s.client) + s.down
  {
    hide Msg, Expected, ReplyOf, Whole, Need;
    assert s.client.got + s.down[..n] + s.down[n..] == s.client.got + s.down;
  }

  lemma LeftSends(task: Task, s: Session, r: SendResult, t: Session)
    requires SessionNext(task, s, Server(Send(r)), t) && Safe(task, s) && !r.SendFailed?
    ensures Remaining(task, t) <= Remaining(task, s)
    ensures Written(r) >= 1 ==> Remaining(task, t) < Remaining(task, s)
  {
    hide Msg, Expected, Receiving, Queued, CallOk, ReplyOf, SendStep, Prepare, Message, SendReq, Emitted;
    assert Answering(task, s);
    SendStepExact(s.conn, r);
    WritePhase(s.conn, r);
    assert |Emitted(s.conn, r)| == Written(r);
    if Written(r) == 0 {
      StillSending(s.conn);
    }
  }

  lemma HealthyStep(task: Task, s: Session, st: SessionStep, t: Session)
    requires SessionNext(task, s, st, t) && Healthy(task, s) && FailureFree(st)
    ensures Healthy(task, t)
    ensures Remaining(task, t) <= Remaining(task, s)
    ensures Productive(st) ==> Remaining(task, t) < Remaining(task, s)
  {
    hide Safe, Msg, Process, VisitRead, VisitWrite, Expected, Emitted;
    SafeStep(task, s, st, t);
    match st
    case ClientSends(n) =>
    case ClientReceives(n) => LeftReceives(task, s, n, t);
    case Server(Receive(data)) => ServerReceives(task, s, data, t);
    case Server(Send(r)) =>
      ServerSends(task, s, r, t);
      LeftSends(task, s, r, t);
      AnswerComplete(task, s, t);
    case Server(Serve(ok)) => ServerServes(task, s, ok, t);
    case Server(Drop) =>
  }

  lemma AnswerComplete(task: Task, s: Session, t: Session)
    requires TaskFits(task) && Safe(task, s) && s.conn.fd >= 0 && s.conn.phase == SEND && t.log == s.log
    ensures |Expected(task, t.log)| == HEADER_SIZE
  {
    hide Msg, EncodeHeader;
    assert Answering(task, s);
    StillSending(s.conn);
  }

  /** As long as there is no reply, some party can take a productive step. */
  lemma CanGoOn(task: Task, s: Session) returns (st: SessionStep)
    requires TaskFits(task) && Healthy(task, s) && !s.client.Finished?
    ensures SessionEnabled(task, s, st) && Productive(st)
  {
    hide Msg, Expected, Receiving, Queued, CallOk, ReplyOf, Message, Prepare, SendReq, RecvReq, RecvStep, Need;
    hide Allowed, Replying;
    if s.client.Requesting? {
      st := ClientSends(1);
    } else if s.down != [] {
      ShortReply(s.client.got);
      st := ClientReceives(1);
    } else {
      assert Got(s.client) + s.down == Got(s.client);
      match s.conn.phase
      case RECV =>
        AskingHasMore(task, s);
        CanReceive(s.conn, s.up[0]);
        st := Server(Receive(s.up[..1]));
        assert s.up[..1] == [s.up[0]];
      case PENDING =>
        CanServe(s.conn);
        st := Server(Serve(true));
      case SEND =>
        CanSend(s.conn);
        st := Server(Send(Sent(1)));
    }
  }

  lemma CanReceive(c: Conn, b: byte)
    requires c.fd >= 0 && Receiving(c)
    ensures Allowed(c, Receive([b]))
  {
    hide RecvReq, RecvStep, VisitRead;
    RecvRequestExact(c, Payload(c));
    VisitReadKeeps(c, [b]);
  }

  lemma CanServe(c: Conn)
    requires c.fd >= 0 && Queued(c)
    ensures Allowed(c, Serve(true))
  {
  }

  lemma CanSend(c: Conn)
    requires c.fd >= 0 && Replying(c)
    ensures Allowed(c, Send(Sent(1)))
  {
    hide Prepare, SendReq, Message;
    SendStepExact(c, Again);
  }

  lemma ShortReply(got: seq<byte>)
    requires |got| < HEADER_SIZE
    ensures Need(got) == HEADER_SIZE
  {
  }

  lemma AskingHasMore(task: Task, s: Session)
    requires TaskFits(task) && Safe(task, s) && s.conn.fd >= 0 && s.conn.phase == RECV
    requires s.client.Awaiting? && s.down == []
    ensures Receiving(s.conn) && s.up != [] && 1 <= RecvReq(s.conn)
  {
    hide Msg, EncodeHeader, Receiving, CallOk, ReplyOf;
    assert Got(s.client) + s.down == Got(s.client);
    assert Answered(task, s) ==> |Expected(task, s.log)| == HEADER_SIZE;
    assert Asking(task, s);
    ReceivingFacts(s.conn);
    MsgNeed(task);
    var got := Payload(s.conn);
    RequestMore(s.conn);
    assert s.up == [] ==> got + s.up == got;
  }

  lemma RequestMore(c: Conn)
    requires Receiving(c)
    ensures 1 <= RecvReq(c)
  {
    RecvRequestExact(c, Payload(c));
  }

  function CountProductive(steps: seq<SessionStep>): nat {
    if steps == [] then 0 else (if Productive(steps[0]) then 1 else 0) + CountProductive(steps[1..])
  }

  lemma {:induction false} HealthyRun(task: Task, s: Session, steps: seq<SessionStep>)
    requires TaskFits(task) && Healthy(task, s) && SessionRun(task, s, steps)
    requires forall i :: 0 <= i < |steps| ==> FailureFree(steps[i])
    ensures Healthy(task, SessionFinal(task, s, steps))
    ensures CountProductive(steps) + Remaining(task, SessionFinal(task, s, steps)) <= Remaining(task, s)
    decreases |steps|
  {
    hide Healthy, SessionEnabled, SessionApply, Remaining, FailureFree;
    if steps != [] {
      HealthyStep(task, s, steps[0], SessionApply(task, s, steps[0]));
      HealthyRun(task, SessionApply(task, s, steps[0]), steps[1..]);
    }
  }

  /**
   Termination: without failures a request of m bytes takes at most 2m + 18 productive
   steps, and a run that cannot be continued by a productive step has delivered the reply.
   */
  lemma RequestTerminates(task: Task, s: Session, steps: seq<SessionStep>)
    requires TaskFits(task) && Acceptable(task) && SessionStart(s) && SessionRun(task, s, steps)
    requires forall i :: 0 <= i < |steps| ==> FailureFree(steps[i])
    ensures CountProductive(steps) <= 2 * |Msg(task)| + 18
    ensures var t := SessionFinal(task, s, steps);
            t.client.Finished? || exists st :: SessionEnabled(task, t, st) && Productive(st)
  {
    hide Safe, SessionEnabled, SessionApply, Remaining, Msg;
    StartHealthy(task, s);
    LeftBounds(task, s);
    HealthyRun(task, s, steps);
    var t := SessionFinal(task, s, steps);
    LeftBounds(task, t);
    if !t.client.Finished? {
      var st := CanGoOn(task, t);
    }
  }

  lemma StartHealthy(task: Task, s: Session)
    requires TaskFits(task) && Acceptable(task) && SessionStart(s)
    ensures Healthy(task, s)
  {
    hide Safe, Msg, Receiving;
    StartSafe(task, s);
    ReceivingFacts(s.conn);
  }

  lemma {:induction false} Answers(task: Task, s: Session) returns (steps: seq<SessionStep>)
    requires TaskFits(task) && Healthy(task, s)
    ensures SessionRun(task, s, steps) && SessionFinal(task, s, steps).client.Finished?
    decreases Remaining(task, s)
  {
    hide Safe, SessionEnabled, SessionApply, Remaining;
    steps := [];
    if !s.client.Finished? {
      var st := CanGoOn(task, s);
      var t := SessionApply(task, s, st);
      LeftBounds(task, s);
      HealthyStep(task, s, st, t);
      var rest := Answers(task, t);
      steps := [st] + rest;
      assert steps[1..] == rest;
    }
  }

  /**
   Exactly which fencing requests can be answered: those that name a node, with a name of at
   most 255 and a secret of at most 64 bytes. For all others no run gives the client a reply.
   */
  lemma AnswerExact(a: Action, nodename: seq<byte>, secret: seq<byte>, s: Session)
    requires Fits(nodename, secret) && SessionStart(s)
    ensures var task := FenceTask(a, nodename, secret);
            (exists steps :: SessionRun(task, s, steps) && SessionFinal(task, s, steps).client.Finished?)
            <==> CStr(nodename) != [] && NamesFit(nodename, secret)
  {
    hide ServerOk, SessionEnabled, SessionApply, Expected, Msg;
    var task := FenceTask(a, nodename, secret);
    if Acceptable(task) {
      StartHealthy(task, s);
      var steps := Answers(task, s);
    }
    forall steps | SessionRun(task, s, steps) && SessionFinal(task, s, steps).client.Finished?
      ensures Acceptable(task)
    {
      StartSafe(task, s);
      SafeRun(task, s, steps);
      FinishedReply(task, SessionFinal(task, s, steps));
    }
  }

  // ----- the server's side alone

  /** The moves are possible one after the other. */
  predicate AllowedAlong(c: Conn, moves: seq<Move>)
    decreases |moves|
  {
    moves == [] || (Allowed(c, moves[0]) && AllowedAlong(AfterMove(c, moves[0]), moves[1..]))
  }

  function DataAlong(moves: seq<Move>): seq<byte> {
    if moves == [] then []
    else (if moves[0].Receive? then moves[0].data else []) + DataAlong(moves[1..])
  }

  function CallsAlong(c: Conn, moves: seq<Move>): seq<Call>
    requires AllowedAlong(c, moves)
    decreases |moves|
  {
    if moves == [] then [] else CallsOf(c, moves[0]) + CallsAlong(AfterMove(c, moves[0]), moves[1..])
  }

  function OutputAlong(c: Conn, moves: seq<Move>): seq<byte>
    requires AllowedAlong(c, moves)
    decreases |moves|
  {
    if moves == [] then [] else Emits(c, moves[0]) + OutputAlong(AfterMove(c, moves[0]), moves[1..])
  }

  /** The moves as steps of a session whose client has sent everything and does not read yet. */
  lemma {:induction false} MovesAsSteps(task: Task, s: Session, moves: seq<Move>) returns (steps: seq<SessionStep>)
    requires TaskFits(task) && AllowedAlong(s.conn, moves) && DataAlong(moves) <= s.up
    ensures SessionRun(task, s, steps)
    ensures var t := SessionFinal(task, s, steps);
            && t.client == s.client
            && t.log == s.log + CallsAlong(s.conn, moves)
            && t.down == s.down + OutputAlong(s.conn, moves)
    decreases |moves|
  {
    hide Allowed, AfterMove, CallsOf, Emits, Msg, DataAlong;
    steps := [];
    if moves == [] {
      assert s.log + [] == s.log && s.down + [] == s.down;
    } else {
      var m, st := moves[0], Server(moves[0]);
      FirstData(moves, s.up);
      var t := SessionApply(task, s, st);
      var rest := MovesAsSteps(task, t, moves[1..]);
      steps := [st] + rest;
      assert steps[1..] == rest;
      Assoc(s.log, CallsOf(s.conn, m), CallsAlong(t.conn, moves[1..]));
      Assoc(s.down, Emits(s.conn, m), OutputAlong(t.conn, moves[1..]));
    }
  }

  lemma Assoc<T>(a: seq<T>, b: seq<T>, c: seq<T>)
    ensures a + b + c == a + (b + c)
  {
  }

  lemma FirstData(moves: seq<Move>, up: seq<byte>)
    requires moves != [] && DataAlong(moves) <= up
    ensures if moves[0].Receive? then moves[0].data <= up && DataAlong(moves[1..]) <= up[|moves[0].data|..]
            else DataAlong(moves[1..]) <= up
  {
    var data := if moves[0].Receive? then moves[0].data else [];
    assert DataAlong(moves) == data + DataAlong(moves[1..]);
    assert up[..|DataAlong(moves)|] == DataAlong(moves);
  }

  /**
   Whatever pieces of a request the server receives and however it is scheduled: it makes no
   call but the one that was asked for, at most once, and sends nothing but a prefix of the
   reply that tells that call's result.
   */
  lemma ServerSideSafety(task: Task, c: Conn, moves: seq<Move>)
    requires TaskFits(task) && AtRest(c) && AllowedAlong(c, moves) && DataAlong(moves) <= Msg(task)
    ensures CallOk(task, CallsAlong(c, moves))
    ensures OutputAlong(c, moves) <= Expected(task, CallsAlong(c, moves))
  {
    hide Safe, Msg, Expected, CallOk, AllowedAlong, DataAlong, CallsAlong, OutputAlong, AtRest;
    var s := Session(Requesting(0), [], c, [], []);
    StartSafe(task, s);
    var n := |Msg(task)|;
    var s1 := SessionApply(task, s, ClientSends(n));
    assert s1.up == Msg(task) && s1.conn == c && s1.client == Awaiting([]);
    SafeStep(task, s, ClientSends(n), s1);
    var steps := MovesAsSteps(task, s1, moves);
    SafeRun(task, s1, steps);
    var t := SessionFinal(task, s1, steps);
    assert t.log == CallsAlong(c, moves) && t.down == OutputAlong(c, moves);
    SafeOutput(task, t);
  }

  lemma SafeOutput(task: Task, s: Session)
    requires TaskFits(task) && Safe(task, s) && s.client == Awaiting([])
    ensures CallOk(task, s.log) && s.down <= Expected(task, s.log)
  {
    hide ServerOk, CallOk, Expected, Msg;
    assert [] + s.down == s.down;
  }

  // ----- the client's side alone

  /** What send and recv return to the client over a run. */
  function SendsOf(steps: seq<SessionStep>): seq<Io<nat>> {
    if steps == [] then []
    else (if steps[0].ClientSends? then [Moved(steps[0].n)] else []) + SendsOf(steps[1..])
  }

  function ReceivesOf(task: Task, s: Session, steps: seq<SessionStep>): seq<Io<seq<byte>>>
    requires TaskFits(task) && SessionRun(task, s, steps)
    decreases |steps|
  {
    if steps == [] then []
    else (if steps[0].ClientReceives? then [Moved(s.down[..steps[0].n])] else [])
         + ReceivesOf(task, SessionApply(task, s, steps[0]), steps[1..])
  }

  /** These are results the operating system can deliver, and they add up to the client's state. */
  lemma {:induction false} ScriptsExact(task: Task, s: Session, steps: seq<SessionStep>, fd: int)
    requires TaskFits(task) && Safe(task, s) && SessionRun(task, s, steps) && fd != FD_NONE
    ensures var (sends, receives, t) := (SendsOf(steps), ReceivesOf(task, s, steps), SessionFinal(task, s, steps));
            && Sends(|Msg(task)| - SentSoFar(task, s.client), fd, sends)
            && Receives(Got(s.client), fd, false, receives)
            && SentSoFar(task, t.client) == SentSoFar(task, s.client) + Total(sends)
            && Got(t.client) == Got(s.client) + Taken(receives)
    decreases |steps|
  {
    hide Safe, Msg, Need, Whole, Total, Taken, Sends, Receives, SentSoFar, Got, SessionEnabled, SessionApply;
    if steps == [] {
      NothingMoved(task, s, fd);
    } else {
      var st := steps[0];
      var t := SessionApply(task, s, st);
      SafeStep(task, s, st, t);
      ScriptsExact(task, t, steps[1..], fd);
      OtherScript(task, s, st, t);
      var rest, more := SendsOf(steps[1..]), ReceivesOf(task, t, steps[1..]);
      assert [] + rest == rest && [] + more == more;
      match st
      case ClientSends(n) => SendScript(task, s, n, t, rest, fd);
      case ClientReceives(n) => ReceiveScript(task, s, n, t, more, fd);
      case Server(m) =>
    }
  }

  lemma SendScript(task: Task, s: Session, n: nat, t: Session, rest: seq<Io<nat>>, fd: int)
    requires SessionNext(task, s, ClientSends(n), t) && fd != FD_NONE
    requires Sends(|Msg(task)| - SentSoFar(task, t.client), fd, rest)
    ensures Sends(|Msg(task)| - SentSoFar(task, s.client), fd, [Moved(n)] + rest)
    ensures SentSoFar(task, t.client) + Total(rest) == SentSoFar(task, s.client) + Total([Moved(n)] + rest)
    ensures Got(t.client) == Got(s.client)
  {
    hide Msg, Total;
    TotalCons([Moved(n)] + rest);
    assert ([Moved(n)] + rest)[1..] == rest;
  }

  lemma ReceiveScript(task: Task, s: Session, n: nat, t: Session, more: seq<Io<seq<byte>>>, fd: int)
    requires SessionNext(task, s, ClientReceives(n), t) && Safe(task, s) && fd != FD_NONE
    requires Receives(Got(t.client), fd, false, more)
    ensures Receives(Got(s.client), fd, false, [Moved(s.down[..n])] + more)
    ensures Got(t.client) + Taken(more) == Got(s.client) + Taken([Moved(s.down[..n])] + more)
    ensures SentSoFar(task, t.client) == SentSoFar(task, s.client)
  {
    hide Msg, Taken, Need, Whole, Safe, ReplyOf;
    var r := [Moved(s.down[..n])] + more;
    TakenCons(r);
    assert r[1..] == more;
    StillIncomplete(task, s);
    assert Got(t.client) == Got(s.client) + s.down[..n];
    assert Got(s.client) + s.down[..n] + Taken(more) == Got(s.client) + (s.down[..n] + Taken(more));
  }

  lemma NothingMoved(task: Task, s: Session, fd: int)
    requires TaskFits(task)
    ensures Total([]) == 0 && Taken([]) == [] && Got(s.client) + [] == Got(s.client)
    ensures Sends(|Msg(task)| - SentSoFar(task, s.client), fd, []) && Receives(Got(s.client), fd, false, [])
  {
  }

  /** The other party's step is nothing to the client's scripts. */
  lemma OtherScript(task: Task, s: Session, st: SessionStep, t: Session)
    requires SessionNext(task, s, st, t)
    ensures !st.ClientSends? ==> SentSoFar(task, t.client) == SentSoFar(task, s.client)
    ensures !st.ClientReceives? ==> Got(t.client) == Got(s.client)
  {
    hide AfterMove, Emits, CallsOf, ReplyOf;
  }

  lemma StillIncomplete(task: Task, s: Session)
    requires TaskFits(task) && Safe(task, s) && s.client.Awaiting?
    ensures !Whole(s.client.got) && |s.client.got| < Need(s.client.got)
  {
    ShortReply(s.client.got);
  }

  /**
   The client's own code at the end of the session: with the results that a run of the
   session gives to its calls, fence_action_impl returns an answer exactly if the run has
   delivered the reply, and then that answer is what the one plugin call returned, for the
   requested action on the node named.
   */
  method FenceOverSession(client: ClientConnector, a: Action, nodename: seq<byte>, secret: seq<byte>,
                          sends: seq<Io<nat>>, receives: seq<Io<seq<byte>>>,
                          ghost s: Session, ghost steps: seq<SessionStep>)
    returns (reply: Reply)
    requires client.ioBuffer.Length == IO_BUFFER_SIZE && client.socketFd != FD_NONE
    requires Fits(nodename, secret) && SessionStart(s) && SessionRun(FenceTask(a, nodename, secret), s, steps)
    requires sends == SendsOf(steps) && receives == ReceivesOf(FenceTask(a, nodename, secret), s, steps)
    modifies client, client.header, client.ioBuffer
    ensures var t := SessionFinal(FenceTask(a, nodename, secret), s, steps);
            && (if t.client.Finished? then reply.Answer? else reply == NoReply)
            && (reply.Answer? ==> t.log == [Call(a, CStr(nodename), reply.ok)])
  {
    hide Safe, SessionEnabled, SessionApply, Msg, Request, Total, Taken, Interpret, SessionRun, SessionFinal;
    hide SendsOf, ReceivesOf, Whole, SentSoFar;
    ghost var task := FenceTask(a, nodename, secret);
    StartSafe(task, s);
    ScriptsExact(task, s, steps, client.socketFd);
    SafeRun(task, s, steps);
    StartScripts(task, s, sends, receives);
    SessionReply(a, nodename, secret, SessionFinal(task, s, steps), Total(sends), Taken(receives));
    var sent;
    reply, sent := client.FenceActionImpl(a, nodename, secret, sends, receives);
  }

  lemma StartScripts(task: Task, s: Session, sends: seq<Io<nat>>, receives: seq<Io<seq<byte>>>)
    requires TaskFits(task) && SessionStart(s)
    ensures SentSoFar(task, s.client) + Total(sends) == Total(sends)
    ensures Got(s.client) == [] && Got(s.client) + Taken(receives) == Taken(receives)
    ensures task.FenceTask? ==> |Msg(task)| - SentSoFar(task, s.client) == RequestLength(task.nodename, task.secret)
  {
  }

  /** The session's client has its reply just when the client's loops are through. */
  lemma SessionReply(a: Action, nodename: seq<byte>, secret: seq<byte>, t: Session, total: nat, got: seq<byte>)
    requires Fits(nodename, secret) && Safe(FenceTask(a, nodename, secret), t)
    requires SentSoFar(FenceTask(a, nodename, secret), t.client) == total && Got(t.client) == got
    ensures t.client.Finished? <==> total == |Request(a, nodename, secret)| && Whole(got)
    ensures t.client.Finished? ==>
              && Interpret(DecodeHeader(got)).Answer?
              && t.log == [Call(a, CStr(nodename), Interpret(DecodeHeader(got)).ok)]
  {
    hide ServerOk, Expected, Request, CStr, CallOk, Need;
    var task := FenceTask(a, nodename, secret);
    if t.client.Finished? {
      FinishedReply(task, t);
      ExpectedWhole(task, t.log, got);
    } else if |got| < HEADER_SIZE {
      ShortReply(got);
    }
  }
}
