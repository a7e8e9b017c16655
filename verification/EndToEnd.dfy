/**
 One request from end to end: the client, the server's side of the connection, and a
 reliable byte stream in each direction that is cut into pieces arbitrarily. A party
 that fails, is blocked or is slow simply takes no step.
 */
module EndToEnd {
  import opened Wire
  import opened Connection
  import opened Phases
  import opened Fencing
  import opened FencingClient

  datatype Task = EchoTask | FenceTask(action: Action, nodename: seq<byte>, secret: seq<byte>)

  datatype ClientPc =
    | Requesting(offset: nat)
    | Awaiting(got: seq<byte>)
    | Finished(got: seq<byte>, reply: Reply)

  /** `up` and `down` are the bytes under way to the server and to the client. */
  datatype Session = Session(client: ClientPc, up: seq<byte>, conn: Conn, down: seq<byte>, log: seq<Call>)

  // ----- the server's side of one connection

  /** What can happen to a connection: a visit by the selector, a worker, or a close. */
  datatype Move = Receive(data: seq<byte>) | Send(r: SendResult) | Serve(ok: bool) | Drop

  predicate Allowed(c: Conn, m: Move) {
    match m
    case Receive(data) => c.fd >= 0 && c.phase == RECV && 1 <= |data| <= RecvReq(c) && RecvStep(c, data) != Overrun
    case Send(r) =>
      && c.fd >= 0 && c.phase == SEND && |c.ioBuffer| >= HEADER_SIZE
      && Written(r) <= SendReq(Prepare(c)) && c.ioOffset + Written(r) <= |c.ioBuffer|
    case Serve(_) => c.fd >= 0 && c.phase == PENDING && c.ioOffset <= |c.ioBuffer|
    case Drop => true
  }

  function ClientAfter(r: (Conn, Fate)): Conn {
    if r.1 == Close then CLEARED else r.0
  }

  function AfterMove(c: Conn, m: Move): Conn
    requires Allowed(c, m)
  {
    match m
    case Receive(data) => ClientAfter(VisitRead(c, data))
    case Send(r) => ClientAfter(VisitWrite(c, r))
    case Serve(ok) => Process(c, ok).conn
    case Drop => CLEARED
  }

  function CallsOf(c: Conn, m: Move): seq<Call>
    requires Allowed(c, m)
  {
    if m.Serve? then Process(c, m.ok).calls else []
  }

  function Emits(c: Conn, m: Move): seq<byte>
    requires Allowed(c, m)
  {
    if m.Send? then Emitted(c, m.r) else []
  }

  // ----- both sides

  predicate TaskFits(task: Task) {
    task.FenceTask? ==> Fits(task.nodename, task.secret)
  }

  function Msg(task: Task): (m: seq<byte>)
    requires TaskFits(task)
    ensures |m| >= HEADER_SIZE
  {
    match task
    case EchoTask => ECHO_MESSAGE
    case FenceTask(a, nodename, secret) => Request(a, nodename, secret)
  }

  function ReplyOf(task: Task, h: Header): Reply {
    match task
    case EchoTask => if h.dataLength > IO_BUFFER_SIZE then IoFault else Answer(h.msgType == ECHO_REPLY)
    case FenceTask(_, _, _) => Interpret(h)
  }

  datatype SessionStep = ClientSends(n: nat) | ClientReceives(n: nat) | Server(m: Move)

  predicate SessionEnabled(task: Task, s: Session, st: SessionStep)
    requires TaskFits(task)
  {
    match st
    case ClientSends(n) => s.client.Requesting? && 1 <= n && s.client.offset + n <= |Msg(task)|
    case ClientReceives(n) => s.client.Awaiting? && 1 <= n <= |s.down| && |s.client.got| + n <= Need(s.client.got)
    case Server(m) => Allowed(s.conn, m) && (m.Receive? ==> m.data <= s.up)
  }

  function SessionApply(task: Task, s: Session, st: SessionStep): Session
    requires TaskFits(task) && SessionEnabled(task, s, st)
  {
    match st
    case ClientSends(n) =>
      var o := s.client.offset + n;
      s.(up := s.up + Msg(task)[s.client.offset..o],
         client := if o == |Msg(task)| then Awaiting([]) else Requesting(o))
    case ClientReceives(n) =>
      var got := s.client.got + s.down[..n];
      s.(down := s.down[n..],
         client := if Whole(got) then Finished(got, ReplyOf(task, DecodeHeader(got))) else Awaiting(got))
    case Server(m) =>
      s.(up := if m.Receive? then s.up[|m.data|..] else s.up,
         conn := AfterMove(s.conn, m),
         down := s.down + Emits(s.conn, m),
         log := s.log + CallsOf(s.conn, m))
  }

  ghost predicate SessionNext(task: Task, s: Session, st: SessionStep, t: Session) {
    TaskFits(task) && SessionEnabled(task, s, st) && t == SessionApply(task, s, st)
  }

  /** A connection that was just accepted, or that has just answered an echo request. */
  ghost predicate AtRest(c: Conn) {
    c.fd >= 0 && Receiving(c) && c == ClearIo(c)
  }

  ghost predicate SessionStart(s: Session) {
    s.client == Requesting(0) && s.up == [] && s.down == [] && s.log == [] && AtRest(s.conn)
  }

  predicate SessionRun(task: Task, s: Session, steps: seq<SessionStep>)
    requires TaskFits(task)
    decreases |steps|
  {
    steps == [] || (SessionEnabled(task, s, steps[0]) && SessionRun(task, SessionApply(task, s, steps[0]), steps[1..]))
  }

  function SessionFinal(task: Task, s: Session, steps: seq<SessionStep>): Session
    requires TaskFits(task) && SessionRun(task, s, steps)
    decreases |steps|
  {
    if steps == [] then s else SessionFinal(task, SessionApply(task, s, steps[0]), steps[1..])
  }

  // ----- the request as the server reads it

  lemma PairsOf(nodename: seq<byte>, secret: seq<byte>)
    ensures var fs := RequestFields(nodename, secret);
            && SplitPair(fs[0]) == Ok((NODENAME, CStr(nodename)))
            && SplitPair(fs[1]) == Ok((SECRET, CStr(secret)))
            && SPLIT in fs[0] && SPLIT in fs[1]
  {
    hide CStr;
    var fs := RequestFields(nodename, secret);
    SplitInverse(fs[0], NODENAME, CStr(nodename));
    SplitInverse(fs[1], SECRET, CStr(secret));
  }

  predicate NamesFit(nodename: seq<byte>, secret: seq<byte>) {
    |CStr(nodename)| <= NODENAME_SIZE && |CStr(secret)| <= MAX_SECRET_LENGTH
  }

  /**
   The server's parser recovers what the client was asked for: the two fields, and thereby
   the node name up to its first NUL byte, unless one of them is too long for the server.
   */
  lemma RequestParsed(a: Action, nodename: seq<byte>, secret: seq<byte>)
    requires Fits(nodename, secret)
    ensures var m := Request(a, nodename, secret);
            && DecodeHeader(m) == Header(TypeOf(a), |m|) && Need(m) == |m|
            && (WellFormed(m) <==> NamesFit(nodename, secret))
            && (NamesTooLong(m) <==> !NamesFit(nodename, secret))
            && NodeOf(m) == CStr(nodename)
  {
    hide CStr, SplitPair;
    var m, fs := Request(a, nodename, secret), RequestFields(nodename, secret);
    RequestHeader(a, nodename, secret);
    RequestReadable(a, nodename, secret);
    PairsOf(nodename, secret);
    FieldsFine(fs[0], fs[1], CStr(nodename), CStr(secret));
    assert fs == [fs[0], fs[1]];
  }

  lemma RequestHeader(a: Action, nodename: seq<byte>, secret: seq<byte>)
    requires Fits(nodename, secret)
    ensures var m := Request(a, nodename, secret);
            DecodeHeader(m) == Header(TypeOf(a), |m|) && Need(m) == |m|
  {
    hide CStr, Fields;
    RequestSized(nodename, secret);
    var h := Header(TypeOf(a), RequestLength(nodename, secret));
    HeaderInverse(h, EncodeHeader(h), Fields(RequestFields(nodename, secret)));
  }

  lemma RequestReadable(a: Action, nodename: seq<byte>, secret: seq<byte>)
    requires Fits(nodename, secret)
    ensures var m := Request(a, nodename, secret);
            && FieldsOf(m, HEADER_SIZE) == Ok(RequestFields(nodename, secret))
            && Readable(m, HEADER_SIZE) == RequestFields(nodename, secret)
  {
    hide CStr, FieldsOf, Readable, RequestFields;
    var m, fs := Request(a, nodename, secret), RequestFields(nodename, secret);
    RequestSized(nodename, secret);
    assert m[HEADER_SIZE..] == Fields(fs);
    FieldsInverse(m, HEADER_SIZE, fs);
    ReadableIsFieldsOf(m, HEADER_SIZE);
  }

  lemma FieldsFine(f: seq<byte>, g: seq<byte>, nodename: seq<byte>, secret: seq<byte>)
    requires SplitPair(f) == Ok((NODENAME, nodename)) && SplitPair(g) == Ok((SECRET, secret))
    requires SPLIT in f && SPLIT in g
    ensures var fit := |nodename| <= NODENAME_SIZE && |secret| <= MAX_SECRET_LENGTH;
            && ((forall e :: e in [f, g] ==> Fine(e)) <==> fit)
            && (var k := FineCount([f, g]); k < 2 && Oversize([f, g][k]) <==> !fit)
    ensures LastValue([f, g], NODENAME, []) == nodename
  {
    hide SplitPair;
    var fs := [f, g];
    assert NODENAME[0] != SECRET[0];
    assert Fine(f) <==> |nodename| <= NODENAME_SIZE;
    assert Fine(g) <==> |secret| <= MAX_SECRET_LENGTH;
    assert f in fs && g in fs;
    assert fs[..1] == [f] && fs[1..] == [g];
    assert LastValue([f], NODENAME, []) == nodename;
  }

  /** A task that the server carries out: it names a node and nothing is too long. */
  predicate Acceptable(task: Task) {
    task.FenceTask? ==> CStr(task.nodename) != [] && NamesFit(task.nodename, task.secret)
  }

  /** The reply that follows from the plugin calls made so far. */
  function Expected(task: Task, log: seq<Call>): (r: seq<byte>)
    ensures |r| == HEADER_SIZE || r == []
  {
    match task
    case EchoTask => EncodeHeader(Header(ECHO_REPLY, HEADER_SIZE))
    case FenceTask(_, _, _) =>
      if log == [] then []
      else EncodeHeader(Header(if log[0].ok then FENCE_SUCCESS else FENCE_FAIL, HEADER_SIZE))
  }

  predicate CallOk(task: Task, log: seq<Call>) {
    log == [] || (task.FenceTask? && Acceptable(task) && log == [Call(task.action, CStr(task.nodename), log[0].ok)])
  }

  lemma MsgNeed(task: Task)
    requires TaskFits(task)
    ensures Need(Msg(task)) == |Msg(task)| <= IO_BUFFER_SIZE
    ensures DecodeHeader(Msg(task)).msgType == if task.EchoTask? then ECHO_REQUEST else TypeOf(task.action)
    ensures DecodeHeader(Msg(task)).dataLength == |Msg(task)|
  {
    hide EncodeHeader, DecodeHeader, Request;
    match task
    case EchoTask => HeaderOf(Header(ECHO_REQUEST, HEADER_SIZE));
    case FenceTask(a, nodename, secret) => RequestHeader(a, nodename, secret);
  }

  lemma HeaderOf(h: Header)
    ensures DecodeHeader(EncodeHeader(h)) == h
  {
    hide EncodeHeader, DecodeHeader;
    HeaderInverse(h, EncodeHeader(h), []);
    assert EncodeHeader(h) + [] == EncodeHeader(h);
  }

  /** What a worker makes of the client's message: the expected reply and call, or neither. */
  lemma Served(task: Task, c: Conn, ok: bool)
    requires TaskFits(task) && Queued(c) && Payload(c) == Msg(task)
    ensures var o := Process(c, ok);
            && o.conn.fd == c.fd && CallOk(task, o.calls)
            && (Acceptable(task) ==>
                 && Replying(o.conn) && o.conn.ioOffset == 0 && Message(o.conn) == Expected(task, o.calls)
                 && (o.conn.nextPhase == RECV <==> task.EchoTask?)
                 && (task.FenceTask? ==> |o.calls| == 1 && o.calls[0].ok == ok))
            && (!Acceptable(task) ==> o.calls == [] && (o.conn.phase == EXECUTING || o.conn.phase == CANCELED))
  {
    hide CStr, NodeOf, WellFormed, NamesTooLong, Fence, Replying, Queued, Message, Request, EncodeHeader;
    MsgNeed(task);
    QueuedHeader(c);
    match task
    case EchoTask =>
      ReplyMessage(Process(c, ok).conn, Header(ECHO_REPLY, HEADER_SIZE));
    case FenceTask(a, nodename, secret) =>
      RequestParsed(a, nodename, secret);
      assert Payload(c.(phase := EXECUTING)) == Payload(c);
      ServedFence(c.(phase := EXECUTING), a, ok);
  }

  lemma QueuedHeader(c: Conn)
    requires Queued(c)
    ensures c.ioOffset <= |c.ioBuffer| == IO_BUFFER_SIZE
    ensures |Payload(c)| >= HEADER_SIZE && c.header == Clamp(DecodeHeader(Payload(c)))
    ensures c.phase == PENDING && c.nodename == [] && c.secret == [] && c.io == NOOP
  {
  }

  lemma ReplyMessage(c: Conn, h: Header)
    requires c == ClearIo(c) && c.header == h && h.dataLength == HEADER_SIZE
    requires c.phase == SEND && c.io == WRITE && (c.nextPhase == RECV || c.nextPhase == CANCELED)
    requires c.nextPhase == RECV ==> c.nodename == [] && c.secret == []
    ensures Message(c) == EncodeHeader(h) && Replying(c) && c.ioOffset == 0
  {
    var p := Prepare(c);
    assert p.ioBuffer[..HEADER_SIZE] == EncodeHeader(h);
  }

  lemma ServedFence(c: Conn, a: Action, ok: bool)
    requires Nameless(c) && c.phase == EXECUTING
    ensures Fence(c, a, ok).conn.fd == c.fd
    ensures var m, o := Payload(c), Fence(c, a, ok);
            if WellFormed(m) && NodeOf(m) != [] then
              && o.calls == [Call(a, NodeOf(m), ok)]
              && Replying(o.conn) && o.conn.ioOffset == 0 && o.conn.nextPhase == CANCELED
              && Message(o.conn) == EncodeHeader(Header(if ok then FENCE_SUCCESS else FENCE_FAIL, HEADER_SIZE))
            else
              o.calls == [] && (o.conn.phase == EXECUTING || o.conn.phase == CANCELED)
  {
    hide Message, NodeOf, WellFormed, NamesTooLong, ParseLoop, Replying;
    ParseFromClear(Payload(c));
    if WellFormed(Payload(c)) && NodeOf(Payload(c)) != [] {
      ReplyMessage(Fence(c, a, ok).conn, Header(if ok then FENCE_SUCCESS else FENCE_FAIL, HEADER_SIZE));
    }
  }
}
