/**
 One connection of the server as a value: the fields of a NetClient, and what
 receive_message, send_message, process_client_message and fence_action do to them.
 */
module Connection {
  import opened Wire

  datatype Phase = RECV | SEND | PENDING | EXECUTING | CANCELED
  datatype IoOp = NOOP | READ | WRITE

  const FD_NONE: int := -1

  datatype Conn = Conn(
    fd: int, phase: Phase, nextPhase: Phase, io: IoOp,
    header: Header, haveHeader: bool, ioOffset: nat, ioBuffer: seq<byte>,
    nodename: seq<byte>, secret: seq<byte>)

  function ClearIo(c: Conn): Conn {
    c.(ioOffset := 0, haveHeader := false, ioBuffer := Pad([]))
  }

  /** NetClient::clear */
  const CLEARED := Conn(FD_NONE, RECV, PENDING, NOOP, CLEAR_HEADER, false, 0, Pad([]), [], [])

  /** The client object as accept_connection leaves it. */
  function Accepted(fd: int): Conn {
    CLEARED.(fd := fd, io := READ)
  }

  // ----- receive_message

  /** The size passed to recv: an unsigned subtraction, wrap-around included. */
  function RecvReq(c: Conn): nat {
    if c.ioOffset < HEADER_SIZE then HEADER_SIZE - c.ioOffset
    else (c.header.dataLength - c.ioOffset) % SIZE_T
  }

  function Clamp(h: Header): Header {
    if h.dataLength > IO_BUFFER_SIZE then h.(dataLength := IO_BUFFER_SIZE) else h
  }

  datatype RecvOut = Incomplete(conn: Conn) | Complete(conn: Conn) | Overrun

  /** receive_message after recv stored `data`; Overrun: the bytes did not fit the buffer. */
  function RecvStep(c: Conn, data: seq<byte>): RecvOut {
    if c.ioOffset + |data| > |c.ioBuffer| then Overrun
    else
      var c1 := c.(ioBuffer := Splice(c.ioBuffer, c.ioOffset, data), ioOffset := c.ioOffset + |data|);
      if c1.haveHeader then
        if c1.ioOffset >= c1.header.dataLength then Complete(c1) else Incomplete(c1)
      else if c1.ioOffset >= HEADER_SIZE then
        var c2 := c1.(header := Clamp(DecodeHeader(c1.ioBuffer)), haveHeader := true);
        if c2.header.dataLength <= HEADER_SIZE then Complete(c2) else Incomplete(c2)
      else Incomplete(c1)
  }

  /** Total number of bytes the message that starts with `got` takes from the stream. */
  function Need(got: seq<byte>): (n: nat)
    ensures HEADER_SIZE <= n <= IO_BUFFER_SIZE
  {
    if |got| < HEADER_SIZE then HEADER_SIZE
    else
      var declared := DecodeHeader(got).dataLength;
      if declared < HEADER_SIZE then HEADER_SIZE
      else if declared > IO_BUFFER_SIZE then IO_BUFFER_SIZE
      else declared
  }

  /** The same from the bytes of the length: big-endian, brought between 4 and 1024. */
  function DeclaredSize(hi: byte, lo: byte): (n: nat)
    ensures 4 <= n <= 1024
    ensures hi < 4 && (hi > 0 || lo >= 4) ==> n == hi * 0x100 + lo
    ensures hi >= 4 ==> n == 1024
    ensures hi == 0 && lo < 4 ==> n == 4
  {
    var n := hi as int * 0x100 + lo;
    if n < 4 then 4 else if n > 1024 then 1024 else n
  }

  predicate Whole(got: seq<byte>) {
    |got| >= HEADER_SIZE && |got| >= Need(got)
  }

  /** The simple form: what a cleared connection holds once it has read exactly `got`. */
  function After(c: Conn, got: seq<byte>): Conn
    requires |got| <= IO_BUFFER_SIZE
  {
    var header := if |got| >= HEADER_SIZE then Clamp(DecodeHeader(got)) else c.header;
    c.(ioBuffer := Pad(got), ioOffset := |got|, haveHeader := |got| >= HEADER_SIZE, header := header)
  }

  /** While a message is incomplete, the request is positive, ends at the message and stays in the buffer. */
  lemma RecvRequestExact(c: Conn, got: seq<byte>)
    requires |got| < Need(got)
    ensures var r := RecvReq(After(c, got));
            && 1 <= r && |got| + r <= IO_BUFFER_SIZE
            && |got| + r == Need(got)
  {
  }

  lemma DecodePrefix(a: seq<byte>, b: seq<byte>)
    requires |a| >= HEADER_SIZE
    ensures DecodeHeader(a + b) == DecodeHeader(a)
    ensures Need(a + b) == Need(a)
  {
  }

  lemma RecvStepAfter(c: Conn, got: seq<byte>, data: seq<byte>)
    requires |got| < Need(got)
    requires 1 <= |data| <= RecvReq(After(c, got))
    ensures |got + data| <= IO_BUFFER_SIZE
    ensures RecvStep(After(c, got), data)
         == if Whole(got + data) then Complete(After(c, got + data)) else Incomplete(After(c, got + data))
  {
    RecvRequestExact(c, got);
    PadSplice(got, data);
    if |got| >= HEADER_SIZE {
      DecodePrefix(got, data);
    } else if |got + data| >= HEADER_SIZE {
      DecodePrefix(got + data, Zeros(IO_BUFFER_SIZE - |got + data|));
    }
  }

  /** The fast form: recv results in the order they arrive; reading stops with the message. */
  function RecvRun(c: Conn, chunks: seq<seq<byte>>): RecvOut
    decreases |chunks|
  {
    if chunks == [] then Incomplete(c)
    else
      match RecvStep(c, chunks[0])
      case Incomplete(c1) => RecvRun(c1, chunks[1..])
      case other => other
  }

  /** What the operating system promises: between one byte and the requested size, until the message is complete. */
  ghost predicate RecvResults(c: Conn, chunks: seq<seq<byte>>)
    decreases |chunks|
  {
    chunks != [] ==>
      && 1 <= |chunks[0]| <= RecvReq(c)
      && match RecvStep(c, chunks[0])
         case Incomplete(c1) => RecvResults(c1, chunks[1..])
         case _ => |chunks| == 1
  }

  function Flat(chunks: seq<seq<byte>>): seq<byte> {
    if chunks == [] then [] else chunks[0] + Flat(chunks[1..])
  }

  lemma {:induction false} RecvFragmentationFrom(c: Conn, got: seq<byte>, chunks: seq<seq<byte>>)
    requires |got| < Need(got)
    requires RecvResults(After(c, got), chunks)
    ensures |got + Flat(chunks)| <= Need(got + Flat(chunks))
    ensures RecvRun(After(c, got), chunks)
         == if Whole(got + Flat(chunks)) then Complete(After(c, got + Flat(chunks)))
            else Incomplete(After(c, got + Flat(chunks)))
    decreases |chunks|
  {
    if chunks == [] {
      assert got + Flat(chunks) == got;
    } else {
      var data := chunks[0];
      RecvRequestExact(c, got);
      RecvStepAfter(c, got, data);
      assert got + Flat(chunks) == (got + data) + Flat(chunks[1..]);
      if Whole(got + data) {
        assert chunks[1..] == [] && got + Flat(chunks) == got + data;
        if |got| >= HEADER_SIZE { DecodePrefix(got, data); }
      } else {
        RecvFragmentationFrom(c, got + data, chunks[1..]);
      }
    }
  }

  /**
   Fragmentation independence of receive: however recv splits the stream, the
   connection ends up as if it had read the bytes in one piece; it completes
   exactly at Need bytes and the unsigned request size never wraps.
   */
  lemma RecvFragmentation(c: Conn, chunks: seq<seq<byte>>)
    requires c == ClearIo(c) && RecvResults(c, chunks)
    ensures var got := Flat(chunks);
            && |got| <= Need(got)
            && RecvRun(c, chunks) == (if Whole(got) then Complete(After(c, got)) else Incomplete(After(c, got)))
    ensures var got := Flat(chunks);
            && (RecvRun(c, chunks).Complete? <==> |got| >= 4 && |got| == DeclaredSize(got[2], got[3]))
            && |got| <= 1024 && After(c, got).ioOffset == |got| && After(c, got).ioBuffer[..|got|] == got
            && (|got| >= 4 ==> After(c, got).header.msgType == got[0] as int * 0x100 + got[1])
  {
    hide RecvRun, RecvResults, Need, Whole, DeclaredSize;
    assert After(c, []) == c;
    NothingNeeded();
    RecvFragmentationFrom(c, [], chunks);
    assert [] + Flat(chunks) == Flat(chunks);
    CompleteSize(Flat(chunks));
  }

  lemma NothingNeeded()
    ensures 0 < Need([])
  {
  }

  /** Where a message is complete, in terms of its bytes. */
  lemma CompleteSize(got: seq<byte>)
    requires |got| <= Need(got)
    ensures Whole(got) <==> |got| >= 4 && |got| == DeclaredSize(got[2], got[3])
  {
  }

  /** A cleared connection reads a message in two pieces: its header, then the rest if there is one. */
  lemma MessageRead(c: Conn, m: seq<byte>)
    requires c == ClearIo(c) && |m| == Need(m) >= HEADER_SIZE
    ensures var head, rest := m[..HEADER_SIZE], m[HEADER_SIZE..];
            && RecvReq(c) == HEADER_SIZE
            && (rest == [] ==> RecvStep(c, m) == RecvOut.Complete(After(c, m)))
            && (rest != [] ==>
                 && RecvStep(c, head) == Incomplete(After(c, head))
                 && RecvReq(After(c, head)) == |rest|
                 && RecvStep(After(c, head), rest) == RecvOut.Complete(After(c, m)))
  {
    var head, rest := m[..HEADER_SIZE], m[HEADER_SIZE..];
    assert After(c, []) == c && head + rest == m && [] + head == head;
    DecodePrefix(head, rest);
    RecvStepAfter(c, [], head);
    if rest == [] {
      assert head == m;
    } else {
      RecvRequestExact(c, head);
      RecvStepAfter(c, head, rest);
    }
  }

  // ----- send_message

  /** The header is fixed up and serialised once per message. */
  function Prepare(c: Conn): Conn
    requires |c.ioBuffer| >= HEADER_SIZE
  {
    if c.haveHeader then c
    else
      var h := if c.header.dataLength < HEADER_SIZE then c.header.(dataLength := HEADER_SIZE) else Clamp(c.header);
      c.(header := h, ioBuffer := EncodeHeader(h) + c.ioBuffer[HEADER_SIZE..], haveHeader := true)
  }

  /** The size passed to send: the difference is cast to uint16_t. */
  function SendReq(c: Conn): nat {
    var remaining := (c.header.dataLength - c.ioOffset) % 0x1_0000;
    if IO_BUFFER_SIZE <= remaining then IO_BUFFER_SIZE else remaining
  }

  /** Sent(n) with n == 0 is a zero write; Again is EAGAIN or EWOULDBLOCK. */
  datatype SendResult = Sent(n: nat) | Again | SendFailed

  function Written(r: SendResult): nat {
    if r.Sent? then r.n else 0
  }

  /** send_message after send returned `r` (not a failure): the new connection and whether it is done. */
  function SendStep(c: Conn, r: SendResult): (Conn, bool)
    requires |c.ioBuffer| >= HEADER_SIZE
  {
    var p := Prepare(c);
    var c1 := p.(ioOffset := p.ioOffset + Written(r));
    (c1, c1.ioOffset >= c1.header.dataLength)
  }

  /** The bytes that one call hands to the socket. */
  function Emitted(c: Conn, r: SendResult): seq<byte>
    requires |c.ioBuffer| >= HEADER_SIZE
    requires c.ioOffset + Written(r) <= |c.ioBuffer|
  {
    Prepare(c).ioBuffer[c.ioOffset..c.ioOffset + Written(r)]
  }

  /** The serialised message of a connection that starts to send. */
  function Message(c: Conn): (m: seq<byte>)
    requires |c.ioBuffer| == IO_BUFFER_SIZE
    ensures HEADER_SIZE <= |m| <= IO_BUFFER_SIZE || c.haveHeader
  {
    var p := Prepare(c);
    if p.header.dataLength <= IO_BUFFER_SIZE then p.ioBuffer[..p.header.dataLength] else p.ioBuffer
  }

  /** What the operating system promises for every send until the message is done. */
  ghost predicate SendResults(c: Conn, rs: seq<SendResult>)
    decreases |rs|
  {
    rs != [] ==>
      && |c.ioBuffer| >= HEADER_SIZE
      && !rs[0].SendFailed?
      && Written(rs[0]) <= SendReq(Prepare(c))
      && if SendStep(c, rs[0]).1 then |rs| == 1 else SendResults(SendStep(c, rs[0]).0, rs[1..])
  }

  function SendRun(c: Conn, rs: seq<SendResult>): (Conn, bool)
    requires |c.ioBuffer| >= HEADER_SIZE
    decreases |rs|
  {
    if rs == [] then (c, false)
    else
      var (c1, done) := SendStep(c, rs[0]);
      if done then (c1, true) else SendRun(c1, rs[1..])
  }

  function Output(c: Conn, rs: seq<SendResult>): seq<byte>
    requires |c.ioBuffer| >= HEADER_SIZE
    decreases |rs|
  {
    if rs == [] || c.ioOffset + Written(rs[0]) > |c.ioBuffer| then []
    else Emitted(c, rs[0]) + Output(SendStep(c, rs[0]).0, rs[1..])
  }

  ghost predicate Sending(c: Conn) {
    && |c.ioBuffer| == IO_BUFFER_SIZE
    && c.ioOffset < |Message(c)|
    && (!c.haveHeader ==> c.ioOffset == 0)
    && (c.haveHeader ==> HEADER_SIZE <= c.header.dataLength <= IO_BUFFER_SIZE)
  }

  lemma PrepareOnce(c: Conn, o: nat)
    requires |c.ioBuffer| >= HEADER_SIZE
    ensures Prepare(Prepare(c).(ioOffset := o)) == Prepare(c).(ioOffset := o)
    ensures |Prepare(c).ioBuffer| == |c.ioBuffer|
  {
  }

  lemma Prepared(c: Conn)
    requires Sending(c)
    ensures var p := Prepare(c);
            && p.haveHeader && HEADER_SIZE <= p.header.dataLength <= IO_BUFFER_SIZE == |p.ioBuffer|
            && p.ioOffset == c.ioOffset < p.header.dataLength
            && Message(c) == p.ioBuffer[..p.header.dataLength]
  {
  }

  lemma PreparedMessage(c: Conn)
    requires c.haveHeader && c.header.dataLength <= IO_BUFFER_SIZE == |c.ioBuffer|
    ensures Message(c) == c.ioBuffer[..c.header.dataLength]
  {
  }

  lemma SendReqExact(c: Conn)
    requires c.ioOffset <= c.header.dataLength <= IO_BUFFER_SIZE
    ensures SendReq(c) == c.header.dataLength - c.ioOffset
  {
  }

  lemma SendStepExact(c: Conn, r: SendResult)
    requires Sending(c) && !r.SendFailed? && Written(r) <= SendReq(Prepare(c))
    ensures SendReq(Prepare(c)) == |Message(c)| - c.ioOffset
    ensures |Message(c)| <= |c.ioBuffer|
    ensures var (c1, done) := SendStep(c, r);
            && c1 == Prepare(c).(ioOffset := c.ioOffset + Written(r))
            && Message(c1) == Message(c)
            && Emitted(c, r) == Message(c)[c.ioOffset..c1.ioOffset]
            && (done <==> c1.ioOffset == |Message(c)|)
            && (!done ==> Sending(c1))
  {
    hide Prepare, SendReq, Message;
    var p, o := Prepare(c), c.ioOffset;
    var n := p.header.dataLength;
    Prepared(c);
    SendReqExact(p);
    PreparedMessage(p.(ioOffset := o + Written(r)));
    assert p.ioBuffer[..n][o..o + Written(r)] == p.ioBuffer[o..o + Written(r)];
  }

  lemma {:induction false} SendFragmentationFrom(c: Conn, rs: seq<SendResult>)
    requires Sending(c) && SendResults(c, rs)
    ensures var (c1, done) := SendRun(c, rs);
            && c.ioOffset <= c1.ioOffset <= |Message(c)|
            && Output(c, rs) == Message(c)[c.ioOffset..c1.ioOffset]
            && (done <==> c1.ioOffset == |Message(c)|)
            && (rs != [] ==> c1 == Prepare(c).(ioOffset := c1.ioOffset))
    decreases |rs|
  {
    hide Prepare, SendReq, Emitted, Message, SendStep;
    if rs == [] {
      assert Message(c)[c.ioOffset..c.ioOffset] == [];
    } else {
      SendStepExact(c, rs[0]);
      var (c1, done) := SendStep(c, rs[0]);
      PrepareOnce(c, c1.ioOffset);
      if done {
        assert rs[1..] == [];
        assert Output(c1, rs[1..]) == [];
      } else {
        SendFragmentationFrom(c1, rs[1..]);
        var o := SendRun(c1, rs[1..]).0.ioOffset;
        assert Message(c)[c.ioOffset..c1.ioOffset] + Message(c)[c1.ioOffset..o] == Message(c)[c.ioOffset..o];
      }
    }
  }

  /**
   Fragmentation independence of send: over all partial writes, zero writes and
   EAGAIN results the bytes emitted by completion are the serialised message,
   without loss or duplication, and before completion a prefix of it.
   */
  lemma SendFragmentation(c: Conn, rs: seq<SendResult>)
    requires c == ClearIo(c) && SendResults(c, rs)
    ensures var (c1, done) := SendRun(c, rs);
            && c1.ioOffset <= |Message(c)|
            && Output(c, rs) == Message(c)[..c1.ioOffset]
            && (done <==> Output(c, rs) == Message(c))
    ensures c.header.msgType < 0x100 && 4 <= c.header.dataLength < 0x100 ==>
              Message(c) == [0, c.header.msgType, 0, c.header.dataLength] + Zeros(c.header.dataLength - 4)
  {
    SendFragmentationFrom(c, rs);
    var (c1, done) := SendRun(c, rs);
    assert Message(c)[0..c1.ioOffset] == Message(c)[..c1.ioOffset];
  }
}
