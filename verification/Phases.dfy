/**
 The phases of a connection: what holds of a client object in each place it can be,
 and what one visit of the selector's I/O loop does to it.
 */
module Phases {
  import opened Wire
  import opened Connection

  function Payload(c: Conn): seq<byte>
    requires c.ioOffset <= |c.ioBuffer|
  {
    c.ioBuffer[..c.ioOffset]
  }

  /** On com_queue, reading: everything received so far is an incomplete message. */
  ghost predicate Receiving(c: Conn) {
    && c.phase == RECV && c.nextPhase == PENDING && c.io == READ
    && c.nodename == [] && c.secret == []
    && |c.ioBuffer| == IO_BUFFER_SIZE && c.ioOffset <= IO_BUFFER_SIZE
    && c == After(c, Payload(c))
    && |Payload(c)| < Need(Payload(c))
  }

  /** On action_queue or taken by a worker: exactly one complete message, and no name from before. */
  ghost predicate Queued(c: Conn) {
    && c.phase == PENDING && c.io == NOOP
    && c.nodename == [] && c.secret == []
    && |c.ioBuffer| == IO_BUFFER_SIZE && c.ioOffset <= IO_BUFFER_SIZE
    && c == After(c, Payload(c))
    && |Payload(c)| == Need(Payload(c)) >= HEADER_SIZE
  }

  /** On com_queue, writing a reply. */
  ghost predicate Replying(c: Conn) {
    && c.phase == SEND && c.io == WRITE
    && (c.nextPhase == RECV || c.nextPhase == CANCELED)
    && (c.nextPhase == RECV ==> c.nodename == [] && c.secret == [])
    && Sending(c)
  }

  predicate FreshReply(c: Conn) {
    c == ClearIo(c) && c.phase == SEND
  }

  // ----- one visit of the I/O loop

  /** What happens to the client object at the end of a visit. */
  datatype Fate = Stay | Close | ToAction

  /** The client's socket is in the read set and recv delivered `data`. */
  function VisitRead(c: Conn, data: seq<byte>): (Conn, Fate)
    requires RecvStep(c, data) != Overrun
  {
    match RecvStep(c, data)
    case Incomplete(c1) => (c1, Stay)
    case Complete(c1) =>
      var c2 := c1.(phase := c1.nextPhase);
      if c2.phase == CANCELED then (c2, Close)
      else if c2.phase == PENDING then (c2.(io := NOOP), ToAction)
      else (c2, Stay)
  }

  /** The client's socket is in the write set and send returned `r`. */
  function VisitWrite(c: Conn, r: SendResult): (Conn, Fate)
    requires |c.ioBuffer| >= HEADER_SIZE
  {
    if r.SendFailed? then (Prepare(c), Close)
    else
      var (c1, done) := SendStep(c, r);
      if !done then (c1, Stay)
      else
        var c2 := c1.(phase := c1.nextPhase);
        if c2.phase == CANCELED then (c2, Close)
        else if c2.phase == RECV then (ClearIo(c2).(nextPhase := PENDING, io := READ), Stay)
        else (c2, Stay)
  }

  lemma AcceptedReceives(fd: int)
    ensures Receiving(Accepted(fd))
  {
    assert Payload(Accepted(fd)) == [];
    assert After(Accepted(fd), []) == Accepted(fd);
  }

  /**
   A visit with data: the buffer is never overrun, and the client stays in RECV with an
   incomplete message or goes to the action queue with a complete one. The branches that
   close a CANCELED client after receiving are never taken.
   */
  lemma VisitReadKeeps(c: Conn, data: seq<byte>)
    requires Receiving(c) && 1 <= |data| <= RecvReq(c)
    ensures RecvStep(c, data) != Overrun
    ensures var (c1, fate) := VisitRead(c, data);
            && c1.fd == c.fd
            && Payload(c) + data == c1.ioBuffer[..c.ioOffset + |data|]
            && (fate == Stay ==> Receiving(c1))
            && (fate == ToAction ==> Queued(c1))
            && fate != Close
  {
    var got := Payload(c);
    RecvRequestExact(c, got);
    RecvStepAfter(c, got, data);
    if |got| >= HEADER_SIZE {
      DecodePrefix(got, data);
    }
    var (c1, _) := VisitRead(c, data);
    var all := got + data;
    assert c1.ioBuffer == Pad(all) && c1.ioOffset == |all|;
    assert Payload(c1) == all;
  }

  /**
   A visit with a send result: the client goes on replying, starts to receive the next
   message from a cleared buffer, or is closed; it is never left CANCELED on the queue.
   */
  lemma VisitWriteKeeps(c: Conn, r: SendResult)
    requires Replying(c) && Written(r) <= SendReq(Prepare(c))
    ensures var (c1, fate) := VisitWrite(c, r);
            && c1.fd == c.fd
            && (fate == Stay ==>
                 if c.ioOffset + Written(r) < |Message(c)| then
                   Replying(c1) && c1.ioOffset == c.ioOffset + Written(r) && Message(c1) == Message(c)
                 else Receiving(c1) && c1 == ClearIo(c1))
            && fate != ToAction
            && (fate == Close
                <==> (r.SendFailed? || (c.nextPhase == CANCELED && c.ioOffset + Written(r) == |Message(c)|)))
  {
    if !r.SendFailed? {
      SendStepExact(c, r);
      var (c1, fate) := VisitWrite(c, r);
      if c1.phase == RECV {
        assert Payload(c1) == [];
        assert c1 == After(c1, []);
      }
    }
  }
}
