/**
 The client object of the server and the functions that update it in place. Each method
 is tied to the function of the same step on the value View().
 */
module NetClients {
  import opened Wire
  import opened Connection
  import opened Phases
  import opened Fencing

  /** What recv delivered: bytes, or end of stream or an error. */
  datatype RecvResult = Received(data: seq<byte>) | Ended

  /** What the socket calls of one visit would return. */
  datatype Event = Event(recv: RecvResult, send: SendResult)

  /** The calls that a visit makes stay within what was requested from the operating system. */
  ghost predicate Possible(c: Conn, read: set<int>, write: set<int>, e: Event) {
    && |c.ioBuffer| == IO_BUFFER_SIZE
    && (c.fd in read && e.recv.Received? ==> RecvStep(c, e.recv.data) != Overrun)
    && (c.fd in write ==> c.ioOffset + Written(e.send) <= IO_BUFFER_SIZE)
  }

  /** One turn of the I/O loop, for given ready sets. */
  ghost function VisitOf(c: Conn, read: set<int>, write: set<int>, e: Event): (Conn, Fate)
    requires Possible(c, read, write, e)
  {
    if c.phase == CANCELED then (c, Close)
    else if c.fd in read then
      match e.recv
      case Ended => (c, Close)
      case Received(data) => VisitRead(c, data)
    else if c.fd in write then VisitWrite(c, e.send)
    else (c, Stay)
  }

  /** The client has been cancelled, its peer has closed or failed, or a send to it has failed. */
  predicate Leaving(c: Conn, read: set<int>, write: set<int>, e: Event) {
    || c.phase == CANCELED
    || (c.fd in read && e.recv == Ended)
    || (c.fd !in read && c.fd in write && e.send == SendFailed)
  }

  /**
   A visit closes a client exactly if it is leaving or has got the last byte of its last reply:
   for clients as they are on com_queue, in sets that fit their phases.
   */
  lemma CloseExact(c: Conn, read: set<int>, write: set<int>, e: Event)
    requires Possible(c, read, write, e)
    requires c.phase == CANCELED || Receiving(c) || Replying(c)
    requires c.phase != CANCELED && c.fd in read ==>
               Receiving(c) && (e.recv.Received? ==> 1 <= |e.recv.data| <= RecvReq(c))
    requires c.phase != CANCELED && c.fd in write ==> Replying(c) && Written(e.send) <= SendReq(Prepare(c))
    ensures VisitOf(c, read, write, e).1 == Close
       <==> || Leaving(c, read, write, e)
            || (c.fd in write && c.nextPhase == CANCELED && c.ioOffset + Written(e.send) == |Message(c)|)
  {
    hide RecvStep, RecvReq, Prepare, SendReq, Message, VisitRead, VisitWrite;
    if c.phase != CANCELED {
      if c.fd in read && e.recv.Received? {
        VisitReadKeeps(c, e.recv.data);
      } else if c.fd in write {
        VisitWriteKeeps(c, e.send);
      }
    }
  }

  class NetClient {
    const ioBuffer: array<byte>
    const header: MsgHeader
    var socketFd: int
    var currentPhase: Phase
    var nextPhase: Phase
    var ioState: IoOp
    var haveHeader: bool
    var ioOffset: nat
    var nodename: seq<byte>
    var secret: seq<byte>

    constructor ()
      ensures fresh(ioBuffer) && fresh(header) && ioBuffer.Length == IO_BUFFER_SIZE && View() == CLEARED
    {
      ioBuffer := new byte[IO_BUFFER_SIZE](_ => 0);
      header := new MsgHeader();
      socketFd, currentPhase, nextPhase, ioState := FD_NONE, RECV, PENDING, NOOP;
      haveHeader, ioOffset, nodename, secret := false, 0, [], [];
      new;
      assert ioBuffer[..] == Pad([]);
    }

    function View(): Conn
      reads this, header, ioBuffer
    {
      Conn(socketFd, currentPhase, nextPhase, ioState, header.View(), haveHeader, ioOffset, ioBuffer[..],
           nodename, secret)
    }

    method ClearIoBuffer()
      requires ioBuffer.Length == IO_BUFFER_SIZE
      modifies this`ioOffset, this`haveHeader, ioBuffer
      ensures View() == ClearIo(old(View()))
    {
      ioOffset := 0;
      haveHeader := false;
      ZeroMemory(ioBuffer);
    }

    method Clear()
      requires ioBuffer.Length == IO_BUFFER_SIZE
      modifies this, header, ioBuffer
      ensures View() == CLEARED
    {
      socketFd := FD_NONE;
      currentPhase, nextPhase, ioState := RECV, PENDING, NOOP;
      header.Clear();
      nodename, secret := [], [];
      ClearIoBuffer();
    }

    /** What accept_connection does to the object, with what accept returned. */
    method Connect(fd: int)
      requires ioBuffer.Length == IO_BUFFER_SIZE
      modifies this, header, ioBuffer
      ensures View() == Accepted(fd)
    {
      Clear();
      socketFd := fd;
      ioState := READ;
      currentPhase := RECV;
      nextPhase := PENDING;
    }

    /** receive_message; `closing`: it called close_connection. */
    method ReceiveMessage(r: RecvResult) returns (complete: bool, closing: bool)
      requires ioBuffer.Length == IO_BUFFER_SIZE
      requires r.Received? ==> RecvStep(View(), r.data) != Overrun
      modifies this`ioOffset, this`haveHeader, header, ioBuffer
      ensures closing == r.Ended?
      ensures r.Ended? ==> !complete && View() == old(View())
      ensures r.Received? ==>
        RecvStep(old(View()), r.data) == if complete then RecvOut.Complete(View()) else Incomplete(View())
    {
      complete, closing := false, false;
      match r
      case Ended =>
        closing := true;
      case Received(data) =>
        Store(ioBuffer, ioOffset, data);
        ioOffset := ioOffset + |data|;
        if haveHeader {
          if ioOffset >= header.dataLength {
            complete := true;
          }
        } else if ioOffset >= HEADER_SIZE {
          header.Deserialize(ioBuffer);
          if header.dataLength > IO_BUFFER_SIZE {
            header.dataLength := IO_BUFFER_SIZE;
          }
          haveHeader := true;
          if header.dataLength <= HEADER_SIZE {
            complete := true;
          }
        }
    }

    /** send_message; `sent` is what was handed to the socket. */
    method SendMessage(r: SendResult) returns (complete: bool, closing: bool, sent: seq<byte>)
      requires ioBuffer.Length == IO_BUFFER_SIZE
      requires ioOffset + Written(r) <= IO_BUFFER_SIZE
      modifies this`ioOffset, this`haveHeader, header, ioBuffer
      ensures closing == r.SendFailed?
      ensures closing ==> !complete && View() == Prepare(old(View()))
      ensures !closing ==> (View(), complete) == SendStep(old(View()), r)
      ensures sent == Emitted(old(View()), r)
    {
      hide Prepare;
      complete, closing := false, false;
      PrepareMessage();
      sent := ioBuffer[ioOffset..ioOffset + Written(r)];
      if r.SendFailed? {
        closing := true;
      } else {
        if Written(r) > 0 {
          ioOffset := ioOffset + Written(r);
        }
        if ioOffset >= header.dataLength {
          complete := true;
        }
      }
    }

    /** The first part of send_message: the header is fixed up and serialised once. */
    method PrepareMessage()
      requires ioBuffer.Length == IO_BUFFER_SIZE
      modifies this`haveHeader, header, ioBuffer
      ensures View() == Prepare(old(View()))
    {
      if !haveHeader {
        if header.dataLength < HEADER_SIZE {
          header.dataLength := HEADER_SIZE;
        } else if header.dataLength > IO_BUFFER_SIZE {
          header.dataLength := IO_BUFFER_SIZE;
        }
        header.Serialize(ioBuffer);
        haveHeader := true;
      }
    }

    /** The payload loop of fence_action: the last NODENAME and SECRET win. */
    method ReadParameters() returns (status: ParseStatus)
      requires ioOffset <= ioBuffer.Length
      modifies this`nodename, this`secret
      ensures ParseEnd(status, nodename, secret)
           == ParseLoop(Payload(old(View())), HEADER_SIZE, old(nodename), old(secret))
    {
      var fieldOffset := HEADER_SIZE;
      ghost var m := Payload(View());
      while fieldOffset < ioOffset
        invariant ParseLoop(m, fieldOffset, nodename, secret)
               == ParseLoop(m, HEADER_SIZE, old(nodename), old(secret))
        decreases ioOffset - fieldOffset
      {
        var f := ReadField(ioBuffer, ioOffset, fieldOffset, FIELD_SIZE);
        assert ioBuffer[..ioOffset] == m;
        if f.ProtocolError? {
          return BadProtocol;
        }
        var pair := SplitKeyValuePair(f.value.0);
        if pair.ProtocolError? {
          return BadProtocol;
        }
        var (key, value) := pair.value;
        if key == NODENAME {
          if |value| > NODENAME_SIZE {
            return Escaped;
          }
          nodename := value;
        } else if key == SECRET {
          if |value| > MAX_SECRET_LENGTH {
            return Escaped;
          }
          secret := value;
        }
        fieldOffset := f.value.1;
      }
      status := Parsed;
    }

    /** fence_action; `ok` is the plugin's answer. */
    method FenceAction(a: Action, ok: bool) returns (calls: seq<Call>, escaped: bool)
      requires ioBuffer.Length == IO_BUFFER_SIZE && ioOffset <= IO_BUFFER_SIZE
      modifies this, header, ioBuffer
      ensures Outcome(View(), calls, escaped) == Fence(old(View()), a, ok)
    {
      calls, escaped := [], false;
      var status := ReadParameters();
      match status
      case Escaped =>
        escaped := true;
      case BadProtocol =>
        currentPhase := CANCELED;
        ioState := NOOP;
      case Parsed =>
        ClearIoBuffer();
        header.Clear();
        if |nodename| > 0 {
          calls := [Call(a, nodename, ok)];
          header.msgType := if ok then FENCE_SUCCESS else FENCE_FAIL;
          header.dataLength := HEADER_SIZE;
          currentPhase := SEND;
          nextPhase := CANCELED;
          ioState := WRITE;
        }
    }

    /** What process_action_queue does with a client it took: EXECUTING, then process_client_message. */
    method ProcessClientMessage(ok: bool) returns (calls: seq<Call>, escaped: bool)
      requires ioBuffer.Length == IO_BUFFER_SIZE && ioOffset <= IO_BUFFER_SIZE
      modifies this, header, ioBuffer
      ensures Outcome(View(), calls, escaped) == Process(old(View()), ok)
      ensures Queued(old(View())) ==>
                var m := Payload(old(View()));
                && calls == CallsFrom(m, ok)
                && (currentPhase == SEND <==> Answerable(m))
                && (Answerable(m) ==> !escaped && Message(View()) == ReplyTo(m, ok))
                && (!Answerable(m) ==> currentPhase == EXECUTING || currentPhase == CANCELED)
    {
      hide Queued, Message, CallsFrom, Answerable, ReplyTo, Payload;
      ghost var was := View();
      currentPhase := EXECUTING;
      calls, escaped := [], false;
      var t := header.msgType;
      if t == ECHO_REQUEST {
        ClearIoBuffer();
        header.msgType := ECHO_REPLY;
        header.dataLength := HEADER_SIZE;
        currentPhase := SEND;
        nextPhase := RECV;
        ioState := WRITE;
      } else if t == VERSION_REQUEST {
      } else if t == FENCE_OFF {
        calls, escaped := FenceAction(Off, ok);
      } else if t == FENCE_ON {
        calls, escaped := FenceAction(On, ok);
      } else if t == FENCE_REBOOT {
        calls, escaped := FenceAction(Reboot, ok);
      } else {
        currentPhase := CANCELED;
      }
      if Queued(was) {
        ServedBytes(was, ok);
      }
    }

    /** The body of the selector's I/O loop, up to what it does to the queues. */
    method DoIo(read: set<int>, write: set<int>, e: Event) returns (fate: Fate)
      requires Possible(View(), read, write, e)
      modifies this, header, ioBuffer
      ensures (View(), fate) == VisitOf(old(View()), read, write, e)
      ensures Leaving(old(View()), read, write, e) ==> fate == Close
    {
      fate := Stay;
      if currentPhase == CANCELED {
        fate := Close;
      } else if socketFd in read {
        var complete, closing := ReceiveMessage(e.recv);
        if closing {
          fate := Close;
        } else if complete {
          currentPhase := nextPhase;
          if currentPhase == CANCELED {
            fate := Close;
          } else if currentPhase == PENDING {
            ioState := NOOP;
            fate := ToAction;
          }
        }
      } else if socketFd in write {
        var complete, closing, _ := SendMessage(e.send);
        if closing {
          fate := Close;
        } else if complete {
          currentPhase := nextPhase;
          if currentPhase == CANCELED {
            fate := Close;
          } else if currentPhase == RECV {
            ClearIoBuffer();
            nextPhase := PENDING;
            ioState := READ;
          }
        }
      }
    }
  }
}
