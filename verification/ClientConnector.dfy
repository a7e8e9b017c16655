/**
 The client: it sends one request and waits for one reply on a blocking socket. What
 send and recv return is an input; a script of results that ends while the loop still
 runs stands for a call that has not returned.
 */
module FencingClient {
  import opened Wire
  import opened Connection
  import opened Fencing

  /** A positive result, zero, or -1. */
  datatype Io<+T> = Moved(what: T) | Nothing | Failed

  datatype Status = Done | IoError | Blocked

  /** What the caller of the client gets: an answer, an exception, or nothing yet. */
  datatype Reply = Answer(ok: bool) | ProtocolFault | IoFault | NoReply

  // ----- the request

  function RequestFields(nodename: seq<byte>, secret: seq<byte>): seq<seq<byte>> {
    [Join(NODENAME, CStr(nodename)), Join(SECRET, CStr(secret))]
  }

  function RequestLength(nodename: seq<byte>, secret: seq<byte>): nat {
    HEADER_SIZE + (2 + |NODENAME| + 1 + |CStr(nodename)|) + (2 + |SECRET| + 1 + |CStr(secret)|)
  }

  predicate Fits(nodename: seq<byte>, secret: seq<byte>) {
    RequestLength(nodename, secret) <= IO_BUFFER_SIZE
  }

  /** Names and secrets within the limits of the command line always fit. */
  lemma LimitsFit(nodename: seq<byte>, secret: seq<byte>)
    requires |nodename| <= NODENAME_SIZE && |secret| <= MAX_SECRET_LENGTH
    ensures Fits(nodename, secret) && RequestLength(nodename, secret) <= 343
  {
  }

  lemma RequestSized(nodename: seq<byte>, secret: seq<byte>)
    requires Fits(nodename, secret)
    ensures var fs := RequestFields(nodename, secret);
            && Sized(fs) && FieldSized(fs) && HEADER_SIZE + |Fields(fs)| == RequestLength(nodename, secret)
            && Fields(fs) == Field(fs[0]) + Field(fs[1])
  {
    var fs := RequestFields(nodename, secret);
    var rest := fs[1..];
    assert rest == [fs[1]] && rest[1..] == [];
    assert Fields(rest) == Field(fs[1]) + [];
  }

  /** The bytes of a fencing request. */
  function Request(a: Action, nodename: seq<byte>, secret: seq<byte>): (m: seq<byte>)
    requires Fits(nodename, secret)
    ensures |m| == RequestLength(nodename, secret)
  {
    RequestSized(nodename, secret);
    EncodeHeader(Header(TypeOf(a), RequestLength(nodename, secret))) + Fields(RequestFields(nodename, secret))
  }

  /** The first two bytes of a request for the action. */
  function TypeBytesOf(a: Action): seq<byte> {
    match a
    case Off => [0, 0x81]
    case On => [0, 0x82]
    case Reboot => [0, 0x83]
  }

  /** The field "key=value" as it is sent. */
  function PrintedField(key: string, value: seq<byte>): seq<byte>
    requires |key| + |value| + 1 <= 0xFFFF && forall i :: 0 <= i < |key| ==> key[i] as int < 0x100
  {
    var n := |key| + 1 + |value|;
    [n / 0x100, n % 0x100] + Ascii(key) + [61] + value
  }

  /** Which requests fit, and the request byte by byte. */
  lemma RequestBytes(a: Action, nodename: seq<byte>, secret: seq<byte>)
    ensures Fits(nodename, secret) <==> 24 + |CStr(nodename)| + |CStr(secret)| <= 1024
    ensures Fits(nodename, secret) ==>
              var n := 24 + |CStr(nodename)| + |CStr(secret)|;
              Request(a, nodename, secret)
              == TypeBytesOf(a) + [n / 0x100, n % 0x100]
                 + PrintedField("NODENAME", CStr(nodename)) + PrintedField("SECRET", CStr(secret))
  {
    hide CStr, Field, Fields, PrintedField, EncodeHeader, Join;
    if Fits(nodename, secret) {
      RequestSized(nodename, secret);
      assert Ascii("NODENAME") == NODENAME && Ascii("SECRET") == SECRET;
      HeaderPrinted(a, RequestLength(nodename, secret));
      FieldPrinted("NODENAME", CStr(nodename));
      FieldPrinted("SECRET", CStr(secret));
    }
  }

  lemma HeaderPrinted(a: Action, n: uint16)
    ensures EncodeHeader(Header(TypeOf(a), n)) == TypeBytesOf(a) + [n / 0x100, n % 0x100]
  {
  }

  lemma FieldPrinted(key: string, value: seq<byte>)
    requires |key| + |value| + 1 <= 0xFFFF && forall i :: 0 <= i < |key| ==> key[i] as int < 0x100
    ensures Field(Join(Ascii(key), value)) == PrintedField(key, value)
  {
  }

  const ECHO_MESSAGE: seq<byte> := EncodeHeader(Header(ECHO_REQUEST, HEADER_SIZE))

  /** How a complete reply to a fencing request is read. */
  function Interpret(h: Header): Reply {
    if h.dataLength > IO_BUFFER_SIZE then IoFault
    else if h.msgType == FENCE_SUCCESS then Answer(true)
    else if h.msgType == FENCE_FAIL then Answer(false)
    else ProtocolFault
  }

  /** How the bytes of any complete reply are read. */
  lemma InterpretExact(got: seq<byte>)
    requires |got| >= 4
    ensures var reply, length := Interpret(DecodeHeader(got)), got[2] as int * 0x100 + got[3];
            && (reply == Answer(true) <==> length <= 1024 && [0, 0xA0] <= got)
            && (reply == Answer(false) <==> length <= 1024 && [0, 0xA1] <= got)
            && (reply == IoFault <==> length > 1024)
            && (reply == ProtocolFault <==> length <= 1024 && !([0, 0xA0] <= got) && !([0, 0xA1] <= got))
  {
    FirstBytes(got, 0xA0);
    FirstBytes(got, 0xA1);
  }

  // ----- results of send and recv

  function Total(rs: seq<Io<nat>>): nat {
    if rs == [] then 0
    else Total(rs[..|rs| - 1]) + (if rs[|rs| - 1].Moved? then rs[|rs| - 1].what else 0)
  }

  function Taken(rs: seq<Io<seq<byte>>>): seq<byte> {
    if rs == [] then []
    else Taken(rs[..|rs| - 1]) + (if rs[|rs| - 1].Moved? then rs[|rs| - 1].what else [])
  }

  /**
   The results that send can deliver while `left` bytes are to be sent: never more than
   asked for, and only failures once the socket is closed. No call is made for nothing.
   */
  ghost predicate Sends(left: int, fd: int, rs: seq<Io<nat>>)
    decreases |rs|
  {
    rs != [] ==>
      && left > 0
      && (fd == FD_NONE ==> rs[0].Failed?)
      && (rs[0].Moved? ==> 1 <= rs[0].what <= left)
      && Sends(left - (if rs[0].Moved? then rs[0].what else 0), if rs[0].Failed? then FD_NONE else fd, rs[1..])
  }

  /** The same for recv with `got` received so far; after end of stream there is no more data. */
  ghost predicate Receives(got: seq<byte>, fd: int, ended: bool, rs: seq<Io<seq<byte>>>)
    decreases |rs|
  {
    rs != [] ==>
      && !Whole(got) && |got| < Need(got)
      && (fd == FD_NONE ==> rs[0].Failed?)
      && (ended ==> !rs[0].Moved?)
      && (rs[0].Moved? ==> 1 <= |rs[0].what| <= Need(got) - |got|)
      && Receives(got + (if rs[0].Moved? then rs[0].what else []), if rs[0].Failed? then FD_NONE else fd,
                  ended || rs[0].Nothing?, rs[1..])
  }

  /** A client whose send failed never gets out of send_message. */
  lemma {:induction false} SendStalls(left: int, fd: int, rs: seq<Io<nat>>, i: int)
    requires Sends(left, fd, rs) && 0 <= i < |rs| && rs[i].Failed?
    ensures Total(rs) < left
    decreases |rs|
  {
    var m := if rs[0].Moved? then rs[0].what else 0;
    TotalCons(rs);
    if fd == FD_NONE || i == 0 {
      AfterFailure(left - m, rs[1..]);
    } else {
      SendStalls(left - m, fd, rs[1..], i - 1);
    }
  }

  lemma {:induction false} AfterFailure(left: int, rs: seq<Io<nat>>)
    requires Sends(left, FD_NONE, rs)
    ensures Total(rs) == 0
    decreases |rs|
  {
    if rs != [] {
      TotalCons(rs);
      AfterFailure(left, rs[1..]);
    }
  }

  lemma {:induction false} TotalCons(rs: seq<Io<nat>>)
    requires rs != []
    ensures Total(rs) == (if rs[0].Moved? then rs[0].what else 0) + Total(rs[1..])
  {
    if |rs| > 1 {
      TotalCons(rs[..|rs| - 1]);
      assert rs[..|rs| - 1][1..] == rs[1..][..|rs| - 2];
    } else {
      assert rs[..0] == [] && rs[1..] == [];
    }
  }

  lemma {:induction false} TakenCons(rs: seq<Io<seq<byte>>>)
    requires rs != []
    ensures Taken(rs) == (if rs[0].Moved? then rs[0].what else []) + Taken(rs[1..])
  {
    if |rs| > 1 {
      TakenCons(rs[..|rs| - 1]);
      assert rs[..|rs| - 1][1..] == rs[1..][..|rs| - 2];
    } else {
      assert rs[..0] == [] && rs[1..] == [];
    }
  }

  /** No more bytes arrive once the stream has ended or the socket is closed. */
  lemma {:induction false} AfterEnd(got: seq<byte>, fd: int, ended: bool, rs: seq<Io<seq<byte>>>)
    requires Receives(got, fd, ended, rs) && (ended || fd == FD_NONE)
    ensures Taken(rs) == []
    decreases |rs|
  {
    if rs != [] {
      TakenCons(rs);
      assert got + [] == got;
      AfterEnd(got, if rs[0].Failed? then FD_NONE else fd, ended || rs[0].Nothing?, rs[1..]);
    }
  }

  /** A client that has seen the end of the stream or an error never gets out of receive_message. */
  lemma {:induction false} ReceiveStalls(got: seq<byte>, fd: int, rs: seq<Io<seq<byte>>>, i: int)
    requires Receives(got, fd, false, rs) && 0 <= i < |rs| && !rs[i].Moved?
    ensures !Whole(got + Taken(rs))
    decreases |rs|
  {
    TakenCons(rs);
    var m := if rs[0].Moved? then rs[0].what else [];
    if !rs[0].Moved? {
      assert got + [] == got;
      AfterEnd(got, if rs[0].Failed? then FD_NONE else fd, rs[0].Nothing?, rs[1..]);
    } else {
      ReceiveStalls(got + m, fd, rs[1..], i - 1);
      assert got + Taken(rs) == got + m + Taken(rs[1..]);
    }
  }

  lemma {:induction false} TotalAppend(rs: seq<Io<nat>>, more: seq<Io<nat>>)
    ensures Total(rs + more) == Total(rs) + Total(more)
  {
    if rs == [] {
      assert rs + more == more;
    } else {
      TotalCons(rs);
      TotalCons(rs + more);
      assert (rs + more)[1..] == rs[1..] + more;
      TotalAppend(rs[1..], more);
    }
  }

  lemma {:induction false} TakenAppend(rs: seq<Io<seq<byte>>>, more: seq<Io<seq<byte>>>)
    ensures Taken(rs + more) == Taken(rs) + Taken(more)
  {
    if rs == [] {
      assert rs + more == more;
    } else {
      TakenCons(rs);
      TakenCons(rs + more);
      assert (rs + more)[1..] == rs[1..] + more;
      TakenAppend(rs[1..], more);
    }
  }

  lemma {:induction false} SendsOn(left: int, fd: int, rs: seq<Io<nat>>, more: seq<Io<nat>>)
    requires Sends(left, fd, rs) && (forall i :: 0 <= i < |rs| ==> !rs[i].Failed?)
    requires Sends(left - Total(rs), fd, more)
    ensures Sends(left, fd, rs + more)
    decreases |rs|
  {
    if rs == [] {
      assert rs + more == more;
    } else {
      TotalCons(rs);
      SendsOn(left - (if rs[0].Moved? then rs[0].what else 0), fd, rs[1..], more);
      assert (rs + more)[1..] == rs[1..] + more;
    }
  }

  /**
   A send loop that is not through yet can still complete if and only if the socket was open
   and no call has failed so far.
   */
  lemma SendExact(left: int, fd: int, rs: seq<Io<nat>>)
    requires Sends(left, fd, rs) && Total(rs) < left
    ensures (exists more :: Sends(left, fd, rs + more) && Total(rs + more) == left)
       <==> fd != FD_NONE && forall i :: 0 <= i < |rs| ==> !rs[i].Failed?
  {
    if fd != FD_NONE && forall i :: 0 <= i < |rs| ==> !rs[i].Failed? {
      var more := [Moved(left - Total(rs))];
      SendsOn(left, fd, rs, more);
      TotalAppend(rs, more);
      TotalCons(more);
    }
    forall more | Sends(left, fd, rs + more) && Total(rs + more) == left
      ensures fd != FD_NONE && forall i :: 0 <= i < |rs| ==> !rs[i].Failed?
    {
      if i :| 0 <= i < |rs| && rs[i].Failed? {
        assert (rs + more)[i] == rs[i];
        SendStalls(left, fd, rs + more, i);
      }
      if fd == FD_NONE {
        AfterFailure(left, rs + more);
        AfterFailure(left, rs);
      }
    }
  }

  lemma {:induction false} ReceivesOn(got: seq<byte>, fd: int, rs: seq<Io<seq<byte>>>, more: seq<Io<seq<byte>>>)
    requires Receives(got, fd, false, rs) && (forall i :: 0 <= i < |rs| ==> rs[i].Moved?)
    requires Receives(got + Taken(rs), fd, false, more)
    ensures Receives(got, fd, false, rs + more)
    decreases |rs|
  {
    hide Need, Whole, Taken;
    if rs == [] {
      assert rs + more == more && got + Taken(rs) == got by { NothingTaken(rs); }
    } else {
      TakenCons(rs);
      assert got + Taken(rs) == got + rs[0].what + Taken(rs[1..]);
      ReceivesOn(got + rs[0].what, fd, rs[1..], more);
      assert (rs + more)[1..] == rs[1..] + more && (rs + more)[0] == rs[0];
    }
  }

  lemma NothingTaken(rs: seq<Io<seq<byte>>>)
    requires rs == []
    ensures Taken(rs) == []
  {
  }

  /** The rest of the header, if it is not there yet, and then the rest of the message. */
  lemma Rest(got: seq<byte>, fd: int) returns (more: seq<Io<seq<byte>>>)
    requires !Whole(got) && fd != FD_NONE
    ensures Receives(got, fd, false, more) && Whole(got + Taken(more))
  {
    var missing := Need(got) - |got|;
    var first: seq<byte> := Zeros(missing);
    var all := got + first;
    TakenCons([Moved(first)]);
    assert Taken([Moved(first)]) == first;
    if Whole(all) {
      more := [Moved(first)];
    } else {
      var second: seq<byte> := Zeros(Need(all) - |all|);
      more := [Moved(first), Moved(second)];
      assert more[1..] == [Moved(second)];
      TakenCons(more);
      TakenCons([Moved(second)]);
      assert got + Taken(more) == all + second;
      DecodePrefix(all, second);
    }
  }

  /**
   A receive loop that is not through yet can still complete if and only if the socket was open
   and every call so far has delivered bytes.
   */
  lemma ReceiveExact(got: seq<byte>, fd: int, rs: seq<Io<seq<byte>>>)
    requires Receives(got, fd, false, rs) && !Whole(got + Taken(rs))
    ensures (exists more :: Receives(got, fd, false, rs + more) && Whole(got + Taken(rs + more)))
       <==> fd != FD_NONE && forall i :: 0 <= i < |rs| ==> rs[i].Moved?
  {
    hide Receives, Taken, Whole;
    if fd != FD_NONE && forall i :: 0 <= i < |rs| ==> rs[i].Moved? {
      var more := Rest(got + Taken(rs), fd);
      ReceivesOn(got, fd, rs, more);
      TakenAppend(rs, more);
      assert got + Taken(rs + more) == got + Taken(rs) + Taken(more);
    }
    forall more | Receives(got, fd, false, rs + more) && Whole(got + Taken(rs + more))
      ensures fd != FD_NONE && forall i :: 0 <= i < |rs| ==> rs[i].Moved?
    {
      Completed(got, fd, rs, more);
    }
  }

  lemma Completed(got: seq<byte>, fd: int, rs: seq<Io<seq<byte>>>, more: seq<Io<seq<byte>>>)
    requires Receives(got, fd, false, rs) && !Whole(got + Taken(rs))
    requires Receives(got, fd, false, rs + more) && Whole(got + Taken(rs + more))
    ensures fd != FD_NONE && forall i :: 0 <= i < |rs| ==> rs[i].Moved?
  {
    hide Receives, Taken, Whole;
    if i :| 0 <= i < |rs| && !rs[i].Moved? {
      assert (rs + more)[i] == rs[i];
      ReceiveStalls(got, fd, rs + more, i);
    }
    if fd == FD_NONE {
      AfterEnd(got, fd, false, rs + more);
      AfterEnd(got, fd, false, rs);
    }
  }

  // ----- the connector

  class ClientConnector {
    const ioBuffer: array<byte>
    const header: MsgHeader
    var socketFd: int

    constructor (fd: int)
      ensures socketFd == fd && ioBuffer.Length == IO_BUFFER_SIZE && fresh(ioBuffer) && fresh(header)
    {
      ioBuffer := new byte[IO_BUFFER_SIZE](_ => 0);
      header := new MsgHeader();
      socketFd := fd;
    }

    function SendLength(): (n: nat)
      reads header
    {
      var n := if header.dataLength < HEADER_SIZE then HEADER_SIZE else header.dataLength;
      if n > IO_BUFFER_SIZE then IO_BUFFER_SIZE else n
    }

    /** send_message: what was handed to the socket is always a prefix of the message. */
    method SendMessage(rs: seq<Io<nat>>) returns (status: Status, sent: seq<byte>)
      requires ioBuffer.Length == IO_BUFFER_SIZE && Sends(SendLength(), socketFd, rs)
      modifies this, ioBuffer
      ensures ioBuffer[..] == EncodeHeader(header.View()) + old(ioBuffer[HEADER_SIZE..])
      ensures |sent| == Total(rs) <= SendLength() <= IO_BUFFER_SIZE && sent == ioBuffer[..|sent|]
      ensures status == if Total(rs) < SendLength() then Blocked
                        else if header.dataLength > IO_BUFFER_SIZE then IoError else Done
      ensures !status.Blocked? ==> socketFd == old(socketFd)
    {
      var ioOffset := 0;
      var sendLength := SendLength();
      header.Serialize(ioBuffer);
      ghost var i := 0;
      var todo := rs;
      sent := [];
      while ioOffset < sendLength && todo != []
        invariant 0 <= i <= |rs| && todo == rs[i..]
        invariant ioOffset == Total(rs[..i]) <= sendLength && sent == ioBuffer[..ioOffset]
        invariant Sends(sendLength - ioOffset, socketFd, todo)
        invariant ioBuffer[..] == EncodeHeader(header.View()) + old(ioBuffer[HEADER_SIZE..])
        invariant socketFd == old(socketFd) || exists j :: 0 <= j < i && rs[j].Failed?
        decreases |todo|
      {
        assert rs[..i + 1][..i] == rs[..i];
        var r := todo[0];
        if r.Moved? {
          sent := sent + ioBuffer[ioOffset..ioOffset + r.what];
          ioOffset := ioOffset + r.what;
        } else if r.Failed? {
          socketFd := FD_NONE;
        }
        todo := todo[1..];
        i := i + 1;
      }
      assert rs[..i] == rs || ioOffset == sendLength;
      if j :| 0 <= j < |rs| && rs[j].Failed? {
        SendStalls(sendLength, old(socketFd), rs, j);
      }
      if ioOffset < sendLength {
        status := Blocked;
      } else if ioOffset < header.dataLength {
        status := IoError;
      } else {
        status := Done;
      }
    }

    /**
     receive_message: however the reply is split, it returns exactly when the bytes that
     arrived are a whole message, and then it has read just that message.
     */
    method ReceiveMessage(rs: seq<Io<seq<byte>>>) returns (status: Status)
      requires ioBuffer.Length == IO_BUFFER_SIZE && Receives([], socketFd, false, rs)
      modifies this, header, ioBuffer
      ensures |Taken(rs)| <= Need(Taken(rs)) && ioBuffer[..] == Pad(Taken(rs))
      ensures header.View() == if |Taken(rs)| >= HEADER_SIZE then DecodeHeader(Taken(rs)) else CLEAR_HEADER
      ensures status == if !Whole(Taken(rs)) then Blocked
                        else if header.dataLength > IO_BUFFER_SIZE then IoError else Done
    {
      hide DecodeHeader, Splice, Pad;
      header.Clear();
      ZeroMemory(ioBuffer);
      var haveHeader := false;
      var ioOffset := 0;
      var receiveLength := HEADER_SIZE;
      ghost var got, ended, i := [], false, 0;
      var todo := rs;
      while ioOffset < receiveLength && todo != []
        invariant 0 <= i <= |rs| && todo == rs[i..] && got == Taken(rs[..i])
        invariant |got| <= Need(got) && ioOffset == |got| && ioBuffer[..] == Pad(got)
        invariant haveHeader <==> |got| >= HEADER_SIZE
        invariant header.View() == if haveHeader then DecodeHeader(got) else CLEAR_HEADER
        invariant ioOffset < receiveLength <==> !Whole(got)
        invariant !Whole(got) ==> receiveLength == Need(got)
        invariant Receives(got, socketFd, ended, todo)
        decreases |todo|
      {
        assert rs[..i + 1][..i] == rs[..i];
        var r := todo[0];
        if r.Moved? {
          Received(got, r.what);
          Store(ioBuffer, ioOffset, r.what);
          got := got + r.what;
          ioOffset := ioOffset + |r.what|;
          if !haveHeader && ioOffset >= HEADER_SIZE {
            header.Deserialize(ioBuffer);
            haveHeader := true;
            receiveLength := if header.dataLength < IO_BUFFER_SIZE then header.dataLength else IO_BUFFER_SIZE;
          }
        } else {
          assert got + [] == got;
          ended := ended || r.Nothing?;
          if r.Failed? {
            socketFd := FD_NONE;
          }
        }
        todo := todo[1..];
        i := i + 1;
      }
      assert rs[..|rs|] == rs;
      if ioOffset < receiveLength {
        status := Blocked;
      } else if !haveHeader || ioOffset < header.dataLength {
        status := IoError;
      } else {
        status := Done;
      }
    }

    lemma Received(got: seq<byte>, data: seq<byte>)
      requires |got| < Need(got) && |got| + |data| <= Need(got)
      ensures |got + data| <= Need(got + data)
      ensures Splice(Pad(got), |got|, data) == Pad(got + data)
      ensures |got + data| >= HEADER_SIZE ==> DecodeHeader(Pad(got + data)) == DecodeHeader(got + data)
      ensures |got| >= HEADER_SIZE ==> DecodeHeader(got + data) == DecodeHeader(got)
    {
      PadSplice(got, data);
      if |got| >= HEADER_SIZE {
        DecodePrefix(got, data);
      }
      if |got + data| >= HEADER_SIZE {
        DecodePrefix(got + data, Zeros(IO_BUFFER_SIZE - |got + data|));
      }
    }

    /** The first half of fence_action_impl: the fields are written and the header is set. */
    method FillRequest(a: Action, nodename: seq<byte>, secret: seq<byte>) returns (ready: bool)
      requires ioBuffer.Length == IO_BUFFER_SIZE
      modifies header, ioBuffer
      ensures ready <==> Fits(nodename, secret)
      ensures ready ==>
                && header.View() == Header(TypeOf(a), RequestLength(nodename, secret))
                && Sized(RequestFields(nodename, secret))
                && Fields(RequestFields(nodename, secret)) <= ioBuffer[HEADER_SIZE..]
    {
      hide CStr, Field, Fields, Splice, Join;
      var fs := RequestFields(nodename, secret);
      FieldLengths(nodename, secret);
      header.msgType := TypeOf(a);
      ghost var was := ioBuffer[..];
      var w := WriteField(ioBuffer, IO_BUFFER_SIZE, HEADER_SIZE, fs[0]);
      if w.ProtocolError? {
        return false;
      }
      var w1 := WriteField(ioBuffer, IO_BUFFER_SIZE, w.value, fs[1]);
      if w1.ProtocolError? {
        return false;
      }
      SpliceTwice(was, HEADER_SIZE, Field(fs[0]), Field(fs[1]));
      RequestSized(nodename, secret);
      Spliced(was, HEADER_SIZE, Fields(fs));
      header.dataLength := w1.value % 0x1_0000;
      ready := true;
    }

    lemma FieldLengths(nodename: seq<byte>, secret: seq<byte>)
      ensures var fs := RequestFields(nodename, secret);
              RequestLength(nodename, secret) == HEADER_SIZE + (2 + |fs[0]|) + (2 + |fs[1]|)
    {
      hide CStr;
    }

    lemma Spliced(was: seq<byte>, off: nat, t: seq<byte>)
      requires off + |t| <= |was|
      ensures t <= Splice(was, off, t)[off..]
    {
    }

    lemma Filled(buffer: seq<byte>, body: seq<byte>, a: Action, nodename: seq<byte>, secret: seq<byte>)
      requires Fits(nodename, secret) && Sized(RequestFields(nodename, secret))
      requires buffer == EncodeHeader(Header(TypeOf(a), RequestLength(nodename, secret))) + body
      requires Fields(RequestFields(nodename, secret)) <= body
      ensures RequestLength(nodename, secret) <= |buffer|
      ensures buffer[..RequestLength(nodename, secret)] == Request(a, nodename, secret)
    {
      hide CStr;
      RequestSized(nodename, secret);
    }

    /**
     fence_action_impl: the bytes handed to the socket are a prefix of the request, and an
     answer is given exactly when the whole request went out and a whole reply came back.
     */
    method FenceActionImpl(a: Action, nodename: seq<byte>, secret: seq<byte>,
                           sends: seq<Io<nat>>, receives: seq<Io<seq<byte>>>)
      returns (reply: Reply, sent: seq<byte>)
      requires ioBuffer.Length == IO_BUFFER_SIZE
      requires Fits(nodename, secret) ==>
                 && Sends(RequestLength(nodename, secret), socketFd, sends)
                 && Receives([], socketFd, false, receives)
      modifies this, header, ioBuffer
      ensures !Fits(nodename, secret) ==> reply == ProtocolFault && sent == []
      ensures Fits(nodename, secret) ==>
                && sent <= Request(a, nodename, secret) && |sent| == Total(sends)
                && reply == if sent != Request(a, nodename, secret) || !Whole(Taken(receives)) then NoReply
                            else Interpret(DecodeHeader(Taken(receives)))
      ensures |sent| >= 2 ==> sent[..2] == TypeBytesOf(a)
      ensures Fits(nodename, secret) && reply != NoReply ==>
                var got := Taken(receives);
                && |got| >= 4
                && var length := got[2] as int * 0x100 + got[3];
                && (reply == Answer(true) <==> length <= 1024 && [0, 0xA0] <= got)
                && (reply == Answer(false) <==> length <= 1024 && [0, 0xA1] <= got)
                && (reply == IoFault <==> length > 1024)
                && (reply == ProtocolFault <==> length <= 1024 && !([0, 0xA0] <= got) && !([0, 0xA1] <= got))
    {
      hide Total, Taken, Sends, Receives, CStr, Need;
      sent := [];
      var ready := FillRequest(a, nodename, secret);
      if !ready {
        return ProtocolFault, sent;
      }
      ghost var body := ioBuffer[HEADER_SIZE..];
      var status;
      status, sent := SendMessage(sends);
      Filled(ioBuffer[..], body, a, nodename, secret);
      if status.Blocked? {
        return NoReply, sent;
      }
      status := ReceiveMessage(receives);
      match status
      case Blocked => reply := NoReply;
      case IoError => reply := IoFault;
      case Done =>
        reply := if header.msgType == FENCE_SUCCESS then Answer(true)
                 else if header.msgType == FENCE_FAIL then Answer(false)
                 else ProtocolFault;
    }

    /** check_connection: an echo request, and whether the reply is an echo reply. */
    method CheckConnection(sends: seq<Io<nat>>, receives: seq<Io<seq<byte>>>) returns (reply: Reply, sent: seq<byte>)
      requires ioBuffer.Length == IO_BUFFER_SIZE
      requires Sends(HEADER_SIZE, socketFd, sends) && Receives([], socketFd, false, receives)
      modifies this, header, ioBuffer
      ensures sent <= ECHO_MESSAGE && |sent| == Total(sends)
      ensures reply == if sent != ECHO_MESSAGE || !Whole(Taken(receives)) then NoReply
                       else if DecodeHeader(Taken(receives)).dataLength > IO_BUFFER_SIZE then IoFault
                       else Answer(DecodeHeader(Taken(receives)).msgType == ECHO_REPLY)
      ensures sent <= [0, 0, 0, 4]
      ensures reply != NoReply ==>
                var got := Taken(receives);
                && |got| >= 4
                && var length := got[2] as int * 0x100 + got[3];
                && (reply == Answer(true) <==> length <= 1024 && [0, 1] <= got)
                && (reply == Answer(false) <==> length <= 1024 && !([0, 1] <= got))
                && (reply == IoFault <==> length > 1024)
    {
      header.msgType := ECHO_REQUEST;
      header.dataLength := HEADER_SIZE;
      var status;
      status, sent := SendMessage(sends);
      assert ioBuffer[..HEADER_SIZE] == ECHO_MESSAGE;
      if status.Blocked? {
        return NoReply, sent;
      }
      status := ReceiveMessage(receives);
      reply := if status.Blocked? then NoReply
               else if status.IoError? then IoFault
               else Answer(header.msgType == ECHO_REPLY);
    }
  }
}
