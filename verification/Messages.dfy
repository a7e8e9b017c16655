/**
 The server's side of a connection on which one message arrives, whatever its bytes are: what the
 message says decides which call is made and which bytes are sent.
 */
module Messages {
  import opened Wire
  import opened Connection
  import opened Phases
  import opened Fencing
  import opened E = EndToEnd
  import opened T = EndToEndTheorems

  /** The calls made and the bytes sent are those that the message `m` leads to, as far as they go. */
  ghost predicate Owed(m: seq<byte>, calls: seq<Call>, out: seq<byte>) {
    || (calls == [] && out == [])
    || exists ok :: calls == CallsFrom(m, ok) && out <= ReplyTo(m, ok)
  }

  /** The connection while it has received `got` of the message `m`. */
  ghost predicate Holds(m: seq<byte>, c: Conn, got: seq<byte>, calls: seq<Call>, out: seq<byte>) {
    && got <= m && Owed(m, calls, out)
    && (c.fd >= 0 ==>
         match c.phase
         case RECV =>
           Receiving(c) && if got == m then Payload(c) == [] else Payload(c) == got && calls == [] && out == []
         case PENDING => Queued(c) && Payload(c) == m == got && calls == [] && out == []
         case SEND => got == m && RepliesTo(m, c, calls, out)
         case _ => true)
  }

  ghost predicate RepliesTo(m: seq<byte>, c: Conn, calls: seq<Call>, out: seq<byte>) {
    && Replying(c) && c.ioOffset <= |Message(c)| && out == Message(c)[..c.ioOffset]
    && exists ok :: calls == CallsFrom(m, ok) && Message(c) == ReplyTo(m, ok)
  }

  lemma Owes(m: seq<byte>, ok: bool, out: seq<byte>)
    requires out <= ReplyTo(m, ok)
    ensures Owed(m, CallsFrom(m, ok), out)
  {
  }

  /** A part of a message is complete exactly if it is all of it. */
  lemma PartComplete(got: seq<byte>, m: seq<byte>)
    requires got <= m && |m| == Need(m) >= HEADER_SIZE
    ensures |got| == Need(got) ==> got == m
    ensures |got| < Need(got) ==> got != m
  {
    if |got| >= HEADER_SIZE {
      DecodePrefix(got, m[|got|..]);
      assert got + m[|got|..] == m;
    }
  }

  lemma HoldsReceive(m: seq<byte>, c: Conn, got: seq<byte>, calls: seq<Call>, out: seq<byte>, data: seq<byte>)
    requires Holds(m, c, got, calls, out) && Allowed(c, Receive(data)) && got + data <= m
    requires |m| == Need(m) >= HEADER_SIZE
    ensures Holds(m, AfterMove(c, Receive(data)), got + data, calls, out)
  {
    hide Owed, RepliesTo, RecvStep, RecvReq, VisitRead, Need, Receiving, Queued;
    assert got != m;
    ReceivingPart(c);
    VisitReadKeeps(c, data);
    ReadPhase(c, data);
    var d := VisitRead(c, data).0;
    assert Payload(d) == got + data;
    ReceivingPart(d);
    PartComplete(got + data, m);
  }

  lemma ReceivingPart(c: Conn)
    ensures Receiving(c) ==> c.ioOffset <= |c.ioBuffer| && |Payload(c)| < Need(Payload(c)) && c.phase == RECV
    ensures Queued(c) ==> c.ioOffset <= |c.ioBuffer| && |Payload(c)| == Need(Payload(c)) && c.phase == PENDING
  {
  }

  lemma HoldsServe(m: seq<byte>, c: Conn, got: seq<byte>, calls: seq<Call>, out: seq<byte>, ok: bool)
    requires Holds(m, c, got, calls, out) && Allowed(c, Serve(ok))
    ensures Holds(m, AfterMove(c, Serve(ok)), got, calls + CallsOf(c, Serve(ok)), out + Emits(c, Serve(ok)))
  {
    hide Receiving, Queued, Process, CallsFrom, ReplyTo, Answerable, AnswersWith, Message, Replying;
    ServedBytes(c, ok);
    var o := Process(c, ok);
    assert calls + o.calls == o.calls && out + [] == [];
    if Answerable(m) {
      AnswersStart(m, o.conn, ok);
    }
  }

  lemma AnswersStart(m: seq<byte>, c: Conn, ok: bool)
    requires AnswersWith(c, m, ok)
    ensures c.phase == SEND && RepliesTo(m, c, CallsFrom(m, ok), [])
  {
    hide Message, CallsFrom, ReplyTo;
  }

  lemma HoldsSend(m: seq<byte>, c: Conn, got: seq<byte>, calls: seq<Call>, out: seq<byte>, r: SendResult)
    requires Holds(m, c, got, calls, out) && Allowed(c, Send(r))
    ensures Holds(m, AfterMove(c, Send(r)), got, calls, out + Emits(c, Send(r)))
  {
    hide Receiving, Queued, CallsFrom, ReplyTo, Message, Replying, Prepare, SendReq, SendStep, VisitWrite, Emitted;
    if r.SendFailed? {
      FailedSend(c, r);
      assert out + [] == out;
    } else {
      SendingReply(c);
      SendStepExact(c, r);
      WritePhase(c, r);
      var o := c.ioOffset + Written(r);
      assert out + Message(c)[c.ioOffset..o] == Message(c)[..o];
      var ok :| calls == CallsFrom(m, ok) && Message(c) == ReplyTo(m, ok);
      Owes(m, ok, Message(c)[..o]);
      if c.nextPhase == RECV {
        SentReply(c, r);
      }
    }
  }

  lemma SendingReply(c: Conn)
    requires Replying(c)
    ensures Sending(c) && (c.nextPhase == RECV || c.nextPhase == CANCELED)
  {
  }

  lemma FailedSend(c: Conn, r: SendResult)
    requires Allowed(c, Send(r)) && r.SendFailed?
    ensures AfterMove(c, Send(r)) == CLEARED && Emits(c, Send(r)) == []
  {
    PrepareOnce(c, 0);
  }

  lemma SentReply(c: Conn, r: SendResult)
    requires Replying(c) && !r.SendFailed? && Written(r) <= SendReq(Prepare(c))
    ensures var d := VisitWrite(c, r).0; Receiving(d) && d == ClearIo(d) ==> d.ioOffset == 0 && Payload(d) == []
  {
  }

  lemma HoldsDrop(m: seq<byte>, c: Conn, got: seq<byte>, calls: seq<Call>, out: seq<byte>)
    requires Holds(m, c, got, calls, out)
    ensures Holds(m, AfterMove(c, Drop), got, calls, out)
  {
  }

  lemma HoldsMove(m: seq<byte>, c: Conn, got: seq<byte>, calls: seq<Call>, out: seq<byte>, mv: Move)
    requires Holds(m, c, got, calls, out) && Allowed(c, mv) && |m| == Need(m) >= HEADER_SIZE
    requires mv.Receive? ==> got + mv.data <= m
    ensures Holds(m, AfterMove(c, mv), got + (if mv.Receive? then mv.data else []),
                  calls + CallsOf(c, mv), out + Emits(c, mv))
  {
    hide Holds, AfterMove, Allowed, Process, Emitted, Need;
    assert got + [] == got && calls + [] == calls && out + [] == out;
    match mv
    case Receive(data) => HoldsReceive(m, c, got, calls, out, data);
    case Serve(ok) => HoldsServe(m, c, got, calls, out, ok);
    case Send(r) => HoldsSend(m, c, got, calls, out, r);
    case Drop => HoldsDrop(m, c, got, calls, out);
  }

  lemma {:induction false} HoldsAlong(m: seq<byte>, c: Conn, got: seq<byte>, calls: seq<Call>, out: seq<byte>,
                                      moves: seq<Move>)
    requires Holds(m, c, got, calls, out) && AllowedAlong(c, moves) && |m| == Need(m) >= HEADER_SIZE
    requires got + DataAlong(moves) <= m
    ensures Owed(m, calls + CallsAlong(c, moves), out + OutputAlong(c, moves))
    decreases |moves|
  {
    hide Owed, Allowed, AfterMove, CallsOf, Emits, Need, Holds;
    if moves == [] {
      assert calls + [] == calls && out + [] == out;
      HoldsOwed(m, c, got, calls, out);
    } else {
      var mv, d := moves[0], AfterMove(c, moves[0]);
      var data := if mv.Receive? then mv.data else [];
      assert got + DataAlong(moves) == got + data + DataAlong(moves[1..]);
      assert got + data <= m && got + [] == got by { PrefixOf(got + data, DataAlong(moves[1..]), m); }
      HoldsMove(m, c, got, calls, out, mv);
      HoldsAlong(m, d, got + data, calls + CallsOf(c, mv), out + Emits(c, mv), moves[1..]);
      Assoc(calls, CallsOf(c, mv), CallsAlong(d, moves[1..]));
      Assoc(out, Emits(c, mv), OutputAlong(d, moves[1..]));
    }
  }

  lemma HoldsOwed(m: seq<byte>, c: Conn, got: seq<byte>, calls: seq<Call>, out: seq<byte>)
    requires Holds(m, c, got, calls, out)
    ensures Owed(m, calls, out)
  {
  }

  lemma PrefixOf(a: seq<byte>, b: seq<byte>, m: seq<byte>)
    requires a + b <= m
    ensures a <= m
  {
    assert a == m[..|a|] by { assert (a + b)[..|a|] == a; }
  }

  /**
   Whatever message arrives on a connection at rest, cut anyhow and however the connection is
   scheduled: no call is made but the one that its bytes ask for, and nothing is sent but a part
   of the reply to it. A message that is not to be answered is not answered.
   */
  lemma MessageSafety(m: seq<byte>, c: Conn, moves: seq<Move>)
    requires |m| == Need(m) >= HEADER_SIZE
    requires AtRest(c) && AllowedAlong(c, moves) && DataAlong(moves) <= m
    ensures Owed(m, CallsAlong(c, moves), OutputAlong(c, moves))
    ensures !Answerable(m) ==> CallsAlong(c, moves) == [] && OutputAlong(c, moves) == []
  {
    hide AllowedAlong, DataAlong, CallsAlong, OutputAlong, Need, AtRest, NamesNode, NodeOf;
    RestHolds(m, c);
    assert [] + DataAlong(moves) == DataAlong(moves);
    assert [] + CallsAlong(c, moves) == CallsAlong(c, moves) && [] + OutputAlong(c, moves) == OutputAlong(c, moves);
    HoldsAlong(m, c, [], [], [], moves);
  }

  lemma RestHolds(m: seq<byte>, c: Conn)
    requires AtRest(c)
    ensures Holds(m, c, [], [], [])
  {
    assert Payload(c) == [];
  }
}
