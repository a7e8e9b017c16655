/**
 What a worker does with a complete message: process_client_message and fence_action,
 with the plugin's answer as an input, and what the payload loop accepts.
 */
module Fencing {
  import opened Wire
  import opened Connection
  import opened Phases

  datatype ParseStatus = Parsed | BadProtocol | Escaped
  datatype ParseEnd = ParseEnd(status: ParseStatus, nodename: seq<byte>, secret: seq<byte>)

  /**
   The loop of fence_action over the message `m`. Escaped: the assignment to the
   255-byte nodename or the 64-byte secret raises RangeException, which fence_action
   does not catch.
   */
  function ParseLoop(m: seq<byte>, offset: nat, nodename: seq<byte>, secret: seq<byte>): ParseEnd
    decreases |m| - offset
  {
    if offset >= |m| then ParseEnd(Parsed, nodename, secret)
    else
      match ReadAt(m, offset, FIELD_SIZE)
      case ProtocolError => ParseEnd(BadProtocol, nodename, secret)
      case Ok(f) =>
        match SplitPair(f.0)
        case ProtocolError => ParseEnd(BadProtocol, nodename, secret)
        case Ok(pair) =>
          if pair.0 == NODENAME then
            if |pair.1| > NODENAME_SIZE then ParseEnd(Escaped, nodename, secret)
            else ParseLoop(m, f.1, pair.1, secret)
          else if pair.0 == SECRET then
            if |pair.1| > MAX_SECRET_LENGTH then ParseEnd(Escaped, nodename, secret)
            else ParseLoop(m, f.1, nodename, pair.1)
          else ParseLoop(m, f.1, nodename, secret)
  }

  // ----- the loop described without running it

  predicate Binds(f: seq<byte>, key: seq<byte>) {
    SplitPair(f).Ok? && SplitPair(f).value.0 == key
  }

  predicate Oversize(f: seq<byte>) {
    || (Binds(f, NODENAME) && |SplitPair(f).value.1| > NODENAME_SIZE)
    || (Binds(f, SECRET) && |SplitPair(f).value.1| > MAX_SECRET_LENGTH)
  }

  predicate Fine(f: seq<byte>) {
    SPLIT in f && !Oversize(f)
  }

  /** The fields up to the first unreadable one. */
  function Readable(m: seq<byte>, offset: nat): seq<seq<byte>>
    decreases |m| - offset
  {
    if offset >= |m| then []
    else
      match ReadAt(m, offset, FIELD_SIZE)
      case ProtocolError => []
      case Ok(f) => [f.0] + Readable(m, f.1)
  }

  /** The number of fine fields in front of the first other one. */
  function FineCount(fs: seq<seq<byte>>): (k: nat)
    ensures k <= |fs|
    ensures forall i :: 0 <= i < k ==> Fine(fs[i])
    ensures k < |fs| ==> !Fine(fs[k])
  {
    if fs == [] || !Fine(fs[0]) then 0 else 1 + FineCount(fs[1..])
  }

  /** The value of the last field that binds `key`. */
  function LastValue(fs: seq<seq<byte>>, key: seq<byte>, default: seq<byte>): seq<byte>
  {
    if fs == [] then default
    else
      var f := fs[|fs| - 1];
      if Binds(f, key) then SplitPair(f).value.1 else LastValue(fs[..|fs| - 1], key, default)
  }

  /** The last field "key=..." decides, and without one the default. */
  lemma {:induction false} LastWins(fs: seq<seq<byte>>, key: seq<byte>, default: seq<byte>, i: int)
    requires 61 !in key && -1 <= i < |fs|
    requires forall j, value :: i < j < |fs| ==> fs[j] != key + [61] + value
    requires i >= 0 ==> exists value :: fs[i] == key + [61] + value
    ensures if i < 0 then LastValue(fs, key, default) == default
            else fs[i] == key + [61] + LastValue(fs, key, default)
    decreases |fs|
  {
    if fs != [] {
      var n := |fs| - 1;
      BindsExact(fs[n], key);
      if i < n {
        assert forall j :: 0 <= j < n ==> fs[..n][j] == fs[j];
        LastWins(fs[..n], key, default, i);
      }
    }
  }

  lemma BindsExact(f: seq<byte>, key: seq<byte>)
    requires 61 !in key
    ensures Binds(f, key) <==> exists value :: f == key + [61] + value
    ensures Binds(f, key) ==> f == key + [61] + SplitPair(f).value.1
  {
    if SplitPair(f).Ok? {
      SplitInverse(f, SplitPair(f).value.0, SplitPair(f).value.1);
    }
    if value :| f == key + [61] + value {
      assert f == Join(key, value);
      SplitInverse(f, key, value);
    }
  }

  lemma {:induction false} LastValueCons(f: seq<byte>, fs: seq<seq<byte>>, key: seq<byte>, default: seq<byte>)
    ensures LastValue([f] + fs, key, default)
         == LastValue(fs, key, if Binds(f, key) then SplitPair(f).value.1 else default)
  {
    if fs != [] {
      LastValueCons(f, fs[..|fs| - 1], key, default);
      assert ([f] + fs)[..|fs|] == [f] + fs[..|fs| - 1];
    }
  }

  lemma {:induction false} ReadableIsFieldsOf(m: seq<byte>, offset: nat)
    ensures FieldsOf(m, offset).Ok? ==> FieldsOf(m, offset).value == Readable(m, offset)
    decreases |m| - offset
  {
    if offset < |m| && ReadAt(m, offset, FIELD_SIZE).Ok? {
      ReadableIsFieldsOf(m, ReadAt(m, offset, FIELD_SIZE).value.1);
    }
  }

  /**
   The payload loop, exactly. It accepts if and only if the payload is a sequence of
   fields that all contain "=" and none is oversize; it lets RangeException escape if
   and only if the first field that is not fine is an oversize one; and whatever it
   stops at, the last NODENAME and SECRET before that point win.
   */
  lemma {:induction false} ParseExact(m: seq<byte>, offset: nat, nodename: seq<byte>, secret: seq<byte>)
    ensures var r := ParseLoop(m, offset, nodename, secret);
            var fs := Readable(m, offset);
            var k := FineCount(fs);
            && (r.status == Parsed <==> FieldsOf(m, offset).Ok? && k == |fs|)
            && (r.status == Escaped <==> k < |fs| && Oversize(fs[k]))
            && r.nodename == LastValue(fs[..k], NODENAME, nodename)
            && r.secret == LastValue(fs[..k], SECRET, secret)
    decreases |m| - offset
  {
    if offset < |m| && ReadAt(m, offset, FIELD_SIZE).Ok? {
      var (f, next) := ReadAt(m, offset, FIELD_SIZE).value;
      var fs, rest := Readable(m, offset), Readable(m, next);
      ParseCases(m, offset, nodename, secret);
      if Fine(f) {
        var n1 := if Binds(f, NODENAME) then SplitPair(f).value.1 else nodename;
        var s1 := if Binds(f, SECRET) then SplitPair(f).value.1 else secret;
        ParseExact(m, next, n1, s1);
        var k := FineCount(rest);
        assert fs[1..] == rest;
        assert FineCount(fs) == k + 1;
        assert fs[..k + 1] == [f] + rest[..k];
        LastValueCons(f, rest[..k], NODENAME, nodename);
        LastValueCons(f, rest[..k], SECRET, secret);
      } else {
        assert fs[0] == f && FineCount(fs) == 0;
      }
    }
  }

  /** One iteration of the loop in terms of the field it reads. */
  lemma ParseCases(m: seq<byte>, offset: nat, nodename: seq<byte>, secret: seq<byte>)
    requires offset < |m| && ReadAt(m, offset, FIELD_SIZE).Ok?
    ensures var (f, next) := ReadAt(m, offset, FIELD_SIZE).value;
            var r := ParseLoop(m, offset, nodename, secret);
            if Fine(f) then
              r == ParseLoop(m, next,
                             if Binds(f, NODENAME) then SplitPair(f).value.1 else nodename,
                             if Binds(f, SECRET) then SplitPair(f).value.1 else secret)
            else r == ParseEnd(if Oversize(f) then Escaped else BadProtocol, nodename, secret)
  {
    var (f, next) := ReadAt(m, offset, FIELD_SIZE).value;
    SplitInverse(f, [], []);
    assert NODENAME != SECRET;
  }

  // ----- process_client_message

  datatype Action = Off | On | Reboot
  datatype Call = Call(action: Action, node: seq<byte>, ok: bool)

  /** The connection afterwards, the plugin calls made, and whether an exception left the function. */
  datatype Outcome = Outcome(conn: Conn, calls: seq<Call>, escaped: bool)

  function TypeOf(a: Action): uint16 {
    match a
    case Off => FENCE_OFF
    case On => FENCE_ON
    case Reboot => FENCE_REBOOT
  }

  /** The fencing action a message type asks for, if any. */
  function FenceAction(t: uint16): (r: Option<Action>)
    ensures forall a :: r == Some(a) <==> t == TypeOf(a)
  {
    if t == FENCE_OFF then Some(Off)
    else if t == FENCE_ON then Some(On)
    else if t == FENCE_REBOOT then Some(Reboot)
    else None
  }

  /** fence_action; `ok` is what the plugin returns if it is called. */
  function Fence(c: Conn, a: Action, ok: bool): Outcome
    requires c.ioOffset <= |c.ioBuffer|
  {
    var r := ParseLoop(Payload(c), HEADER_SIZE, c.nodename, c.secret);
    var c1 := c.(nodename := r.nodename, secret := r.secret);
    match r.status
    case Escaped => Outcome(c1, [], true)
    case BadProtocol => Outcome(c1.(phase := CANCELED, io := NOOP), [], false)
    case Parsed =>
      var c2 := ClearIo(c1).(header := CLEAR_HEADER);
      if |r.nodename| > 0 then
        Outcome(c2.(header := Header(if ok then FENCE_SUCCESS else FENCE_FAIL, HEADER_SIZE),
                    phase := SEND, nextPhase := CANCELED, io := WRITE),
                [Call(a, r.nodename, ok)], false)
      else Outcome(c2, [], false)
  }

  /** What a worker does with a client it took from the action queue. */
  function Process(c: Conn, ok: bool): Outcome
    requires c.ioOffset <= |c.ioBuffer|
  {
    var c1 := c.(phase := EXECUTING);
    var t := c.header.msgType;
    if t == ECHO_REQUEST then
      Outcome(ClearIo(c1).(header := Header(ECHO_REPLY, HEADER_SIZE),
                           phase := SEND, nextPhase := RECV, io := WRITE), [], false)
    else if t == VERSION_REQUEST then Outcome(c1, [], false)
    else if FenceAction(t).Some? then Fence(c1, FenceAction(t).value, ok)
    else Outcome(c1.(phase := CANCELED), [], false)
  }

  // ----- what processing guarantees

  /** The part of Queued that processing depends on. */
  ghost predicate Nameless(c: Conn) {
    c.nodename == [] && c.secret == [] && c.ioOffset <= |c.ioBuffer|
  }

  /** A payload of fields that all contain "=" and fit the client object. */
  predicate WellFormed(m: seq<byte>) {
    FieldsOf(m, HEADER_SIZE).Ok? && forall f :: f in Readable(m, HEADER_SIZE) ==> Fine(f)
  }

  /** The node a well-formed message names. */
  function NodeOf(m: seq<byte>): seq<byte> {
    LastValue(Readable(m, HEADER_SIZE), NODENAME, [])
  }

  predicate NamesTooLong(m: seq<byte>) {
    var fs := Readable(m, HEADER_SIZE);
    var k := FineCount(fs);
    k < |fs| && Oversize(fs[k])
  }

  lemma ParseFromClear(m: seq<byte>)
    ensures var r := ParseLoop(m, HEADER_SIZE, [], []);
            && (r.status == Parsed <==> WellFormed(m))
            && (r.status == Escaped <==> NamesTooLong(m))
            && (r.status == Parsed ==> r.nodename == NodeOf(m))
  {
    var fs := Readable(m, HEADER_SIZE);
    ParseExact(m, HEADER_SIZE, [], []);
    if FineCount(fs) == |fs| {
      assert fs[..FineCount(fs)] == fs;
    } else {
      assert fs[FineCount(fs)] in fs;
    }
  }

  lemma FenceExact(c: Conn, a: Action, ok: bool)
    requires Nameless(c)
    ensures var m, o := Payload(c), Fence(c, a, ok);
            && o.conn.fd == c.fd
            && (o.escaped <==> NamesTooLong(m))
            && o.calls == (if WellFormed(m) && NodeOf(m) != [] then [Call(a, NodeOf(m), ok)] else [])
            && (o.conn.phase == SEND ==> c.phase == SEND || (o.calls != [] && FreshReply(o.conn) && Replying(o.conn)))
            && (o.conn.phase == RECV ==> c.phase == RECV)
  {
    ParseFromClear(Payload(c));
  }

  /**
   The plugin is called if and only if the message is a fencing request whose payload is
   well formed and names a node; the call is for the requested action and the node that
   this very message names, and there is never a second call.
   */
  lemma PluginCallExact(c: Conn, ok: bool, call: Call)
    requires Nameless(c)
    ensures |Process(c, ok).calls| <= 1
    ensures Process(c, ok).calls == [call] <==>
              && c.header.msgType == TypeOf(call.action)
              && WellFormed(Payload(c))
              && NodeOf(Payload(c)) != []
              && call == Call(call.action, NodeOf(Payload(c)), ok)
  {
    var act := FenceAction(c.header.msgType);
    if act.Some? {
      FenceExact(c.(phase := EXECUTING), act.value, ok);
    }
  }

  /** An exception leaves process_client_message exactly for a fencing request with an oversize name. */
  lemma EscapeExact(c: Conn, ok: bool)
    requires Nameless(c)
    ensures Process(c, ok).escaped <==> FenceAction(c.header.msgType).Some? && NamesTooLong(Payload(c))
  {
    var act := FenceAction(c.header.msgType);
    if act.Some? {
      FenceExact(c.(phase := EXECUTING), act.value, ok);
    }
  }

  /**
   Processing leaves either a reply ready to be sent from a cleared buffer, or a phase
   that makes the worker close the connection; it never goes back to RECV.
   */
  lemma ProcessLeadsToReplyOrClose(c: Conn, ok: bool)
    requires Nameless(c)
    ensures var o := Process(c, ok);
            && o.conn.fd == c.fd
            && o.conn.phase != RECV
            && (o.conn.phase == SEND ==> !o.escaped && Replying(o.conn) && FreshReply(o.conn))
  {
    var act := FenceAction(c.header.msgType);
    if act.Some? {
      FenceExact(c.(phase := EXECUTING), act.value, ok);
    }
  }

  // ----- the same in terms of the bytes of the message

  /** The payload names a node, and all its fields can be read. */
  predicate NamesNode(m: seq<byte>) {
    WellFormed(m) && NodeOf(m) != []
  }

  /** The calls that the message `m` leads to, with the plugin's answer `ok`. */
  function CallsFrom(m: seq<byte>, ok: bool): seq<Call> {
    if !NamesNode(m) then []
    else if [0, 0x81] <= m then [Call(Off, NodeOf(m), ok)]
    else if [0, 0x82] <= m then [Call(On, NodeOf(m), ok)]
    else if [0, 0x83] <= m then [Call(Reboot, NodeOf(m), ok)]
    else []
  }

  /** The reply to the message `m`, if it is to be answered. */
  function ReplyTo(m: seq<byte>, ok: bool): seq<byte> {
    if [0, 0] <= m then [0, 1, 0, 4]
    else if CallsFrom(m, ok) == [] then []
    else if ok then [0, 0xA0, 0, 4]
    else [0, 0xA1, 0, 4]
  }

  predicate Answerable(m: seq<byte>) {
    [0, 0] <= m || (NamesNode(m) && ([0, 0x81] <= m || [0, 0x82] <= m || [0, 0x83] <= m))
  }

  lemma TypeBytes(c: Conn)
    requires Queued(c)
    ensures Nameless(c) && |Payload(c)| >= 4
    ensures c.header.msgType == Payload(c)[0] as int * 0x100 + Payload(c)[1]
  {
  }

  lemma FirstBytes(m: seq<byte>, lo: byte)
    requires |m| >= 2
    ensures [0, lo] <= m <==> m[0] as int * 0x100 + m[1] == lo
  {
    assert [0, lo] <= m <==> m[0] == 0 && m[1] == lo;
  }

  lemma TypesByBytes(m: seq<byte>, t: uint16)
    requires |m| >= 2 && t == m[0] as int * 0x100 + m[1]
    ensures [0, 0] <= m <==> t == ECHO_REQUEST
    ensures [0, 0x81] <= m <==> t == TypeOf(Off)
    ensures [0, 0x82] <= m <==> t == TypeOf(On)
    ensures [0, 0x83] <= m <==> t == TypeOf(Reboot)
  {
    FirstBytes(m, 0);
    FirstBytes(m, 0x81);
    FirstBytes(m, 0x82);
    FirstBytes(m, 0x83);
  }

  /** A reply that is a header only goes out as its four bytes. */
  lemma ReplyHeader(c: Conn, t: uint16)
    requires c == ClearIo(c) && c.header == Header(t, 4) && t < 0x100
    ensures Message(c) == [0, t, 0, 4]
  {
    assert Prepare(c).ioBuffer[..4] == EncodeHeader(c.header);
  }

  /**
   What the bytes of a message make a worker do, whatever they are: which plugin function is
   called, which messages are answered and with which bytes, and that all others lead to a close.
   */
  lemma ServedBytes(c: Conn, ok: bool)
    requires Queued(c)
    ensures c.ioOffset <= |c.ioBuffer|
    ensures var m, o := Payload(c), Process(c, ok);
            && o.conn.fd == c.fd && o.calls == CallsFrom(m, ok)
            && (Answerable(m) ==> !o.escaped && AnswersWith(o.conn, m, ok))
            && (!Answerable(m) ==> o.conn.phase == EXECUTING || o.conn.phase == CANCELED)
  {
    hide Queued, NamesNode, NodeOf, Fence, AnswersWith;
    TypeBytes(c);
    var m := Payload(c);
    TypesByBytes(m, c.header.msgType);
    var act := FenceAction(c.header.msgType);
    if act.Some? {
      FenceServed(c.(phase := EXECUTING), act.value, ok);
    } else if c.header.msgType == ECHO_REQUEST {
      EchoServed(c, ok);
    }
  }

  /** The connection is about to send the reply to `m`, and then to go on only after an echo. */
  ghost predicate AnswersWith(c: Conn, m: seq<byte>, ok: bool) {
    && Replying(c) && FreshReply(c) && Message(c) == ReplyTo(m, ok)
    && (c.nextPhase == RECV <==> [0, 0] <= m)
  }

  lemma FenceServed(c: Conn, a: Action, ok: bool)
    requires Nameless(c) && c.phase == EXECUTING && FenceAction(c.header.msgType) == Some(a)
    requires |Payload(c)| >= 4 && c.header.msgType == Payload(c)[0] as int * 0x100 + Payload(c)[1]
    ensures var m, o := Payload(c), Fence(c, a, ok);
            && o.conn.fd == c.fd
            && o.calls == (if NamesNode(m) then [Call(a, NodeOf(m), ok)] else [])
            && (NamesNode(m) ==> !o.escaped && AnswersWith(o.conn, m, ok))
            && (!NamesNode(m) ==> o.conn.phase == EXECUTING || o.conn.phase == CANCELED)
  {
    hide WellFormed, NodeOf, ParseLoop, NamesTooLong, Message;
    var m, o := Payload(c), Fence(c, a, ok);
    ParseFromClear(m);
    TypesByBytes(m, c.header.msgType);
    if NamesNode(m) {
      ReplyHeader(o.conn, if ok then FENCE_SUCCESS else FENCE_FAIL);
    }
  }

  lemma EchoServed(c: Conn, ok: bool)
    requires Nameless(c) && c.header.msgType == ECHO_REQUEST
    requires |Payload(c)| >= 4 && c.header.msgType == Payload(c)[0] as int * 0x100 + Payload(c)[1]
    ensures var o := Process(c, ok); !o.escaped && AnswersWith(o.conn, Payload(c), ok)
  {
    hide Message;
    TypesByBytes(Payload(c), c.header.msgType);
    ReplyHeader(Process(c, ok).conn, ECHO_REPLY);
  }
}
