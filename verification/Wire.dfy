/**
 The wire format shared by client and server: 16-bit big-endian numbers, the
 four-byte message header, and length-prefixed "KEY=value" fields.
 */
module Wire {

  /** A C `char`, seen as the unsigned value it is converted to before use. */
  type byte = b: int | 0 <= b < 0x100
  type uint16 = n: int | 0 <= n < 0x1_0000

  /** size_t arithmetic wraps around. */
  const SIZE_T: int := 0x1_0000_0000_0000_0000

  const HEADER_SIZE: nat := 4
  const IO_BUFFER_SIZE: nat := 1024
  const FIELD_SIZE: nat := 1024
  const NODENAME_SIZE: nat := 255
  const MAX_SECRET_LENGTH: nat := 64

  const ECHO_REQUEST: uint16 := 0x0
  const ECHO_REPLY: uint16 := 0x1
  const VERSION_REQUEST: uint16 := 0x2
  const FENCE_OFF: uint16 := 0x81
  const FENCE_ON: uint16 := 0x82
  const FENCE_REBOOT: uint16 := 0x83
  const FENCE_SUCCESS: uint16 := 0xA0
  const FENCE_FAIL: uint16 := 0xA1

  /** "=" */
  const SPLIT: byte := 61
  /** "NODENAME" */
  const NODENAME: seq<byte> := [78, 79, 68, 69, 78, 65, 77, 69]
  /** "SECRET" */
  const SECRET: seq<byte> := [83, 69, 67, 82, 69, 84]

  /** The bytes of a string of 8-bit characters. */
  function Ascii(s: string): (r: seq<byte>)
    requires forall i :: 0 <= i < |s| ==> s[i] as int < 0x100
    ensures |r| == |s| && forall i :: 0 <= i < |s| ==> r[i] == s[i] as int
  {
    seq(|s|, i requires 0 <= i < |s| => s[i] as int)
  }

  datatype Option<+T> = Some(value: T) | None

  datatype Result<+T> = Ok(value: T) | ProtocolError

  // ----- 16-bit numbers and the message header

  function EncodeU16(v: uint16): (s: seq<byte>)
    ensures |s| == 2
  {
    [v / 0x100, v % 0x100]
  }

  function DecodeU16(hi: byte, lo: byte): uint16 {
    hi * 0x100 + lo
  }

  lemma U16Inverse(v: uint16, hi: byte, lo: byte)
    ensures DecodeU16(EncodeU16(v)[0], EncodeU16(v)[1]) == v
    ensures EncodeU16(DecodeU16(hi, lo)) == [hi, lo]
  {
    assert (hi * 0x100 + lo) / 0x100 == hi && (hi * 0x100 + lo) % 0x100 == lo;
  }

  datatype Header = Header(msgType: uint16, dataLength: uint16)

  const CLEAR_HEADER := Header(0xFFFF, 0)

  function EncodeHeader(h: Header): (s: seq<byte>)
    ensures |s| == HEADER_SIZE
  {
    EncodeU16(h.msgType) + EncodeU16(h.dataLength)
  }

  function DecodeHeader(s: seq<byte>): Header
    requires |s| >= HEADER_SIZE
  {
    Header(DecodeU16(s[0], s[1]), DecodeU16(s[2], s[3]))
  }

  /** Header encoding is a bijection between headers and four-byte strings. */
  lemma HeaderInverse(h: Header, s: seq<byte>, rest: seq<byte>)
    requires |s| == HEADER_SIZE
    ensures DecodeHeader(EncodeHeader(h) + rest) == h
    ensures EncodeHeader(DecodeHeader(s + rest)) == s
  {
    U16Inverse(h.msgType, s[0], s[1]);
    U16Inverse(h.dataLength, s[2], s[3]);
    var e := EncodeHeader(h) + rest;
    assert e[0] == EncodeU16(h.msgType)[0] && e[1] == EncodeU16(h.msgType)[1];
    assert e[2] == EncodeU16(h.dataLength)[0] && e[3] == EncodeU16(h.dataLength)[1];
    var d := s + rest;
    assert d[0] == s[0] && d[1] == s[1] && d[2] == s[2] && d[3] == s[3];
  }

  /** `t` overwrites the part of `s` that starts at `off`. */
  function Splice(s: seq<byte>, off: nat, t: seq<byte>): (r: seq<byte>)
    requires off + |t| <= |s|
    ensures |r| == |s|
  {
    s[..off] + t + s[off + |t|..]
  }

  function Zeros(n: nat): seq<byte> {
    seq(n, _ => 0)
  }

  /** `got` followed by the zeros that clear_io_buffer left behind. */
  function Pad(got: seq<byte>): (r: seq<byte>)
    requires |got| <= IO_BUFFER_SIZE
    ensures |r| == IO_BUFFER_SIZE && r[..|got|] == got
  {
    got + Zeros(IO_BUFFER_SIZE - |got|)
  }

  lemma PadSplice(got: seq<byte>, data: seq<byte>)
    requires |got| + |data| <= IO_BUFFER_SIZE
    ensures Splice(Pad(got), |got|, data) == Pad(got + data)
  {
    assert Zeros(IO_BUFFER_SIZE - |got|)[|data|..] == Zeros(IO_BUFFER_SIZE - |got| - |data|);
    assert Pad(got)[|got| + |data|..] == Zeros(IO_BUFFER_SIZE - |got|)[|data|..];
  }

  /** zero_memory on the whole I/O buffer. */
  method ZeroMemory(buffer: array<byte>)
    requires buffer.Length == IO_BUFFER_SIZE
    modifies buffer
    ensures buffer[..] == Pad([])
  {
    for i := 0 to IO_BUFFER_SIZE
      invariant buffer[..i] == Zeros(i)
    {
      buffer[i] := 0;
      assert buffer[..i + 1] == buffer[..i] + [0];
    }
    assert buffer[..] == buffer[..IO_BUFFER_SIZE] == Pad([]);
  }

  /** recv stores its bytes at the given offset. */
  method Store(buffer: array<byte>, offset: nat, data: seq<byte>)
    requires offset + |data| <= buffer.Length
    modifies buffer
    ensures buffer[..] == Splice(old(buffer[..]), offset, data)
  {
    ghost var was := buffer[..];
    for i := 0 to |data|
      invariant buffer[..] == Splice(was, offset, data[..i])
    {
      buffer[offset + i] := data[i];
      assert data[..i + 1] == data[..i] + [data[i]];
    }
    assert data[..|data|] == data;
  }

  method FieldValueToBytes(value: uint16, buffer: array<byte>, offset: nat)
    requires offset + 2 <= buffer.Length
    modifies buffer
    ensures buffer[..] == Splice(old(buffer[..]), offset, EncodeU16(value))
    ensures buffer[offset] as int * 0x100 + buffer[offset + 1] == value
  {
    buffer[offset] := value / 0x100;
    buffer[offset + 1] := value % 0x100;
  }

  /** `MsgHeader`: the two fields are updated in place. */
  class MsgHeader {
    var msgType: uint16
    var dataLength: uint16

    function View(): Header
      reads this
    {
      Header(msgType, dataLength)
    }

    constructor ()
      ensures View() == CLEAR_HEADER
    {
      msgType, dataLength := 0xFFFF, 0;
    }

    method Clear()
      modifies this
      ensures View() == CLEAR_HEADER && msgType == 0xFFFF && dataLength == 0
    {
      msgType, dataLength := 0xFFFF, 0;
    }

    method Serialize(buffer: array<byte>)
      requires buffer.Length >= HEADER_SIZE
      modifies buffer
      ensures buffer[..] == EncodeHeader(View()) + old(buffer[HEADER_SIZE..])
      ensures buffer[0] as int * 0x100 + buffer[1] == msgType && buffer[2] as int * 0x100 + buffer[3] == dataLength
    {
      FieldValueToBytes(msgType, buffer, 0);
      FieldValueToBytes(dataLength, buffer, 2);
    }

    method Deserialize(buffer: array<byte>)
      requires buffer.Length >= HEADER_SIZE
      modifies this
      ensures View() == DecodeHeader(buffer[..])
      ensures msgType == buffer[0] as int * 0x100 + buffer[1] && dataLength == buffer[2] as int * 0x100 + buffer[3]
    {
      msgType := DecodeU16(buffer[0], buffer[1]);
      dataLength := DecodeU16(buffer[2], buffer[3]);
    }
  }

  // ----- length-prefixed fields

  function Field(data: seq<byte>): (s: seq<byte>)
    requires |data| <= 0xFFFF
    ensures |s| == 2 + |data| && s[0] as int * 0x100 + s[1] == |data| && s[2..] == data
  {
    EncodeU16(|data|) + data
  }

  ghost predicate Sized(fs: seq<seq<byte>>) {
    forall i :: 0 <= i < |fs| ==> |fs[i]| <= 0xFFFF
  }

  /** The printer: all fields, one after the other. */
  function Fields(fs: seq<seq<byte>>): seq<byte>
    requires Sized(fs)
  {
    if fs == [] then [] else Field(fs[0]) + Fields(fs[1..])
  }

  lemma {:induction false} FieldsAppend(fs: seq<seq<byte>>, gs: seq<seq<byte>>)
    requires Sized(fs) && Sized(gs)
    ensures Sized(fs + gs) && Fields(fs + gs) == Fields(fs) + Fields(gs)
  {
    if fs == [] {
      assert fs + gs == gs;
    } else {
      FieldsAppend(fs[1..], gs);
      assert (fs + gs)[1..] == fs[1..] + gs && (fs + gs)[0] == fs[0];
      assert Field(fs[0]) + (Fields(fs[1..]) + Fields(gs)) == Field(fs[0]) + Fields(fs[1..]) + Fields(gs);
    }
  }

  /**
   What `read_field` yields on the message `buf` at `offset`: the field and the
   offset behind it. `capacity` is the capacity of the receiving CharBuffer.
   */
  function ReadAt(buf: seq<byte>, offset: nat, capacity: nat): (r: Result<(seq<byte>, nat)>)
    ensures r.Ok? ==> offset + 2 + |r.value.0| == r.value.1 <= |buf|
    ensures r.Ok? ==> |r.value.0| <= 0xFFFF
  {
    if offset < |buf| && |buf| - offset >= 2 then
      var length := DecodeU16(buf[offset], buf[offset + 1]);
      if length <= |buf| - offset - 2 && length <= capacity
      then Ok((buf[offset + 2..offset + 2 + length], offset + 2 + length))
      else ProtocolError
    else ProtocolError
  }

  lemma ReadPrinted(buf: seq<byte>, offset: nat, capacity: nat, data: seq<byte>)
    requires |data| <= 0xFFFF && offset + 2 + |data| <= |buf| && |data| <= capacity
    requires buf[offset..offset + 2 + |data|] == Field(data)
    ensures ReadAt(buf, offset, capacity) == Ok((data, offset + 2 + |data|))
  {
    var window := buf[offset..offset + 2 + |data|];
    var e := EncodeU16(|data|);
    U16Inverse(|data|, 0, 0);
    assert window[0] == e[0] && window[1] == e[1];
    assert buf[offset] == e[0] && buf[offset + 1] == e[1];
    assert buf[offset + 2..offset + 2 + |data|] == window[2..] == data;
  }

  lemma ReadIsPrinted(buf: seq<byte>, offset: nat, capacity: nat)
    requires ReadAt(buf, offset, capacity).Ok?
    ensures var (data, end) := ReadAt(buf, offset, capacity).value;
            |data| <= capacity && buf[offset..end] == Field(data)
  {
    var (data, end) := ReadAt(buf, offset, capacity).value;
    var hi, lo := buf[offset], buf[offset + 1];
    U16Inverse(0, hi, lo);
    assert EncodeU16(|data|) == [hi, lo];
    assert buf[offset..end] == [hi, lo] + buf[offset + 2..end];
  }

  /** Reading succeeds exactly where a printed field stands, and returns that field. */
  lemma ReadAtExact(buf: seq<byte>, offset: nat, capacity: nat, data: seq<byte>)
    requires |data| <= 0xFFFF
    ensures ReadAt(buf, offset, capacity) == Ok((data, offset + 2 + |data|))
       <==> offset + 2 + |data| <= |buf| && |data| <= capacity
            && buf[offset..offset + 2 + |data|] == Field(data)
  {
    if ReadAt(buf, offset, capacity) == Ok((data, offset + 2 + |data|)) {
      ReadIsPrinted(buf, offset, capacity);
    } else if offset + 2 + |data| <= |buf| && |data| <= capacity
              && buf[offset..offset + 2 + |data|] == Field(data) {
      ReadPrinted(buf, offset, capacity, data);
    }
  }

  /** `read_field`; the reference parameters become results. */
  method ReadField(ioBuffer: array<byte>, ioBufferCapacity: nat, offset: nat, fieldCapacity: nat)
    returns (r: Result<(seq<byte>, nat)>)
    requires ioBufferCapacity <= ioBuffer.Length
    ensures r == ReadAt(ioBuffer[..ioBufferCapacity], offset, fieldCapacity)
    ensures r.Ok? <==>
              && offset + 2 <= ioBufferCapacity
              && ioBuffer[offset] as int * 0x100 + ioBuffer[offset + 1] <= ioBufferCapacity - offset - 2
              && ioBuffer[offset] as int * 0x100 + ioBuffer[offset + 1] <= fieldCapacity
    ensures r.Ok? ==>
              var end := offset + 2 + (ioBuffer[offset] as int * 0x100 + ioBuffer[offset + 1]);
              r.value == (ioBuffer[offset + 2..end], end)
  {
    ghost var message := ioBuffer[..ioBufferCapacity];
    if offset < ioBufferCapacity && ioBufferCapacity - offset >= 2 {
      var fieldLength := DecodeU16(ioBuffer[offset], ioBuffer[offset + 1]);
      var remainLength := ioBufferCapacity - offset - 2;
      assert message[offset] == ioBuffer[offset] && message[offset + 1] == ioBuffer[offset + 1];
      if fieldLength <= remainLength && fieldLength <= fieldCapacity {
        assert message[offset + 2..offset + 2 + fieldLength] == ioBuffer[offset + 2..offset + 2 + fieldLength];
        r := Ok((ioBuffer[offset + 2..offset + 2 + fieldLength], offset + 2 + fieldLength));
      } else {
        r := ProtocolError;
      }
    } else {
      r := ProtocolError;
    }
  }

  ghost predicate FieldFits(capacity: nat, offset: nat, data: seq<byte>) {
    |data| <= 0xFFFF && offset + 2 + |data| <= capacity
  }

  /** `write_field_impl`: a rejected write changes neither buffer nor offset. */
  method WriteField(ioBuffer: array<byte>, ioBufferCapacity: nat, offset: nat, data: seq<byte>)
    returns (r: Result<nat>)
    requires ioBufferCapacity <= ioBuffer.Length
    modifies ioBuffer
    ensures r.Ok? <==> FieldFits(ioBufferCapacity, offset, data)
    ensures r.Ok? ==> r.value == offset + 2 + |data|
    ensures r.Ok? ==> ioBuffer[..] == Splice(old(ioBuffer[..]), offset, Field(data))
    ensures r.Ok? ==> ioBuffer[offset] as int * 0x100 + ioBuffer[offset + 1] == |data|
    ensures r.Ok? ==> ioBuffer[offset + 2..offset + 2 + |data|] == data
    ensures r.ProtocolError? ==> ioBuffer[..] == old(ioBuffer[..])
  {
    if |data| > 0xFFFF {
      return ProtocolError;
    }
    if offset >= ioBufferCapacity {
      return ProtocolError;
    }
    var remainCapacity := ioBufferCapacity - offset;
    if !(|data| < remainCapacity && remainCapacity - |data| >= 2) {
      return ProtocolError;
    }
    ghost var was := ioBuffer[..];
    ioBuffer[offset] := |data| / 0x100;
    ioBuffer[offset + 1] := |data| % 0x100;
    var o := offset + 2;
    for idx := 0 to |data|
      invariant o == offset + 2 + idx
      invariant ioBuffer[..offset] == was[..offset]
      invariant ioBuffer[offset..o] == EncodeU16(|data|) + data[..idx]
      invariant ioBuffer[o..] == was[o..]
    {
      ioBuffer[o] := data[idx];
      o := o + 1;
      assert data[..idx + 1] == data[..idx] + [data[idx]];
      assert ioBuffer[offset..o] == ioBuffer[offset..o - 1] + [data[idx]];
    }
    assert data[..|data|] == data;
    assert ioBuffer[..] == ioBuffer[..offset] + ioBuffer[offset..o] + ioBuffer[o..];
    r := Ok(o);
  }

  /** Writes a list of fields in turn, as the client does; stops at the first that does not fit. */
  method WriteFields(ioBuffer: array<byte>, capacity: nat, offset: nat, fs: seq<seq<byte>>)
    returns (r: Result<nat>)
    requires Sized(fs) && capacity <= ioBuffer.Length && offset <= capacity
    modifies ioBuffer
    ensures r.Ok? <==> offset + |Fields(fs)| <= capacity
    ensures r.Ok? ==> r.value == offset + |Fields(fs)|
    ensures r.Ok? ==> ioBuffer[..] == Splice(old(ioBuffer[..]), offset, Fields(fs))
  {
    var o := offset;
    for k := 0 to |fs|
      invariant offset <= o <= capacity
      invariant o == offset + |Fields(fs[..k])|
      invariant ioBuffer[..] == Splice(old(ioBuffer[..]), offset, Fields(fs[..k]))
    {
      OneMoreField(fs, k);
      var w := WriteField(ioBuffer, capacity, o, fs[k]);
      if w.ProtocolError? {
        return ProtocolError;
      }
      SpliceTwice(old(ioBuffer[..]), offset, Fields(fs[..k]), Field(fs[k]));
      o := w.value;
    }
    assert fs[..|fs|] == fs;
    r := Ok(o);
  }

  lemma OneMoreField(fs: seq<seq<byte>>, k: nat)
    requires Sized(fs) && k < |fs|
    ensures Fields(fs[..k + 1]) == Fields(fs[..k]) + Field(fs[k])
    ensures |Fields(fs[..k + 1])| <= |Fields(fs)|
  {
    FieldsAppend(fs[..k], [fs[k]]);
    assert fs[..k] + [fs[k]] == fs[..k + 1];
    assert Fields([fs[k]]) == Field(fs[k]) + Fields([]) == Field(fs[k]);
    FieldsAppend(fs[..k + 1], fs[k + 1..]);
    assert fs[..k + 1] + fs[k + 1..] == fs;
  }

  lemma SpliceTwice(s: seq<byte>, off: nat, a: seq<byte>, b: seq<byte>)
    requires off + |a| + |b| <= |s|
    ensures Splice(Splice(s, off, a), off + |a|, b) == Splice(s, off, a + b)
  {
  }

  // ----- tokenising a payload

  /** The fields that successive reads of `p` from `offset` to its end deliver. */
  function FieldsOf(p: seq<byte>, offset: nat): (r: Result<seq<seq<byte>>>)
    ensures r.Ok? ==> Sized(r.value)
    decreases |p| - offset
  {
    if offset >= |p| then Ok([])
    else
      match ReadAt(p, offset, FIELD_SIZE)
      case ProtocolError => ProtocolError
      case Ok(f) =>
        match FieldsOf(p, f.1)
        case ProtocolError => ProtocolError
        case Ok(rest) => Ok([f.0] + rest)
  }

  ghost predicate FieldSized(fs: seq<seq<byte>>) {
    forall i :: 0 <= i < |fs| ==> |fs[i]| <= FIELD_SIZE
  }

  /**
   The reader is the exact inverse of the printer: reading `p` from `offset`
   delivers `fs` if and only if the rest of `p` is the printed form of `fs`.
   */
  lemma {:induction false} FieldsInverse(p: seq<byte>, offset: nat, fs: seq<seq<byte>>)
    requires offset <= |p|
    ensures FieldsOf(p, offset) == Ok(fs)
       <==> Sized(fs) && FieldSized(fs) && p[offset..] == Fields(fs)
    decreases |p| - offset
  {
    if offset == |p| {
      assert p[offset..] == [];
      if fs != [] && Sized(fs) {
        assert |Fields(fs)| >= 2;
      }
    } else {
      var r := ReadAt(p, offset, FIELD_SIZE);
      if r.Ok? {
        var (f, next) := r.value;
        ReadAtExact(p, offset, FIELD_SIZE, f);
        assert p[offset..] == p[offset..next] + p[next..];
        if fs != [] {
          FieldsInverse(p, next, fs[1..]);
          if FieldsOf(p, offset) == Ok(fs) {
            assert fs == [f] + fs[1..];
            var rest := FieldsOf(p, next).value;
            assert fs[1..] == rest;
          }
          if Sized(fs) && FieldSized(fs) && p[offset..] == Fields(fs) {
            HeadField(p, offset, fs);
            assert f == fs[0];
            assert p[next..] == Fields(fs)[2 + |f|..] == Fields(fs[1..]);
            assert [f] + fs[1..] == fs;
          }
        }
      } else if fs != [] && Sized(fs) && FieldSized(fs) && p[offset..] == Fields(fs) {
        HeadField(p, offset, fs);
      }
    }
  }

  lemma HeadField(p: seq<byte>, offset: nat, fs: seq<seq<byte>>)
    requires offset <= |p| && fs != [] && Sized(fs) && FieldSized(fs) && p[offset..] == Fields(fs)
    ensures ReadAt(p, offset, FIELD_SIZE) == Ok((fs[0], offset + 2 + |fs[0]|))
  {
    var n := 2 + |fs[0]|;
    assert Fields(fs)[..n] == Field(fs[0]);
    assert p[offset..offset + n] == p[offset..][..n];
    ReadAtExact(p, offset, FIELD_SIZE, fs[0]);
  }

  /** No field of a message that fits the I/O buffer can overflow the 1024-byte key and value buffers. */
  lemma FieldBufferSuffices(p: seq<byte>, offset: nat, capacity: nat)
    requires |p| <= IO_BUFFER_SIZE && capacity >= FIELD_SIZE
    ensures ReadAt(p, offset, capacity) == ReadAt(p, offset, 0xFFFF)
  {
  }

  // ----- key/value pairs

  /** Position of the first "=", or |s| when there is none. */
  function IndexOfSplit(s: seq<byte>): (i: nat)
    ensures i <= |s|
    ensures SPLIT !in s[..i]
    ensures i < |s| ==> s[i] == SPLIT
  {
    if s == [] then 0
    else if s[0] == SPLIT then 0
    else
      var i := 1 + IndexOfSplit(s[1..]);
      assert s[..i] == [s[0]] + s[1..][..i - 1];
      i
  }

  function Join(key: seq<byte>, value: seq<byte>): seq<byte> {
    key + [SPLIT] + value
  }

  function SplitPair(s: seq<byte>): Result<(seq<byte>, seq<byte>)> {
    var i := IndexOfSplit(s);
    if i < |s| then Ok((s[..i], s[i + 1..])) else ProtocolError
  }

  /** Splitting and joining are inverse to each other; a value may itself contain "=". */
  lemma SplitInverse(s: seq<byte>, key: seq<byte>, value: seq<byte>)
    ensures SplitPair(s) == Ok((key, value)) <==> s == Join(key, value) && SPLIT !in key
    ensures SplitPair(s).ProtocolError? <==> SPLIT !in s
  {
    var i := IndexOfSplit(s);
    if s == Join(key, value) && SPLIT !in key {
      assert s[|key|] == SPLIT;
      assert forall j :: 0 <= j < |key| ==> s[j] == key[j] != SPLIT;
      assert forall j :: 0 <= j < i ==> s[j] == s[..i][j] != SPLIT;
      assert s[..i] == key && s[i + 1..] == value;
    }
    if SplitPair(s) == Ok((key, value)) {
      assert s == s[..i] + [s[i]] + s[i + 1..];
    }
    if i == |s| {
      assert s[..i] == s;
    }
  }

  /** `split_key_value_pair` on CharBuffers: the loop of `index_of`, then two substrings. */
  method SplitKeyValuePair(src: seq<byte>) returns (r: Result<(seq<byte>, seq<byte>)>)
    ensures r == SplitPair(src)
    ensures r.Ok? ==> src == r.value.0 + [61] + r.value.1 && 61 !in r.value.0
    ensures r.ProtocolError? <==> 61 !in src
  {
    var i := 0;
    while i < |src| && src[i] != SPLIT
      invariant i <= |src| && SPLIT !in src[..i]
    {
      assert src[..i + 1] == src[..i] + [src[i]];
      i := i + 1;
    }
    if i < |src| {
      SplitInverse(src, src[..i], src[i + 1..]);
      assert src == Join(src[..i], src[i + 1..]);
      r := Ok((src[..i], src[i + 1..]));
    } else {
      assert src[..i] == src;
      SplitInverse(src, [], []);
      r := ProtocolError;
    }
  }

  /** `c_str()`: a C string ends at the first NUL byte. */
  function CStr(s: seq<byte>): (r: seq<byte>)
    ensures |r| <= |s| && r == s[..|r|] && 0 !in r
    ensures |r| < |s| ==> s[|r|] == 0
    ensures 0 !in s ==> r == s
  {
    if s == [] || s[0] == 0 then []
    else
      var t := CStr(s[1..]);
      assert [s[0]] + t == s[..1 + |t|];
      [s[0]] + t
  }
}
