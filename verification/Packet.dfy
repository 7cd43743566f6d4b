/** The packet of mrpc_packet.c: a bounded buffer with a read position, and its frame on the wire. */
module Packet {
  import opened Wrappers
  import opened Varint

  const MAX_PACKET_SIZE: nat := 4095

  datatype PacketType = Start | Middle | End | Single

  function TypeCode(t: PacketType): nat {
    match t case Start => 0 case Middle => 1 case End => 2 case Single => 3
  }

  function CodeType(n: nat): PacketType {
    match n % 4 case 0 => Start case 1 => Middle case 2 => End case _ => Single
  }

  /** True of the two types that open a packet sequence; the other two continue one. */
  predicate Opens(t: PacketType) { t.Start? || t.Single? }

  /** True of the two types that close a packet sequence. */
  predicate Closes(t: PacketType) { t.End? || t.Single? }

  /** The value of a packet: what travels on the wire. */
  datatype Frame = Frame(id: Byte, kind: PacketType, payload: seq<Byte>)

  predicate WellSized(f: Frame) { |f.payload| <= MAX_PACKET_SIZE }

  function EncodeHeader(f: Frame): seq<Byte> {
    [f.id] + Encode(TypeCode(f.kind) + 4 * |f.payload|)
  }

  function EncodeFrame(f: Frame): (s: seq<Byte>)
    ensures s != []
  {
    EncodeHeader(f) + f.payload
  }

  datatype FrameResult = Got(frame: Frame, rest: seq<Byte>) | Bad

  /** Reading one frame: every failure of mrpc_packet_read_from_stream is Bad. */
  function DecodeFrame(s: seq<Byte>): FrameResult {
    if s == [] then Bad
    else
      match Decode32(s[1..])
      case Failure => Bad
      case Value(v, rest) =>
        if v / 4 > MAX_PACKET_SIZE || v / 4 > |rest| then Bad
        else Got(Frame(s[0], CodeType(v), rest[..v / 4]), rest[v / 4..])
  }

  function EncodeFrames(fs: seq<Frame>): seq<Byte> {
    if fs == [] then [] else EncodeFrame(fs[0]) + EncodeFrames(fs[1..])
  }

  // ---- the packet object ----

  class PacketBuffer {
    const buf: array<Byte>
    var currPos: int
    var size: int
    var kind: PacketType
    var requestId: Byte

    ghost predicate Valid()
      reads this
    {
      buf.Length == MAX_PACKET_SIZE && 0 <= currPos <= size <= MAX_PACKET_SIZE
    }

    ghost function Payload(): (s: seq<Byte>)
      requires Valid()
      reads this, buf
    {
      buf[..size]
    }

    ghost function Unread(): (s: seq<Byte>)
      requires Valid()
      reads this, buf
    {
      buf[currPos..size]
    }

    ghost function View(): Frame
      requires Valid()
      reads this, buf
    {
      Frame(requestId, kind, Payload())
    }

    constructor ()
      ensures Valid() && fresh(buf)
      ensures currPos == 0 && View() == Frame(0, Start, [])
    {
      buf := new Byte[MAX_PACKET_SIZE];
      currPos, size, kind, requestId := 0, 0, Start, 0;
    }

    /** The packet object whose ownership arrives with a frame taken from a queue. */
    constructor Holding(f: Frame)
      requires WellSized(f)
      ensures Valid() && fresh(buf)
      ensures currPos == 0 && View() == f
    {
      buf := new Byte[MAX_PACKET_SIZE];
      currPos, size, kind, requestId := 0, |f.payload|, f.kind, f.id;
      new;
      forall i | 0 <= i < size {
        buf[i] := f.payload[i];
      }
      assert buf[..size] == f.payload;
    }

    method Reset()
      requires buf.Length == MAX_PACKET_SIZE
      modifies this
      ensures Valid() && currPos == 0 && View() == Frame(0, Start, [])
    {
      currPos, size, kind, requestId := 0, 0, Start, 0;
    }

    /** Takes up to len unread bytes. */
    method ReadData(len: nat) returns (data: seq<Byte>)
      requires Valid()
      modifies this`currPos
      ensures Valid() && size == old(size)
      ensures |data| == if len > |old(Unread())| then |old(Unread())| else len
      ensures old(Unread()) == data + Unread()
    {
      var left := size - currPos;
      var n := if len > left then left else len;
      data := buf[currPos..currPos + n];
      currPos := currPos + n;
    }

    /** Appends as many of the bytes as fit. */
    method WriteData(data: seq<Byte>) returns (n: nat)
      requires Valid() && currPos == 0
      modifies this`size, buf
      ensures Valid() && n <= |data|
      ensures n < |data| ==> size == MAX_PACKET_SIZE
      ensures Payload() == old(Payload()) + data[..n]
    {
      var left := MAX_PACKET_SIZE - size;
      n := if |data| > left then left else |data|;
      forall i | 0 <= i < n {
        buf[size + i] := data[i];
      }
      size := size + n;
      assert buf[..size] == old(buf[..size]) + data[..n];
    }

    /** Reads one frame into an empty packet. A refused frame may leave an impossible size behind; its caller
        resets the packet. */
    method ReadFromStream(stream: ByteStream) returns (ok: bool)
      requires Valid() && currPos == 0 && size == 0
      modifies this, buf, stream`input
      ensures ok <==> DecodeFrame(old(stream.input)).Got?
      ensures ok ==> Valid() && currPos == 0 && Got(View(), stream.input) == DecodeFrame(old(stream.input))
    {
      var id := stream.Read(1);
      if id == None {
        return false;
      }
      requestId := id.value[0];
      var v := Unserialize64(stream);
      if v == None || v.value >= TWO_32 {
        return false;
      }
      kind := CodeType(v.value);
      size := v.value / 4;
      if size > MAX_PACKET_SIZE {
        return false;
      }
      var body := stream.Read(size);
      if body == None {
        return false;
      }
      forall i | 0 <= i < size {
        buf[i] := body.value[i];
      }
      assert buf[..size] == body.value;
      ok := true;
    }

    method WriteToStream(stream: ByteStream) returns (ok: bool)
      requires Valid() && currPos == 0
      modifies stream`output
      ensures ok <==> !stream.broken
      ensures ok ==> stream.output == old(stream.output) + EncodeFrame(View())
    {
      ok := stream.Write([requestId]);
      if ok {
        ok := Serialize64(TypeCode(kind) + 4 * size, stream);
      }
      if ok {
        ok := stream.Write(buf[..size]);
      }
    }
  }

  // ---- what the frame codec guarantees ----

  /** A frame read back is the frame written, and what follows it is left unread. */
  lemma FrameRoundTrip(f: Frame, rest: seq<Byte>)
    requires WellSized(f)
    ensures DecodeFrame(EncodeFrame(f) + rest) == Got(f, rest)
  {
    var v, s := TypeCode(f.kind) + 4 * |f.payload|, EncodeFrame(f) + rest;
    assert s[1..] == Encode(v) + (f.payload + rest);
    RoundTrip(v, f.payload + rest);
    assert (f.payload + rest)[..|f.payload|] == f.payload;
    assert (f.payload + rest)[|f.payload|..] == rest;
  }

  /** The octets of a frame: the request id; then four times the size plus 0, 1, 2 or 3 for START, MIDDLE, END and
      SINGLE, in one octet or in two, low seven bits first; then the payload. */
  lemma FrameOnWire(f: Frame)
    requires WellSized(f)
    ensures var n := match f.kind case Start => 0 case Middle => 1 case End => 2 case Single => 3;
            var v := 4 * |f.payload| + n;
            EncodeFrame(f) == [f.id] + (if v < 128 then [v] else [v % 128 + 128, v / 128]) + f.payload
  {
    var v := TypeCode(f.kind) + 4 * |f.payload|;
    if v >= 128 {
      assert v / 128 < 128 && Encode(v / 128) == [v / 128];
      assert Encode(v) == [v % 128 + 128] + [v / 128];
    }
  }

  /** What any input means: it is accepted exactly if a variable-length integer below 2^32 follows its first octet,
      within ten octets, its upper bits are a size of at most 4095, and as many octets follow. The frame then has that
      first octet as its id, the type numbered by the two lowest bits, and those octets. */
  lemma FrameMeaning(s: seq<Byte>)
    requires s != []
    ensures var r, t := s[1..], Terminator(s[1..]);
            if t == |r| || t >= 10 then DecodeFrame(s) == Bad
            else
              var v, body := GroupSum(r[..t + 1], 0) % TWO_64, r[t + 1..];
              if v >= 0x1_0000_0000 || v / 4 > 4095 || v / 4 > |body| then DecodeFrame(s) == Bad
              else
                && DecodeFrame(s).Got? && DecodeFrame(s).rest == body[v / 4..]
                && var f := DecodeFrame(s).frame;
                   && f.id == s[0] && f.payload == body[..v / 4]
                   && (f.kind == Start <==> v % 4 == 0) && (f.kind == Middle <==> v % 4 == 1)
                   && (f.kind == End <==> v % 4 == 2) && (f.kind == Single <==> v % 4 == 3)
  {
    DecodeMeaning(s[1..]);
  }

  /** The request id takes one byte and the type with the size at most two more. */
  lemma HeaderIsShort(f: Frame)
    requires WellSized(f)
    ensures |EncodeHeader(f)| <= 3
  {
    var v := TypeCode(f.kind) + 4 * |f.payload|;
    if |Encode(v)| > 2 {
      EncodedLength(v, |Encode(v)|);
      WeightMono(2, |Encode(v)| - 1);
      WeightValues();
    }
  }

  /** Whatever a peer sends, an accepted frame is well-sized and the octets consumed are at least its body. */
  lemma DecodedIsWellSized(s: seq<Byte>)
    requires DecodeFrame(s).Got?
    ensures WellSized(DecodeFrame(s).frame)
    ensures exists n :: 2 <= n <= |s| && DecodeFrame(s).rest == s[n..] && n >= 2 + |DecodeFrame(s).frame.payload|
  {
    DecodeMeaning(s[1..]);
    var t, size := Terminator(s[1..]), |DecodeFrame(s).frame.payload|;
    assert s[1..][t + 1..][size..] == s[t + 2 + size..];
  }

  /** All the frames of a stream, up to its first unreadable one. */
  function DecodeFrames(s: seq<Byte>): (r: (seq<Frame>, seq<Byte>))
    decreases |s|
  {
    if DecodeFrame(s).Bad? then ([], s)
    else
      DecodedIsWellSized(s);
      var Got(f, rest) := DecodeFrame(s);
      var (fs, left) := DecodeFrames(rest);
      ([f] + fs, left)
  }

  /** Reading back the concatenated frames of any list of packets returns the list, with nothing left over. */
  lemma {:induction false} FramesRoundTrip(fs: seq<Frame>)
    requires forall f :: f in fs ==> WellSized(f)
    ensures DecodeFrames(EncodeFrames(fs)) == (fs, [])
  {
    if fs != [] {
      FrameRoundTrip(fs[0], EncodeFrames(fs[1..]));
      FramesRoundTrip(fs[1..]);
      assert DecodeFrame(EncodeFrames(fs)) == Got(fs[0], EncodeFrames(fs[1..]));
      assert [fs[0]] + fs[1..] == fs;
    }
  }

  lemma {:induction false} EncodeFramesAppend(fs: seq<Frame>, f: Frame)
    ensures EncodeFrames(fs + [f]) == EncodeFrames(fs) + EncodeFrame(f)
  {
    if fs != [] {
      EncodeFramesAppend(fs[1..], f);
      assert (fs + [f])[1..] == fs[1..] + [f];
    } else {
      assert (fs + [f])[1..] == [];
    }
  }
}
