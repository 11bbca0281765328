/** An encoded video (VP8Frame) or audio (OpusFrame) frame and its stream form. */
module MediaFrame {
  import opened Bytes
  import opened Stream

  const NORMAL: i32 := 0
  const KEY: i32 := 1

  datatype Frame = Frame(time: u64, kind: i32, data: seq<byte>)

  function Serialize(f: Frame): (r: seq<byte>)
    requires |f.data| < 0xFFFF_FFFF
    ensures |r| == 16 + |f.data|
  {
    Write64(f.time) + (Write32(ToUnsigned(f.kind)) + WriteByteArray(f.data))
  }

  function Deserialize(s: seq<byte>): Frame {
    var time := Read64(s);
    var kind := Read32(time.rest);
    var data := ReadByteArray(kind.rest);
    Frame(time.value, ToSigned(kind.value), data.value)
  }

  /** Reading inverts writing, whatever follows in the stream. */
  lemma SerializeRoundTrip(f: Frame, tail: seq<byte>)
    requires |f.data| < 0xFFFF_FFFF
    ensures Deserialize(Serialize(f) + tail) == f
  {
    var body := WriteByteArray(f.data) + tail;
    var head := Write32(ToUnsigned(f.kind)) + body;
    assert Serialize(f) + tail == Write64(f.time) + head;
    ReadBack64(f.time, head);
    ReadBack32(ToUnsigned(f.kind), body);
    ReadBackByteArray(f.data, tail);
  }

  /** The stream form, byte by byte: time, type, length, data. */
  lemma StreamLayout(f: Frame)
    requires |f.data| < 0xFFFF_FFFF
    ensures var w := Serialize(f);
      && w[..8] == BigEndian(8, f.time) && w[8..12] == BigEndian(4, ToUnsigned(f.kind))
      && w[12..16] == BigEndian(4, |f.data|) && w[16..] == f.data
  {}

  lemma SerializeInjective(f: Frame, g: Frame)
    requires |f.data| < 0xFFFF_FFFF && |g.data| < 0xFFFF_FFFF
    requires Serialize(f) == Serialize(g)
    ensures f == g
  {
    SerializeRoundTrip(f, []);
    SerializeRoundTrip(g, []);
  }
}
