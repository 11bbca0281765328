/** Media datagrams: splitting a serialised frame into parts, and their wire form. */
module MediaProtocol {
  import opened Bytes
  import opened Stream

  const MAGIC: byte := 0xAE
  const TYPE_VIDEO: byte := 0x02
  const TYPE_RECOVERY: byte := 0x03
  const TYPE_AUDIO: byte := 0xA0

  // Room left in a 512 byte datagram after magic and type.
  const BASE_MAXSIZE := 512 - 1 - 1

  datatype Media = VideoMedia | AudioMedia {
    /** The largest payload of one datagram. */
    function MaxPayload(): nat {
      match this
      case VideoMedia => BASE_MAXSIZE - (1 + 4 + 8 + 2 + 2 + 2)
      case AudioMedia => BASE_MAXSIZE - (4 + 8 + 2 + 2 + 2)
    }
  }

  type Payload = s: seq<byte> | |s| < 0x1_0000

  datatype Datagram =
    | Video(flags: byte, sender: i32, frameId: u64, index: u16, count: u16, data: Payload)
    | Audio(sender: i32, frameId: u64, index: u16, count: u16, data: Payload)

  function Part(m: Media, sender: i32, frameId: u64, index: u16, count: u16, data: Payload): Datagram {
    match m
    case VideoMedia => Video(0, sender, frameId, index, count, data)
    case AudioMedia => Audio(sender, frameId, index, count, data)
  }

  // ---------------------------------------------------------------- split

  /** The frame lengths a 16-bit part count can express. */
  predicate Splittable(m: Media, data: seq<byte>) {
    0 < |data| <= 0xFFFF * m.MaxPayload()
  }

  function PartCount(m: Media, length: nat): nat {
    (length + m.MaxPayload() - 1) / m.MaxPayload()
  }

  function PartBytes(m: Media, data: seq<byte>, i: nat): (r: Payload)
    requires i * m.MaxPayload() <= |data|
  {
    data[i * m.MaxPayload()..Min((i + 1) * m.MaxPayload(), |data|)]
  }

  /** The parts of a frame, each holding the bytes of its own slice of the data. */
  function Parts(m: Media, sender: i32, frameId: u64, data: seq<byte>): (r: seq<Datagram>)
    requires Splittable(m, data)
    ensures |r| == PartCount(m, |data|)
  {
    var n := PartCount(m, |data|);
    seq(n, i requires 0 <= i < n => Part(m, sender, frameId, i, n, PartBytes(m, data, i)))
  }

  /** The payloads in order, glued together. */
  function Join(parts: seq<Datagram>): seq<byte> {
    if parts == [] then [] else Join(parts[..|parts| - 1]) + parts[|parts| - 1].data
  }

  /** The count is the ceiling quotient: one part less would not hold the data. */
  lemma PartCountIsCeiling(m: Media, length: nat)
    requires 0 < length <= 0xFFFF * m.MaxPayload()
    ensures 1 <= PartCount(m, length) <= 0xFFFF
    ensures (PartCount(m, length) - 1) * m.MaxPayload() < length <= PartCount(m, length) * m.MaxPayload()
  {
    match m
    case VideoMedia => assert PartCount(m, length) == (length + 490) / 491;
    case AudioMedia => assert PartCount(m, length) == (length + 491) / 492;
  }

  /** Rounding to double precision: whole numbers of up to 53 bits stay as they are, and
      nothing moves by more than 2^-53 of its size. */
  ghost predicate RoundsToDouble(dbl: real -> real) {
    && (forall x: real :: x == x.Floor as real && 0.0 <= x <= 9007199254740992.0 ==> dbl(x) == x)
    && (forall x: real :: 0.001 <= x <= 9007199254740992.0 ==>
          x - x / 9007199254740992.0 <= dbl(x) <= x + x / 9007199254740992.0)
  }

  function Ceil(x: real): int {
    if x == x.Floor as real then x.Floor else x.Floor + 1
  }

  /** ceil((double) dataLength / MAXSIZE) */
  function CountByDouble(dbl: real -> real, m: Media, length: nat): int {
    Ceil(dbl(dbl(length as real) / m.MaxPayload() as real))
  }

  lemma CeilBetween(x: real, q: int)
    requires (q - 1) as real < x <= q as real
    ensures Ceil(x) == q
  {}

  /** A quotient that is not whole is too far from the next whole number to be rounded to it. */
  lemma QuotientRounds(dbl: real -> real, x: real, q: nat)
    requires RoundsToDouble(dbl) && 1 <= q <= 0xFFFF
    requires (q - 1) as real + 0.002 <= x <= q as real - 0.002
    ensures (q - 1) as real < dbl(x) < q as real
  {
    assert x / 9007199254740992.0 < 0.001;
  }

  /** The count computed in double precision is the exact ceiling quotient. */
  lemma DoubleCountIsExact(dbl: real -> real, m: Media, length: nat)
    requires RoundsToDouble(dbl) && 0 < length <= 0xFFFF * m.MaxPayload()
    ensures CountByDouble(dbl, m, length) == PartCount(m, length)
  {
    var q := PartCount(m, length);
    PartCountIsCeiling(m, length);
    var x := length as real / m.MaxPayload() as real;
    assert dbl(length as real) == length as real;
    QuotientBounds(m, length, q);
    if length == q * m.MaxPayload() {
      assert dbl(q as real) == q as real;
      CeilBetween(dbl(x), q);
    } else {
      QuotientRounds(dbl, x, q);
      CeilBetween(dbl(x), q);
    }
  }

  lemma QuotientBounds(m: Media, length: nat, q: nat)
    requires (q - 1) * m.MaxPayload() < length <= q * m.MaxPayload()
    ensures var x := length as real / m.MaxPayload() as real;
      if length == q * m.MaxPayload() then x == q as real
      else (q - 1) as real + 0.002 <= x <= q as real - 0.002
  {
    match m
    case VideoMedia => assert m.MaxPayload() == 491;
    case AudioMedia => assert m.MaxPayload() == 492;
  }

  /** Where the slice of part i begins and ends. */
  lemma SliceBounds(m: Media, length: nat, i: nat)
    requires 0 < length <= 0xFFFF * m.MaxPayload()
    requires i < PartCount(m, length)
    ensures (i + 1) * m.MaxPayload() == i * m.MaxPayload() + m.MaxPayload()
    ensures i * m.MaxPayload() < length
    ensures (i + 1) * m.MaxPayload() <= length || i == PartCount(m, length) - 1
    ensures i == PartCount(m, length) - 1 ==> length <= (i + 1) * m.MaxPayload()
  {
    PartCountIsCeiling(m, length);
    match m
    case VideoMedia => assert m.MaxPayload() == 491;
    case AudioMedia => assert m.MaxPayload() == 492;
  }

  /** Part i of n carries its number and the count; all but the last are full. */
  ghost predicate IsPart(m: Media, d: Datagram, sender: i32, frameId: u64, i: nat, n: nat) {
    && (if m.VideoMedia? then d.Video? && d.flags == 0 else d.Audio?)
    && d.sender == sender && d.frameId == frameId && d.index == i && d.count == n
    && 0 < |d.data| <= m.MaxPayload()
    && (i < n - 1 ==> |d.data| == m.MaxPayload())
  }

  lemma PartIsPart(m: Media, sender: i32, frameId: u64, data: seq<byte>, i: nat)
    requires Splittable(m, data)
    requires i < PartCount(m, |data|)
    ensures IsPart(m, Parts(m, sender, frameId, data)[i], sender, frameId, i, PartCount(m, |data|))
  {
    SliceBounds(m, |data|, i);
    assert |PartBytes(m, data, i)| == Min((i + 1) * m.MaxPayload(), |data|) - i * m.MaxPayload();
  }

  /** Split is an exact partition of the data: numbered parts, all but the last full, none
      empty, and the payloads in order give the data back. */
  lemma SplitPartition(m: Media, sender: i32, frameId: u64, data: seq<byte>)
    requires Splittable(m, data)
    ensures Join(Parts(m, sender, frameId, data)) == data
    ensures forall i :: 0 <= i < PartCount(m, |data|) ==>
              IsPart(m, Parts(m, sender, frameId, data)[i], sender, frameId, i, PartCount(m, |data|))
  {
    JoinParts(m, sender, frameId, data);
    forall i | 0 <= i < PartCount(m, |data|)
      ensures IsPart(m, Parts(m, sender, frameId, data)[i], sender, frameId, i, PartCount(m, |data|))
    {
      PartIsPart(m, sender, frameId, data, i);
    }
  }

  /** The data the first k parts cover. */
  ghost function Upto(m: Media, data: seq<byte>, k: nat): seq<byte> {
    data[..Min(k * m.MaxPayload(), |data|)]
  }

  lemma UptoStep(m: Media, data: seq<byte>, k: nat)
    requires Splittable(m, data)
    requires k < PartCount(m, |data|)
    ensures k * m.MaxPayload() <= |data|
    ensures Upto(m, data, k) + PartBytes(m, data, k) == Upto(m, data, k + 1)
  {
    SliceBounds(m, |data|, k);
    var from, to := k * m.MaxPayload(), Min((k + 1) * m.MaxPayload(), |data|);
    assert data[..from] + data[from..to] == data[..to];
  }

  lemma {:induction false} JoinPrefix(m: Media, parts: seq<Datagram>, data: seq<byte>, k: nat)
    requires Splittable(m, data)
    requires |parts| == PartCount(m, |data|) && k <= |parts|
    requires forall i :: 0 <= i < |parts| ==> i * m.MaxPayload() <= |data| && parts[i].data == PartBytes(m, data, i)
    ensures Join(parts[..k]) == Upto(m, data, k)
  {
    if k == 0 {
      assert Upto(m, data, 0) == [];
    } else {
      JoinPrefix(m, parts, data, k - 1);
      UptoStep(m, data, k - 1);
      assert parts[..k][..k - 1] == parts[..k - 1];
    }
  }

  lemma JoinParts(m: Media, sender: i32, frameId: u64, data: seq<byte>)
    requires Splittable(m, data)
    ensures Join(Parts(m, sender, frameId, data)) == data
  {
    var parts := Parts(m, sender, frameId, data);
    PartCountIsCeiling(m, |data|);
    forall i | 0 <= i < |parts|
      ensures i * m.MaxPayload() <= |data| && parts[i].data == PartBytes(m, data, i)
    {
      SliceBounds(m, |data|, i);
    }
    JoinPrefix(m, parts, data, |parts|);
    assert parts[..|parts|] == parts;
    assert Upto(m, data, |parts|) == data;
  }

  /** The first len bytes not yet handed out are the slice of part i. */
  lemma PartIsHead(m: Media, data: seq<byte>, i: nat, len: nat)
    requires Splittable(m, data)
    requires i < PartCount(m, |data|)
    requires i * m.MaxPayload() <= |data|
    requires len == Min(m.MaxPayload(), |data| - i * m.MaxPayload())
    ensures data[i * m.MaxPayload()..][..len] == PartBytes(m, data, i)
    ensures i + 1 < PartCount(m, |data|) ==>
              && i * m.MaxPayload() + len == (i + 1) * m.MaxPayload()
              && data[i * m.MaxPayload()..][len..] == data[(i + 1) * m.MaxPayload()..]
  {
    SliceBounds(m, |data|, i);
  }

  /** VideoFrameDatagram::split and AudioFrameDatagram::split: -1 for no data, otherwise a
      fresh array holding the parts. Longer data would overflow the 16-bit count. */
  method Split(m: Media, data: seq<byte>, frameId: u64, sender: i32, dbl: real -> real)
    returns (rc: int, datagrams: array?<Datagram>)
    requires RoundsToDouble(dbl)
    requires |data| <= 0xFFFF * m.MaxPayload()
    ensures data == [] ==> rc == -1 && datagrams == null
    ensures data != [] ==>
      && rc == 0
      && datagrams != null
      && fresh(datagrams)
      && datagrams[..] == Parts(m, sender, frameId, data)
  {
    if data == [] {
      return -1, null;
    }
    PartCountIsCeiling(m, |data|);
    DoubleCountIsExact(dbl, m, |data|);
    var n: u16 := CountByDouble(dbl, m, |data|);
    var buffer := new Datagram[n];
    FillBuffer(m, data, frameId, sender, n, buffer);
    return 0, buffer;
  }

  /** The loop that fills the buffer. */
  method FillBuffer(m: Media, data: seq<byte>, frameId: u64, sender: i32, n: u16, buffer: array<Datagram>)
    requires Splittable(m, data) && n == PartCount(m, |data|) == buffer.Length
    modifies buffer
    ensures buffer[..] == Parts(m, sender, frameId, data)
  {
    ghost var parts := Parts(m, sender, frameId, data);
    var pdata := data;  // the bytes not yet handed out
    var i := 0;
    while i < n
      invariant 0 <= i <= n
      invariant i < n ==> i * m.MaxPayload() <= |data| && pdata == data[i * m.MaxPayload()..]
      invariant forall j :: 0 <= j < i ==> buffer[j] == parts[j]
    {
      var len := NextLength(m, |data|, i);
      PartIsHead(m, data, i, len);
      buffer[i] := Part(m, sender, frameId, i, n, pdata[..len]);
      pdata := pdata[len..];
      i := i + 1;
    }
    assert buffer[..] == parts;
  }

  /** Full parts, but for what is left for the last one. */
  method NextLength(m: Media, length: nat, i: nat) returns (len: nat)
    requires 0 < length <= 0xFFFF * m.MaxPayload() && i < PartCount(m, length)
    ensures len == Min(m.MaxPayload(), length - i * m.MaxPayload())
  {
    SliceBounds(m, length, i);
    var offset := i * m.MaxPayload();
    len := m.MaxPayload();
    if offset + len > length {
      len := length - offset;
    }
  }

  // ---------------------------------------------------------------- wire form

  function Encode(d: Datagram): seq<byte> {
    match d
    case Video(flags, sender, frameId, index, count, data) =>
      Write8(MAGIC) + (Write8(TYPE_VIDEO) + (Write8(flags) + EncodeRest(sender, frameId, index, count, data)))
    case Audio(sender, frameId, index, count, data) =>
      Write8(MAGIC) + (Write8(TYPE_AUDIO) + EncodeRest(sender, frameId, index, count, data))
  }

  function EncodeRest(sender: i32, frameId: u64, index: u16, count: u16, data: Payload): (r: seq<byte>)
    ensures |r| == 18 + |data|
  {
    Write32(ToUnsigned(sender)) + (Write64(frameId) + (Write16(index) + (Write16(count) + (Write16(|data|) + data))))
  }

  datatype Incoming =
    | Ignored                   // empty, wrong magic, other type
    | EmptyPart                 // a part without payload is deleted at once
    | Arrived(part: Datagram)
    | RecoveryRequest(sender: i32, frameId: u64, index: u16)

  datatype Rest = Rest(sender: i32, frameId: u64, index: u16, count: u16, size: u16, tail: seq<byte>)

  function DecodeRest(s: seq<byte>): Rest {
    var sender := Read32(s);
    var frameId := Read64(sender.rest);
    var index := Read16(frameId.rest);
    var count := Read16(index.rest);
    var size := Read16(count.rest);
    Rest(ToSigned(sender.value), frameId.value, index.value, count.value, size.value, size.rest)
  }

  /** readRawData into a freshly allocated array of n bytes: what the stream does not
      supply keeps whatever the allocation held. */
  function ReadRaw(n: nat, s: seq<byte>, fresh_: nat -> byte): (r: seq<byte>)
    ensures |r| == n
  {
    seq(n, i requires 0 <= i < n => if i < |s| then s[i] else fresh_(i))
  }

  /** What the client makes of one received datagram. */
  function Decode(raw: seq<byte>, fresh_: nat -> byte): Incoming {
    var magic := Read8(raw);
    if raw == [] || magic.value != MAGIC then Ignored else
    var kind := Read8(magic.rest);
    if kind.value == TYPE_VIDEO then
      var flags := Read8(kind.rest);
      var r := DecodeRest(flags.rest);
      if r.size == 0 then EmptyPart
      else Arrived(Video(flags.value, r.sender, r.frameId, r.index, r.count, ReadRaw(r.size, r.tail, fresh_)))
    else if kind.value == TYPE_AUDIO then
      var r := DecodeRest(kind.rest);
      if r.size == 0 then EmptyPart
      else Arrived(Audio(r.sender, r.frameId, r.index, r.count, ReadRaw(r.size, r.tail, fresh_)))
    else if kind.value == TYPE_RECOVERY then
      var sender := Read32(kind.rest);
      var frameId := Read64(sender.rest);
      var index := Read16(frameId.rest);
      RecoveryRequest(ToSigned(sender.value), frameId.value, index.value)
    else Ignored
  }

  lemma DecodeRestInverts(sender: i32, frameId: u64, index: u16, count: u16, data: Payload)
    ensures DecodeRest(EncodeRest(sender, frameId, index, count, data))
         == Rest(sender, frameId, index, count, |data|, data)
  {
    var t5 := Write16(|data|) + data;
    var t4 := Write16(count) + t5;
    var t3 := Write16(index) + t4;
    var t2 := Write64(frameId) + t3;
    ReadBack32(ToUnsigned(sender), t2);
    ReadBack64(frameId, t3);
    ReadBack16(index, t4);
    ReadBack16(count, t5);
    ReadBack16(|data|, data);
  }

  lemma DecodeVideo(d: Datagram, fresh_: nat -> byte)
    requires d.Video? && d.data != []
    ensures Decode(Encode(d), fresh_) == Arrived(d)
  {
    var rest := EncodeRest(d.sender, d.frameId, d.index, d.count, d.data);
    ReadBack8(MAGIC, Write8(TYPE_VIDEO) + (Write8(d.flags) + rest));
    ReadBack8(TYPE_VIDEO, Write8(d.flags) + rest);
    ReadBack8(d.flags, rest);
    DecodeRestInverts(d.sender, d.frameId, d.index, d.count, d.data);
    assert ReadRaw(|d.data|, d.data, fresh_) == d.data;
  }

  lemma DecodeAudio(d: Datagram, fresh_: nat -> byte)
    requires d.Audio? && d.data != []
    ensures Decode(Encode(d), fresh_) == Arrived(d)
  {
    var rest := EncodeRest(d.sender, d.frameId, d.index, d.count, d.data);
    ReadBack8(MAGIC, Write8(TYPE_AUDIO) + rest);
    ReadBack8(TYPE_AUDIO, rest);
    DecodeRestInverts(d.sender, d.frameId, d.index, d.count, d.data);
    assert ReadRaw(|d.data|, d.data, fresh_) == d.data;
  }

  /** Wire decoding inverts wire encoding for every part that carries data. */
  lemma DecodeInvertsEncode(d: Datagram, fresh_: nat -> byte)
    requires d.data != []
    ensures Decode(Encode(d), fresh_) == Arrived(d)
  {
    if d.Video? {
      DecodeVideo(d, fresh_);
    } else {
      DecodeAudio(d, fresh_);
    }
  }

  /** The wire form, byte by byte: magic, type, and for video flags; then sender, frame id,
      index, count, size, data. */
  lemma WireLayout(d: Datagram)
    ensures var w, k := Encode(d), if d.Video? then 3 else 2;
      && |w| == k + 18 + |d.data|
      && w[0] == 0xAE && w[1] == (if d.Video? then 0x02 else 0xA0) && (d.Video? ==> w[2] == d.flags)
      && w[k..k + 4] == BigEndian(4, ToUnsigned(d.sender)) && w[k + 4..k + 12] == BigEndian(8, d.frameId)
      && w[k + 12..k + 14] == BigEndian(2, d.index) && w[k + 14..k + 16] == BigEndian(2, d.count)
      && w[k + 16..k + 18] == BigEndian(2, |d.data|) && w[k + 18..] == d.data
  {
    var w, k := Encode(d), if d.Video? then 3 else 2;
    var rest := EncodeRest(d.sender, d.frameId, d.index, d.count, d.data);
    OneByte(MAGIC);
    OneByte(if d.Video? then TYPE_VIDEO else TYPE_AUDIO);
    assert w[k..] == rest by {
      if d.Video? {
        OneByte(d.flags);
      }
    }
    RestLayout(d);
    assert forall i, j :: 0 <= i <= j <= |rest| ==> w[k + i..k + j] == rest[i..j];
  }

  lemma RestLayout(d: Datagram)
    ensures var w := EncodeRest(d.sender, d.frameId, d.index, d.count, d.data);
      && w[..4] == BigEndian(4, ToUnsigned(d.sender)) && w[4..12] == BigEndian(8, d.frameId)
      && w[12..14] == BigEndian(2, d.index) && w[14..16] == BigEndian(2, d.count)
      && w[16..18] == BigEndian(2, |d.data|) && w[18..] == d.data
  {}

  /** Nothing but the three known types behind the magic byte is heeded. */
  lemma DecodeRejects(raw: seq<byte>, fresh_: nat -> byte)
    requires raw == [] || raw[0] != 0xAE || |raw| == 1 || (raw[1] != 0x02 && raw[1] != 0x03 && raw[1] != 0xA0)
    ensures Decode(raw, fresh_) == Ignored
  {
    if raw != [] {
      ReadByte(raw);
      if |raw| > 1 {
        ReadByte(raw[1..]);
      }
    }
  }

  /** A part without data is dropped. */
  lemma DecodeDropsEmpty(d: Datagram, fresh_: nat -> byte)
    requires d.data == []
    ensures Decode(Encode(d), fresh_) == EmptyPart
  {
    var rest := EncodeRest(d.sender, d.frameId, d.index, d.count, d.data);
    DecodeRestInverts(d.sender, d.frameId, d.index, d.count, d.data);
    match d
    case Video(flags, _, _, _, _, _) =>
      ReadBack8(MAGIC, Write8(TYPE_VIDEO) + (Write8(flags) + rest));
      ReadBack8(TYPE_VIDEO, Write8(flags) + rest);
      ReadBack8(flags, rest);
    case Audio(_, _, _, _, _) =>
      ReadBack8(MAGIC, Write8(TYPE_AUDIO) + rest);
      ReadBack8(TYPE_AUDIO, rest);
  }

  /** Every part of a split frame fits a 512 byte datagram. */
  lemma PartFitsDatagram(m: Media, sender: i32, frameId: u64, data: seq<byte>, i: nat)
    requires Splittable(m, data)
    requires i < PartCount(m, |data|)
    ensures |Encode(Parts(m, sender, frameId, data)[i])| <= 512
  {
    PartIsPart(m, sender, frameId, data, i);
  }
}
