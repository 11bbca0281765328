/** The client's media socket, built without OCS_INCLUDE_AUDIO: frames out as datagrams,
    datagrams in to one decoder per sender. */
module ClientMedia {
  import opened Wrappers
  import opened Bytes
  import opened MediaFrame
  import opened Stream
  import opened MediaProtocol
  import opened VideoDecoder

  /** The decoders by sender id. */
  type Client = map<i32, State>

  /** A frame passed on for decoding, with the sender its datagrams name. */
  datatype Emitted = Emitted(sender: i32, frame: Frame)

  function DecoderOf(c: Client, sender: i32): State {
    if sender in c then c[sender] else INIT
  }

  predicate IsVideo(i: Incoming) { i.Arrived? && i.part.Video? }

  predicate CanReceive(c: Client, raw: seq<byte>, fresh_: nat -> byte) {
    var i := Decode(raw, fresh_);
    IsVideo(i) ==> CanAdd(DecoderOf(c, i.part.sender), Some(i.part))
  }

  /** add() followed by next(), as every received part triggers them. */
  function Feed(st: State, d: Datagram): Polled
    requires CanAdd(st, Some(d))
  {
    NextStep(AddStep(st, Some(d)).st)
  }

  datatype Received = Received(c: Client, out: seq<Emitted>)

  function ReceivePart(c: Client, d: Datagram): Received
    requires CanAdd(DecoderOf(c, d.sender), Some(d))
  {
    var p := Feed(DecoderOf(c, d.sender), d);
    Received(c[d.sender := p.st], if p.frame.Some? then [Emitted(d.sender, p.frame.value)] else [])
  }

  lemma ReceiveInTwoSteps(c: Client, d: Datagram, mid: Client, after: Client, frame: Option<Frame>, out: seq<Emitted>)
    requires CanAdd(DecoderOf(c, d.sender), Some(d))
    requires mid == c[d.sender := DecoderOf(c, d.sender)]
    requires after == mid[d.sender := Feed(mid[d.sender], d).st] && frame == Feed(mid[d.sender], d).frame
    requires out == if frame.Some? then [Emitted(d.sender, frame.value)] else []
    ensures Received(after, out) == ReceivePart(c, d)
  {
    assert mid[d.sender] == DecoderOf(c, d.sender);
  }

  /** One datagram: decode it, and feed a video part to its sender's decoder. */
  function ReceiveStep(c: Client, raw: seq<byte>, fresh_: nat -> byte): Received
    requires CanReceive(c, raw, fresh_)
  {
    var i := Decode(raw, fresh_);
    if IsVideo(i) then ReceivePart(c, i.part) else Received(c, [])
  }

  /** sendVideoFrameRecoveryDatagram */
  function RecoveryDatagram(sender: i32, frameId: u64): seq<byte> {
    Write8(MAGIC) + (Write8(TYPE_RECOVERY) + (Write32(ToUnsigned(sender)) + (Write64(frameId) + Write16(0))))
  }

  /** The request sent after part d: a decoder left waiting asks the part's sender for a key
      frame, when the last request is long enough ago. */
  function RequestsAfter(c: Client, raw: seq<byte>, fresh_: nat -> byte, due: bool): seq<seq<byte>>
    requires CanReceive(c, raw, fresh_)
  {
    var i := Decode(raw, fresh_);
    if IsVideo(i) then PartRequests(c, i.part, due) else []
  }

  function PartRequests(c: Client, d: Datagram, due: bool): seq<seq<byte>>
    requires CanAdd(DecoderOf(c, d.sender), Some(d))
  {
    RequestsFor(Feed(DecoderOf(c, d.sender), d).st, d, due)
  }

  function RequestsFor(st: State, d: Datagram, due: bool): seq<seq<byte>> {
    if st.waitFor != NORMAL && due && d.frameId != 0 && d.sender != 0 then [RecoveryDatagram(d.sender, d.frameId)]
    else []
  }

  /** The request, byte by byte: magic, type, sender, frame id, index 0. */
  lemma RecoveryLayout(sender: i32, frameId: u64)
    ensures var w := RecoveryDatagram(sender, frameId);
      && |w| == 16 && w[0] == 0xAE && w[1] == 0x03
      && w[2..6] == BigEndian(4, ToUnsigned(sender)) && w[6..14] == BigEndian(8, frameId) && w[14..] == [0, 0]
  {
    OneByte(MAGIC);
    OneByte(TYPE_RECOVERY);
    OneByte(0);
    var w := RecoveryDatagram(sender, frameId);
    assert w[2..6] == Write32(ToUnsigned(sender)) && w[6..14] == Write64(frameId);
    assert w[14..] == Write16(0) == BigEndian(1, 0) + [0];
  }

  /** The request reads back as one for that sender and frame. */
  lemma DecodeInvertsRecovery(sender: i32, frameId: u64, fresh_: nat -> byte)
    ensures Decode(RecoveryDatagram(sender, frameId), fresh_) == RecoveryRequest(sender, frameId, 0)
  {
    var t3 := Write16(0) + [];
    var t2 := Write64(frameId) + t3;
    var t1 := Write32(ToUnsigned(sender)) + t2;
    assert Write16(0) + [] == Write16(0);
    ReadBack8(MAGIC, Write8(TYPE_RECOVERY) + t1);
    ReadBack8(TYPE_RECOVERY, t1);
    ReadBack32(ToUnsigned(sender), t2);
    ReadBack64(frameId, t3);
    ReadBack16(0, []);
  }

  function EncodeAll(parts: seq<Datagram>): (r: seq<seq<byte>>)
    ensures |r| == |parts|
  {
    seq(|parts|, i requires 0 <= i < |parts| => Encode(parts[i]))
  }

  function TotalLength(wire: seq<seq<byte>>): nat {
    if wire == [] then 0 else TotalLength(wire[..|wire| - 1]) + |wire[|wire| - 1]|
  }

  lemma IncomingIsStep(c: Client, raw: seq<byte>, fresh_: nat -> byte, due: bool,
                       after: Client, out: seq<Emitted>, requests: seq<seq<byte>>)
    requires CanReceive(c, raw, fresh_)
    requires var i := Decode(raw, fresh_);
      if IsVideo(i) then Received(after, out) == ReceivePart(c, i.part) && requests == PartRequests(c, i.part, due)
      else after == c && out == [] && requests == []
    ensures Received(after, out) == ReceiveStep(c, raw, fresh_) && requests == RequestsAfter(c, raw, fresh_, due)
  {}

  lemma EncodeOneMore(parts: seq<Datagram>, i: nat)
    requires i < |parts|
    ensures EncodeAll(parts[..i + 1]) == EncodeAll(parts[..i]) + [Encode(parts[i])]
    ensures TotalLength(EncodeAll(parts[..i + 1])) == TotalLength(EncodeAll(parts[..i])) + |Encode(parts[i])|
  {
    var wire := EncodeAll(parts[..i]);
    assert EncodeAll(parts[..i + 1]) == wire + [Encode(parts[i])];
    assert (wire + [Encode(parts[i])])[..i] == wire;
  }

  class MediaSocket {
    var videoFrameDatagramDecoders: map<i32, VideoFrameUdpDecoder>
    var bytesRead: nat
    var bytesWritten: nat

    /** No two senders share a decoder. */
    ghost predicate Valid()
      reads this`videoFrameDatagramDecoders
    {
      forall s, t :: s in videoFrameDatagramDecoders && t in videoFrameDatagramDecoders && s != t ==>
        videoFrameDatagramDecoders[s] != videoFrameDatagramDecoders[t]
    }

    ghost function Model(): Client
      reads this`videoFrameDatagramDecoders, videoFrameDatagramDecoders.Values
    {
      map s | s in videoFrameDatagramDecoders :: videoFrameDatagramDecoders[s].Model()
    }

    constructor ()
      ensures Valid() && Model() == map[]
      ensures bytesRead == 0 && bytesWritten == 0
    {
      videoFrameDatagramDecoders := map[];
      bytesRead, bytesWritten := 0, 0;
    }

    /** Splits the frame and writes each part; refuses an empty frame and frame id 0. */
    method SendVideoFrame(frame: seq<byte>, frameId: u64, senderId: i32, dbl: real -> real)
        returns (wire: seq<seq<byte>>)
      requires RoundsToDouble(dbl)
      requires |frame| <= 0xFFFF * VideoMedia.MaxPayload()
      modifies this`bytesWritten
      ensures frame == [] || frameId == 0 ==> wire == []
      ensures frame != [] && frameId != 0 ==> wire == EncodeAll(Parts(VideoMedia, senderId, frameId, frame))
      ensures bytesWritten == old(bytesWritten) + TotalLength(wire)
    {
      wire := [];
      if frame == [] || frameId == 0 {
        return;
      }
      var rc, datagrams := Split(VideoMedia, frame, frameId, senderId, dbl);
      wire := WriteParts(datagrams);
    }

    method WriteParts(datagrams: array<Datagram>) returns (wire: seq<seq<byte>>)
      modifies this`bytesWritten
      ensures wire == EncodeAll(datagrams[..])
      ensures bytesWritten == old(bytesWritten) + TotalLength(wire)
    {
      wire := [];
      for i := 0 to datagrams.Length
        invariant wire == EncodeAll(datagrams[..][..i])
        invariant bytesWritten == old(bytesWritten) + TotalLength(wire)
      {
        EncodeOneMore(datagrams[..], i);
        var datagram := Encode(datagrams[i]);
        wire := wire + [datagram];
        bytesWritten := bytesWritten + |datagram|;
      }
      assert datagrams[..][..datagrams.Length] == datagrams[..];
    }

    /** One turn of the onReadyRead loop; due tells whether the last request for a frame is
        more than a second ago. */
    method OnDatagram(raw: seq<byte>, fresh_: nat -> byte, due: bool)
        returns (out: seq<Emitted>, requests: seq<seq<byte>>)
      requires Valid() && CanReceive(Model(), raw, fresh_)
      modifies this`bytesRead, this`bytesWritten, this`videoFrameDatagramDecoders, videoFrameDatagramDecoders.Values
      ensures Valid()
      ensures Model() == ReceiveStep(old(Model()), raw, fresh_).c
      ensures out == ReceiveStep(old(Model()), raw, fresh_).out
      ensures requests == RequestsAfter(old(Model()), raw, fresh_, due)
      ensures bytesRead == old(bytesRead) + |raw| && bytesWritten == old(bytesWritten) + TotalLength(requests)
    {
      ghost var c := Model();
      out, requests := OnIncoming(Decode(raw, fresh_), due);
      IncomingIsStep(c, raw, fresh_, due, Model(), out, requests);
      Count(raw, requests);
    }

    /** networkUsage */
    method Count(raw: seq<byte>, requests: seq<seq<byte>>)
      requires Valid()
      modifies this`bytesRead, this`bytesWritten
      ensures Valid() && Model() == old(Model())
      ensures bytesRead == old(bytesRead) + |raw| && bytesWritten == old(bytesWritten) + TotalLength(requests)
    {
      bytesRead := bytesRead + |raw|;
      CountWritten(requests);
    }

    /** The switch over the datagram's type. */
    method OnIncoming(incoming: Incoming, due: bool) returns (out: seq<Emitted>, requests: seq<seq<byte>>)
      requires Valid()
      requires IsVideo(incoming) ==> CanAdd(DecoderOf(Model(), incoming.part.sender), Some(incoming.part))
      modifies this`videoFrameDatagramDecoders, videoFrameDatagramDecoders.Values
      ensures Valid()
      ensures IsVideo(incoming) ==>
        && Received(Model(), out) == ReceivePart(old(Model()), incoming.part)
        && requests == PartRequests(old(Model()), incoming.part, due)
      ensures !IsVideo(incoming) ==> Model() == old(Model()) && out == [] && requests == []
    {
      out, requests := [], [];
      if IsVideo(incoming) {
        out, requests := Dispatch(incoming.part, due);
      }
    }

    method CountWritten(wire: seq<seq<byte>>)
      modifies this`bytesWritten
      ensures bytesWritten == old(bytesWritten) + TotalLength(wire)
    {
      for i := 0 to |wire|
        invariant bytesWritten == old(bytesWritten) + TotalLength(wire[..i])
      {
        assert wire[..i + 1][..i] == wire[..i];
        bytesWritten := bytesWritten + |wire[i]|;
      }
      assert wire[..|wire|] == wire;
    }

    method Dispatch(d: Datagram, due: bool) returns (out: seq<Emitted>, requests: seq<seq<byte>>)
      requires Valid() && CanAdd(DecoderOf(Model(), d.sender), Some(d))
      modifies this`videoFrameDatagramDecoders, videoFrameDatagramDecoders.Values
      ensures Valid()
      ensures Model() == ReceivePart(old(Model()), d).c
      ensures out == ReceivePart(old(Model()), d).out
      ensures requests == RequestsFor(Feed(DecoderOf(old(Model()), d.sender), d).st, d, due)
    {
      ghost var c := Model();
      EnsureDecoder(d.sender);
      ghost var mid := Model();
      var frame, waitForType := FeedDecoder(d.sender, d);
      out := if frame.Some? then [Emitted(d.sender, frame.value)] else [];
      requests := [];
      if waitForType != NORMAL && due && d.frameId != 0 && d.sender != 0 {
        requests := [RecoveryDatagram(d.sender, d.frameId)];
      }
      ReceiveInTwoSteps(c, d, mid, Model(), frame, out);
    }

    method FeedDecoder(sender: i32, d: Datagram) returns (frame: Option<Frame>, waitForType: i32)
      requires Valid() && sender in videoFrameDatagramDecoders
      requires CanAdd(Model()[sender], Some(d))
      modifies videoFrameDatagramDecoders[sender]
      ensures Valid() && Model() == old(Model())[sender := Feed(old(Model()[sender]), d).st]
      ensures frame == Feed(old(Model()[sender]), d).frame
      ensures waitForType == Feed(old(Model()[sender]), d).st.waitFor
    {
      ghost var before := Model();
      var decoder := videoFrameDatagramDecoders[sender];
      assert decoder.Model() == before[sender];
      frame := AddThenNext(decoder, d);
      waitForType := decoder.waitForFrameType;
      OneDecoderChanged(before, sender);
    }

    /** Only the decoder of that sender differs from before. */
    lemma OneDecoderChanged(before: Client, sender: i32)
      requires Valid() && sender in videoFrameDatagramDecoders
      requires before.Keys == videoFrameDatagramDecoders.Keys
      requires forall s :: s in videoFrameDatagramDecoders ==>
        var decoder := videoFrameDatagramDecoders[s];
        decoder != videoFrameDatagramDecoders[sender] ==> decoder.Model() == before[s]
      ensures Model() == before[sender := videoFrameDatagramDecoders[sender].Model()]
    {}

    static method AddThenNext(decoder: VideoFrameUdpDecoder, d: Datagram) returns (frame: Option<Frame>)
      requires CanAdd(decoder.Model(), Some(d))
      modifies decoder
      ensures decoder.Model() == Feed(old(decoder.Model()), d).st
      ensures frame == Feed(old(decoder.Model()), d).frame
    {
      var _ := decoder.Add(Some(d));
      frame := decoder.Next();
    }

    /** A sender gets its decoder on its first part. */
    method EnsureDecoder(sender: i32)
      requires Valid()
      modifies this`videoFrameDatagramDecoders
      ensures Valid() && sender in videoFrameDatagramDecoders
      ensures forall o :: o in videoFrameDatagramDecoders.Values ==>
          o in old(videoFrameDatagramDecoders.Values) || fresh(o)
      ensures Model() == old(Model())[sender := DecoderOf(old(Model()), sender)]
    {
      if sender !in videoFrameDatagramDecoders {
        var decoder := new VideoFrameUdpDecoder();
        videoFrameDatagramDecoders := videoFrameDatagramDecoders[sender := decoder];
      }
    }

    method ResetVideoDecoderOfClient(senderId: i32)
      requires Valid()
      modifies this`videoFrameDatagramDecoders
      ensures Valid()
      ensures Model() == old(Model()) - {senderId}
    {
      videoFrameDatagramDecoders := videoFrameDatagramDecoders - {senderId};
    }
  }
}

/** Whole runs of a client that hears several senders. */
module ClientEndToEnd {
  import opened Histories
  import opened Wrappers
  import opened Bytes
  import opened MediaFrame
  import opened MediaProtocol
  import opened Reassembly
  import opened HonestFrames
  import opened VideoDecoder
  import opened ClientMedia
  import VideoEndToEnd

  /** What every sender transmitted. */
  type World = map<i32, Corpus>

  ghost predicate SendableWorld(w: World) {
    forall s :: s in w ==> Sendable(VideoMedia, w[s])
  }

  ghost predicate SentBy(w: World, s: i32, d: Datagram)
    requires SendableWorld(w)
  {
    s in w && WasSent(SentParts(VideoMedia, s, w[s]), d)
  }

  /** The bytes are those of one datagram of one frame of one sender. */
  ghost predicate OnWire(w: World, raw: seq<byte>)
    requires SendableWorld(w)
  {
    exists s, d :: SentBy(w, s, d) && raw == Encode(d)
  }

  datatype Event = Receive(raw: seq<byte>, fresh_: nat -> byte) | Reset(sender: i32)

  type History = Trace<Event>

  datatype Run = Run(c: Client, out: seq<Emitted>)

  ghost predicate Runnable(h: History)
    decreases h, 0
  {
    h.Start? || (Runnable(h.prev) && (h.e.Receive? ==> CanReceive(RunOf(h.prev).c, h.e.raw, h.e.fresh_)))
  }

  ghost function RunOf(h: History): Run
    requires Runnable(h)
    decreases h, 1
  {
    if h.Start? then Run(map[], [])
    else
      var r := RunOf(h.prev);
      match h.e
      case Receive(raw, fresh_) =>
        var step := ReceiveStep(r.c, raw, fresh_);
        Run(step.c, r.out + step.out)
      case Reset(s) => r.(c := r.c - {s})
  }

  /** The frames passed on under one sender's id. */
  ghost function FramesOf(out: seq<Emitted>, sender: i32): seq<Frame> {
    if out == [] then []
    else
      var n := |out| - 1;
      FramesOf(out[..n], sender) + (if out[n].sender == sender then [out[n].frame] else [])
  }

  lemma FramesOfMore(out: seq<Emitted>, more: seq<Emitted>, sender: i32)
    requires |more| <= 1
    ensures FramesOf(out + more, sender) ==
      FramesOf(out, sender) + (if more != [] && more[0].sender == sender then [more[0].frame] else [])
  {
    if more == [] {
      assert out + more == out;
    } else {
      assert (out + more)[..|out|] == out;
    }
  }

  /** The bytes are no video part, whoever wrote them. */
  ghost predicate NoVideo(raw: seq<byte>) {
    forall fresh_: nat -> byte :: !IsVideo(Decode(raw, fresh_))
  }

  /** Of video parts only those some sender put on the wire arrive: any subset, order and
      repetition, among any other datagrams. */
  ghost predicate FromChannel(h: History, w: World)
    requires SendableWorld(w)
  {
    match h
    case Start => true
    case Then(prev, e) => FromChannel(prev, w) && (e.Receive? ==> OnWire(w, e.raw) || NoVideo(e.raw))
  }

  ghost predicate OnlySent(c: Client, w: World)
    requires SendableWorld(w)
  {
    forall s :: s in c ==> s in w && VideoEndToEnd.OnlySent(c[s], s, w[s])
  }

  predicate Genuine(out: seq<Emitted>, w: World) {
    forall i :: 0 <= i < |out| ==> out[i].sender in w && out[i].frame in w[out[i].sender].Values
  }

  lemma SentIsPart(s: i32, corpus: Corpus, d: Datagram)
    requires Sendable(VideoMedia, corpus) && WasSent(SentParts(VideoMedia, s, corpus), d)
    ensures d.sender == s && d.data != [] && d.Video?
  {
    SplitPartition(VideoMedia, s, d.frameId, Serialize(corpus[d.frameId]));
  }

  lemma FeedOnlySent(st: State, s: i32, corpus: Corpus, d: Datagram)
    requires Sendable(VideoMedia, corpus) && VideoEndToEnd.OnlySent(st, s, corpus)
    requires WasSent(SentParts(VideoMedia, s, corpus), d)
    ensures CanAdd(st, Some(d)) && VideoEndToEnd.OnlySent(Feed(st, d).st, s, corpus)
    ensures Feed(st, d).frame.Some? ==> Feed(st, d).frame.value in corpus.Values
  {
    VideoEndToEnd.AddOnlySent(st, s, corpus, d);
    VideoEndToEnd.NextOnlySent(AddStep(st, Some(d)).st, s, corpus);
  }

  lemma ReceiveOnlySent(c: Client, w: World, s: i32, d: Datagram, fresh_: nat -> byte)
    requires SendableWorld(w) && OnlySent(c, w) && SentBy(w, s, d)
    ensures CanReceive(c, Encode(d), fresh_)
    ensures OnlySent(ReceiveStep(c, Encode(d), fresh_).c, w)
    ensures Genuine(ReceiveStep(c, Encode(d), fresh_).out, w)
  {
    SentIsPart(s, w[s], d);
    DecodeInvertsEncode(d, fresh_);
    PartOnlySent(c, w, s, d);
  }

  lemma DecoderOnlySent(c: Client, w: World, s: i32)
    requires SendableWorld(w) && OnlySent(c, w) && s in w
    ensures VideoEndToEnd.OnlySent(DecoderOf(c, s), s, w[s])
  {}

  lemma PartOnlySent(c: Client, w: World, s: i32, d: Datagram)
    requires SendableWorld(w) && OnlySent(c, w) && SentBy(w, s, d) && d.sender == s
    ensures CanAdd(DecoderOf(c, s), Some(d))
    ensures OnlySent(ReceivePart(c, d).c, w) && Genuine(ReceivePart(c, d).out, w)
  {
    DecoderOnlySent(c, w, s);
    FeedOnlySent(DecoderOf(c, s), s, w[s], d);
    DecoderStored(c, w, s, Feed(DecoderOf(c, s), d).st);
  }

  lemma DecoderStored(c: Client, w: World, s: i32, st: State)
    requires SendableWorld(w) && OnlySent(c, w)
    requires s in w && VideoEndToEnd.OnlySent(st, s, w[s])
    ensures OnlySent(c[s := st], w)
  {}

  lemma GenuineAppend(w: World, out: seq<Emitted>, more: seq<Emitted>)
    requires Genuine(out, w) && Genuine(more, w)
    ensures Genuine(out + more, w)
  {}

  /** Bytes in, frames out: whatever the network loses, repeats or reorders, every frame a
      client passes on is one that the named sender transmitted. */
  lemma {:induction false} ClientEndToEndSafety(h: History, w: World)
    requires SendableWorld(w) && FromChannel(h, w)
    ensures Runnable(h) && OnlySent(RunOf(h).c, w) && Genuine(RunOf(h).out, w)
  {
    match h
    case Start =>
    case Then(prev, Receive(raw, fresh_)) =>
      ClientEndToEndSafety(prev, w);
      if NoVideo(raw) {
        assert !IsVideo(Decode(raw, fresh_));
      } else {
        var s, d :| SentBy(w, s, d) && raw == Encode(d);
        ReceiveOnlySent(RunOf(prev).c, w, s, d, fresh_);
      }
      GenuineAppend(w, RunOf(prev).out, ReceiveStep(RunOf(prev).c, raw, fresh_).out);
    case Then(prev, Reset(_)) =>
      ClientEndToEndSafety(prev, w);
  }
}
