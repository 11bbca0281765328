/** Each sender a client hears has a decoder of its own: what the client does for one sender is
    what a single decoder does with that sender's parts. */
module ClientDecoders {
  import opened Histories
  import opened Wrappers
  import opened Sequences
  import opened Bytes
  import opened MediaFrame
  import opened MediaProtocol
  import opened ClientMedia
  import opened VideoConsumption
  import C = ClientEndToEnd
  import D = VideoDecoder
  import V = VideoDecoderRuns
  import O = VideoOrder

  ghost predicate PartFrom(raw: seq<byte>, fresh_: nat -> byte, sender: i32) {
    var i := Decode(raw, fresh_);
    IsVideo(i) && i.part.sender == sender
  }

  /** The calls of one decoder: since the last reset, each part of its sender and next(). */
  ghost function DecoderRun(h: C.History, sender: i32): V.History {
    match h
    case Start => Start
    case Then(prev, Receive(raw, fresh_)) =>
      if PartFrom(raw, fresh_, sender) then
        Then(Then(DecoderRun(prev, sender), V.Arrive(Some(Decode(raw, fresh_).part))), V.Poll)
      else DecoderRun(prev, sender)
    case Then(prev, Reset(s)) => if s == sender then Start else DecoderRun(prev, sender)
  }

  /** What was passed on for the sender before the last reset. */
  ghost function Earlier(h: C.History, sender: i32): seq<Frame>
    requires C.Runnable(h)
  {
    if h.Start? then []
    else if h.e.Reset? && h.e.sender == sender then C.FramesOf(C.RunOf(h.prev).out, sender)
    else Earlier(h.prev, sender)
  }

  ghost predicate Matches(r: C.Run, sender: i32, earlier: seq<Frame>, q: V.Run) {
    DecoderOf(r.c, sender) == q.st && C.FramesOf(r.out, sender) == earlier + q.out
  }

  lemma PollOutput(q: V.Run, d: Datagram)
    requires D.CanAdd(q.st, Some(d))
    ensures V.ArriveThenPoll(q, d).st == Feed(q.st, d).st
    ensures V.ArriveThenPoll(q, d).out == q.out + D.AsSeq(Feed(q.st, d).frame)
  {}

  /** What one part does to the decoder of its sender and to the frames passed on for it. */
  lemma OwnPartStep(r: C.Run, raw: seq<byte>, fresh_: nat -> byte)
    requires CanReceive(r.c, raw, fresh_) && IsVideo(Decode(raw, fresh_))
    ensures var d := Decode(raw, fresh_).part;
      var step, fed := ReceiveStep(r.c, raw, fresh_), Feed(DecoderOf(r.c, d.sender), d);
      && DecoderOf(step.c, d.sender) == fed.st
      && C.FramesOf(r.out + step.out, d.sender) == C.FramesOf(r.out, d.sender) + D.AsSeq(fed.frame)
  {
    var d := Decode(raw, fresh_).part;
    C.FramesOfMore(r.out, ReceivePart(r.c, d).out, d.sender);
  }

  lemma OwnPartMatches(r: C.Run, raw: seq<byte>, fresh_: nat -> byte, earlier: seq<Frame>, q: V.Run)
    requires CanReceive(r.c, raw, fresh_) && IsVideo(Decode(raw, fresh_))
    requires Matches(r, Decode(raw, fresh_).part.sender, earlier, q)
    ensures var d := Decode(raw, fresh_).part;
      var step := ReceiveStep(r.c, raw, fresh_);
      && D.CanAdd(q.st, Some(d))
      && Matches(C.Run(step.c, r.out + step.out), d.sender, earlier, V.ArriveThenPoll(q, d))
  {
    var d := Decode(raw, fresh_).part;
    OwnPartStep(r, raw, fresh_);
    PollOutput(q, d);
    ConcatAssociative(earlier, q.out, D.AsSeq(Feed(q.st, d).frame));
  }

  lemma OtherPartMatches(r: C.Run, raw: seq<byte>, fresh_: nat -> byte, sender: i32, earlier: seq<Frame>, q: V.Run)
    requires CanReceive(r.c, raw, fresh_) && !PartFrom(raw, fresh_, sender) && Matches(r, sender, earlier, q)
    ensures var step := ReceiveStep(r.c, raw, fresh_);
      Matches(C.Run(step.c, r.out + step.out), sender, earlier, q)
  {
    C.FramesOfMore(r.out, ReceiveStep(r.c, raw, fresh_).out, sender);
  }

  /** Whatever other senders' parts, other datagrams and resets come in between: the state kept
      for a sender and the frames passed on for it since its last reset are those of a single
      decoder that is given this sender's parts, next() being called after each. */
  lemma {:induction false} SendersIndependent(h: C.History, sender: i32)
    requires C.Runnable(h)
    ensures V.Runnable(DecoderRun(h, sender)) && O.Fed(DecoderRun(h, sender))
    ensures Matches(C.RunOf(h), sender, Earlier(h, sender), V.RunOf(DecoderRun(h, sender)))
  {
    if h.Then? {
      SendersIndependent(h.prev, sender);
      var r, q := C.RunOf(h.prev), V.RunOf(DecoderRun(h.prev, sender));
      match h.e
      case Receive(raw, fresh_) =>
        if PartFrom(raw, fresh_, sender) {
          OwnPartMatches(r, raw, fresh_, Earlier(h.prev, sender), q);
          V.ArriveThenPollRuns(DecoderRun(h.prev, sender), Decode(raw, fresh_).part);
        } else {
          OtherPartMatches(r, raw, fresh_, sender, Earlier(h.prev, sender), q);
        }
      case Reset(s) =>
        if s == sender {
          assert C.FramesOf(r.out, sender) + [] == C.FramesOf(r.out, sender);
        }
    }
  }

  /** Over every run of a client: a datagram makes it request a key frame exactly if it is a
      video part with a frame id and a sender, a request is due, and the sender's decoder then
      lacks a key frame; the request asks that sender for that frame. */
  lemma RequestsExact(h: C.History, raw: seq<byte>, fresh_: nat -> byte, due: bool)
    requires C.Runnable(Then(h, C.Receive(raw, fresh_)))
    ensures var i := Decode(raw, fresh_);
      var requests := RequestsAfter(C.RunOf(h).c, raw, fresh_, due);
      if IsVideo(i) && due && i.part.frameId != 0 && i.part.sender != 0 && Lacks(h, raw, fresh_) then
        |requests| == 1 && forall f: nat -> byte ::
          Decode(requests[0], f) == RecoveryRequest(i.part.sender, i.part.frameId, 0)
      else requests == []
  {
    var i := Decode(raw, fresh_);
    if IsVideo(i) {
      var after := Then(h, C.Receive(raw, fresh_));
      SendersIndependent(h, i.part.sender);
      SendersIndependent(after, i.part.sender);
      WaitsExactly(DecoderRun(after, i.part.sender));
      WaitsAfterPart(C.RunOf(h).c, raw, fresh_);
      forall f: nat -> byte
        ensures Decode(RecoveryDatagram(i.part.sender, i.part.frameId), f) ==
          RecoveryRequest(i.part.sender, i.part.frameId, 0)
      {
        DecodeInvertsRecovery(i.part.sender, i.part.frameId, f);
      }
    }
  }

  /** The part's sender lacks a key frame once the part was received. */
  ghost predicate Lacks(h: C.History, raw: seq<byte>, fresh_: nat -> byte)
    requires C.Runnable(Then(h, C.Receive(raw, fresh_))) && IsVideo(Decode(raw, fresh_))
  {
    var after := Then(h, C.Receive(raw, fresh_));
    SendersIndependent(after, Decode(raw, fresh_).part.sender);
    LacksKey(DecoderRun(after, Decode(raw, fresh_).part.sender))
  }

  lemma WaitsAfterPart(c: Client, raw: seq<byte>, fresh_: nat -> byte)
    requires CanReceive(c, raw, fresh_) && IsVideo(Decode(raw, fresh_))
    ensures var d := Decode(raw, fresh_).part;
      && D.CanAdd(DecoderOf(c, d.sender), Some(d))
      && DecoderOf(ReceiveStep(c, raw, fresh_).c, d.sender) == Feed(DecoderOf(c, d.sender), d).st
  {}
}
