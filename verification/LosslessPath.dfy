/** From one client's frames through the relay to another client, when nothing gets lost. */
module LosslessPath {
  import opened Histories
  import opened Wrappers
  import opened Bytes
  import opened MediaFrame
  import opened MediaProtocol
  import opened Membership
  import opened Relay
  import opened ClientMedia
  import S = ServerState
  import R = ServerRuns
  import C = ClientEndToEnd
  import V = VideoDecoderRuns
  import L = VideoLossless
  import VideoDecoder
  import D = Delivery

  /** Client c streams the frames under a sender id, and p is to see them. */
  datatype Path = Path(c: ClientId, p: ClientId, sender: i32, frames: seq<Frame>)

  ghost predicate Streams(path: Path) {
    L.Stream(path.frames) && path.frames != []
  }

  ghost function PartsAt(path: Path, n: nat): seq<Datagram>
    requires Streams(path) && n < |path.frames|
  {
    L.PartsOf(path.sender, path.frames[n])
  }

  // ---------------------------------------------------------------- what p receives

  /** The copies of a datagram that the relay writes to p. */
  ghost function Copies(text: R.Text, h: R.History, p: ClientId, x: Arrival): nat
    requires R.Possible(text, h)
  {
    var l := R.RunOf(text, h);
    if p in l.server.clients then D.CopiesTo(l.server, p, Forward(l.installed, x), x) else 0
  }

  ghost function Again(h: C.History, raw: seq<byte>, k: nat, fresh_: nat -> byte): C.History {
    if k == 0 then h else Then(Again(h, raw, k - 1, fresh_), C.Receive(raw, fresh_))
  }

  /** Everything the relay writes to p arrives there, in order. */
  ghost function Received(text: R.Text, g: R.History, p: ClientId, fresh_: nat -> byte): C.History
    requires R.Possible(text, g)
  {
    if g.Start? then Start
    else if g.e.Request? then Received(text, g.prev, p, fresh_)
    else Again(Received(text, g.prev, p, fresh_), Taken(g.e.x), Copies(text, g.prev, p, g.e.x), fresh_)
  }

  /** What p received was written by the relay. */
  lemma {:induction false} AgainFromServer(h: C.History, raw: seq<byte>, k: nat, fresh_: nat -> byte,
      written: seq<Packet>)
    requires D.FromServer(h, written)
    requires k > 0 ==> exists i :: 0 <= i < |written| && written[i].data == raw
    ensures D.FromServer(Again(h, raw, k, fresh_), written)
  {
    if k > 0 {
      AgainFromServer(h, raw, k - 1, fresh_, written);
    }
  }

  lemma {:induction false} MoreWritten(h: C.History, written: seq<Packet>, more: seq<Packet>)
    requires D.FromServer(h, written)
    ensures D.FromServer(h, written + more)
  {
    if h.Then? {
      MoreWritten(h.prev, written, more);
      if h.e.Receive? {
        var i :| 0 <= i < |written| && written[i].data == h.e.raw;
        assert (written + more)[i] == written[i];
      }
    }
  }

  lemma CopyWritten(text: R.Text, h: R.History, p: ClientId, x: Arrival) returns (i: nat)
    requires R.Possible(text, h) && Copies(text, h, p, x) > 0
    ensures i < |Forward(R.RunOf(text, h).installed, x)|
    ensures Forward(R.RunOf(text, h).installed, x)[i].data == Taken(x)
  {
    var l := R.RunOf(text, h);
    i := PacketAt(Forward(l.installed, x), D.CopyFor(l.server.clients[p], Taken(x)));
  }

  lemma PacketAt(ps: seq<Packet>, copy: Packet) returns (i: nat)
    requires multiset(ps)[copy] > 0
    ensures i < |ps| && ps[i] == copy
  {
    assert copy in ps;
    i :| i < |ps| && ps[i] == copy;
  }

  lemma {:induction false} ReceivedFromServer(text: R.Text, g: R.History, p: ClientId, fresh_: nat -> byte)
    requires R.Possible(text, g)
    ensures D.FromServer(Received(text, g, p, fresh_), R.RunOf(text, g).sent)
  {
    if g.Then? {
      ReceivedFromServer(text, g.prev, p, fresh_);
      if g.e.Datagram? {
        var before, more := R.RunOf(text, g.prev).sent, Forward(R.RunOf(text, g.prev).installed, g.e.x);
        MoreWritten(Received(text, g.prev, p, fresh_), before, more);
        if Copies(text, g.prev, p, g.e.x) > 0 {
          var i := CopyWritten(text, g.prev, p, g.e.x);
          assert (before + more)[|before| + i].data == Taken(g.e.x);
        }
        AgainFromServer(Received(text, g.prev, p, fresh_), Taken(g.e.x), Copies(text, g.prev, p, g.e.x), fresh_,
            before + more);
      }
    }
  }

  // ---------------------------------------------------------------- what c sends

  /** Frame n + 1 is under way, and these parts of it reached the server. */
  datatype Position = Position(n: nat, seen: set<int>)

  /** A video part that names the sender of the path. */
  ghost predicate OnPath(path: Path, raw: seq<byte>) {
    var i := Decode(raw, _ => 0);
    IsVideo(i) && i.part.sender == path.sender
  }

  ghost function PartIn(raw: seq<byte>): Datagram
    requires IsVideo(Decode(raw, _ => 0))
  {
    Decode(raw, _ => 0).part
  }

  /** A part of the frame under way, seen before or not, or of the next frame once all parts
      were seen. */
  ghost predicate NextPart(path: Path, pos: Position, d: Datagram)
    requires Streams(path)
  {
    && pos.n < |path.frames| && 1 <= d.frameId <= |path.frames|
    && d.index < |PartsAt(path, d.frameId - 1)| && d == PartsAt(path, d.frameId - 1)[d.index]
    && (d.frameId == pos.n + 1 || (d.frameId == pos.n + 2 && L.Covers(pos.seen, |PartsAt(path, pos.n)|)))
  }

  ghost function Advance(pos: Position, d: Datagram): Position {
    if d.frameId == pos.n + 1 then Position(pos.n, pos.seen + {d.index}) else Position(pos.n + 1, {d.index})
  }

  ghost function PositionOf(g: R.History, path: Path): Position {
    if g.Start? then Position(0, {})
    else if g.e.Datagram? && OnPath(path, Taken(g.e.x)) then Advance(PositionOf(g.prev, path), PartIn(Taken(g.e.x)))
    else PositionOf(g.prev, path)
  }

  /** The relay copies the datagram to p: the two share a channel, or are related directly. */
  ghost predicate Reaches(text: R.Text, h: R.History, path: Path, x: Arrival)
    requires R.Possible(text, h)
  {
    var s := R.RunOf(text, h).server;
    && D.VideoFrom(s, path.c, x) && S.StreamsAlone(s, path.c)
    && path.p in s.clients && D.OwnEndpoint(s, path.p)
    && (D.ConferenceThen(R.BaseOf(text, h), s, path.c, path.p) || S.DirectReceiver(s, path.c, path.p))
  }

  /** The parts of c's frames reach the server frame by frame, those of one frame in any order
      and any of them repeatedly, while p may receive them; anything else happens in between. */
  ghost predicate SentInTurn(text: R.Text, g: R.History, path: Path)
    requires R.Possible(text, g) && Streams(path)
  {
    g.Start? || (
      && SentInTurn(text, g.prev, path)
      && (g.e.Datagram? && OnPath(path, Taken(g.e.x)) ==>
            && Carries(path, PositionOf(g.prev, path), Taken(g.e.x), PartIn(Taken(g.e.x)))
            && Reaches(text, g.prev, path, g.e.x)))
  }

  lemma ReachesMeansCopies(text: R.Text, h: R.History, path: Path, x: Arrival)
    requires R.Possible(text, h) && Reaches(text, h, path, x)
    ensures Copies(text, h, path.p, x) > 0
  {
    D.VideoReachesExactly(text, h, path.c, path.p, x);
  }

  // ---------------------------------------------------------------- one sender at p

  /** The part of p's state that concerns one sender. */
  ghost function View(r: C.Run, sender: i32): V.Run {
    V.Run(DecoderOf(r.c, sender), [], C.FramesOf(r.out, sender))
  }

  ghost function AfterReceive(r: C.Run, raw: seq<byte>, fresh_: nat -> byte): C.Run
    requires CanReceive(r.c, raw, fresh_)
  {
    var step := ReceiveStep(r.c, raw, fresh_);
    C.Run(step.c, r.out + step.out)
  }

  ghost predicate SameView(a: V.Run, b: V.Run) {
    a.st == b.st && a.out == b.out
  }

  lemma ReceiveOwn(r: C.Run, d: Datagram, fresh_: nat -> byte)
    requires d.Video? && d.data != [] && VideoDecoder.CanAdd(DecoderOf(r.c, d.sender), Some(d))
    ensures CanReceive(r.c, Encode(d), fresh_)
    ensures SameView(View(AfterReceive(r, Encode(d), fresh_), d.sender), V.ArriveThenPoll(View(r, d.sender), d))
  {
    DecodeInvertsEncode(d, fresh_);
    var step := ReceivePart(r.c, d);
    C.FramesOfMore(r.out, step.out, d.sender);
  }

  lemma ReceiveOther(r: C.Run, raw: seq<byte>, fresh_: nat -> byte, sender: i32)
    requires CanReceive(r.c, raw, fresh_)
    requires IsVideo(Decode(raw, fresh_)) ==> Decode(raw, fresh_).part.sender != sender
    ensures View(AfterReceive(r, raw, fresh_), sender) == View(r, sender)
  {
    C.FramesOfMore(r.out, ReceiveStep(r.c, raw, fresh_).out, sender);
  }

  /** Short reads do not change which sender a datagram names. */
  lemma SenderIsRead(path: Path, raw: seq<byte>, fresh_: nat -> byte)
    ensures OnPath(path, raw) <==> IsVideo(Decode(raw, fresh_)) && Decode(raw, fresh_).part.sender == path.sender
  {}

  // ---------------------------------------------------------------- in step

  /** p is as far with the sender's frames as the parts that reached the server allow. */
  ghost predicate InStep(r: V.Run, path: Path, pos: Position)
    requires Streams(path)
  {
    pos.n < |path.frames| && L.InRound(r, path.frames, pos.n, PartsAt(path, pos.n), pos.seen)
  }

  lemma InStepSame(a: V.Run, b: V.Run, path: Path, pos: Position)
    requires Streams(path) && SameView(a, b) && InStep(a, path, pos)
    ensures InStep(b, path, pos)
  {}

  lemma BeginsInStep(path: Path)
    requires Streams(path)
    ensures InStep(View(C.Run(map[], []), path.sender), path, Position(0, {}))
  {
    L.PartsOfFrame(path.sender, path.frames[0]);
    L.RoundBegins(View(C.Run(map[], []), path.sender), path.frames, 0, PartsAt(path, 0));
  }

  lemma NextFrameBegins(r: V.Run, path: Path, pos: Position)
    requires Streams(path) && InStep(r, path, pos) && pos.n + 1 < |path.frames|
    requires L.Covers(pos.seen, |PartsAt(path, pos.n)|)
    ensures InStep(r, path, Position(pos.n + 1, {}))
  {
    L.PartsOfFrame(path.sender, path.frames[pos.n + 1]);
    L.RoundBegins(r, path.frames, pos.n + 1, PartsAt(path, pos.n + 1));
  }

  lemma PartInStep(r: V.Run, path: Path, pos: Position, i: nat)
    requires Streams(path) && InStep(r, path, pos) && i < |PartsAt(path, pos.n)|
    ensures VideoDecoder.CanAdd(r.st, Some(PartsAt(path, pos.n)[i]))
    ensures InStep(V.ArriveThenPoll(r, PartsAt(path, pos.n)[i]), path, Position(pos.n, pos.seen + {i}))
  {
    L.PartsOfFrame(path.sender, path.frames[pos.n]);
    L.RoundStep(r, path.frames, pos.n, PartsAt(path, pos.n), pos.seen, i);
  }

  lemma SameFrameInStep(r: V.Run, path: Path, pos: Position, d: Datagram)
    requires Streams(path) && InStep(r, path, pos) && NextPart(path, pos, d) && d.frameId == pos.n + 1
    ensures VideoDecoder.CanAdd(r.st, Some(d)) && InStep(V.ArriveThenPoll(r, d), path, Advance(pos, d))
  {
    assert d == PartsAt(path, pos.n)[d.index];
    PartInStep(r, path, pos, d.index);
  }

  /** Any part that may come next keeps p in step. */
  lemma StepInStep(r: V.Run, path: Path, pos: Position, d: Datagram)
    requires Streams(path) && InStep(r, path, pos) && NextPart(path, pos, d)
    ensures VideoDecoder.CanAdd(r.st, Some(d)) && InStep(V.ArriveThenPoll(r, d), path, Advance(pos, d))
  {
    if d.frameId == pos.n + 1 {
      SameFrameInStep(r, path, pos, d);
    } else {
      AdvanceToNext(path, pos, d);
      NextFrameBegins(r, path, pos);
      SameFrameInStep(r, path, Position(pos.n + 1, {}), d);
    }
  }

  lemma AdvanceToNext(path: Path, pos: Position, d: Datagram)
    requires Streams(path) && NextPart(path, pos, d) && d.frameId != pos.n + 1
    ensures pos.n + 1 < |path.frames| && L.Covers(pos.seen, |PartsAt(path, pos.n)|)
    ensures NextPart(path, Position(pos.n + 1, {}), d)
    ensures Advance(Position(pos.n + 1, {}), d) == Advance(pos, d)
  {
    assert {} + {d.index} == {d.index};
  }

  /** A repeated part stays allowed, and changes nothing. */
  lemma RepeatAllowed(path: Path, pos: Position, d: Datagram)
    requires Streams(path) && NextPart(path, pos, d)
    ensures NextPart(path, Advance(pos, d), d) && Advance(Advance(pos, d), d) == Advance(pos, d)
  {
    var next := Advance(pos, d);
    assert d.frameId == next.n + 1 && d.index in next.seen;
    assert next.seen + {d.index} == next.seen;
  }

  lemma PathPart(path: Path, pos: Position, d: Datagram)
    requires Streams(path) && NextPart(path, pos, d)
    ensures d.Video? && d.data != [] && d.sender == path.sender
  {
    var frame := path.frames[d.frameId - 1];
    SplitPartition(VideoMedia, path.sender, frame.time, Serialize(frame));
  }

  /** The datagram carries this part, which may come next; so it may again afterwards. */
  ghost predicate Carries(path: Path, pos: Position, raw: seq<byte>, d: Datagram)
    requires Streams(path)
  {
    raw == Encode(d) && NextPart(path, pos, d)
  }

  lemma ReceiveInStep(r: C.Run, path: Path, pos: Position, raw: seq<byte>, d: Datagram, fresh_: nat -> byte)
    requires Streams(path) && InStep(View(r, path.sender), path, pos) && Carries(path, pos, raw, d)
    ensures CanReceive(r.c, raw, fresh_)
    ensures InStep(View(AfterReceive(r, raw, fresh_), path.sender), path, Advance(pos, d))
  {
    PathPart(path, pos, d);
    StepInStep(View(r, path.sender), path, pos, d);
    ReceiveOwn(r, d, fresh_);
    InStepSame(V.ArriveThenPoll(View(r, path.sender), d), View(AfterReceive(r, raw, fresh_), path.sender),
               path, Advance(pos, d));
  }

  /** The state after k copies of a datagram, as far as they can be received. */
  ghost function RunAgain(r: C.Run, raw: seq<byte>, k: nat, fresh_: nat -> byte): C.Run {
    if k == 0 then r
    else
      var before := RunAgain(r, raw, k - 1, fresh_);
      if CanReceive(before.c, raw, fresh_) then AfterReceive(before, raw, fresh_) else before
  }

  lemma ReceiveRuns(h: C.History, raw: seq<byte>, fresh_: nat -> byte)
    requires C.Runnable(Then(h, C.Receive(raw, fresh_)))
    ensures C.Runnable(h) && CanReceive(C.RunOf(h).c, raw, fresh_)
    ensures C.RunOf(Then(h, C.Receive(raw, fresh_))) == AfterReceive(C.RunOf(h), raw, fresh_)
  {}

  lemma AgainUnfolds(h: C.History, raw: seq<byte>, k: nat, fresh_: nat -> byte)
    ensures Again(h, raw, k, fresh_) ==
      if k == 0 then h else Then(Again(h, raw, k - 1, fresh_), C.Receive(raw, fresh_))
  {}

  lemma {:induction false} RunsAgain(h: C.History, raw: seq<byte>, k: nat, fresh_: nat -> byte)
    requires C.Runnable(h) && C.Runnable(Again(h, raw, k, fresh_))
    ensures C.RunOf(Again(h, raw, k, fresh_)) == RunAgain(C.RunOf(h), raw, k, fresh_)
  {
    AgainUnfolds(h, raw, k, fresh_);
    if k > 0 {
      ReceiveRuns(Again(h, raw, k - 1, fresh_), raw, fresh_);
      RunsAgain(h, raw, k - 1, fresh_);
    }
  }

  /** What the first copy brings about and every further copy keeps holds after any number. */
  lemma {:induction false} CopiesKeep(P: C.Run -> bool, r: C.Run, raw: seq<byte>, k: nat, fresh_: nat -> byte)
    requires CanReceive(r.c, raw, fresh_) && P(AfterReceive(r, raw, fresh_)) && k > 0
    requires forall q :: P(q) ==> CanReceive(q.c, raw, fresh_) && P(AfterReceive(q, raw, fresh_))
    ensures P(RunAgain(r, raw, k, fresh_))
  {
    if k == 1 {
      assert RunAgain(r, raw, 0, fresh_) == r;
    } else {
      CopiesKeep(P, r, raw, k - 1, fresh_);
    }
  }

  /** One or more copies of a part. */
  lemma CopiesInStep(r: C.Run, path: Path, pos: Position, raw: seq<byte>, d: Datagram, k: nat, fresh_: nat -> byte)
    requires Streams(path) && InStep(View(r, path.sender), path, pos) && Carries(path, pos, raw, d) && k > 0
    ensures InStep(View(RunAgain(r, raw, k, fresh_), path.sender), path, Advance(pos, d))
  {
    var next := Advance(pos, d);
    ReceiveInStep(r, path, pos, raw, d, fresh_);
    var P := (q: C.Run) => InStep(View(q, path.sender), path, next);
    forall q | P(q)
      ensures CanReceive(q.c, raw, fresh_) && P(AfterReceive(q, raw, fresh_))
    {
      RepeatAllowed(path, pos, d);
      ReceiveInStep(q, path, next, raw, d, fresh_);
    }
    CopiesKeep(P, r, raw, k, fresh_);
  }

  /** Copies of anything else do not concern the sender. */
  lemma {:induction false} OthersKeepView(r: C.Run, path: Path, raw: seq<byte>, k: nat, fresh_: nat -> byte)
    requires !OnPath(path, raw)
    ensures View(RunAgain(r, raw, k, fresh_), path.sender) == View(r, path.sender)
  {
    if k > 0 {
      var before := RunAgain(r, raw, k - 1, fresh_);
      OthersKeepView(r, path, raw, k - 1, fresh_);
      SenderIsRead(path, raw, fresh_);
      if CanReceive(before.c, raw, fresh_) {
        ReceiveOther(before, raw, fresh_, path.sender);
      }
    }
  }

  // ---------------------------------------------------------------- the whole way

  lemma ReceivedRuns(text: R.Text, g: R.History, p: ClientId, w: C.World, fresh_: nat -> byte)
    requires C.SendableWorld(w) && R.Possible(text, g) && D.HonestArrivals(g, w)
    ensures C.Runnable(Received(text, g, p, fresh_))
  {
    ReceivedFromServer(text, g, p, fresh_);
    D.ThroughTheServer(Received(text, g, p, fresh_), text, g, w);
  }

  lemma {:induction false} StaysInStep(text: R.Text, g: R.History, path: Path, w: C.World, fresh_: nat -> byte)
    requires C.SendableWorld(w) && R.Possible(text, g) && D.HonestArrivals(g, w)
    requires Streams(path) && SentInTurn(text, g, path)
    ensures C.Runnable(Received(text, g, path.p, fresh_))
    ensures InStep(View(C.RunOf(Received(text, g, path.p, fresh_)), path.sender), path, PositionOf(g, path))
  {
    ReceivedRuns(text, g, path.p, w, fresh_);
    if g.Start? {
      BeginsInStep(path);
    } else {
      StaysInStep(text, g.prev, path, w, fresh_);
      if g.e.Datagram? {
        var before, raw := Received(text, g.prev, path.p, fresh_), Taken(g.e.x);
        var k := Copies(text, g.prev, path.p, g.e.x);
        RunsAgain(before, raw, k, fresh_);
        if OnPath(path, raw) {
          ReachesMeansCopies(text, g.prev, path, g.e.x);
          CopiesInStep(C.RunOf(before), path, PositionOf(g.prev, path), raw, PartIn(raw), k, fresh_);
        } else {
          OthersKeepView(C.RunOf(before), path, raw, k, fresh_);
        }
      }
    }
  }

  /** How many frames all of whose parts reached the server. */
  ghost function Done(path: Path, pos: Position): nat
    requires Streams(path) && pos.n < |path.frames|
  {
    if L.Covers(pos.seen, |PartsAt(path, pos.n)|) then pos.n + 1 else pos.n
  }

  lemma InStepOutput(r: V.Run, path: Path, pos: Position)
    requires Streams(path) && InStep(r, path, pos)
    ensures r.out == path.frames[..Done(path, pos)]
  {}

  /** Client to server to client with nothing lost: at any time, whatever else the server and
      the other clients do, p passes on under c's sender id exactly the frames whose parts all
      reached the server, once and in order, although relayed copies and repeated parts
      multiply; and p received nothing but what the relay wrote. */
  lemma LosslessThroughTheServer(text: R.Text, g: R.History, path: Path, w: C.World, fresh_: nat -> byte)
    requires C.SendableWorld(w) && R.Possible(text, g) && D.HonestArrivals(g, w)
    requires Streams(path) && SentInTurn(text, g, path)
    ensures var h := Received(text, g, path.p, fresh_);
      && D.FromServer(h, R.RunOf(text, g).sent)
      && C.Runnable(h) && PositionOf(g, path).n < |path.frames|
      && C.FramesOf(C.RunOf(h).out, path.sender) == path.frames[..Done(path, PositionOf(g, path))]
  {
    ReceivedFromServer(text, g, path.p, fresh_);
    StaysInStep(text, g, path, w, fresh_);
    InStepOutput(View(C.RunOf(Received(text, g, path.p, fresh_)), path.sender), path, PositionOf(g, path));
  }
}
