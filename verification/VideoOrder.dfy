/** Whether a video frame can come out twice, for frames that carry the number of their
    datagrams. */
module VideoOrder {
  import opened Histories
  import opened Wrappers
  import opened Bytes
  import opened SortedMap
  import opened MediaFrame
  import opened MediaProtocol
  import opened Reassembly
  import opened HonestFrames
  import opened VideoDecoder
  import opened VideoDecoderRuns
  import opened VideoEndToEnd

  // ---------------------------------------------------------------- strictly increasing

  /** The part completes a frame 256 or more behind the last consumed one. */
  ghost predicate CompletesLate(st: State, dpart: Option<Datagram>)
    requires CanAdd(st, dpart)
  {
    AddStep(st, dpart).built.Some? && dpart.value.frameId + 256 <= st.last
  }

  /** No part that arrived completed a frame so late. */
  ghost predicate OnTime(h: History)
    requires Runnable(h)
  {
    h.Start? || (OnTime(h.prev) && (h.e.Arrive? ==> !CompletesLate(RunOf(h.prev).st, h.e.dpart)))
  }

  /** Everything waiting is newer than everything consumed or handed out. */
  ghost predicate AheadOfOutput(st: State, out: seq<Frame>) {
    && KeyedByTime(st)
    && (forall k :: k in st.queue ==> st.last < k)
    && (forall i :: 0 <= i < |out| ==> out[i].time <= st.last)
    && StrictlyIncreasing(out)
  }

  /** What a sent part can add to the queue. */
  lemma AddQueues(st: State, sender: i32, corpus: Corpus, d: Datagram)
    requires Sendable(VideoMedia, corpus) && OnlySent(st, sender, corpus) && KeyedByTime(st)
    requires WasSent(SentParts(VideoMedia, sender, corpus), d)
    ensures CanAdd(st, Some(d)) && KeyedByTime(AddStep(st, Some(d)).st)
    ensures AddStep(st, Some(d)).st.last == st.last
    ensures forall k :: k in AddStep(st, Some(d)).st.queue ==>
              k in st.queue ||
              (k == corpus[d.frameId].time && AddStep(st, Some(d)).built.Some? && !PassedOver(st.last, d.frameId))
  {
    var sent := SentParts(VideoMedia, sender, corpus);
    SentPartsWellNumbered(VideoMedia, sender, corpus);
    InsertHonest(st.buffers, sent, d);
    AddKeepsGate(st, Some(d));
    var slots := Insert(st.buffers, d)[d.frameId];
    if !PassedOver(st.last, d.frameId) && !Occupied(st.buffers, d) && Complete(slots) {
      BuiltFrameWasSent(VideoMedia, sender, corpus, d.frameId, slots);
    }
  }

  lemma ArriveAhead(st: State, out: seq<Frame>, sender: i32, corpus: Corpus, d: Datagram)
    requires Sendable(VideoMedia, corpus) && OnlySent(st, sender, corpus) && TimeIsFrameId(corpus)
    requires WasSent(SentParts(VideoMedia, sender, corpus), d)
    requires AheadOfOutput(st, out) && (CanAdd(st, Some(d)) ==> !CompletesLate(st, Some(d)))
    ensures CanAdd(st, Some(d)) && AheadOfOutput(AddStep(st, Some(d)).st, out)
  {
    AddQueues(st, sender, corpus, d);
  }

  lemma PollAhead(st: State, out: seq<Frame>)
    requires AheadOfOutput(st, out)
    ensures AheadOfOutput(NextStep(st).st, out + AsSeq(NextStep(st).frame))
  {
    if NextStep(st).frame == None {
      assert out + [] == out;
    }
  }

  /** If no part completes a frame 256 or more behind, the times handed out strictly increase
      over every run: no frame comes out twice or late. */
  lemma {:induction false} VideoOrder(h: History, sender: i32, corpus: Corpus)
    requires Sendable(VideoMedia, corpus) && FromChannel(h, sender, corpus) && TimeIsFrameId(corpus)
    requires Runnable(h) && OnTime(h)
    ensures AheadOfOutput(RunOf(h).st, RunOf(h).out)
  {
    match h
    case Start =>
    case Then(prev, e) =>
      EndToEndSafety(prev, sender, corpus);
      VideoOrder(prev, sender, corpus);
      match e
      case Arrive(Some(d)) => ArriveAhead(RunOf(prev).st, RunOf(prev).out, sender, corpus, d);
      case Arrive(None) =>
      case Poll => PollAhead(RunOf(prev).st, RunOf(prev).out);
  }

  // ---------------------------------------------------------------- and exactly then

  /** next() was called after every arrival, as the client's socket does. */
  ghost predicate Fed(h: History) {
    h.Start? || (h.e == Poll && h.prev.Then? && h.prev.e.Arrive? && Fed(h.prev.prev))
  }

  ghost predicate TimesIncrease(taken: seq<Taken>) {
    forall i, j :: 0 <= i < j < |taken| ==> taken[i].frame.time < taken[j].frame.time
  }

  lemma OneMoreTaken(taken: seq<Taken>, t: Taken)
    ensures TimesIncrease(taken + [t]) <==>
      TimesIncrease(taken) && (taken != [] ==> taken[|taken| - 1].frame.time < t.frame.time)
  {
    var all, n := taken + [t], |taken|;
    if TimesIncrease(all) {
      forall i, j | 0 <= i < j < n
        ensures taken[i].frame.time < taken[j].frame.time
      {
        assert all[i].frame.time < all[j].frame.time;
      }
      assert n > 0 ==> all[n - 1].frame.time < all[n].frame.time;
    }
  }

  /** A sent part builds no other frame than the one it was sent for. */
  lemma AddBuilds(st: State, sender: i32, corpus: Corpus, d: Datagram)
    requires Sendable(VideoMedia, corpus) && OnlySent(st, sender, corpus)
    requires WasSent(SentParts(VideoMedia, sender, corpus), d) && CanAdd(st, Some(d))
    ensures AddStep(st, Some(d)).built.Some? ==> AddStep(st, Some(d)).built == Some(corpus[d.frameId])
  {
    if !PassedOver(st.last, d.frameId) && !Occupied(st.buffers, d) {
      var slots := Insert(st.buffers, d)[d.frameId];
      SentPartsWellNumbered(VideoMedia, sender, corpus);
      InsertHonest(st.buffers, SentParts(VideoMedia, sender, corpus), d);
      if Complete(slots) {
        BuiltFrameWasSent(VideoMedia, sender, corpus, d.frameId, slots);
      }
    }
  }

  lemma BuiltOntoEmpty(st: State, d: Datagram, frame: Frame)
    requires CanAdd(st, Some(d)) && st.queue == map[]
    requires AddStep(st, Some(d)).built.Some? ==> AddStep(st, Some(d)).built == Some(frame)
    ensures AddStep(st, Some(d)).built == None ==> AddStep(st, Some(d)).st.queue == map[]
    ensures AddStep(st, Some(d)).built.Some? ==>
      !PassedOver(st.last, d.frameId) && AddStep(st, Some(d)).st.queue == map[frame.time := frame]
  {
    assert map[][frame.time := frame] == map[frame.time := frame];
  }

  /** What a part does to an empty queue: nothing, or the sent frame it completes is there. */
  lemma BuiltAlone(st: State, sender: i32, corpus: Corpus, d: Datagram)
    requires Sendable(VideoMedia, corpus) && OnlySent(st, sender, corpus) && st.queue == map[]
    requires WasSent(SentParts(VideoMedia, sender, corpus), d)
    ensures CanAdd(st, Some(d)) && GateOf(AddStep(st, Some(d)).st) == GateOf(st)
    ensures AddStep(st, Some(d)).built == None ==> AddStep(st, Some(d)).st.queue == map[]
    ensures AddStep(st, Some(d)).built.Some? ==>
      && !PassedOver(st.last, d.frameId)
      && AddStep(st, Some(d)).st.queue == map[corpus[d.frameId].time := corpus[d.frameId]]
  {
    var sent := SentParts(VideoMedia, sender, corpus);
    SentPartsWellNumbered(VideoMedia, sender, corpus);
    InsertHonest(st.buffers, sent, d);
    AddBuilds(st, sender, corpus, d);
    BuiltOntoEmpty(st, d, corpus[d.frameId]);
  }

  /** next() with one waiting frame consumes it, or drops it before the first key frame. */
  lemma PollAlone(st: State, frame: Frame, taken: seq<Taken>)
    requires st.queue == map[frame.time := frame] && !PassedOver(st.last, frame.time)
    requires InPhase(GateOf(st), taken)
    ensures NextStep(st).st.queue == map[]
    ensures TimesIncrease(taken + NextStep(st).taken) <==> TimesIncrease(taken) && frame.time + 256 > st.last
  {
    MinKeyIs(st.queue, frame.time);
    if NextStep(st).taken == [] {
      assert taken + [] == taken;
    } else {
      OneMoreTaken(taken, NextStep(st).taken[0]);
    }
  }

  lemma PollNone(st: State, taken: seq<Taken>)
    requires st.queue == map[]
    ensures NextStep(st).st.queue == map[] && taken + NextStep(st).taken == taken
  {}

  lemma FeedOrder(r: Run, sender: i32, corpus: Corpus, d: Datagram)
    requires Sendable(VideoMedia, corpus) && OnlySent(r.st, sender, corpus) && TimeIsFrameId(corpus)
    requires WasSent(SentParts(VideoMedia, sender, corpus), d)
    requires r.st.queue == map[] && InPhase(GateOf(r.st), r.taken)
    ensures CanAdd(r.st, Some(d)) && ArriveThenPoll(r, d).st.queue == map[]
    ensures TimesIncrease(ArriveThenPoll(r, d).taken) <==> TimesIncrease(r.taken) && !CompletesLate(r.st, Some(d))
  {
    BuiltAlone(r.st, sender, corpus, d);
    if AddStep(r.st, Some(d)).built.Some? {
      PollAlone(AddStep(r.st, Some(d)).st, corpus[d.frameId], r.taken);
    } else {
      PollNone(AddStep(r.st, Some(d)).st, r.taken);
    }
  }

  /** When next() is called after every arrival, the consumed times strictly increase if and
      only if no part completed a frame 256 or more behind. */
  lemma {:induction false} OrderExact(h: History, sender: i32, corpus: Corpus)
    requires Sendable(VideoMedia, corpus) && FromChannel(h, sender, corpus) && TimeIsFrameId(corpus)
    requires Runnable(h) && Fed(h)
    ensures RunOf(h).st.queue == map[]
    ensures TimesIncrease(RunOf(h).taken) <==> OnTime(h)
  {
    if h.Then? {
      var g := h.prev.prev;
      OrderExact(g, sender, corpus);
      EndToEndSafety(g, sender, corpus);
      OutputDiscipline(g);
      match h.prev.e
      case Arrive(Some(d)) =>
        FeedOrder(RunOf(g), sender, corpus, d);
        ArriveThenPollRuns(g, d);
      case Arrive(None) =>
        PollNone(RunOf(g).st, RunOf(g).taken);
    }
  }

  // ---------------------------------------------------------------- key frames of one part

  /** The one part of a key frame. */
  ghost predicate OnePart(d: Datagram, frame: Frame) {
    && d.index == 0 && d.count == 1 && d.frameId == frame.time && frame.kind == KEY
    && Deserialize(Join([d])) == frame
  }

  lemma OnePartArrives(st: State, d: Datagram, frame: Frame)
    requires OnePart(d, frame) && d.frameId !in st.buffers && st.queue == map[]
    ensures CanAdd(st, Some(d))
    ensures var a := AddStep(st, Some(d)).st;
      && GateOf(a) == GateOf(st)
      && (PassedOver(st.last, d.frameId) ==> a.queue == map[])
      && (!PassedOver(st.last, d.frameId) ==>
            && a.queue == map[frame.time := frame]
            && a.buffers == KeepLargest(st.buffers[d.frameId := [Some(d)]], MAX_DISTINCT_FRAMES))
  {
    assert SlotsFor(st.buffers, d) == [None] && [None][0 := Some(d)] == [Some(d)];
    if !PassedOver(st.last, d.frameId) {
      assert Insert(st.buffers, d) == st.buffers[d.frameId := [Some(d)]];
      assert Filled([Some(d)]) == [d];
      assert map[][frame.time := frame] == map[frame.time := frame];
    }
  }

  lemma KeyFrameOut(st: State, frame: Frame)
    requires st.queue == map[frame.time := frame] && frame.kind == KEY && !PassedOver(st.last, frame.time)
    ensures var p := NextStep(st);
      && p.frame == Some(frame) && p.st.queue == map[] && p.st.buffers == st.buffers
      && GateOf(p.st) == Gate(frame.time, NORMAL, st.keyCount + 1)
  {
    MinKeyIs(st.queue, frame.time);
  }

  /** A key frame of one part whose buffer is gone comes out again if and only if it is newer
      than the last consumed frame, or at least 256 older. */
  lemma KeyFrameAgain(st: State, d: Datagram, frame: Frame)
    requires OnePart(d, frame) && d.frameId !in st.buffers && st.queue == map[]
    ensures CanAdd(st, Some(d))
    ensures NextStep(AddStep(st, Some(d)).st).frame == Some(frame) <==>
              frame.time > st.last || st.last - frame.time >= 256
  {
    OnePartArrives(st, d, frame);
    if !PassedOver(st.last, frame.time) {
      KeyFrameOut(AddStep(st, Some(d)).st, frame);
    }
  }

  // ---------------------------------------------------------------- a run that repeats a frame

  /** Frame 1, and sixteen frames far behind it. */
  function Id(j: nat): u64
    requires j < 17
  {
    if j == 0 then 1 else 300 + j
  }

  function KeyFrame(j: nat): Frame
    requires j < 17
  {
    Frame(Id(j), KEY, [])
  }

  ghost function PartNo(sender: i32, j: nat): Datagram
    requires j < 17
  {
    PartNoIsOnePart(sender, j);
    Parts(VideoMedia, sender, Id(j), Serialize(KeyFrame(j)))[0]
  }

  lemma PartNoIsOnePart(sender: i32, j: nat)
    requires j < 17
    ensures var parts := Parts(VideoMedia, sender, Id(j), Serialize(KeyFrame(j)));
      |parts| == 1 && OnePart(parts[0], KeyFrame(j))
  {
    var data := Serialize(KeyFrame(j));
    var parts := Parts(VideoMedia, sender, Id(j), data);
    PartCountIsCeiling(VideoMedia, |data|);
    SplitPartition(VideoMedia, sender, Id(j), data);
    assert parts == [parts[0]];
    SerializeRoundTrip(KeyFrame(j), []);
    assert data + [] == data;
  }

  /** Each of the first k parts arrives once, next() being called after each. */
  ghost function Keys(sender: i32, k: nat): History
    requires k <= 17
  {
    if k == 0 then Start else Then(Then(Keys(sender, k - 1), Arrive(Some(PartNo(sender, k - 1)))), Poll)
  }

  ghost function FirstFrames(k: nat): seq<Frame>
    requires k <= 17
  {
    seq(k, j requires 0 <= j < k => KeyFrame(j))
  }

  ghost predicate AfterKeys(r: Run, k: nat)
    requires k <= 17
  {
    && r.out == FirstFrames(k)
    && r.st.queue == map[] && r.st.last == (if k == 0 then 0 else Id(k - 1))
    && |r.st.buffers| == (if k <= 16 then k else 16)
    && (forall f :: f in r.st.buffers ==> 1 <= f <= r.st.last)
    && (k == 17 ==> 1 !in r.st.buffers)
  }

  lemma SmallestDropped<T>(m: map<u64, T>, n: nat, k: u64)
    requires |m| > n && forall j :: j in m ==> k <= j
    ensures k !in KeepLargest(m, n)
  {
    var r := KeepLargest(m, n);
    assert r.Keys != m.Keys by {
      assert |r.Keys| == |r| && |m.Keys| == |m|;
    }
    var x :| x in m && x !in r;
  }

  lemma SizeWithNew<T>(m: map<u64, T>, k: u64, v: T)
    requires k !in m
    ensures |m[k := v]| == |m| + 1
  {
    assert m[k := v].Keys == m.Keys + {k};
    assert |m[k := v]| == |m[k := v].Keys| && |m| == |m.Keys|;
  }

  lemma BuffersAfterKey(b: Buffers, k: nat, d: Datagram)
    requires k < 17 && d.frameId == Id(k) && |b| == k
    requires forall f :: f in b ==> 1 <= f < Id(k)
    ensures var after := KeepLargest(b[d.frameId := [Some(d)]], MAX_DISTINCT_FRAMES);
      && |after| == (if k < 16 then k + 1 else 16)
      && (forall f :: f in after ==> 1 <= f <= Id(k))
      && (k == 16 ==> 1 !in after)
  {
    SizeWithNew(b, d.frameId, [Some(d)]);
    if k == 16 {
      SmallestDropped(b[d.frameId := [Some(d)]], MAX_DISTINCT_FRAMES, 1);
    }
  }

  /** The part of a new key frame arrives, and next() hands the frame out. */
  lemma KeyFed(r: Run, d: Datagram, frame: Frame)
    requires OnePart(d, frame) && d.frameId !in r.st.buffers && r.st.queue == map[] && r.st.last < frame.time
    ensures CanAdd(r.st, Some(d))
    ensures ArriveThenPoll(r, d).out == r.out + [frame]
    ensures ArriveThenPoll(r, d).st.queue == map[] && ArriveThenPoll(r, d).st.last == frame.time
    ensures ArriveThenPoll(r, d).st.buffers == KeepLargest(r.st.buffers[d.frameId := [Some(d)]], MAX_DISTINCT_FRAMES)
  {
    OnePartArrives(r.st, d, frame);
    KeyFrameOut(AddStep(r.st, Some(d)).st, frame);
  }

  lemma OneMoreKey(r: Run, k: nat, d: Datagram, next: Run)
    requires k < 17 && AfterKeys(r, k) && d.frameId == Id(k)
    requires next.out == r.out + [KeyFrame(k)] && next.st.queue == map[] && next.st.last == Id(k)
    requires next.st.buffers == KeepLargest(r.st.buffers[d.frameId := [Some(d)]], MAX_DISTINCT_FRAMES)
    ensures AfterKeys(next, k + 1)
  {
    assert r.st.last < Id(k);
    BuffersAfterKey(r.st.buffers, k, d);
    assert FirstFrames(k + 1) == FirstFrames(k) + [KeyFrame(k)];
  }

  lemma NextKey(r: Run, k: nat, d: Datagram)
    requires k < 17 && AfterKeys(r, k) && OnePart(d, KeyFrame(k))
    ensures CanAdd(r.st, Some(d))
    ensures AfterKeys(ArriveThenPoll(r, d), k + 1)
  {
    assert r.st.last < Id(k);
    KeyFed(r, d, KeyFrame(k));
    OneMoreKey(r, k, d, ArriveThenPoll(r, d));
  }

  lemma {:induction false} KeysRun(sender: i32, k: nat)
    requires k <= 17
    ensures Runnable(Keys(sender, k)) && AfterKeys(RunOf(Keys(sender, k)), k)
  {
    if k > 0 {
      KeysRun(sender, k - 1);
      PartNoIsOnePart(sender, k - 1);
      NextKey(RunOf(Keys(sender, k - 1)), k - 1, PartNo(sender, k - 1));
      ArriveThenPollRuns(Keys(sender, k - 1), PartNo(sender, k - 1));
    }
  }

  ghost function KeyCorpus(): Corpus {
    map j | 0 <= j < 17 :: Id(j) := KeyFrame(j)
  }

  lemma {:induction false} KeysFromChannel(sender: i32, k: nat)
    requires k <= 17
    ensures Sendable(VideoMedia, KeyCorpus()) && TimeIsFrameId(KeyCorpus())
    ensures FromChannel(Keys(sender, k), sender, KeyCorpus())
  {
    if k > 0 {
      KeysFromChannel(sender, k - 1);
      PartNoSent(sender, k - 1);
    }
  }

  lemma PartNoSent(sender: i32, j: nat)
    requires j < 17
    ensures Sendable(VideoMedia, KeyCorpus())
    ensures WasSent(SentParts(VideoMedia, sender, KeyCorpus()), PartNo(sender, j))
  {
    PartNoIsOnePart(sender, j);
    assert Id(j) in KeyCorpus() && KeyCorpus()[Id(j)] == KeyFrame(j);
  }

  /** Frame 1 and sixteen later key frames are sent and handed out, and the part of frame 1
      comes once more: frame 1 is handed out twice. */
  lemma FrameHandedOutTwice(sender: i32)
    ensures var h := Then(Then(Keys(sender, 17), Arrive(Some(PartNo(sender, 0)))), Poll);
      && Sendable(VideoMedia, KeyCorpus()) && TimeIsFrameId(KeyCorpus())
      && FromChannel(h, sender, KeyCorpus()) && Runnable(h)
      && RunOf(h).out == FirstFrames(17) + [KeyFrame(0)] && RunOf(h).out[0] == RunOf(h).out[17]
  {
    KeysRun(sender, 17);
    KeysFromChannel(sender, 17);
    PartNoSent(sender, 0);
    PartNoIsOnePart(sender, 0);
    KeyFrameAgain(RunOf(Keys(sender, 17)).st, PartNo(sender, 0), KeyFrame(0));
    ArriveThenPollRuns(Keys(sender, 17), PartNo(sender, 0));
  }
}
