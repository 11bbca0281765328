/** What next() of the audio decoder does, and that nothing which arrives is held back. */
module AudioLossless {
  import opened Histories
  import opened Wrappers
  import opened Bytes
  import opened SortedMap
  import opened MediaFrame
  import opened MediaProtocol
  import opened Reassembly
  import opened AudioDecoder
  import opened AudioEndToEnd
  import L = VideoLossless

  // ---------------------------------------------------------------- one call

  /** Over every run next() returns the oldest waiting frame, whatever was returned before, and
      nothing only if none waits. */
  lemma NextExactly(h: History)
    requires Runnable(h)
    ensures var r, after := RunOf(h), RunOf(Then(h, Poll));
      if r.st.queue == map[] then after == r
      else
        var id := MinKey(r.st.queue);
        && after.out == r.out + [r.st.queue[id]]
        && after.st == r.st.(queue := r.st.queue - {id}, last := id)
  {
    var r := RunOf(h);
    assert RunOf(Then(h, Poll)) == PollRun(r);
    assert r.out + [] == r.out;
  }

  /** What add() answers: a part of a frame not newer than the last returned one, or one that is
      there already, is deleted and changes nothing else; any other one is stored. */
  lemma AddVerdict(st: State, datagram: Option<Datagram>)
    requires CanAdd(st, datagram)
    ensures var a := AddStep(st, datagram);
      match datagram
      case None => a.error == InvalidParameterError && a.st == st
      case Some(d) =>
        if d.frameId <= st.last || Occupied(st.buffers, d) then
          a.error == AlreadyProcessedFrameError && a.st == st.(freed := st.freed + multiset{d})
        else
          var slots := Insert(st.buffers, d)[d.frameId];
          && a.error == NoError && a.st.last == st.last
          && (!Complete(slots) ==> a.st.queue == st.queue)
          && (Complete(slots) ==>
                var frame := Deserialize(Join(Filled(slots)));
                a.st.queue == KeepLargest(st.queue[frame.time := frame], 16))
  {}

  // ---------------------------------------------------------------- next() after every arrival

  ghost predicate Fed(h: History) {
    h.Start? || (h.e == Poll && h.prev.Then? && h.prev.e.Arrive? && Fed(h.prev.prev))
  }

  /** The frame that an arrival completes. */
  ghost function Completed(st: State, d: Option<Datagram>): seq<Frame>
    requires CanAdd(st, d)
  {
    if d.Some? && d.value.frameId > st.last && !Occupied(st.buffers, d.value)
       && Complete(Insert(st.buffers, d.value)[d.value.frameId])
    then [Deserialize(Join(Filled(Insert(st.buffers, d.value)[d.value.frameId])))]
    else []
  }

  ghost function Built(h: History): seq<Frame>
    requires Runnable(h)
  {
    if h.Start? then []
    else Built(h.prev) + (if h.e.Arrive? then Completed(RunOf(h.prev).st, h.e.datagram) else [])
  }

  ghost function ArriveThenPoll(r: Run, d: Option<Datagram>): Run
    requires CanAdd(r.st, d)
  {
    PollRun(r.(st := AddStep(r.st, d).st))
  }

  lemma ArriveThenPollRuns(h: History, d: Option<Datagram>)
    requires Runnable(h) && CanAdd(RunOf(h).st, d)
    ensures var after := Then(Then(h, Arrive(d)), Poll);
      && Runnable(after) && RunOf(after) == ArriveThenPoll(RunOf(h), d)
      && Built(after) == Built(h) + Completed(RunOf(h).st, d)
  {
    var mid := Then(h, Arrive(d));
    assert Runnable(mid) && RunOf(mid) == RunOf(h).(st := AddStep(RunOf(h).st, d).st);
    assert Built(Then(mid, Poll)) == Built(mid) + [];
  }

  lemma FedOnce(r: Run, d: Option<Datagram>)
    requires CanAdd(r.st, d) && r.st.queue == map[]
    ensures ArriveThenPoll(r, d).st.queue == map[]
    ensures ArriveThenPoll(r, d).out == r.out + Completed(r.st, d)
  {
    if Completed(r.st, d) != [] {
      var frame := Completed(r.st, d)[0];
      assert map[][frame.time := frame] == map[frame.time := frame];
      assert AddStep(r.st, d).st.queue == map[frame.time := frame];
      MinKeyIs(map[frame.time := frame], frame.time);
    } else {
      assert r.out + [] == r.out;
    }
  }

  /** When next() is called after every arrival, the frames handed out are exactly the completed
      ones, in the order in which they completed. */
  lemma {:induction false} EveryCompletedComesOut(h: History)
    requires Runnable(h) && Fed(h)
    ensures RunOf(h).st.queue == map[] && RunOf(h).out == Built(h)
  {
    if h.Then? {
      var g := h.prev.prev;
      EveryCompletedComesOut(g);
      FedOnce(RunOf(g), h.prev.e.datagram);
      ArriveThenPollRuns(g, h.prev.e.datagram);
    }
  }

  // ---------------------------------------------------------------- nothing lost

  /** Frames numbered from 1 by the encoder. */
  ghost predicate Stream(frames: seq<Frame>) {
    && |frames| < 0xFFFF_FFFF_FFFF_FFFF
    && forall i :: 0 <= i < |frames| ==>
         frames[i].time == i + 1 && |frames[i].data| + 16 <= 0xFFFF * AudioMedia.MaxPayload()
  }

  ghost function PartsOf(sender: i32, frame: Frame): seq<Datagram>
    requires |frame.data| + 16 <= 0xFFFF * AudioMedia.MaxPayload()
  {
    Parts(AudioMedia, sender, frame.time, Serialize(frame))
  }

  ghost function Receive(h: History, parts: seq<Datagram>, order: seq<int>): History
    requires L.InRange(order, |parts|)
  {
    if order == [] then h
    else
      var n := |order| - 1;
      Then(Then(Receive(h, parts, order[..n]), Arrive(Some(parts[order[n]]))), Poll)
  }

  ghost predicate Orders(sender: i32, frames: seq<Frame>, orders: seq<seq<int>>)
    requires Stream(frames)
  {
    && |orders| == |frames|
    && forall n :: 0 <= n < |frames| ==> L.CoversAll(orders[n], |PartsOf(sender, frames[n])|)
  }

  ghost function ReceiveFrames(sender: i32, frames: seq<Frame>, orders: seq<seq<int>>, n: nat): History
    requires Stream(frames) && Orders(sender, frames, orders) && n <= |frames|
  {
    if n == 0 then Start
    else Receive(ReceiveFrames(sender, frames, orders, n - 1), PartsOf(sender, frames[n - 1]), orders[n - 1])
  }

  ghost predicate Settled(r: Run, frames: seq<Frame>, n: nat)
    requires n <= |frames|
  {
    && r.out == frames[..n] && r.st.queue == map[] && r.st.last == n
    && forall f :: f in r.st.buffers ==> f <= n
  }

  ghost predicate Halfway(r: Run, frames: seq<Frame>, n: nat, parts: seq<Datagram>, seen: set<int>)
    requires n <= |frames| < 0xFFFF_FFFF_FFFF_FFFF
  {
    && L.Filling(r.st.buffers, n + 1, parts, seen)
    && r.out == frames[..n] && r.st.queue == map[] && r.st.last == n
  }

  ghost predicate InRound(r: Run, frames: seq<Frame>, n: nat, parts: seq<Datagram>, seen: set<int>)
    requires n < |frames| < 0xFFFF_FFFF_FFFF_FFFF
  {
    if L.Covers(seen, |parts|) then Settled(r, frames, n + 1) else Halfway(r, frames, n, parts, seen)
  }

  /** Frame n + 1 is the next of the stream, and the parts are its parts. */
  ghost predicate Next(frames: seq<Frame>, n: nat, parts: seq<Datagram>)
    requires n < |frames|
  {
    Deserialize(Join(parts)) == frames[n] && frames[n].time == n + 1
  }

  lemma RepeatStep(r: Run, d: Datagram)
    requires r.st.queue == map[]
    requires d.frameId <= r.st.last || (Addressable(r.st.buffers, d) && Occupied(r.st.buffers, d))
    ensures CanAdd(r.st, Some(d))
    ensures ArriveThenPoll(r, Some(d)) == r.(st := r.st.(freed := r.st.freed + multiset{d}))
  {
    assert r.out + [] == r.out;
  }

  /** A new part of the newest frame: stored, and the frame is complete when it is the last. */
  lemma PartArrives(st: State, id: u64, parts: seq<Datagram>, seen: set<int>, i: nat)
    requires L.Numbered(parts, id) && i < |parts| && i !in seen && L.Filling(st.buffers, id, parts, seen)
    requires st.last < id
    ensures CanAdd(st, Some(parts[i]))
    ensures L.Filling(AddStep(st, Some(parts[i])).st.buffers, id, parts, seen + {i})
    ensures AddStep(st, Some(parts[i])).st.last == st.last
    ensures Completed(st, Some(parts[i])) == if L.Covers(seen + {i}, |parts|) then [Deserialize(Join(parts))] else []
  {
    L.SlotFilled(st.buffers, id, parts, seen, i);
    L.FillingKept(Insert(st.buffers, parts[i]), id, parts, seen + {i});
    L.CompleteWhenCovered(parts, seen + {i});
    AddStores(st, parts[i]);
  }

  lemma PollKeepsBuffers(r: Run, d: Option<Datagram>)
    requires CanAdd(r.st, d) && r.st.queue == map[]
    ensures ArriveThenPoll(r, d).st.buffers == AddStep(r.st, d).st.buffers
    ensures ArriveThenPoll(r, d).st.last ==
      if Completed(r.st, d) == [] then AddStep(r.st, d).st.last else Completed(r.st, d)[0].time
  {
    if Completed(r.st, d) != [] {
      var frame := Completed(r.st, d)[0];
      assert map[][frame.time := frame] == map[frame.time := frame];
      MinKeyIs(map[frame.time := frame], frame.time);
    }
  }

  /** What a new part and next() make of the run. */
  lemma NewPartOutcome(r: Run, id: u64, parts: seq<Datagram>, seen: set<int>, i: nat)
    requires L.Numbered(parts, id) && i < |parts| && i !in seen && L.Filling(r.st.buffers, id, parts, seen)
    requires r.st.last < id && r.st.queue == map[]
    ensures CanAdd(r.st, Some(parts[i]))
    ensures var after, done := ArriveThenPoll(r, Some(parts[i])), L.Covers(seen + {i}, |parts|);
      && L.Filling(after.st.buffers, id, parts, seen + {i}) && after.st.queue == map[]
      && after.out == (if done then r.out + [Deserialize(Join(parts))] else r.out)
      && after.st.last == (if done then Deserialize(Join(parts)).time else r.st.last)
  {
    PartArrives(r.st, id, parts, seen, i);
    FedOnce(r, Some(parts[i]));
    PollKeepsBuffers(r, Some(parts[i]));
    assert r.out + [] == r.out;
  }

  lemma NewPartStep(r: Run, frames: seq<Frame>, n: nat, parts: seq<Datagram>, seen: set<int>, i: nat)
    requires n < |frames| < 0xFFFF_FFFF_FFFF_FFFF && L.Numbered(parts, n + 1) && Next(frames, n, parts)
    requires Halfway(r, frames, n, parts, seen) && i < |parts| && i !in seen
    ensures CanAdd(r.st, Some(parts[i]))
    ensures InRound(ArriveThenPoll(r, Some(parts[i])), frames, n, parts, seen + {i})
  {
    NewPartOutcome(r, n + 1, parts, seen, i);
    if L.Covers(seen + {i}, |parts|) {
      LastPartSettles(ArriveThenPoll(r, Some(parts[i])), frames, n);
    }
  }

  lemma LastPartSettles(after: Run, frames: seq<Frame>, n: nat)
    requires n < |frames| && after.out == frames[..n] + [frames[n]]
    requires after.st.queue == map[] && after.st.last == n + 1 && forall f :: f in after.st.buffers ==> f <= n + 1
    ensures Settled(after, frames, n + 1)
  {
    assert frames[..n + 1] == frames[..n] + [frames[n]];
  }

  /** Any part of the frame, seen before or not. */
  lemma RoundStep(r: Run, frames: seq<Frame>, n: nat, parts: seq<Datagram>, seen: set<int>, i: nat)
    requires n < |frames| < 0xFFFF_FFFF_FFFF_FFFF && L.Numbered(parts, n + 1) && Next(frames, n, parts)
    requires InRound(r, frames, n, parts, seen) && i < |parts|
    ensures CanAdd(r.st, Some(parts[i]))
    ensures InRound(ArriveThenPoll(r, Some(parts[i])), frames, n, parts, seen + {i})
  {
    if L.Covers(seen, |parts|) {
      RepeatStep(r, parts[i]);
    } else if i in seen {
      L.SlotsSeen(r.st.buffers, n + 1, parts, seen, i);
      RepeatStep(r, parts[i]);
      assert seen + {i} == seen;
    } else {
      NewPartStep(r, frames, n, parts, seen, i);
    }
  }

  lemma RoundBegins(r: Run, frames: seq<Frame>, n: nat, parts: seq<Datagram>)
    requires n < |frames| < 0xFFFF_FFFF_FFFF_FFFF && L.Numbered(parts, n + 1) && Settled(r, frames, n)
    ensures InRound(r, frames, n, parts, {})
  {
    var none: set<int> := {};
    assert 0 < |parts| && 0 !in none;
    assert !L.Covers(none, |parts|);
  }

  lemma {:induction false} RoundRuns(h: History, frames: seq<Frame>, n: nat, parts: seq<Datagram>, order: seq<int>)
    requires n < |frames| < 0xFFFF_FFFF_FFFF_FFFF && L.Numbered(parts, n + 1) && Next(frames, n, parts)
    requires Runnable(h) && Settled(RunOf(h), frames, n) && L.InRange(order, |parts|)
    ensures Runnable(Receive(h, parts, order))
    ensures InRound(RunOf(Receive(h, parts, order)), frames, n, parts, L.Seen(order))
  {
    if order == [] {
      assert L.Seen(order) == {};
      RoundBegins(RunOf(h), frames, n, parts);
    } else {
      var k := |order| - 1;
      RoundRuns(h, frames, n, parts, order[..k]);
      L.SeenStep(order);
      RoundStep(RunOf(Receive(h, parts, order[..k])), frames, n, parts, L.Seen(order[..k]), order[k]);
      ArriveThenPollRuns(Receive(h, parts, order[..k]), Some(parts[order[k]]));
    }
  }

  lemma PartsOfFrame(sender: i32, frame: Frame)
    requires |frame.data| + 16 <= 0xFFFF * AudioMedia.MaxPayload()
    ensures L.Numbered(PartsOf(sender, frame), frame.time)
    ensures Deserialize(Join(PartsOf(sender, frame))) == frame
  {
    var data := Serialize(frame);
    PartCountIsCeiling(AudioMedia, |data|);
    SplitPartition(AudioMedia, sender, frame.time, data);
    SerializeRoundTrip(frame, []);
    assert data + [] == data;
  }

  lemma OneMoreFrame(h: History, sender: i32, frames: seq<Frame>, n: nat, order: seq<int>)
    requires Stream(frames) && n < |frames| && Runnable(h) && Settled(RunOf(h), frames, n)
    requires L.CoversAll(order, |PartsOf(sender, frames[n])|)
    ensures Runnable(Receive(h, PartsOf(sender, frames[n]), order))
    ensures Settled(RunOf(Receive(h, PartsOf(sender, frames[n]), order)), frames, n + 1)
  {
    PartsOfFrame(sender, frames[n]);
    assert L.Covers(L.Seen(order), |PartsOf(sender, frames[n])|);
    RoundRuns(h, frames, n, PartsOf(sender, frames[n]), order);
  }

  /** Without loss every audio frame comes out, once and in order, however the parts of each
      frame are reordered and repeated on the way. */
  lemma {:induction false} LosslessDelivery(sender: i32, frames: seq<Frame>, orders: seq<seq<int>>, n: nat)
    requires Stream(frames) && Orders(sender, frames, orders) && n <= |frames|
    ensures Runnable(ReceiveFrames(sender, frames, orders, n))
    ensures Settled(RunOf(ReceiveFrames(sender, frames, orders, n)), frames, n)
  {
    if n > 0 {
      LosslessDelivery(sender, frames, orders, n - 1);
      OneMoreFrame(ReceiveFrames(sender, frames, orders, n - 1), sender, frames, n - 1, orders[n - 1]);
    }
  }
}
