/** The partner of end-to-end safety: a channel that loses nothing delivers everything. */
module VideoLossless {
  import opened Histories
  import opened Wrappers
  import opened Bytes
  import opened SortedMap
  import opened MediaFrame
  import opened MediaProtocol
  import opened Reassembly
  import opened VideoDecoder
  import opened VideoDecoderRuns

  /** Frames numbered from 1 by the encoder, the first one a key frame. */
  ghost predicate Stream(frames: seq<Frame>) {
    && |frames| < 0xFFFF_FFFF_FFFF_FFFF
    && (forall i :: 0 <= i < |frames| ==>
          frames[i].time == i + 1 && |frames[i].data| + 16 <= 0xFFFF * VideoMedia.MaxPayload())
    && (frames != [] ==> frames[0].kind == KEY)
  }

  ghost function PartsOf(sender: i32, frame: Frame): seq<Datagram>
    requires |frame.data| + 16 <= 0xFFFF * VideoMedia.MaxPayload()
  {
    Parts(VideoMedia, sender, frame.time, Serialize(frame))
  }

  ghost predicate InRange(order: seq<int>, n: nat) {
    forall j :: 0 <= j < |order| ==> 0 <= order[j] < n
  }

  /** Part numbers in the order of arrival: any order, any of them repeated, each at least
      once. */
  ghost predicate CoversAll(order: seq<int>, n: nat) {
    && InRange(order, n)
    && (forall i :: 0 <= i < n ==> i in order)
  }

  /** The parts arrive in that order, next() being called after each. */
  ghost function Receive(h: History, parts: seq<Datagram>, order: seq<int>): History
    requires InRange(order, |parts|)
  {
    if order == [] then h
    else
      var n := |order| - 1;
      Then(Then(Receive(h, parts, order[..n]), Arrive(Some(parts[order[n]]))), Poll)
  }

  /** The frames are sent one after the other, the parts of each arriving in some order. */
  ghost predicate Orders(sender: i32, frames: seq<Frame>, orders: seq<seq<int>>)
    requires Stream(frames)
  {
    && |orders| == |frames|
    && forall n :: 0 <= n < |frames| ==> CoversAll(orders[n], |PartsOf(sender, frames[n])|)
  }

  ghost function ReceiveFrames(sender: i32, frames: seq<Frame>, orders: seq<seq<int>>, n: nat): History
    requires Stream(frames) && Orders(sender, frames, orders) && n <= |frames|
  {
    if n == 0 then Start
    else Receive(ReceiveFrames(sender, frames, orders, n - 1), PartsOf(sender, frames[n - 1]), orders[n - 1])
  }

  // ---------------------------------------------------------------- the newest buffer

  /** A buffer with the seen parts in place. */
  ghost function SeenParts(parts: seq<Datagram>, seen: set<int>): Slots {
    seq(|parts|, i requires 0 <= i < |parts| => if i in seen then Some(parts[i]) else None)
  }

  ghost predicate Numbered(parts: seq<Datagram>, id: u64) {
    && 0 < |parts| <= 0xFFFF
    && forall i :: 0 <= i < |parts| ==> parts[i].frameId == id && parts[i].index == i && parts[i].count == |parts|
  }

  ghost predicate Covers(seen: set<int>, n: nat) {
    forall i :: 0 <= i < n ==> i in seen
  }

  /** In the middle of frame id, the newest one. */
  ghost predicate Filling(b: Buffers, id: u64, parts: seq<Datagram>, seen: set<int>) {
    && (id in b <==> seen != {})
    && (id in b ==> b[id] == SeenParts(parts, seen))
    && forall f :: f in b ==> f <= id
  }

  lemma LargestKept<T>(m: map<u64, T>, n: nat, k: u64)
    requires n > 0 && k in m && forall j :: j in m ==> j <= k
    ensures k in KeepLargest(m, n)
  {
    var r := KeepLargest(m, n);
    assert m.Keys != {};
    assert |r.Keys| == |r| > 0;
    var j :| j in r;
    assert k !in r ==> k < j;
  }

  lemma SlotsSeen(b: Buffers, id: u64, parts: seq<Datagram>, seen: set<int>, i: nat)
    requires Numbered(parts, id) && i < |parts| && Filling(b, id, parts, seen)
    ensures SlotsFor(b, parts[i]) == SeenParts(parts, seen)
    ensures Addressable(b, parts[i]) && (Occupied(b, parts[i]) <==> i in seen)
  {}

  /** A new part of the newest frame goes to its free slot. */
  lemma SlotFilled(b: Buffers, id: u64, parts: seq<Datagram>, seen: set<int>, i: nat)
    requires Numbered(parts, id) && i < |parts| && i !in seen && Filling(b, id, parts, seen)
    ensures Addressable(b, parts[i]) && !Occupied(b, parts[i])
    ensures Filling(Insert(b, parts[i]), id, parts, seen + {i})
  {
    SlotsSeen(b, id, parts, seen, i);
    assert SeenParts(parts, seen)[i := Some(parts[i])] == SeenParts(parts, seen + {i});
  }

  lemma FillingKept(b: Buffers, id: u64, parts: seq<Datagram>, seen: set<int>)
    requires Filling(b, id, parts, seen) && seen != {}
    ensures Filling(KeepLargest(b, MAX_DISTINCT_FRAMES), id, parts, seen)
  {
    LargestKept(b, MAX_DISTINCT_FRAMES, id);
  }

  lemma CompleteWhenCovered(parts: seq<Datagram>, seen: set<int>)
    ensures Complete(SeenParts(parts, seen)) <==> Covers(seen, |parts|)
    ensures Covers(seen, |parts|) ==> Filled(SeenParts(parts, seen)) == parts
  {
    forall i | 0 <= i < |parts|
      ensures SeenParts(parts, seen)[i].Some? <==> i in seen
    {}
  }

  /** A new part of the newest frame: stored, and the frame is built when it is the last one
      missing. */
  lemma PartArrives(st: State, id: u64, parts: seq<Datagram>, seen: set<int>, i: nat)
    requires Numbered(parts, id) && i < |parts| && i !in seen && Filling(st.buffers, id, parts, seen)
    requires st.last < id
    ensures CanAdd(st, Some(parts[i]))
    ensures Filling(AddStep(st, Some(parts[i])).st.buffers, id, parts, seen + {i})
    ensures GateOf(AddStep(st, Some(parts[i])).st) == GateOf(st)
    ensures !Covers(seen + {i}, |parts|) ==> AddStep(st, Some(parts[i])).st.queue == st.queue
    ensures Covers(seen + {i}, |parts|) ==>
      var frame := Deserialize(Join(parts));
      AddStep(st, Some(parts[i])).st.queue == KeepLargest(st.queue[frame.time := frame], MAX_DISTINCT_FRAMES)
  {
    SlotFilled(st.buffers, id, parts, seen, i);
    FillingKept(Insert(st.buffers, parts[i]), id, parts, seen + {i});
    CompleteWhenCovered(parts, seen + {i});
  }

  /** A part that is there already, or of a frame already handed out, changes nothing. */
  lemma RepeatIgnored(st: State, d: Datagram)
    requires PassedOver(st.last, d.frameId) || (Addressable(st.buffers, d) && Occupied(st.buffers, d))
    ensures CanAdd(st, Some(d))
    ensures AddStep(st, Some(d)).st == st.(freed := st.freed + multiset{d})
  {}

  /** The frame just built is the only one waiting, and next() hands it out. */
  lemma NextDelivers(st: State, frame: Frame)
    requires st.queue == map[frame.time := frame]
    requires st.last < 0xFFFF_FFFF_FFFF_FFFF && frame.time == st.last + 1 && st.waitFor == NORMAL
    requires st.keyCount == 0 ==> frame.kind == KEY
    ensures var p := NextStep(st);
      && p.frame == Some(frame)
      && p.st.queue == map[] && GateOpen(p.st, frame.time)
      && p.st.buffers == st.buffers
  {
    MinKeyIs(st.queue, frame.time);
  }

  // ---------------------------------------------------------------- one frame

  /** The gate once frames 1 to n went through. */
  ghost predicate GateOpen(st: State, n: nat) {
    st.last == n && st.waitFor == NORMAL && (st.keyCount > 0 <==> n > 0)
  }

  /** All n frames went through: nothing waits, and the next frame is the next number. */
  ghost predicate Settled(r: Run, frames: seq<Frame>, n: nat)
    requires n <= |frames|
  {
    && r.out == frames[..n]
    && r.st.queue == map[] && GateOpen(r.st, n)
    && forall f :: f in r.st.buffers ==> f <= n
  }

  /** n frames are out and the seen parts of the next one are in. */
  ghost predicate Halfway(r: Run, frames: seq<Frame>, n: nat, parts: seq<Datagram>, seen: set<int>)
    requires n <= |frames| < 0xFFFF_FFFF_FFFF_FFFF
  {
    && Filling(r.st.buffers, n + 1, parts, seen)
    && r.out == frames[..n]
    && r.st.queue == map[] && GateOpen(r.st, n)
  }

  /** Frame n + 1 is under way, or out as soon as its last part was seen. */
  ghost predicate InRound(r: Run, frames: seq<Frame>, n: nat, parts: seq<Datagram>, seen: set<int>)
    requires n < |frames| < 0xFFFF_FFFF_FFFF_FFFF
  {
    if Covers(seen, |parts|) then Settled(r, frames, n + 1) else Halfway(r, frames, n, parts, seen)
  }

  lemma RepeatStep(r: Run, d: Datagram)
    requires r.st.queue == map[]
    requires PassedOver(r.st.last, d.frameId) || (Addressable(r.st.buffers, d) && Occupied(r.st.buffers, d))
    ensures CanAdd(r.st, Some(d))
    ensures ArriveThenPoll(r, d) == r.(st := r.st.(freed := r.st.freed + multiset{d}))
  {
    RepeatIgnored(r.st, d);
    assert r.taken + [] == r.taken && r.out + [] == r.out;
  }

  /** A part after which others are missing: next() finds nothing to hand out. */
  lemma HalfwayStep(r: Run, frames: seq<Frame>, n: nat, parts: seq<Datagram>, seen: set<int>, i: nat)
    requires n < |frames| < 0xFFFF_FFFF_FFFF_FFFF && Numbered(parts, n + 1)
    requires Halfway(r, frames, n, parts, seen)
    requires i < |parts| && i !in seen && !Covers(seen + {i}, |parts|)
    ensures CanAdd(r.st, Some(parts[i]))
    ensures Halfway(ArriveThenPoll(r, parts[i]), frames, n, parts, seen + {i})
  {
    PartArrives(r.st, n + 1, parts, seen, i);
  }

  /** The queue after the last missing part holds that one frame. */
  lemma QueueAfterLast(st: State, id: u64, parts: seq<Datagram>, seen: set<int>, i: nat, frame: Frame)
    requires Numbered(parts, id) && i < |parts| && i !in seen && Filling(st.buffers, id, parts, seen)
    requires st.last < id && st.queue == map[] && Covers(seen + {i}, |parts|)
    requires Deserialize(Join(parts)) == frame
    ensures CanAdd(st, Some(parts[i]))
    ensures AddStep(st, Some(parts[i])).st.queue == map[frame.time := frame]
    ensures GateOf(AddStep(st, Some(parts[i])).st) == GateOf(st)
    ensures forall f :: f in AddStep(st, Some(parts[i])).st.buffers ==> f <= id
  {
    PartArrives(st, id, parts, seen, i);
    assert st.queue[frame.time := frame] == map[frame.time := frame];
  }

  /** next() with that one frame waiting. */
  lemma SettledAfterNext(r: Run, frames: seq<Frame>, n: nat)
    requires n < |frames| < 0xFFFF_FFFF_FFFF_FFFF
    requires r.out == frames[..n] && GateOpen(r.st, n) && r.st.queue == map[frames[n].time := frames[n]]
    requires frames[n].time == n + 1 && (n == 0 ==> frames[n].kind == KEY)
    requires forall f :: f in r.st.buffers ==> f <= n + 1
    ensures Settled(PollRun(r), frames, n + 1)
  {
    NextDelivers(r.st, frames[n]);
    assert frames[..n + 1] == frames[..n] + [frames[n]];
  }

  /** Frame n + 1 is the next of the stream, and the parts are its parts. */
  ghost predicate Next(frames: seq<Frame>, n: nat, parts: seq<Datagram>)
    requires n < |frames|
  {
    Deserialize(Join(parts)) == frames[n] && frames[n].time == n + 1 && (n == 0 ==> frames[n].kind == KEY)
  }

  /** The last missing part: the frame is built and handed out. */
  lemma LastStep(r: Run, frames: seq<Frame>, n: nat, parts: seq<Datagram>, seen: set<int>, i: nat)
    requires n < |frames| < 0xFFFF_FFFF_FFFF_FFFF && Numbered(parts, n + 1)
    requires Halfway(r, frames, n, parts, seen)
    requires i < |parts| && i !in seen && Covers(seen + {i}, |parts|)
    requires Next(frames, n, parts)
    ensures CanAdd(r.st, Some(parts[i]))
    ensures Settled(ArriveThenPoll(r, parts[i]), frames, n + 1)
  {
    QueueAfterLast(r.st, n + 1, parts, seen, i, frames[n]);
    SettledAfterNext(r.(st := AddStep(r.st, Some(parts[i])).st), frames, n);
  }

  /** Any part of the frame, seen before or not. */
  lemma RoundStep(r: Run, frames: seq<Frame>, n: nat, parts: seq<Datagram>, seen: set<int>, i: nat)
    requires n < |frames| < 0xFFFF_FFFF_FFFF_FFFF && Numbered(parts, n + 1) && i < |parts|
    requires InRound(r, frames, n, parts, seen)
    requires Next(frames, n, parts)
    ensures CanAdd(r.st, Some(parts[i]))
    ensures InRound(ArriveThenPoll(r, parts[i]), frames, n, parts, seen + {i})
  {
    if Covers(seen, |parts|) {
      RepeatStep(r, parts[i]);
    } else if i in seen {
      SlotsSeen(r.st.buffers, n + 1, parts, seen, i);
      RepeatStep(r, parts[i]);
      assert seen + {i} == seen;
    } else if Covers(seen + {i}, |parts|) {
      LastStep(r, frames, n, parts, seen, i);
    } else {
      HalfwayStep(r, frames, n, parts, seen, i);
    }
  }

  ghost function Seen(order: seq<int>): set<int> {
    set i | i in order
  }

  lemma SeenStep(order: seq<int>)
    requires order != []
    ensures Seen(order) == Seen(order[..|order| - 1]) + {order[|order| - 1]}
  {
    assert order == order[..|order| - 1] + [order[|order| - 1]];
  }

  lemma RoundBegins(r: Run, frames: seq<Frame>, n: nat, parts: seq<Datagram>)
    requires n < |frames| < 0xFFFF_FFFF_FFFF_FFFF && Numbered(parts, n + 1)
    requires Settled(r, frames, n)
    ensures InRound(r, frames, n, parts, {})
  {
    var none: set<int> := {};
    assert 0 < |parts| && 0 !in none;
    assert !Covers(none, |parts|);
  }

  lemma ReceiveStep(h: History, parts: seq<Datagram>, order: seq<int>)
    requires order != [] && InRange(order, |parts|)
    requires Runnable(Receive(h, parts, order[..|order| - 1]))
    requires CanAdd(RunOf(Receive(h, parts, order[..|order| - 1])).st, Some(parts[order[|order| - 1]]))
    ensures Runnable(Receive(h, parts, order))
    ensures RunOf(Receive(h, parts, order)) ==
      ArriveThenPoll(RunOf(Receive(h, parts, order[..|order| - 1])), parts[order[|order| - 1]])
  {
    ArriveThenPollRuns(Receive(h, parts, order[..|order| - 1]), parts[order[|order| - 1]]);
  }

  lemma {:induction false} RoundRuns(h: History, frames: seq<Frame>, n: nat, parts: seq<Datagram>, order: seq<int>)
    requires n < |frames| < 0xFFFF_FFFF_FFFF_FFFF && Numbered(parts, n + 1)
    requires Runnable(h) && Settled(RunOf(h), frames, n)
    requires InRange(order, |parts|)
    requires Next(frames, n, parts)
    ensures Runnable(Receive(h, parts, order))
    ensures InRound(RunOf(Receive(h, parts, order)), frames, n, parts, Seen(order))
  {
    if order == [] {
      assert Seen(order) == {};
      RoundBegins(RunOf(h), frames, n, parts);
    } else {
      var k := |order| - 1;
      RoundRuns(h, frames, n, parts, order[..k]);
      SeenStep(order);
      RoundStep(RunOf(Receive(h, parts, order[..k])), frames, n, parts, Seen(order[..k]), order[k]);
      ReceiveStep(h, parts, order);
    }
  }

  // ---------------------------------------------------------------- all frames

  lemma PartsOfFrame(sender: i32, frame: Frame)
    requires |frame.data| + 16 <= 0xFFFF * VideoMedia.MaxPayload()
    ensures Numbered(PartsOf(sender, frame), frame.time)
    ensures Deserialize(Join(PartsOf(sender, frame))) == frame
  {
    var data := Serialize(frame);
    PartCountIsCeiling(VideoMedia, |data|);
    SplitPartition(VideoMedia, sender, frame.time, data);
    SerializeRoundTrip(frame, []);
    assert data + [] == data;
  }

  lemma OneMoreFrame(h: History, sender: i32, frames: seq<Frame>, n: nat, order: seq<int>)
    requires Stream(frames) && n < |frames| && Runnable(h) && Settled(RunOf(h), frames, n)
    requires CoversAll(order, |PartsOf(sender, frames[n])|)
    ensures Runnable(Receive(h, PartsOf(sender, frames[n]), order))
    ensures Settled(RunOf(Receive(h, PartsOf(sender, frames[n]), order)), frames, n + 1)
  {
    var parts := PartsOf(sender, frames[n]);
    PartsOfFrame(sender, frames[n]);
    assert Covers(Seen(order), |parts|);
    RoundRuns(h, frames, n, parts, order);
  }

  /** Without loss every frame comes out, once and in order, however the parts of each frame
      are reordered and repeated on the way: after any number of frames the frames handed
      out are exactly the frames sent so far. */
  lemma {:induction false} LosslessDelivery(sender: i32, frames: seq<Frame>, orders: seq<seq<int>>, n: nat)
    requires Stream(frames) && Orders(sender, frames, orders) && n <= |frames|
    ensures Runnable(ReceiveFrames(sender, frames, orders, n))
    ensures Settled(RunOf(ReceiveFrames(sender, frames, orders, n)), frames, n)
  {
    if n > 0 {
      LosslessDelivery(sender, frames, orders, n - 1);
      OneMoreFrame(ReceiveFrames(sender, frames, orders, n - 1), sender, frames, n - 1, orders[n - 1]);
    }
  }
}
