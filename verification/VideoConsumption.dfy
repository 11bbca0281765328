/** What next() does, told by the frames consumed so far: when it consumes, hands out and waits. */
module VideoConsumption {
  import opened Histories
  import opened Wrappers
  import opened Bytes
  import opened SortedMap
  import opened MediaFrame
  import opened MediaProtocol
  import opened HonestFrames
  import opened VideoDecoder
  import opened VideoDecoderRuns
  import opened VideoOrder

  // ---------------------------------------------------------------- one call

  /** The frame is newer than the last consumed one or at least 256 older, and it is a key
      frame or a key frame was consumed before. */
  ghost predicate Consumes(taken: seq<Taken>, frame: Frame) {
    && Fresh(if taken == [] then 0 else taken[|taken| - 1].frame.time, frame.time)
    && (frame.kind == KEY || taken != [])
  }

  /** The last consumed frame was handed out, as a key frame or in sequence. */
  ghost predicate InFlow(taken: seq<Taken>) {
    taken != [] && taken[|taken| - 1].given && InSequence(taken, |taken| - 1)
  }

  /** What one call of next() makes of a run. */
  ghost predicate Advances(r: Run, after: Run) {
    if r.st.queue == map[] then after == r
    else
      var id := MinKey(r.st.queue);
      var frame := r.st.queue[id];
      var given := frame.kind == KEY || InFlow(r.taken);
      && after.st.queue == r.st.queue - {id} && after.st.buffers == r.st.buffers
      && after.taken == (if Consumes(r.taken, frame) then r.taken + [Taken(frame, given)] else r.taken)
      && after.out == (if Consumes(r.taken, frame) && given then r.out + [frame] else r.out)
  }

  lemma PollExactly(r: Run)
    requires InDiscipline(r)
    ensures Advances(r, PollRun(r))
  {
    assert r.taken + [] == r.taken && r.out + [] == r.out;
  }

  /** Over every run, one call of next(): the oldest waiting frame leaves the queue, it is
      consumed exactly if it is fresh and decodable, and returned exactly if besides it is a
      key frame or the frames are in flow. */
  lemma NextExactly(h: History)
    requires Runnable(h)
    ensures Advances(RunOf(h), RunOf(Then(h, Poll)))
  {
    OutputDiscipline(h);
    PollExactly(RunOf(h));
    assert RunOf(Then(h, Poll)) == PollRun(RunOf(h));
  }

  // ---------------------------------------------------------------- waiting for a key frame

  /** Before the first key frame, a call of next() met another frame. */
  ghost predicate DroppedEarly(h: History)
    requires Runnable(h)
  {
    h.Then? && (DroppedEarly(h.prev) || (
      var r := RunOf(h.prev);
      h.e.Poll? && r.taken == [] && r.st.queue != map[] && r.st.queue[MinKey(r.st.queue)].kind != KEY))
  }

  /** The decoder lacks a key frame: the flow broke, or frames came before the first one. */
  ghost predicate LacksKey(h: History)
    requires Runnable(h)
  {
    if RunOf(h).taken == [] then DroppedEarly(h) else !InFlow(RunOf(h).taken)
  }

  lemma PollWaits(r: Run, early: bool)
    requires InDiscipline(r) && (r.taken == [] ==> (r.st.waitFor == KEY <==> early))
    ensures var after := PollRun(r);
      after.taken == [] ==>
        (after.st.waitFor == KEY <==>
          early || (r.taken == [] && r.st.queue != map[] && r.st.queue[MinKey(r.st.queue)].kind != KEY))
  {
    PollInDiscipline(r);
  }

  lemma {:induction false} WaitsBeforeFirst(h: History)
    requires Runnable(h)
    ensures RunOf(h).taken == [] ==> (RunOf(h).st.waitFor == KEY <==> DroppedEarly(h))
  {
    match h
    case Start =>
    case Then(prev, e) =>
      WaitsBeforeFirst(prev);
      OutputDiscipline(prev);
      match e
      case Arrive(d) => AddKeepsGate(RunOf(prev).st, d);
      case Poll =>
        PollWaits(RunOf(prev), DroppedEarly(prev));
        assert RunOf(h) == PollRun(RunOf(prev));
        assert RunOf(h).taken == [] ==> RunOf(prev).taken == [];
  }

  /** Over every run: the decoder waits for a key frame exactly when it lacks one, and else for
      any frame. */
  lemma WaitsExactly(h: History)
    requires Runnable(h)
    ensures RunOf(h).st.waitFor == if LacksKey(h) then KEY else NORMAL
  {
    WaitsBeforeFirst(h);
    OutputDiscipline(h);
  }

  // ---------------------------------------------------------------- delivery under loss

  /** The frames completed so far, in that order. */
  ghost function Built(h: History): seq<Frame>
    requires Runnable(h)
  {
    if h.Start? then []
    else Built(h.prev) + (if h.e.Arrive? then AsSeq(AddStep(RunOf(h.prev).st, h.e.dpart).built) else [])
  }

  /** The frames from the first key frame on. */
  function FromFirstKey(frames: seq<Frame>): seq<Frame> {
    if frames == [] then []
    else
      var n := |frames| - 1;
      var before := FromFirstKey(frames[..n]);
      if before != [] || frames[n].kind == KEY then before + [frames[n]] else []
  }

  lemma FromFirstKeyStep(frames: seq<Frame>, frame: Frame)
    ensures FromFirstKey(frames + [frame]) ==
      if FromFirstKey(frames) != [] || frame.kind == KEY then FromFirstKey(frames) + [frame] else []
  {
    assert (frames + [frame])[..|frames|] == frames;
  }

  ghost function FramesTaken(taken: seq<Taken>): seq<Frame> {
    seq(|taken|, i requires 0 <= i < |taken| => taken[i].frame)
  }

  /** The frames consumed are those completed from the first key frame on. */
  ghost predicate Follows(taken: seq<Taken>, built: seq<Frame>) {
    && FramesTaken(taken) == FromFirstKey(built)
    && (taken != [] ==> built != [] && taken[|taken| - 1].frame == built[|built| - 1])
  }

  /** What holds while frames complete in increasing order. */
  ghost predicate CaughtUp(r: Run, built: seq<Frame>) {
    r.st.queue == map[] && Follows(r.taken, built)
  }

  ghost predicate Ascending(built: seq<Frame>) {
    StrictlyIncreasing(built) && (built != [] ==> built[0].time > 0)
  }

  lemma AscendingPrefix(built: seq<Frame>, frame: Frame)
    requires Ascending(built + [frame])
    ensures Ascending(built) && frame.time > (if built == [] then 0 else built[|built| - 1].time)
  {
    var all := built + [frame];
    assert forall i :: 0 <= i < |built| ==> all[i] == built[i];
    assert all[|built|] == frame;
  }

  lemma ConsumesNewer(taken: seq<Taken>, built: seq<Frame>, frame: Frame)
    requires Follows(taken, built) && Ascending(built + [frame])
    ensures Consumes(taken, frame) <==> frame.kind == KEY || taken != []
  {
    AscendingPrefix(built, frame);
  }

  lemma FramesTakenStep(taken: seq<Taken>, t: Taken)
    ensures FramesTaken(taken + [t]) == FramesTaken(taken) + [t.frame]
  {}

  lemma FollowsByTaking(taken: seq<Taken>, built: seq<Frame>, all: seq<Frame>, t: Taken)
    requires Follows(taken, built) && FromFirstKey(all) == FromFirstKey(built) + [t.frame]
    requires all != [] && all[|all| - 1] == t.frame
    ensures Follows(taken + [t], all)
  {
    FramesTakenStep(taken, t);
  }

  lemma FollowsByWaiting(built: seq<Frame>, all: seq<Frame>)
    requires Follows([], built) && FromFirstKey(all) == []
    ensures Follows([], all)
  {}

  lemma OneMoreFollows(taken: seq<Taken>, built: seq<Frame>, frame: Frame, given: bool)
    requires Follows(taken, built) && Ascending(built + [frame])
    ensures Follows(if Consumes(taken, frame) then taken + [Taken(frame, given)] else taken, built + [frame])
  {
    ConsumesNewer(taken, built, frame);
    FromFirstKeyStep(built, frame);
    assert |FramesTaken(taken)| == |taken|;
    if Consumes(taken, frame) {
      FollowsByTaking(taken, built, built + [frame], Taken(frame, given));
    } else {
      FollowsByWaiting(built, built + [frame]);
    }
  }

  lemma OneMoreBuilt(r: Run, built: seq<Frame>, frame: Frame)
    requires InDiscipline(r) && r.st.queue == map[frame.time := frame] && Ascending(built + [frame])
    requires CaughtUp(r.(st := r.st.(queue := map[])), built)
    ensures CaughtUp(PollRun(r), built + [frame])
  {
    MinKeyIs(r.st.queue, frame.time);
    PollExactly(r);
    OneMoreFollows(r.taken, built, frame, frame.kind == KEY || InFlow(r.taken));
  }

  /** The earlier frames complete in increasing order too. */
  lemma AscendingBefore(built: seq<Frame>, more: seq<Frame>)
    requires Ascending(built + more) && |more| <= 1
    ensures Ascending(built)
  {
    if more == [] {
      assert built + more == built;
    } else {
      assert more == [more[0]];
      AscendingPrefix(built, more[0]);
    }
  }

  lemma FedOnce(r: Run, dpart: Option<Datagram>, built: seq<Frame>)
    requires CanAdd(r.st, dpart) && InDiscipline(r) && CaughtUp(r, built)
    requires Ascending(built + AsSeq(AddStep(r.st, dpart).built))
    ensures CaughtUp(PollRun(r.(st := AddStep(r.st, dpart).st)), built + AsSeq(AddStep(r.st, dpart).built))
  {
    var mid := r.(st := AddStep(r.st, dpart).st);
    AddInDiscipline(r, dpart);
    match AddStep(r.st, dpart).built
    case Some(frame) =>
      BuiltOntoEmpty(r.st, dpart.value, frame);
      OneMoreBuilt(mid, built, frame);
    case None =>
      assert mid.st.queue == map[];
      PollNone(mid.st, mid.taken);
      assert built + [] == built;
  }

  lemma BuiltOnce(g: History, dpart: Option<Datagram>)
    requires Runnable(g) && CanAdd(RunOf(g).st, dpart)
    ensures var h := Then(Then(g, Arrive(dpart)), Poll);
      && Runnable(h) && Built(h) == Built(g) + AsSeq(AddStep(RunOf(g).st, dpart).built)
      && RunOf(h) == PollRun(RunOf(g).(st := AddStep(RunOf(g).st, dpart).st))
  {
    var mid := Then(g, Arrive(dpart));
    assert Runnable(mid) && RunOf(mid) == RunOf(g).(st := AddStep(RunOf(g).st, dpart).st);
    assert Built(Then(mid, Poll)) == Built(mid) + [];
  }

  /** When next() is called after every arrival and frames complete in increasing order, with
      any of them missing, the frames consumed are exactly those completed from the first key
      frame on. */
  lemma {:induction false} LossyDelivery(h: History)
    requires Runnable(h) && Fed(h) && Ascending(Built(h))
    ensures CaughtUp(RunOf(h), Built(h))
  {
    if h.Then? {
      var g, dpart := h.prev.prev, h.prev.e.dpart;
      var built := AsSeq(AddStep(RunOf(g).st, dpart).built);
      BuiltOnce(g, dpart);
      AscendingBefore(Built(g), built);
      LossyDelivery(g);
      OutputDiscipline(g);
      FedOnce(RunOf(g), dpart, Built(g));
    }
  }
}
