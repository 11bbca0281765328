/** VideoFrameUdpDecoder: collects datagrams into frames and hands them out in order. */
module VideoDecoder {
  import opened Wrappers
  import opened Bytes
  import opened SortedMap
  import opened MediaFrame
  import opened MediaProtocol
  import opened Reassembly

  datatype ErrorType = NoError | InvalidParameter | AlreadyProcessed

  /** The decoder's fields, and the datagrams it has deleted so far. */
  datatype State = State(
    buffers: Buffers,
    queue: map<u64, Frame>,
    last: u64,
    waitFor: i32,
    keyCount: nat,
    freed: multiset<Datagram>)

  const INIT := State(map[], map[], 0, NORMAL, 0, multiset{})

  /** Already consumed: at most 255 below the last consumed id. */
  predicate PassedOver(last: u64, id: u64) {
    id <= last && last - id < 256
  }

  /** 64-bit increment. */
  function Succ(id: u64): u64 {
    if id == 0xFFFF_FFFF_FFFF_FFFF then 0 else id + 1
  }

  predicate CanAdd(st: State, dpart: Option<Datagram>) {
    dpart.Some? && !PassedOver(st.last, dpart.value.frameId) ==> Addressable(st.buffers, dpart.value)
  }

  datatype Added = Added(st: State, error: ErrorType, built: Option<Frame>)

  function AddStep(st: State, dpart: Option<Datagram>): Added
    requires CanAdd(st, dpart)
  {
    if dpart.None? then Added(st, InvalidParameter, None)
    else if PassedOver(st.last, dpart.value.frameId) || Occupied(st.buffers, dpart.value) then
      Added(st.(freed := st.freed + multiset{dpart.value}), AlreadyProcessed, None)
    else
      var b := Insert(st.buffers, dpart.value);
      var kept := st.(buffers := KeepLargest(b, MAX_DISTINCT_FRAMES),
                      freed := st.freed + Evicted(b, MAX_DISTINCT_FRAMES));
      var slots := b[dpart.value.frameId];
      if !Complete(slots) then Added(kept, NoError, None)
      else
        var frame := Deserialize(Join(Filled(slots)));
        Added(kept.(queue := KeepLargest(st.queue[frame.time := frame], MAX_DISTINCT_FRAMES)), NoError, Some(frame))
  }

  function AsSeq<T>(x: Option<T>): seq<T> {
    match x case Some(v) => [v] case None => []
  }

  /** What next() decides on: the last consumed id, the awaited type, key frames seen. */
  datatype Gate = Gate(last: u64, waitFor: i32, keyCount: nat)

  /** The front frame is dropped, consumed without handing it out, or handed out. */
  datatype Verdict = Drop | Skip | HandOut

  datatype Judged = Judged(gate: Gate, verdict: Verdict)

  function Judge(g: Gate, id: u64, kind: i32): Judged {
    if g.keyCount == 0 && kind != KEY then Judged(g.(waitFor := KEY), Drop)
    else if PassedOver(g.last, id) then Judged(g, Drop)
    else if kind == KEY then Judged(Gate(id, NORMAL, g.keyCount + 1), HandOut)
    else if g.waitFor != NORMAL then
      if kind == g.waitFor then Judged(g.(last := id, waitFor := NORMAL), HandOut)
      else Judged(g.(last := id), Skip)
    else if id != Succ(g.last) then Judged(g.(last := id, waitFor := KEY), HandOut)
    else Judged(g.(last := id, waitFor := NORMAL), HandOut)
  }

  /** A frame that moved the last consumed id, and whether the caller got it. */
  datatype Taken = Taken(frame: Frame, given: bool)

  datatype Polled = Polled(st: State, frame: Option<Frame>, taken: seq<Taken>)

  function NextStep(st: State): Polled {
    if st.queue == map[] then Polled(st, None, [])
    else
      var id := MinKey(st.queue);
      var frame := st.queue[id];
      var j := Judge(Gate(st.last, st.waitFor, st.keyCount), id, frame.kind);
      var after := State(st.buffers, st.queue - {id}, j.gate.last, j.gate.waitFor, j.gate.keyCount, st.freed);
      match j.verdict
      case Drop => Polled(after, None, [])
      case Skip => Polled(after, None, [Taken(frame, false)])
      case HandOut => Polled(after, Some(frame), [Taken(frame, true)])
  }

  class VideoFrameUdpDecoder {
    var frameBuffers: Buffers
    var completeFramesQueue: map<u64, Frame>
    var lastCompletedFrameId: u64
    var waitForFrameType: i32
    var receivedKeyFrameCount: nat
    ghost var freed: multiset<Datagram>  // every datagram deleted so far
    ghost var built: seq<Frame>          // every frame built so far

    ghost function Model(): State
      reads this
    {
      State(frameBuffers, completeFramesQueue, lastCompletedFrameId, waitForFrameType, receivedKeyFrameCount, freed)
    }

    constructor ()
      ensures Model() == INIT && built == []
    {
      frameBuffers, completeFramesQueue, built := map[], map[], [];
      lastCompletedFrameId, waitForFrameType, receivedKeyFrameCount := 0, NORMAL, 0;
      freed := multiset{};
    }

    method Add(dpart: Option<Datagram>) returns (error: ErrorType)
      requires CanAdd(Model(), dpart)
      modifies this
      ensures Model() == AddStep(old(Model()), dpart).st
      ensures error == AddStep(old(Model()), dpart).error
      ensures built == old(built) + AsSeq(AddStep(old(Model()), dpart).built)
    {
      if dpart.None? {
        return InvalidParameter;
      }
      var d := dpart.value;
      if d.frameId <= lastCompletedFrameId && lastCompletedFrameId - d.frameId < 256 {
        freed := freed + multiset{d};
        return AlreadyProcessed;
      }
      var buffer := SlotsFor(frameBuffers, d);
      if buffer[d.index].Some? {
        freed := freed + multiset{d};
        return AlreadyProcessed;
      }
      Store(d, buffer);
      return NoError;
    }

    /** The part goes to its free slot. */
    method Store(d: Datagram, buffer: Slots)
      requires Addressable(frameBuffers, d) && buffer == SlotsFor(frameBuffers, d)
      modifies this`frameBuffers, this`freed, this`completeFramesQueue, this`built
      ensures var b := Insert(old(frameBuffers), d);
        && frameBuffers == KeepLargest(b, MAX_DISTINCT_FRAMES)
        && freed == old(freed) + Evicted(b, MAX_DISTINCT_FRAMES)
      ensures var slots := Insert(old(frameBuffers), d)[d.frameId];
        if !Complete(slots) then completeFramesQueue == old(completeFramesQueue) && built == old(built)
        else
          var frame := Deserialize(Join(Filled(slots)));
          && completeFramesQueue == KeepLargest(old(completeFramesQueue)[frame.time := frame], MAX_DISTINCT_FRAMES)
          && built == old(built) + [frame]
    {
      frameBuffers := frameBuffers[d.frameId := buffer[d.index := Some(d)]];
      FinishIfComplete(frameBuffers[d.frameId]);
      EvictBuffers(MAX_DISTINCT_FRAMES);
    }

    method FinishIfComplete(buffer: Slots)
      modifies this`completeFramesQueue, this`built
      ensures !Complete(buffer) ==> completeFramesQueue == old(completeFramesQueue) && built == old(built)
      ensures Complete(buffer) ==>
        var frame := Deserialize(Join(Filled(buffer)));
        && completeFramesQueue == KeepLargest(old(completeFramesQueue)[frame.time := frame], MAX_DISTINCT_FRAMES)
        && built == old(built) + [frame]
    {
      var complete := IsComplete(buffer);
      if complete {
        FinishFrame(buffer);
      }
    }

    /** A complete buffer becomes a frame in the queue. */
    method FinishFrame(buffer: Slots)
      requires Complete(buffer)
      modifies this`completeFramesQueue, this`built
      ensures built == old(built) + [Deserialize(Join(Filled(buffer)))]
      ensures var frame := Deserialize(Join(Filled(buffer)));
              completeFramesQueue == KeepLargest(old(completeFramesQueue)[frame.time := frame], MAX_DISTINCT_FRAMES)
    {
      var frame := CreateFrame(buffer);
      built := built + [frame];
      completeFramesQueue := completeFramesQueue[frame.time := frame];
      completeFramesQueue := CheckQueue(completeFramesQueue, MAX_DISTINCT_FRAMES);
    }

    method EvictBuffers(maxSize: nat)
      modifies this`frameBuffers, this`freed
      ensures frameBuffers == KeepLargest(old(frameBuffers), maxSize)
      ensures freed == old(freed) + Evicted(old(frameBuffers), maxSize)
    {
      var evicted;
      frameBuffers, evicted := CheckFrameBuffers(frameBuffers, maxSize);
      freed := freed + evicted;
    }

    method CreateFrame(buffer: Slots) returns (frame: Frame)
      requires Complete(buffer)
      ensures frame == Deserialize(Join(Filled(buffer)))
    {
      var data := Glue(buffer);
      frame := Deserialize(data);
    }

    method Next() returns (r: Option<Frame>)
      modifies this
      ensures Model() == NextStep(old(Model())).st
      ensures r == NextStep(old(Model())).frame
      ensures built == old(built)
    {
      if completeFramesQueue == map[] {
        return None;
      }
      var frameId := MinKey(completeFramesQueue);
      var frame := completeFramesQueue[frameId];
      completeFramesQueue := completeFramesQueue - {frameId};
      if receivedKeyFrameCount == 0 && frame.kind != KEY {
        waitForFrameType := KEY;
        return None;
      } else if frameId <= lastCompletedFrameId && lastCompletedFrameId - frameId < 256 {
        return None;
      } else if frame.kind == KEY {
        lastCompletedFrameId := frameId;
        waitForFrameType := NORMAL;
        receivedKeyFrameCount := receivedKeyFrameCount + 1;
        return Some(frame);
      } else if waitForFrameType != NORMAL {
        if frame.kind == waitForFrameType {
          lastCompletedFrameId := frameId;
          waitForFrameType := NORMAL;
          return Some(frame);
        } else {
          lastCompletedFrameId := frameId;
          return None;
        }
      } else if frameId != Succ(lastCompletedFrameId) {
        waitForFrameType := KEY;
        lastCompletedFrameId := frameId;
        return Some(frame);
      } else {
        lastCompletedFrameId := frameId;
        waitForFrameType := NORMAL;
        return Some(frame);
      }
    }

    /** The destructor: every datagram still held is deleted. */
    method Destroy()
      modifies this
      ensures frameBuffers == map[] && completeFramesQueue == map[]
      ensures freed == old(freed) + Evicted(old(frameBuffers), 0)
      ensures built == old(built)
    {
      EvictBuffers(0);
      completeFramesQueue := CheckQueue(completeFramesQueue, 0);
    }
  }
}

/** Whole runs of one decoder: datagrams may arrive in any order, lost, repeated or never
    sent, with calls of next() anywhere in between. */
module VideoDecoderRuns {
  import opened Histories
  import opened Wrappers
  import opened Bytes
  import opened SortedMap
  import opened MediaFrame
  import opened MediaProtocol
  import opened Reassembly
  import opened VideoDecoder

  datatype Event = Arrive(dpart: Option<Datagram>) | Poll

  /** The calls made so far. */
  type History = Trace<Event>

  datatype Run = Run(st: State, taken: seq<Taken>, out: seq<Frame>)

  /** No arrival indexes outside its buffer. */
  ghost predicate Runnable(h: History)
    decreases h, 0
  {
    h.Start? || (Runnable(h.prev) && (h.e.Arrive? ==> CanAdd(RunOf(h.prev).st, h.e.dpart)))
  }

  ghost function RunOf(h: History): Run
    requires Runnable(h)
    decreases h, 1
  {
    if h.Start? then Run(INIT, [], [])
    else
      var r := RunOf(h.prev);
      match h.e
      case Arrive(d) => r.(st := AddStep(r.st, d).st)
      case Poll => PollRun(r)
  }

  ghost function PollRun(r: Run): Run {
    var p := NextStep(r.st);
    Run(p.st, r.taken + p.taken, r.out + AsSeq(p.frame))
  }

  /** One part arrives, and next() is called, as the client's socket does. */
  ghost function ArriveThenPoll(r: Run, d: Datagram): Run
    requires CanAdd(r.st, Some(d))
  {
    PollRun(r.(st := AddStep(r.st, Some(d)).st))
  }

  lemma ArriveThenPollRuns(h: History, d: Datagram)
    requires Runnable(h) && CanAdd(RunOf(h).st, Some(d))
    ensures Runnable(Then(Then(h, Arrive(Some(d))), Poll))
    ensures RunOf(Then(Then(h, Arrive(Some(d))), Poll)) == ArriveThenPoll(RunOf(h), d)
  {
    var mid := Then(h, Arrive(Some(d)));
    assert Runnable(mid) && RunOf(mid) == RunOf(h).(st := AddStep(RunOf(h).st, Some(d)).st);
  }

  // ---------------------------------------------------------------- window and ownership

  ghost function Given(h: History): multiset<Datagram> {
    match h
    case Start => multiset{}
    case Then(prev, Arrive(d)) => Given(prev) + AsMultiset(d)
    case Then(prev, Poll) => Given(prev)
  }

  function AsMultiset(dpart: Option<Datagram>): multiset<Datagram> {
    match dpart case Some(d) => multiset{d} case None => multiset{}
  }

  lemma AddStores(st: State, d: Datagram)
    requires CanAdd(st, Some(d)) && !PassedOver(st.last, d.frameId) && !Occupied(st.buffers, d)
    ensures AddStep(st, Some(d)).st.buffers == KeepLargest(Insert(st.buffers, d), MAX_DISTINCT_FRAMES)
    ensures AddStep(st, Some(d)).st.freed == st.freed + Evicted(Insert(st.buffers, d), MAX_DISTINCT_FRAMES)
    ensures AddStep(st, Some(d)).built.Some? <==> Complete(Insert(st.buffers, d)[d.frameId])
  {}

  /** What add() answers: a part of a consumed frame, or one that is there already, is deleted
      and changes nothing else; any other one is stored, and completes its frame or not. */
  lemma AddVerdict(st: State, dpart: Option<Datagram>)
    requires CanAdd(st, dpart)
    ensures var a := AddStep(st, dpart);
      match dpart
      case None => a.error == InvalidParameter && a.st == st
      case Some(d) =>
        if (d.frameId <= st.last && st.last - d.frameId < 256) || Occupied(st.buffers, d) then
          a.error == AlreadyProcessed && a.st == st.(freed := st.freed + multiset{d})
        else
          var slots := Insert(st.buffers, d)[d.frameId];
          && a.error == NoError && GateOf(a.st) == GateOf(st)
          && (!Complete(slots) ==> a.st.queue == st.queue)
          && (Complete(slots) ==>
                var frame := Deserialize(Join(Filled(slots)));
                a.st.queue == KeepLargest(st.queue[frame.time := frame], 16))
  {}

  lemma AddConserves(st: State, dpart: Option<Datagram>)
    requires CanAdd(st, dpart)
    ensures Owned(AddStep(st, dpart).st.buffers) + AddStep(st, dpart).st.freed
         == Owned(st.buffers) + st.freed + AsMultiset(dpart)
  {
    if dpart.Some? && !PassedOver(st.last, dpart.value.frameId) && !Occupied(st.buffers, dpart.value) {
      AddStores(st, dpart.value);
      StoreConserves(st.buffers, dpart.value, st.freed);
    }
  }

  lemma NextKeepsDatagrams(st: State)
    ensures NextStep(st).st.buffers == st.buffers && NextStep(st).st.freed == st.freed
  {}

  /** Every datagram ever passed in is in exactly one slot or was deleted exactly once. */
  lemma {:induction false} OwnershipConserved(h: History)
    requires Runnable(h)
    ensures Owned(RunOf(h).st.buffers) + RunOf(h).st.freed == Given(h)
  {
    match h
    case Start =>
    case Then(prev, e) =>
      OwnershipConserved(prev);
      match e
      case Arrive(d) => AddConserves(RunOf(prev).st, d);
      case Poll => NextKeepsDatagrams(RunOf(prev).st);
  }

  /** Destroying the decoder at the end of any run deletes the rest: every datagram ever
      passed in has then been deleted exactly once. */
  lemma AllFreedAtDestruction(h: History)
    requires Runnable(h)
    ensures RunOf(h).st.freed + Evicted(RunOf(h).st.buffers, 0) == Given(h)
  {
    OwnershipConserved(h);
    EvictionConserves(RunOf(h).st.buffers, 0);
  }

  ghost predicate InWindow(st: State) {
    |st.buffers| <= MAX_DISTINCT_FRAMES && |st.queue| <= MAX_DISTINCT_FRAMES
  }

  lemma NextKeepsWindow(st: State)
    requires InWindow(st)
    ensures InWindow(NextStep(st).st)
  {
    if st.queue != map[] {
      RemoveOne(st.queue, MinKey(st.queue));
    }
  }

  lemma AddKeepsWindow(st: State, dpart: Option<Datagram>)
    requires CanAdd(st, dpart) && InWindow(st)
    ensures InWindow(AddStep(st, dpart).st)
  {}

  /** At most 16 buffers and 16 finished frames are kept, at any time. */
  lemma {:induction false} WindowBounded(h: History)
    requires Runnable(h)
    ensures InWindow(RunOf(h).st)
  {
    match h
    case Start =>
    case Then(prev, e) =>
      WindowBounded(prev);
      match e
      case Arrive(d) => AddKeepsWindow(RunOf(prev).st, d);
      case Poll => NextKeepsWindow(RunOf(prev).st);
  }

  /** An add drops a buffer or a finished frame only when more than 16 are present, and
      then only ones older than all that stay. */
  lemma OnlyOldestDropped(st: State, d: Datagram, k: u64)
    requires CanAdd(st, Some(d))
    ensures var after := AddStep(st, Some(d)).st;
      && (k in st.buffers && k !in after.buffers ==>
            |after.buffers| == 16 && forall j :: j in after.buffers ==> k < j)
      && (k in st.queue && k !in after.queue ==>
            |after.queue| == 16 && forall j :: j in after.queue ==> k < j)
  {}

  // ---------------------------------------------------------------- output discipline

  predicate Fresh(last: u64, id: u64) {
    last < id || id + 256 <= last
  }

  /** A key frame, or the direct successor of the frame consumed before it. */
  predicate InSequence(taken: seq<Taken>, i: nat)
    requires i < |taken|
  {
    taken[i].frame.kind == KEY || (i > 0 && taken[i].frame.time == Succ(taken[i - 1].frame.time))
  }

  /** A consumed id is fresh, the first frame consumed is a key frame, and a frame is handed
      out exactly if it is a key frame or the one before it was handed out in sequence. */
  ghost predicate DisciplinedAt(taken: seq<Taken>, i: nat)
    requires i < |taken|
  {
    var frame := taken[i].frame;
    if i == 0 then
      Fresh(0, frame.time) && frame.kind == KEY && taken[i].given
    else
      && Fresh(taken[i - 1].frame.time, frame.time)
      && (taken[i].given <==> frame.kind == KEY || (taken[i - 1].given && InSequence(taken, i - 1)))
  }

  ghost predicate Disciplined(taken: seq<Taken>) {
    forall i :: 0 <= i < |taken| ==> DisciplinedAt(taken, i)
  }

  /** The three field combinations next() can be in, given what was consumed. */
  ghost predicate InPhase(g: Gate, taken: seq<Taken>) {
    if taken == [] then g.keyCount == 0 && g.last == 0 && (g.waitFor == NORMAL || g.waitFor == KEY)
    else
      var n := |taken| - 1;
      && g.keyCount > 0
      && g.last == taken[n].frame.time
      && g.waitFor == if taken[n].given && InSequence(taken, n) then NORMAL else KEY
  }

  ghost function GateOf(st: State): Gate { Gate(st.last, st.waitFor, st.keyCount) }

  ghost predicate KeyedByTime(st: State) {
    forall k :: k in st.queue ==> st.queue[k].time == k
  }

  lemma DisciplinedPrefix(taken: seq<Taken>, t: Taken)
    requires Disciplined(taken)
    requires DisciplinedAt(taken + [t], |taken|)
    ensures Disciplined(taken + [t])
  {
    forall i | 0 <= i < |taken|
      ensures DisciplinedAt(taken + [t], i)
    {
      assert DisciplinedAt(taken, i);
    }
  }

  lemma JudgeDisciplined(g: Gate, taken: seq<Taken>, frame: Frame)
    requires InPhase(g, taken) && Disciplined(taken)
    ensures var j := Judge(g, frame.time, frame.kind);
            var t := if j.verdict == Drop then taken else taken + [Taken(frame, j.verdict == HandOut)];
            InPhase(j.gate, t) && Disciplined(t)
  {
    var j := Judge(g, frame.time, frame.kind);
    if j.verdict != Drop {
      var t := taken + [Taken(frame, j.verdict == HandOut)];
      var n := |taken|;
      if n > 0 {
        assert t[n - 1] == taken[n - 1];
        assert InSequence(t, n - 1) == InSequence(taken, n - 1);
      }
      assert DisciplinedAt(t, n);
      DisciplinedPrefix(taken, t[n]);
    }
  }

  lemma PollDisciplined(st: State, taken: seq<Taken>)
    requires KeyedByTime(st) && InPhase(GateOf(st), taken) && Disciplined(taken)
    ensures KeyedByTime(NextStep(st).st)
    ensures InPhase(GateOf(NextStep(st).st), taken + NextStep(st).taken)
    ensures Disciplined(taken + NextStep(st).taken)
  {
    assert taken + [] == taken;
    if st.queue != map[] {
      JudgeDisciplined(GateOf(st), taken, st.queue[MinKey(st.queue)]);
    }
  }

  lemma AddKeepsGate(st: State, dpart: Option<Datagram>)
    requires CanAdd(st, dpart) && KeyedByTime(st)
    ensures GateOf(AddStep(st, dpart).st) == GateOf(st) && KeyedByTime(AddStep(st, dpart).st)
  {}

  ghost predicate InDiscipline(r: Run) {
    && KeyedByTime(r.st) && InPhase(GateOf(r.st), r.taken)
    && Disciplined(r.taken)
    && r.out == GivenFrames(r.taken)
  }

  lemma PollInDiscipline(r: Run)
    requires InDiscipline(r)
    ensures InDiscipline(PollRun(r))
  {
    PollDisciplined(r.st, r.taken);
    GivenFramesStep(r.taken, NextStep(r.st).taken);
    PollGives(r.st);
  }

  /** The frame returned is the one consumed, if it was handed out. */
  lemma PollGives(st: State)
    ensures var p := NextStep(st);
      && |p.taken| <= 1
      && AsSeq(p.frame) == if p.taken != [] && p.taken[0].given then [p.taken[0].frame] else []
  {}

  lemma AddInDiscipline(r: Run, dpart: Option<Datagram>)
    requires CanAdd(r.st, dpart) && InDiscipline(r)
    ensures InDiscipline(r.(st := AddStep(r.st, dpart).st))
  {
    AddKeepsGate(r.st, dpart);
  }

  /** Over every run the frames handed out obey the discipline. */
  lemma {:induction false} OutputDiscipline(h: History)
    requires Runnable(h)
    ensures InDiscipline(RunOf(h))
  {
    match h
    case Start =>
    case Then(prev, e) =>
      OutputDiscipline(prev);
      match e
      case Arrive(d) => AddInDiscipline(RunOf(prev), d);
      case Poll => PollInDiscipline(RunOf(prev));
  }

  function GivenFrames(taken: seq<Taken>): seq<Frame> {
    if taken == [] then []
    else
      var n := |taken| - 1;
      GivenFrames(taken[..n]) + (if taken[n].given then [taken[n].frame] else [])
  }

  lemma GivenFramesStep(taken: seq<Taken>, more: seq<Taken>)
    requires |more| <= 1
    ensures GivenFrames(taken + more) ==
            GivenFrames(taken) + (if more != [] && more[0].given then [more[0].frame] else [])
  {
    if more != [] {
      assert (taken + more)[..|taken|] == taken;
    } else {
      assert taken + more == taken;
    }
  }

  /** After an out-of-sequence frame was handed out, the next one handed out is a key frame. */
  lemma BreakThenKey(taken: seq<Taken>, i: nat, j: nat)
    requires Disciplined(taken)
    requires i < j < |taken| && taken[i].given && taken[j].given && !InSequence(taken, i)
    requires forall k :: i < k < j ==> !taken[k].given
    ensures taken[j].frame.kind == KEY
  {
    assert DisciplinedAt(taken, j);
  }

  /** Between two frames handed out in a row, the second is a key frame or the direct
      successor of the first or the one frame that ends the segment. */
  lemma SegmentsContinue(taken: seq<Taken>, i: nat)
    requires Disciplined(taken)
    requires i + 1 < |taken| && taken[i + 1].given && taken[i + 1].frame.kind != KEY
    ensures taken[i].given && InSequence(taken, i)
  {
    assert DisciplinedAt(taken, i + 1);
  }

  // ---------------------------------------------------------------- what the caller sees

  /** A key frame, or one that follows a key frame or a frame in sequence. */
  predicate MayFollow(out: seq<Frame>, i: nat)
    requires i < |out|
  {
    out[i].kind == KEY ||
    (i > 0 && (out[i - 1].kind == KEY || (i > 1 && out[i - 1].time == Succ(out[i - 2].time))))
  }

  predicate InSegments(out: seq<Frame>) {
    forall i :: 0 <= i < |out| ==> MayFollow(out, i)
  }

  /** The frames handed out end with the last ones consumed, if those were handed out. */
  ghost predicate EndsAlike(taken: seq<Taken>, out: seq<Frame>) {
    var n, m := |taken|, |out|;
    n > 0 && taken[n - 1].given ==>
      && m > 0 && out[m - 1] == taken[n - 1].frame
      && (taken[n - 1].frame.kind != KEY ==> n > 1 && taken[n - 2].given && m > 1 && out[m - 2] == taken[n - 2].frame)
  }

  lemma SegmentStep(taken: seq<Taken>, t: Taken, out: seq<Frame>)
    requires Disciplined(taken + [t]) && t.given
    requires InSegments(out) && EndsAlike(taken, out)
    ensures InSegments(out + [t.frame]) && EndsAlike(taken + [t], out + [t.frame])
  {
    var n, m := |taken|, |out|;
    assert DisciplinedAt(taken + [t], n);
    if t.frame.kind != KEY {
      SegmentsContinue(taken + [t], n - 1);
      assert (taken + [t])[n - 1] == taken[n - 1] && InSequence(taken + [t], n - 1) == InSequence(taken, n - 1);
    }
    assert MayFollow(out + [t.frame], m);
    forall i | 0 <= i < m
      ensures MayFollow(out + [t.frame], i)
    {
      assert MayFollow(out, i);
    }
  }

  lemma {:induction false} GivenInSegments(taken: seq<Taken>)
    requires Disciplined(taken)
    ensures InSegments(GivenFrames(taken)) && EndsAlike(taken, GivenFrames(taken))
  {
    if taken != [] {
      var n := |taken| - 1;
      var before, t := taken[..n], taken[n];
      assert taken == before + [t];
      forall i | 0 <= i < n
        ensures DisciplinedAt(before, i)
      {
        assert DisciplinedAt(taken, i);
      }
      GivenInSegments(before);
      if t.given {
        SegmentStep(before, t, GivenFrames(before));
      } else {
        assert GivenFrames(taken) == GivenFrames(before);
      }
    }
  }

  /** Over every run, in terms of what next() returned: the first frame is a key frame, and
      any other frame is a key frame or follows one that is a key frame or the direct
      successor of the frame before it. So a frame out of sequence ends its segment. */
  lemma OutputInSegments(h: History)
    requires Runnable(h)
    ensures InSegments(RunOf(h).out)
    ensures RunOf(h).out != [] ==> RunOf(h).out[0].kind == KEY
  {
    OutputDiscipline(h);
    GivenInSegments(RunOf(h).taken);
    assert RunOf(h).out != [] ==> MayFollow(RunOf(h).out, 0);
  }
}
