/** AudioUdpDecoder: the video decoder's strictly monotone sibling. */
module AudioDecoder {
  import opened Wrappers
  import opened Bytes
  import opened SortedMap
  import opened MediaFrame
  import opened MediaProtocol
  import opened Reassembly

  datatype ErrorType = NoError | InvalidParameterError | AlreadyProcessedFrameError

  /** The decoder's fields, and the datagrams it has deleted so far. */
  datatype State = State(buffers: Buffers, queue: map<u64, Frame>, last: u64, freed: multiset<Datagram>)

  const INIT := State(map[], map[], 0, multiset{})

  predicate CanAdd(st: State, datagram: Option<Datagram>) {
    datagram.Some? && datagram.value.frameId > st.last ==> Addressable(st.buffers, datagram.value)
  }

  datatype Added = Added(st: State, error: ErrorType)

  function AddStep(st: State, datagram: Option<Datagram>): Added
    requires CanAdd(st, datagram)
  {
    if datagram.None? then Added(st, InvalidParameterError)
    else if datagram.value.frameId <= st.last || Occupied(st.buffers, datagram.value) then
      Added(st.(freed := st.freed + multiset{datagram.value}), AlreadyProcessedFrameError)
    else
      var b := Insert(st.buffers, datagram.value);
      var kept := st.(buffers := KeepLargest(b, MAX_DISTINCT_FRAMES),
                      freed := st.freed + Evicted(b, MAX_DISTINCT_FRAMES));
      var slots := b[datagram.value.frameId];
      if !Complete(slots) then Added(kept, NoError)
      else
        var frame := Deserialize(Join(Filled(slots)));
        Added(kept.(queue := KeepLargest(st.queue[frame.time := frame], MAX_DISTINCT_FRAMES)), NoError)
  }

  datatype Polled = Polled(st: State, frame: Option<Frame>)

  function NextStep(st: State): Polled {
    if st.queue == map[] then Polled(st, None)
    else
      var id := MinKey(st.queue);
      Polled(State(st.buffers, st.queue - {id}, id, st.freed), Some(st.queue[id]))
  }

  class AudioUdpDecoder {
    var frameBuffers: Buffers
    var completedFramesQueue: map<u64, Frame>
    var lastCompletedFrameId: u64
    ghost var freed: multiset<Datagram>  // every datagram deleted so far

    ghost function Model(): State
      reads this
    {
      State(frameBuffers, completedFramesQueue, lastCompletedFrameId, freed)
    }

    constructor ()
      ensures Model() == INIT
    {
      frameBuffers, completedFramesQueue, lastCompletedFrameId, freed := map[], map[], 0, multiset{};
    }

    method Add(datagram: Option<Datagram>) returns (error: ErrorType)
      requires CanAdd(Model(), datagram)
      modifies this
      ensures Model() == AddStep(old(Model()), datagram).st
      ensures error == AddStep(old(Model()), datagram).error
    {
      if datagram.None? {
        return InvalidParameterError;
      }
      var d := datagram.value;
      if d.frameId <= lastCompletedFrameId {
        freed := freed + multiset{d};
        return AlreadyProcessedFrameError;
      }
      var buffer := SlotsFor(frameBuffers, d);
      if buffer[d.index].Some? {
        freed := freed + multiset{d};
        return AlreadyProcessedFrameError;
      }
      Store(d, buffer);
      return NoError;
    }

    /** The part goes to its free slot. */
    method Store(d: Datagram, buffer: Slots)
      requires Addressable(frameBuffers, d) && buffer == SlotsFor(frameBuffers, d)
      modifies this`frameBuffers, this`freed, this`completedFramesQueue
      ensures var b := Insert(old(frameBuffers), d);
        && frameBuffers == KeepLargest(b, MAX_DISTINCT_FRAMES)
        && freed == old(freed) + Evicted(b, MAX_DISTINCT_FRAMES)
      ensures var slots := Insert(old(frameBuffers), d)[d.frameId];
        if !Complete(slots) then completedFramesQueue == old(completedFramesQueue)
        else
          var frame := Deserialize(Join(Filled(slots)));
          completedFramesQueue == KeepLargest(old(completedFramesQueue)[frame.time := frame], MAX_DISTINCT_FRAMES)
    {
      frameBuffers := frameBuffers[d.frameId := buffer[d.index := Some(d)]];
      var complete := IsComplete(frameBuffers[d.frameId]);
      if complete {
        var data := Glue(frameBuffers[d.frameId]);
        var frame := Deserialize(data);
        completedFramesQueue := completedFramesQueue[frame.time := frame];
        completedFramesQueue := CheckQueue(completedFramesQueue, MAX_DISTINCT_FRAMES);
      }
      var evicted;
      frameBuffers, evicted := CheckFrameBuffers(frameBuffers, MAX_DISTINCT_FRAMES);
      freed := freed + evicted;
    }

    method Next() returns (r: Option<Frame>)
      modifies this
      ensures Model() == NextStep(old(Model())).st
      ensures r == NextStep(old(Model())).frame
    {
      if completedFramesQueue == map[] {
        return None;
      }
      var frameId := MinKey(completedFramesQueue);
      var frame := completedFramesQueue[frameId];
      completedFramesQueue := completedFramesQueue - {frameId};
      lastCompletedFrameId := frameId;
      return Some(frame);
    }
  }
}

/** Whole runs of the audio decoder over a lossy, reordering channel. */
module AudioEndToEnd {
  import opened Histories
  import opened Wrappers
  import opened Bytes
  import opened MediaFrame
  import opened MediaProtocol
  import opened SortedMap
  import opened Reassembly
  import opened HonestFrames
  import opened AudioDecoder

  datatype Event = Arrive(datagram: Option<Datagram>) | Poll

  type History = Trace<Event>

  datatype Run = Run(st: State, out: seq<Frame>)

  ghost predicate Runnable(h: History)
    decreases h, 0
  {
    h.Start? || (Runnable(h.prev) && (h.e.Arrive? ==> CanAdd(RunOf(h.prev).st, h.e.datagram)))
  }

  ghost function RunOf(h: History): Run
    requires Runnable(h)
    decreases h, 1
  {
    if h.Start? then Run(INIT, [])
    else
      var r := RunOf(h.prev);
      match h.e
      case Arrive(d) => r.(st := AddStep(r.st, d).st)
      case Poll => PollRun(r)
  }

  ghost function PollRun(r: Run): Run {
    var p := NextStep(r.st);
    Run(p.st, r.out + (if p.frame.Some? then [p.frame.value] else []))
  }

  // ---------------------------------------------------------------- ownership

  ghost function Given(h: History): multiset<Datagram> {
    match h
    case Start => multiset{}
    case Then(prev, Arrive(Some(d))) => Given(prev) + multiset{d}
    case Then(prev, Arrive(None)) => Given(prev)
    case Then(prev, Poll) => Given(prev)
  }

  lemma AddStores(st: State, d: Datagram)
    requires CanAdd(st, Some(d)) && d.frameId > st.last && !Occupied(st.buffers, d)
    ensures AddStep(st, Some(d)).st.buffers == KeepLargest(Insert(st.buffers, d), MAX_DISTINCT_FRAMES)
    ensures AddStep(st, Some(d)).st.freed == st.freed + Evicted(Insert(st.buffers, d), MAX_DISTINCT_FRAMES)
  {}

  lemma AddConserves(st: State, d: Datagram)
    requires CanAdd(st, Some(d))
    ensures Owned(AddStep(st, Some(d)).st.buffers) + AddStep(st, Some(d)).st.freed
         == Owned(st.buffers) + st.freed + multiset{d}
  {
    if d.frameId > st.last && !Occupied(st.buffers, d) {
      AddStores(st, d);
      StoreConserves(st.buffers, d, st.freed);
    }
  }

  /** Every datagram ever passed in is in exactly one slot or was deleted exactly once. */
  lemma {:induction false} OwnershipConserved(h: History)
    requires Runnable(h)
    ensures Owned(RunOf(h).st.buffers) + RunOf(h).st.freed == Given(h)
  {
    match h
    case Start =>
    case Then(prev, e) =>
      OwnershipConserved(prev);
      match e
      case Arrive(Some(d)) => AddConserves(RunOf(prev).st, d);
      case Arrive(None) =>
      case Poll =>
  }

  // ---------------------------------------------------------------- what the destructor leaves behind

  /** Some part of a frame with a positive number came in. */
  ghost predicate SomePart(h: History) {
    h.Then? && (SomePart(h.prev) || (h.e.Arrive? && h.e.datagram.Some? && h.e.datagram.value.frameId > 0))
  }

  /** No buffer is empty, and without any buffer the decoder is as it was built. */
  ghost predicate Occupying(st: State) {
    NoneEmpty(st.buffers) && (st.buffers == map[] ==> st.queue == map[] && st.last == 0)
  }

  lemma InsertOccupies(b: Buffers, d: Datagram)
    requires Addressable(b, d) && NoneEmpty(b)
    ensures NoneEmpty(Insert(b, d)) && Insert(b, d) != map[]
  {
    assert Insert(b, d)[d.frameId][d.index].Some?;
  }

  lemma EvictionOccupies(b: Buffers)
    requires NoneEmpty(b) && b != map[]
    ensures NoneEmpty(KeepLargest(b, MAX_DISTINCT_FRAMES)) && KeepLargest(b, MAX_DISTINCT_FRAMES) != map[]
  {
    assert |b| > 0;
  }

  lemma AddOccupies(st: State, d: Datagram)
    requires CanAdd(st, Some(d)) && Occupying(st)
    ensures Occupying(AddStep(st, Some(d)).st)
    ensures AddStep(st, Some(d)).st.buffers == map[] <==> st.buffers == map[] && d.frameId == 0
  {
    if d.frameId > st.last && !Occupied(st.buffers, d) {
      InsertOccupies(st.buffers, d);
      EvictionOccupies(Insert(st.buffers, d));
      AddStores(st, d);
    }
  }

  lemma {:induction false} BuffersStay(h: History)
    requires Runnable(h)
    ensures Occupying(RunOf(h).st)
    ensures RunOf(h).st.buffers != map[] <==> SomePart(h)
  {
    match h
    case Start =>
    case Then(prev, e) =>
      BuffersStay(prev);
      match e
      case Arrive(Some(d)) => AddOccupies(RunOf(prev).st, d);
      case Arrive(None) =>
      case Poll =>
  }

  /** The destructor deletes nothing, so at its end every datagram passed in has been deleted
      if and only if no part of a frame with a positive number ever came in. */
  lemma AllFreedAtDestruction(h: History)
    requires Runnable(h)
    ensures RunOf(h).st.freed == Given(h) <==> !SomePart(h)
  {
    BuffersStay(h);
    OwnershipConserved(h);
    OwnedNothing(RunOf(h).st.buffers);
  }

  /** The run that fails: the one part of frame 1 comes in, and the frame is handed out. */
  ghost function OnePartRun(d: Datagram): History {
    Then(Then(Start, Arrive(Some(d))), Poll)
  }

  /** The part is never deleted. */
  lemma PartIsNeverFreed(sender: i32, data: Payload)
    ensures var d := Audio(sender, 1, 0, 1, data);
      && Runnable(OnePartRun(d)) && |RunOf(OnePartRun(d)).out| == 1
      && Given(OnePartRun(d)) == multiset{d} && RunOf(OnePartRun(d)).st.freed == multiset{}
  {
    var d := Audio(sender, 1, 0, 1, data);
    OnePartBuilds(d);
    var none: History := Start;
    assert Runnable(none) && RunOf(none) == Run(INIT, []);
    var first := Then(none, Arrive(Some(d)));
    assert Runnable(first) && RunOf(first) == Run(AddStep(INIT, Some(d)).st, []);
    assert RunOf(OnePartRun(d)) == PollRun(RunOf(first));
    assert Given(first) == multiset{} + multiset{d};
  }

  /** A frame of one part is built when the part comes in. */
  lemma OnePartBuilds(d: Datagram)
    requires d.frameId > 0 && d.index == 0 && d.count == 1
    ensures CanAdd(INIT, Some(d))
    ensures AddStep(INIT, Some(d)).st.queue != map[] && AddStep(INIT, Some(d)).st.freed == multiset{}
  {
    var b := Insert(map[], d);
    assert SlotsFor(map[], d)[0 := Some(d)] == [Some(d)];
    assert b == map[d.frameId := [Some(d)]] && |b| == 1;
    assert Evicted(b, MAX_DISTINCT_FRAMES) == multiset{};
    var frame := Deserialize(Join(Filled(b[d.frameId])));
    assert |map[frame.time := frame]| == 1;
  }

  // ---------------------------------------------------------------- honest traffic

  ghost predicate OnlySent(st: State, sender: i32, corpus: Corpus)
    requires Sendable(AudioMedia, corpus)
  {
    && Honest(st.buffers, SentParts(AudioMedia, sender, corpus))
    && forall k :: k in st.queue ==> st.queue[k] in corpus.Values && st.queue[k].time == k
  }

  lemma QueueSubset(queue: map<u64, Frame>, frame: Frame, kept: map<u64, Frame>, corpus: Corpus)
    requires frame in corpus.Values
    requires forall k :: k in queue ==> queue[k] in corpus.Values && queue[k].time == k
    requires forall k :: k in kept ==> k in queue[frame.time := frame] && kept[k] == queue[frame.time := frame][k]
    ensures forall k :: k in kept ==> kept[k] in corpus.Values && kept[k].time == k
  {}

  lemma AddOnlySent(st: State, sender: i32, corpus: Corpus, d: Datagram)
    requires Sendable(AudioMedia, corpus) && OnlySent(st, sender, corpus)
    requires WasSent(SentParts(AudioMedia, sender, corpus), d)
    ensures CanAdd(st, Some(d)) && OnlySent(AddStep(st, Some(d)).st, sender, corpus)
    ensures forall k :: k in AddStep(st, Some(d)).st.queue ==>
              k in st.queue || (k == corpus[d.frameId].time && d.frameId > st.last)
  {
    var sent := SentParts(AudioMedia, sender, corpus);
    SentPartsWellNumbered(AudioMedia, sender, corpus);
    InsertHonest(st.buffers, sent, d);
    if d.frameId <= st.last || Occupied(st.buffers, d) {
      return;
    }
    var slots := Insert(st.buffers, d)[d.frameId];
    HonestSubset(Insert(st.buffers, d), AddStep(st, Some(d)).st.buffers, sent);
    if Complete(slots) {
      BuiltFrameWasSent(AudioMedia, sender, corpus, d.frameId, slots);
      QueueSubset(st.queue, corpus[d.frameId], AddStep(st, Some(d)).st.queue, corpus);
    }
  }

  ghost predicate FromChannel(h: History, sender: i32, corpus: Corpus)
    requires Sendable(AudioMedia, corpus)
  {
    match h
    case Start => true
    case Then(prev, e) =>
      && FromChannel(prev, sender, corpus)
      && (e.Arrive? && e.datagram.Some? ==> WasSent(SentParts(AudioMedia, sender, corpus), e.datagram.value))
  }

  /** Every audio frame handed out equals one that was sent. */
  lemma {:induction false} EndToEndSafety(h: History, sender: i32, corpus: Corpus)
    requires Sendable(AudioMedia, corpus) && FromChannel(h, sender, corpus)
    ensures Runnable(h)
    ensures OnlySent(RunOf(h).st, sender, corpus)
    ensures forall i :: 0 <= i < |RunOf(h).out| ==> RunOf(h).out[i] in corpus.Values
  {
    match h
    case Start =>
    case Then(prev, e) =>
      EndToEndSafety(prev, sender, corpus);
      match e
      case Arrive(Some(d)) => AddOnlySent(RunOf(prev).st, sender, corpus, d);
      case Arrive(None) =>
      case Poll =>
  }

  /** Everything waiting is newer than everything handed out. */
  ghost predicate AheadOfOutput(r: Run) {
    && (forall k :: k in r.st.queue ==> r.st.last < k)
    && (forall i :: 0 <= i < |r.out| ==> r.out[i].time <= r.st.last)
  }

  lemma PollAhead(r: Run, sender: i32, corpus: Corpus)
    requires Sendable(AudioMedia, corpus) && OnlySent(r.st, sender, corpus)
    requires AheadOfOutput(r) && StrictlyIncreasing(r.out)
    ensures AheadOfOutput(PollRun(r)) && StrictlyIncreasing(PollRun(r).out)
  {
    if r.st.queue == map[] {
      assert r.out + [] == r.out;
    }
  }

  lemma ArriveAhead(r: Run, sender: i32, corpus: Corpus, d: Datagram)
    requires Sendable(AudioMedia, corpus) && OnlySent(r.st, sender, corpus) && TimeIsFrameId(corpus)
    requires WasSent(SentParts(AudioMedia, sender, corpus), d) && AheadOfOutput(r)
    ensures CanAdd(r.st, Some(d)) && AheadOfOutput(r.(st := AddStep(r.st, Some(d)).st))
  {
    AddOnlySent(r.st, sender, corpus, d);
    assert AddStep(r.st, Some(d)).st.last == r.st.last;
  }

  /** When frame time and frame id agree, the times handed out strictly increase: no frame
      comes twice or late, whatever the channel does. */
  lemma {:induction false} AudioOrder(h: History, sender: i32, corpus: Corpus)
    requires Sendable(AudioMedia, corpus) && FromChannel(h, sender, corpus) && TimeIsFrameId(corpus)
    ensures Runnable(h) && AheadOfOutput(RunOf(h)) && StrictlyIncreasing(RunOf(h).out)
  {
    EndToEndSafety(h, sender, corpus);
    match h
    case Start =>
    case Then(prev, e) =>
      EndToEndSafety(prev, sender, corpus);
      AudioOrder(prev, sender, corpus);
      match e
      case Arrive(Some(d)) => ArriveAhead(RunOf(prev), sender, corpus, d);
      case Arrive(None) =>
      case Poll => PollAhead(RunOf(prev), sender, corpus);
  }
}
