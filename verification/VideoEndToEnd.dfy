/** From the sender's frames to the receiver's: honest traffic through a lossy channel. */
module HonestFrames {
  import opened Bytes
  import opened MediaFrame
  import opened MediaProtocol
  import opened Reassembly

  /** The frames one sender transmitted, by the frame id of their datagrams. */
  type Corpus = map<u64, Frame>

  ghost predicate Sendable(m: Media, corpus: Corpus) {
    forall f :: f in corpus ==> |corpus[f].data| + 16 <= 0xFFFF * m.MaxPayload()
  }

  ghost function SentParts(m: Media, sender: i32, corpus: Corpus): (r: Sent)
    requires Sendable(m, corpus)
    ensures r.Keys == corpus.Keys
  {
    map f | f in corpus :: Parts(m, sender, f, Serialize(corpus[f]))
  }

  lemma SentPartsWellNumbered(m: Media, sender: i32, corpus: Corpus)
    requires Sendable(m, corpus)
    ensures WellNumbered(SentParts(m, sender, corpus))
  {
    forall f | f in corpus
      ensures var parts := SentParts(m, sender, corpus)[f];
        0 < |parts| <= 0xFFFF &&
        forall i :: 0 <= i < |parts| ==> parts[i].frameId == f && parts[i].index == i && parts[i].count == |parts|
    {
      var data := Serialize(corpus[f]);
      PartCountIsCeiling(m, |data|);
      SplitPartition(m, sender, f, data);
    }
  }

  /** A complete buffer of honest parts deserialises to the frame that was sent. */
  lemma BuiltFrameWasSent(m: Media, sender: i32, corpus: Corpus, f: u64, slots: Slots)
    requires Sendable(m, corpus) && f in corpus
    requires SlotsMatch(slots, SentParts(m, sender, corpus)[f]) && Complete(slots)
    ensures Deserialize(Join(Filled(slots))) == corpus[f]
  {
    var data := Serialize(corpus[f]);
    CompleteIsSent(slots, SentParts(m, sender, corpus)[f]);
    SplitPartition(m, sender, f, data);
    SerializeRoundTrip(corpus[f], []);
    assert data + [] == data;
  }

  /** Every frame carries the number its datagrams carry. */
  ghost predicate TimeIsFrameId(corpus: Corpus) {
    forall f :: f in corpus ==> corpus[f].time == f
  }

  predicate StrictlyIncreasing(out: seq<Frame>) {
    forall i, j :: 0 <= i < j < |out| ==> out[i].time < out[j].time
  }
}

module VideoEndToEnd {
  import opened Wrappers
  import opened Bytes
  import opened MediaFrame
  import opened MediaProtocol
  import opened Reassembly
  import opened HonestFrames
  import opened VideoDecoder
  import opened VideoDecoderRuns

  /** Buffers hold sent parts in their own slots; finished frames are sent frames. */
  ghost predicate OnlySent(st: State, sender: i32, corpus: Corpus)
    requires Sendable(VideoMedia, corpus)
  {
    && Honest(st.buffers, SentParts(VideoMedia, sender, corpus))
    && forall k :: k in st.queue ==> st.queue[k] in corpus.Values
  }

  lemma QueueSubset(queue: map<u64, Frame>, frame: Frame, kept: map<u64, Frame>, corpus: Corpus)
    requires frame in corpus.Values && forall k :: k in queue ==> queue[k] in corpus.Values
    requires forall k :: k in kept ==> k in queue[frame.time := frame] && kept[k] == queue[frame.time := frame][k]
    ensures forall k :: k in kept ==> kept[k] in corpus.Values
  {}

  lemma AddOnlySent(st: State, sender: i32, corpus: Corpus, d: Datagram)
    requires Sendable(VideoMedia, corpus) && OnlySent(st, sender, corpus)
    requires WasSent(SentParts(VideoMedia, sender, corpus), d)
    ensures CanAdd(st, Some(d)) && OnlySent(AddStep(st, Some(d)).st, sender, corpus)
  {
    var sent := SentParts(VideoMedia, sender, corpus);
    SentPartsWellNumbered(VideoMedia, sender, corpus);
    InsertHonest(st.buffers, sent, d);
    var slots := Insert(st.buffers, d)[d.frameId];
    if PassedOver(st.last, d.frameId) || Occupied(st.buffers, d) {
      return;
    }
    HonestSubset(Insert(st.buffers, d), AddStep(st, Some(d)).st.buffers, sent);
    if Complete(slots) {
      BuiltFrameWasSent(VideoMedia, sender, corpus, d.frameId, slots);
      QueueSubset(st.queue, corpus[d.frameId], AddStep(st, Some(d)).st.queue, corpus);
    }
  }

  lemma NextOnlySent(st: State, sender: i32, corpus: Corpus)
    requires Sendable(VideoMedia, corpus) && OnlySent(st, sender, corpus)
    ensures OnlySent(NextStep(st).st, sender, corpus)
    ensures NextStep(st).frame.Some? ==> NextStep(st).frame.value in corpus.Values
  {}

  /** Every arrival is one of the sent datagrams; nothing is said about order, loss or
      repetition. */
  ghost predicate FromChannel(h: History, sender: i32, corpus: Corpus)
    requires Sendable(VideoMedia, corpus)
  {
    match h
    case Start => true
    case Then(prev, e) =>
      && FromChannel(prev, sender, corpus)
      && (e.Arrive? && e.dpart.Some? ==> WasSent(SentParts(VideoMedia, sender, corpus), e.dpart.value))
  }

  /** Over any lossy, duplicating, reordering channel and any interleaving of next(), every
      frame handed out equals one that was sent; and no arrival is out of range. */
  lemma {:induction false} EndToEndSafety(h: History, sender: i32, corpus: Corpus)
    requires Sendable(VideoMedia, corpus) && FromChannel(h, sender, corpus)
    ensures Runnable(h)
    ensures OnlySent(RunOf(h).st, sender, corpus)
    ensures forall i :: 0 <= i < |RunOf(h).out| ==> RunOf(h).out[i] in corpus.Values
  {
    match h
    case Start =>
    case Then(prev, e) =>
      EndToEndSafety(prev, sender, corpus);
      match e
      case Arrive(Some(d)) => AddOnlySent(RunOf(prev).st, sender, corpus, d);
      case Arrive(None) =>
      case Poll => NextOnlySent(RunOf(prev).st, sender, corpus);
  }
}
