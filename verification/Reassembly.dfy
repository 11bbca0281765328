/** What the video and the audio decoder share: slots of received parts per frame id. */
module Reassembly {
  import opened Wrappers
  import opened Bytes
  import opened SortedMap
  import opened MediaProtocol

  type Slots = seq<Option<Datagram>>
  type Buffers = map<u64, Slots>

  const MAX_DISTINCT_FRAMES: nat := 16

  function EmptySlots(n: nat): Slots { seq(n, _ => None) }

  predicate Complete(slots: Slots) {
    forall i :: 0 <= i < |slots| ==> slots[i].Some?
  }

  /** The buffer a part goes to: the existing one, or an empty one sized by its count. */
  function SlotsFor(b: Buffers, d: Datagram): Slots {
    if d.frameId in b then b[d.frameId] else EmptySlots(d.count)
  }

  /** buffer[index] exists; the decoders index without a check. */
  predicate Addressable(b: Buffers, d: Datagram) {
    d.index < |SlotsFor(b, d)|
  }

  predicate Occupied(b: Buffers, d: Datagram)
    requires Addressable(b, d)
  {
    SlotsFor(b, d)[d.index].Some?
  }

  function Insert(b: Buffers, d: Datagram): Buffers
    requires Addressable(b, d)
  {
    b[d.frameId := SlotsFor(b, d)[d.index := Some(d)]]
  }

  /** The received parts of a complete buffer, in index order. */
  function Filled(slots: Slots): (r: seq<Datagram>)
    requires Complete(slots)
    ensures |r| == |slots|
  {
    seq(|slots|, i requires 0 <= i < |slots| => slots[i].value)
  }

  // ---------------------------------------------------------------- ownership

  /** The datagrams held by one buffer. */
  function Held(slots: Slots): multiset<Datagram> {
    if slots == [] then multiset{}
    else
      Held(slots[..|slots| - 1]) +
      (match slots[|slots| - 1] case Some(d) => multiset{d} case None => multiset{})
  }

  /** The datagrams held by all buffers. */
  function Owned(b: Buffers): multiset<Datagram>
    decreases |b|
  {
    if b == map[] then multiset{}
    else
      RemoveOne(b, MinKey(b));
      Held(b[MinKey(b)]) + Owned(b - {MinKey(b)})
  }

  lemma {:induction false} HeldEmpty(n: nat)
    ensures Held(EmptySlots(n)) == multiset{}
  {
    if n > 0 {
      HeldEmpty(n - 1);
      assert EmptySlots(n)[..n - 1] == EmptySlots(n - 1);
    }
  }

  lemma {:induction false} HeldInsert(slots: Slots, i: nat, d: Datagram)
    requires i < |slots| && slots[i] == None
    ensures Held(slots[i := Some(d)]) == Held(slots) + multiset{d}
  {
    var n := |slots| - 1;
    if i == n {
      assert slots[i := Some(d)][..n] == slots[..n];
    } else {
      HeldInsert(slots[..n], i, d);
      assert slots[i := Some(d)][..n] == slots[..n][i := Some(d)];
    }
  }

  lemma {:induction false} HeldSome(slots: Slots, i: nat)
    requires i < |slots| && slots[i].Some?
    ensures slots[i].value in Held(slots)
  {
    var n := |slots| - 1;
    if i < n {
      HeldSome(slots[..n], i);
    }
  }

  /** Every buffer was opened for a part, and holds at least one. */
  ghost predicate NoneEmpty(b: Buffers) {
    forall f :: f in b ==> exists i :: 0 <= i < |b[f]| && b[f][i].Some?
  }

  /** Nothing is owned exactly when there is no buffer. */
  lemma OwnedNothing(b: Buffers)
    requires NoneEmpty(b)
    ensures Owned(b) == multiset{} <==> b == map[]
  {
    if b != map[] {
      var f :| f in b;
      var i :| 0 <= i < |b[f]| && b[f][i].Some?;
      HeldSome(b[f], i);
      OwnedSplit(b, f);
      assert b[f][i].value in Owned(b);
    }
  }

  lemma {:induction false} OwnedSplit(b: Buffers, f: u64)
    requires f in b
    ensures Owned(b) == Held(b[f]) + Owned(b - {f})
    decreases |b|
  {
    var k := MinKey(b);
    if f != k {
      var c := b - {k};
      RemoveOne(b, k);
      OwnedSplit(c, f);
      MinKeyIs(b - {f}, k);
      assert (b - {f}) - {k} == c - {f};
    }
  }

  /** What is owned outside buffer f does not change when f is replaced. */
  lemma OwnedElsewhere(b: Buffers, f: u64, slots: Slots)
    ensures Owned(b[f := slots]) == Held(slots) + Owned(b - {f})
  {
    OwnedSplit(b[f := slots], f);
    assert b[f := slots] - {f} == b - {f};
  }

  /** Storing a part in a free slot adds exactly that part to what is owned. */
  lemma OwnedInsert(b: Buffers, d: Datagram)
    requires Addressable(b, d) && !Occupied(b, d)
    ensures Owned(Insert(b, d)) == Owned(b) + multiset{d}
  {
    var slots := SlotsFor(b, d);
    HeldInsert(slots, d.index, d);
    OwnedElsewhere(b, d.frameId, slots[d.index := Some(d)]);
    OwnedAround(b, d);
  }

  lemma OwnedAround(b: Buffers, d: Datagram)
    ensures Owned(b) == Held(SlotsFor(b, d)) + Owned(b - {d.frameId})
  {
    if d.frameId in b {
      OwnedSplit(b, d.frameId);
    } else {
      HeldEmpty(d.count);
      assert b - {d.frameId} == b;
    }
  }

  /** The datagrams freed while evicting buffers from the front. */
  function Evicted(b: Buffers, n: nat): multiset<Datagram>
    decreases |b|
  {
    if |b| <= n then multiset{}
    else
      RemoveOne(b, MinKey(b));
      Held(b[MinKey(b)]) + Evicted(b - {MinKey(b)}, n)
  }

  lemma {:induction false} EvictionConserves(b: Buffers, n: nat)
    ensures Owned(b) == Owned(KeepLargest(b, n)) + Evicted(b, n)
    decreases |b|
  {
    if |b| > n {
      RemoveOne(b, MinKey(b));
      EvictionConserves(b - {MinKey(b)}, n);
    }
  }

  /** Storing a part and evicting down to the window loses and duplicates nothing. */
  lemma StoreConserves(b: Buffers, d: Datagram, freed: multiset<Datagram>)
    requires Addressable(b, d) && !Occupied(b, d)
    ensures Owned(KeepLargest(Insert(b, d), MAX_DISTINCT_FRAMES)) + (freed + Evicted(Insert(b, d), MAX_DISTINCT_FRAMES))
         == Owned(b) + freed + multiset{d}
  {
    OwnedInsert(b, d);
    EvictionConserves(Insert(b, d), MAX_DISTINCT_FRAMES);
    Regroup(Owned(KeepLargest(Insert(b, d), MAX_DISTINCT_FRAMES)), Evicted(Insert(b, d), MAX_DISTINCT_FRAMES),
        Owned(b), freed, multiset{d});
  }

  lemma Regroup(kept: multiset<Datagram>, gone: multiset<Datagram>, before: multiset<Datagram>,
      freed: multiset<Datagram>, new_: multiset<Datagram>)
    requires kept + gone == before + new_
    ensures kept + (freed + gone) == before + freed + new_
  {
    assert kept + (freed + gone) == (kept + gone) + freed;
  }

  // ---------------------------------------------------------------- honest traffic

  /** Sent parts by frame id: what an honest sender put on the wire. */
  type Sent = map<u64, seq<Datagram>>

  ghost predicate WellNumbered(sent: Sent) {
    forall f :: f in sent ==>
      && 0 < |sent[f]| <= 0xFFFF
      && forall i :: 0 <= i < |sent[f]| ==>
           sent[f][i].frameId == f && sent[f][i].index == i && sent[f][i].count == |sent[f]|
  }

  ghost predicate WasSent(sent: Sent, d: Datagram) {
    d.frameId in sent && d in sent[d.frameId]
  }

  /** Every slot is empty or holds the part sent for exactly that slot. */
  ghost predicate SlotsMatch(slots: Slots, parts: seq<Datagram>) {
    && |slots| == |parts|
    && forall i :: 0 <= i < |slots| ==> slots[i] == None || slots[i] == Some(parts[i])
  }

  ghost predicate Honest(b: Buffers, sent: Sent) {
    forall f :: f in b ==> f in sent && SlotsMatch(b[f], sent[f])
  }

  /** Honest parts are always addressable, and storing one never mixes fragments. */
  lemma InsertHonest(b: Buffers, sent: Sent, d: Datagram)
    requires WellNumbered(sent) && Honest(b, sent) && WasSent(sent, d)
    ensures Addressable(b, d)
    ensures Honest(Insert(b, d), sent)
    ensures SlotsMatch(Insert(b, d)[d.frameId], sent[d.frameId])
  {
    var parts := sent[d.frameId];
    var i :| 0 <= i < |parts| && parts[i] == d;
    assert SlotsMatch(SlotsFor(b, d), parts);
  }

  /** Evicting buffers mixes nothing. */
  lemma HonestSubset(b: Buffers, kept: Buffers, sent: Sent)
    requires Honest(b, sent)
    requires forall k :: k in kept ==> k in b && kept[k] == b[k]
    ensures Honest(kept, sent)
  {}

  lemma CompleteIsSent(slots: Slots, parts: seq<Datagram>)
    requires SlotsMatch(slots, parts) && Complete(slots)
    ensures Filled(slots) == parts
  {}

  // ---------------------------------------------------------------- loops

  /** isComplete: scan for a missing part. */
  method IsComplete(slots: Slots) returns (r: bool)
    ensures r <==> Complete(slots)
  {
    for i := 0 to |slots|
      invariant forall j :: 0 <= j < i ==> slots[j].Some?
    {
      if slots[i] == None {
        return false;
      }
    }
    return true;
  }

  /** The byte-appending loop of createFrame. */
  method Glue(slots: Slots) returns (data: seq<byte>)
    requires Complete(slots)
    ensures data == Join(Filled(slots))
  {
    data := [];
    ghost var parts := Filled(slots);
    for i := 0 to |slots|
      invariant data == Join(parts[..i])
    {
      assert parts[..i + 1][..i] == parts[..i];
      data := data + slots[i].value.data;
    }
    assert parts[..|slots|] == parts;
  }

  /** The inner loop of checkFrameBuffers: pop parts from the back and delete them. */
  method FreeSlots(slots: Slots) returns (freed: multiset<Datagram>)
    ensures freed == Held(slots)
  {
    freed := multiset{};
    var fb := slots;
    while fb != []
      invariant Held(slots) == Held(fb) + freed
      decreases |fb|
    {
      var dg := fb[|fb| - 1];
      if dg.Some? {
        freed := freed + multiset{dg.value};
      }
      fb := fb[..|fb| - 1];
    }
  }

  /** checkFrameBuffers: erase from the front until at most maxSize buffers are left. */
  method CheckFrameBuffers(b: Buffers, maxSize: nat) returns (r: Buffers, freed: multiset<Datagram>)
    ensures r == KeepLargest(b, maxSize)
    ensures freed == Evicted(b, maxSize)
  {
    r, freed := b, multiset{};
    while |r| > maxSize
      invariant KeepLargest(r, maxSize) == KeepLargest(b, maxSize)
      invariant freed + Evicted(r, maxSize) == Evicted(b, maxSize)
      decreases |r|
    {
      var first := MinKey(r);
      var gone := FreeSlots(r[first]);
      freed := freed + gone;
      RemoveOne(r, first);
      r := r - {first};
    }
  }

  /** checkCompleteFramesQueue, the same loop over the finished frames. */
  method CheckQueue<T>(q: map<u64, T>, maxSize: nat) returns (r: map<u64, T>)
    ensures r == KeepLargest(q, maxSize)
  {
    r := q;
    while |r| > maxSize
      invariant KeepLargest(r, maxSize) == KeepLargest(q, maxSize)
      decreases |r|
    {
      RemoveOne(r, MinKey(r));
      r := r - {MinKey(r)};
    }
  }
}
