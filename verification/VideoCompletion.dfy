/** When a frame is built: exactly once per buffer lifetime, at its last missing part. */
module VideoCompletion {
  import opened Histories
  import opened Wrappers
  import opened Bytes
  import opened MediaProtocol
  import opened Reassembly
  import opened VideoDecoder
  import opened VideoDecoderRuns

  /** The event hands in a part of frame f. */
  predicate IsPartOf(e: Event, f: u64) {
    e.Arrive? && e.dpart.Some? && e.dpart.value.frameId == f
  }

  /** The part numbers of frame f that arrived since base. */
  ghost function Arrivals(h: History, base: History, f: u64): set<int>
    requires Extends(h, base)
  {
    if h == base then {}
    else Arrivals(h.prev, base, f) + (if IsPartOf(h.e, f) then {h.e.dpart.value.index} else {})
  }

  /** The last event built frame f. */
  ghost predicate BuiltLast(h: History, f: u64)
    requires Runnable(h) && h.Then?
  {
    IsPartOf(h.e, f) && AddStep(RunOf(h.prev).st, h.e.dpart).built.Some?
  }

  /** How often frame f was built since base. */
  ghost function Builds(h: History, base: History, f: u64): nat
    requires Runnable(h) && Extends(h, base)
  {
    if h == base then 0
    else Builds(h.prev, base, f) + (if BuiltLast(h, f) then 1 else 0)
  }

  /** Since base, no part of f came after f was passed over, and the buffer of f, once
      opened, was not evicted. */
  ghost predicate Undisturbed(h: History, base: History, f: u64)
    requires Runnable(h) && Extends(h, base)
  {
    h == base || (
      var before := RunOf(h.prev).st;
      && Undisturbed(h.prev, base, f)
      && (IsPartOf(h.e, f) ==> !PassedOver(before.last, f))
      && (f in before.buffers || IsPartOf(h.e, f) ==> f in RunOf(h).st.buffers))
  }

  ghost predicate HoldsExactly(slots: Slots, arrived: set<int>) {
    && (forall i :: i in arrived ==> 0 <= i < |slots|)
    && forall i :: 0 <= i < |slots| ==> (slots[i].Some? <==> i in arrived)
  }

  ghost predicate AllIn(slots: Slots, arrived: set<int>) {
    forall i :: 0 <= i < |slots| ==> i in arrived
  }

  /** What the decoder knows of f follows from the parts that arrived. */
  ghost predicate Tracks(st: State, f: u64, arrived: set<int>, builds: nat) {
    if arrived == {} then f !in st.buffers && builds == 0
    else
      && f in st.buffers
      && HoldsExactly(st.buffers[f], arrived)
      && builds == if AllIn(st.buffers[f], arrived) then 1 else 0
  }

  lemma OtherEventKeepsBuffer(st: State, e: Event, f: u64)
    requires e.Arrive? ==> CanAdd(st, e.dpart)
    requires !IsPartOf(e, f)
    ensures var after := if e.Arrive? then AddStep(st, e.dpart).st else NextStep(st).st;
            && (f !in st.buffers ==> f !in after.buffers)
            && (f in after.buffers ==> f in st.buffers && after.buffers[f] == st.buffers[f])
  {}

  lemma FillFreeSlot(slots: Slots, d: Datagram, arrived: set<int>)
    requires d.index < |slots| && slots[d.index] == None && HoldsExactly(slots, arrived)
    ensures HoldsExactly(slots[d.index := Some(d)], arrived + {d.index})
    ensures !AllIn(slots, arrived)
    ensures Complete(slots[d.index := Some(d)]) <==> AllIn(slots, arrived + {d.index})
  {
    var now := slots[d.index := Some(d)];
    assert d.index !in arrived;
    forall i | 0 <= i < |now|
      ensures now[i].Some? <==> i in arrived + {d.index}
    {}
  }

  /** One part of f arriving at a buffer that is neither passed over nor evicted. */
  lemma PartStep(st: State, d: Datagram, arrived: set<int>, builds: nat)
    requires CanAdd(st, Some(d)) && !PassedOver(st.last, d.frameId)
    requires Tracks(st, d.frameId, arrived, builds)
    requires d.frameId in AddStep(st, Some(d)).st.buffers
    ensures Tracks(AddStep(st, Some(d)).st, d.frameId, arrived + {d.index},
                   builds + (if AddStep(st, Some(d)).built.Some? then 1 else 0))
    ensures AddStep(st, Some(d)).built.Some? <==>
              && !AllIn(AddStep(st, Some(d)).st.buffers[d.frameId], arrived)
              && AllIn(AddStep(st, Some(d)).st.buffers[d.frameId], arrived + {d.index})
  {
    var slots := SlotsFor(st.buffers, d);
    if Occupied(st.buffers, d) {
      assert arrived + {d.index} == arrived;
    } else {
      AddStores(st, d);
      assert HoldsExactly(slots, arrived);
      FillFreeSlot(slots, d, arrived);
    }
  }

  /** For a buffer lifetime starting at base: the buffer holds exactly the parts that
      arrived, and the frame was built once if all arrived, and otherwise never. */
  lemma {:induction false} CompletionExactlyOnce(h: History, base: History, f: u64)
    requires Runnable(h) && Extends(h, base) && Runnable(base)
    requires f !in RunOf(base).st.buffers && Undisturbed(h, base, f)
    ensures Tracks(RunOf(h).st, f, Arrivals(h, base, f), Builds(h, base, f))
  {
    if h != base {
      CompletionExactlyOnce(h.prev, base, f);
      if IsPartOf(h.e, f) {
        PartStep(RunOf(h.prev).st, h.e.dpart.value, Arrivals(h.prev, base, f), Builds(h.prev, base, f));
      } else {
        OtherEventKeepsBuffer(RunOf(h.prev).st, h.e, f);
      }
    }
  }

  /** The frame is built exactly at the arrival of its last distinct part. */
  lemma BuiltAtLastPart(h: History, base: History, f: u64)
    requires Runnable(h) && h != base && Extends(h, base) && Runnable(base)
    requires f !in RunOf(base).st.buffers && Undisturbed(h, base, f)
    requires f in RunOf(h).st.buffers
    ensures BuiltLast(h, f) <==>
              && AllIn(RunOf(h).st.buffers[f], Arrivals(h, base, f))
              && !AllIn(RunOf(h).st.buffers[f], Arrivals(h.prev, base, f))
  {
    if IsPartOf(h.e, f) {
      CompletionExactlyOnce(h.prev, base, f);
      PartStep(RunOf(h.prev).st, h.e.dpart.value, Arrivals(h.prev, base, f), Builds(h.prev, base, f));
    } else {
      assert Arrivals(h, base, f) == Arrivals(h.prev, base, f);
    }
  }
}
