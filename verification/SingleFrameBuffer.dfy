/** SingleFrameBuffer: completeness of one frame decided by a counter. */
module SingleFrames {
  import opened Wrappers
  import opened MediaProtocol
  import opened Reassembly

  function CountFilled(slots: Slots): nat {
    if slots == [] then 0
    else CountFilled(slots[..|slots| - 1]) + (if slots[|slots| - 1].Some? then 1 else 0)
  }

  /** The counter and the full scan give the same verdict. */
  lemma {:induction false} CounterAgreesWithScan(slots: Slots)
    ensures CountFilled(slots) <= |slots|
    ensures CountFilled(slots) == |slots| <==> Complete(slots)
  {
    if slots != [] {
      var n := |slots| - 1;
      CounterAgreesWithScan(slots[..n]);
      assert forall i :: 0 <= i < n ==> slots[..n][i] == slots[i];
      assert Complete(slots) <==> Complete(slots[..n]) && slots[n].Some?;
    }
  }

  lemma {:induction false} CountEmpty(n: nat)
    ensures CountFilled(EmptySlots(n)) == 0
  {
    if n > 0 {
      CountEmpty(n - 1);
      assert EmptySlots(n)[..n - 1] == EmptySlots(n - 1);
    }
  }

  lemma {:induction false} CountInsert(slots: Slots, i: nat, d: Datagram)
    requires i < |slots| && slots[i] == None
    ensures CountFilled(slots[i := Some(d)]) == CountFilled(slots) + 1
  {
    var n := |slots| - 1;
    if i == n {
      assert slots[i := Some(d)][..n] == slots[..n];
    } else {
      CountInsert(slots[..n], i, d);
      assert slots[i := Some(d)][..n] == slots[..n][i := Some(d)];
    }
  }

  class SingleFrameBuffer {
    const datagrams: array<Option<Datagram>>
    var datagramsCount: nat
    ghost var freed: multiset<Datagram>

    ghost predicate Valid()
      reads this, datagrams
    {
      datagramsCount == CountFilled(datagrams[..])
    }

    constructor (capacity: nat)
      ensures Valid() && fresh(datagrams)
      ensures datagrams[..] == EmptySlots(capacity) && freed == multiset{}
    {
      datagrams := new Option<Datagram>[capacity](_ => None);
      datagramsCount := 0;
      freed := multiset{};
      new;
      assert datagrams[..] == EmptySlots(capacity);
      CountEmpty(capacity);
    }

    /** Stores the part in its slot, or deletes it if the slot is taken; says whether the
        frame is complete now. */
    method Add(d: Datagram) returns (complete: bool)
      requires Valid() && d.index < datagrams.Length
      modifies this, datagrams
      ensures Valid()
      ensures complete <==> Complete(datagrams[..])
      ensures old(datagrams[d.index]) == None ==>
        datagrams[..] == old(datagrams[..])[d.index := Some(d)] && freed == old(freed)
      ensures old(datagrams[d.index]).Some? ==>
        datagrams[..] == old(datagrams[..]) && freed == old(freed) + multiset{d}
    {
      if datagrams[d.index] == None {
        CountInsert(datagrams[..], d.index, d);
        ghost var before := datagrams[..];
        datagrams[d.index] := Some(d);
        datagramsCount := datagramsCount + 1;
        assert datagrams[..] == before[d.index := Some(d)];
      } else {
        freed := freed + multiset{d};
      }
      CounterAgreesWithScan(datagrams[..]);
      return datagrams.Length == datagramsCount;
    }

    method IsComplete() returns (complete: bool)
      requires Valid()
      ensures complete <==> Complete(datagrams[..])
    {
      CounterAgreesWithScan(datagrams[..]);
      return datagrams.Length == datagramsCount;
    }
  }
}
