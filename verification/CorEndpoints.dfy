/** Two connections talking over two FIFO byte streams. */
module CorEndpoints {
  import opened Wrappers
  import opened Bytes
  import opened CorProtocol
  import opened CorReader
  import opened CorConnection
  import P = CorParser

  /** An endpoint, every frame it ever enqueued, and every byte it ever received. */
  datatype End = End(conn: Conn, log: seq<CorFrame>, received: seq<byte>)

  datatype Side = Left | Right {
    function Other(): Side { if this == Left then Right else Left }
  }

  datatype System = System(left: End, right: End) {
    function At(s: Side): End { if s == Left then left else right }
    function With(s: Side, e: End): System { if s == Left then System(e, right) else System(left, e) }
  }

  /** What can happen at an endpoint: its application sends at any time, a queued done
      notification runs, the next n bytes its peer wrote are read. */
  datatype Action =
    | Request(data: Data, flags: byte)
    | Respond(correlationId: u32, data: Data, flags: byte)
    | Done
    | Deliver(n: nat)

  datatype History = Start | Then(prev: History, side: Side, action: Action)

  /** A done notification was queued; bytes delivered were written; fewer than 2^32 requests. */
  ghost predicate Enabled(at: End, peerWire: seq<byte>, action: Action) {
    match action
    case Request(_, _) => at.conn.issued + 1 < 0x1_0000_0000
    case Respond(_, _, _) => true
    case Done => at.conn.out.notifications > 0
    case Deliver(n) => |at.received| + n <= |peerWire| && at.conn.input.parser.Valid()
  }

  ghost function Step(at: End, peerWire: seq<byte>, action: Action): End
    requires Enabled(at, peerWire, action)
  {
    match action
    case Request(data, flags) =>
      End(RequestStep(at.conn, data, flags), at.log + [RequestFrame(at.conn, data, flags)], at.received)
    case Respond(id, data, flags) =>
      End(RespondStep(at.conn, id, data, flags), at.log + [ResponseFrame(id, data, flags)], at.received)
    case Done =>
      at.(conn := DoneStep(at.conn))
    case Deliver(n) =>
      var chunk := peerWire[|at.received|..|at.received| + n];
      End(ReadStep(at.conn, chunk), at.log, at.received + chunk)
  }

  ghost function PeerWire(sys: System, s: Side): seq<byte> {
    sys.At(s.Other()).conn.out.wire
  }

  ghost predicate Possible(h: History)
    decreases h, 0
  {
    h.Start? || (
      && Possible(h.prev)
      && Enabled(RunOf(h.prev).At(h.side), PeerWire(RunOf(h.prev), h.side), h.action))
  }

  ghost function RunOf(h: History): System
    requires Possible(h)
    decreases h, 1
  {
    if h.Start? then System(End(FRESH, [], []), End(FRESH, [], []))
    else
      var sys := RunOf(h.prev);
      sys.With(h.side, Step(sys.At(h.side), PeerWire(sys, h.side), h.action))
  }

  // ---------------------------------------------------------------- sending

  /** The frames already written: all but the queued ones. */
  ghost function Written(log: seq<CorFrame>, o: Outgoing): seq<CorFrame> {
    if |o.sendQueue| <= |log| then log[..|log| - |o.sendQueue|] else []
  }

  /** The wire holds the encodings of the written frames in enqueue order; a non-empty queue
      always has a current item, whose done notification is queued. */
  ghost predicate SendInv(log: seq<CorFrame>, o: Outgoing) {
    && o.connected
    && log == Written(log, o) + o.sendQueue
    && o.wire == EncodeAll(Written(log, o))
    && (o.sendQueue != [] ==> o.current.Some?)
    && o.notifications == (if o.current.Some? then 1 else 0)
  }

  lemma WriteOne(log: seq<CorFrame>, o: Outgoing)
    requires o.connected && o.current.None? && o.notifications == 0 && o.sendQueue != []
    requires log == Written(log, o) + o.sendQueue && o.wire == EncodeAll(Written(log, o))
    ensures SendInv(log, DoNext(o))
    ensures Written(log, DoNext(o)) == Written(log, o) + [o.sendQueue[0]]
  {
    var f := o.sendQueue[0];
    assert Written(log, DoNext(o)) == Written(log, o) + [f];
    EncodeAllAppend(Written(log, o), [f]);
    assert [f][1..] == [] && Encode(f) + [] == Encode(f);
  }

  lemma EnqueueKeepsSendInv(log: seq<CorFrame>, o: Outgoing, f: CorFrame)
    requires SendInv(log, o)
    ensures SendInv(log + [f], Enqueue(o, f))
    ensures o.wire <= Enqueue(o, f).wire
  {
    var q := o.(sendQueue := o.sendQueue + [f]);
    assert Written(log + [f], q) == Written(log, o);
    if o.current.None? {
      WriteOne(log + [f], q);
    }
  }

  lemma DoneKeepsSendInv(log: seq<CorFrame>, o: Outgoing)
    requires SendInv(log, o) && o.notifications > 0
    ensures SendInv(log, FinishCurrent(o)) && o.wire <= FinishCurrent(o).wire
    ensures |FinishCurrent(o).sendQueue| == if o.sendQueue == [] then 0 else |o.sendQueue| - 1
  {
    var idle := o.(current := None, notifications := o.notifications - 1);
    assert Written(log, idle) == Written(log, o);
    if o.sendQueue != [] {
      WriteOne(log, idle);
    }
  }

  /** The notifications run n times. */
  ghost function DoneTimes(o: Outgoing, n: nat): Outgoing
    decreases n
  {
    if n == 0 || o.notifications == 0 then o else DoneTimes(FinishCurrent(o), n - 1)
  }

  /** The queue drains: after as many done notifications as frames wait, plus one, nothing
      is queued or current and the wire holds everything ever enqueued. */
  lemma {:induction false} QueueDrains(log: seq<CorFrame>, o: Outgoing)
    requires SendInv(log, o)
    ensures var d := DoneTimes(o, |o.sendQueue| + 1);
      d.sendQueue == [] && d.current == None && d.wire == EncodeAll(log)
    decreases |o.sendQueue|
  {
    if o.sendQueue == [] {
      assert Written(log, o) == log;
      if o.notifications > 0 {
        DoneKeepsSendInv(log, o);
        assert DoneTimes(FinishCurrent(o), 0) == FinishCurrent(o);
        assert Written(log, FinishCurrent(o)) == log;
      }
    } else {
      DoneKeepsSendInv(log, o);
      QueueDrains(log, FinishCurrent(o));
    }
  }

  // ---------------------------------------------------------------- replies

  ghost predicate Answered(finished: seq<Finished>, id: nat) {
    exists i :: 0 <= i < |finished| && finished[i].reply == id
  }

  /** Replies 1..issued are each either pending under their own correlation id or were
      notified, once, with a response for that id. */
  ghost predicate ReplyInv(a: Answers, issued: nat) {
    && (forall id :: id in a.replies ==> a.replies[id] == id && 1 <= id <= issued && !Answered(a.finished, id))
    && (forall i :: 0 <= i < |a.finished| ==>
          && 1 <= a.finished[i].reply <= issued
          && a.finished[i].report.kind == TYPE_RESPONSE
          && a.finished[i].report.correlationId == a.finished[i].reply)
    && (forall i, j :: 0 <= i < j < |a.finished| ==> a.finished[i].reply != a.finished[j].reply)
    && |a.replies| + |a.finished| == issued
  }

  lemma IssueKeepsReplyInv(a: Answers, issued: nat)
    requires ReplyInv(a, issued) && issued + 1 < 0x1_0000_0000
    ensures ReplyInv(a.(replies := a.replies[(issued + 1) as u32 := issued + 1]), issued + 1)
  {
    var id: u32 := issued + 1;
    assert id !in a.replies;
    assert a.replies[id := id].Keys == a.replies.Keys + {id};
    assert |a.replies[id := id]| == |a.replies| + 1;
  }

  lemma TakeKeepsReplyInv(a: Answers, issued: nat, r: Report)
    requires ReplyInv(a, issued)
    ensures ReplyInv(Take(a, r), issued)
    ensures a.finished <= Take(a, r).finished
    ensures Take(a, r).finished == a.finished || Take(a, r).finished == a.finished + [Finished(r.correlationId, r)]
  {
    if r.kind == TYPE_RESPONSE && r.correlationId in a.replies {
      var b := Take(a, r);
      assert b.replies.Keys == a.replies.Keys - {r.correlationId};
      assert |b.replies| == |a.replies| - 1;
      assert !Answered(a.finished, r.correlationId);
      forall id, i | id in b.replies && 0 <= i < |b.finished|
        ensures b.finished[i].reply != id
      {
        assert !Answered(a.finished, id);
      }
    }
  }

  /** A response nobody waits for (unknown, or answered before) changes nothing. */
  lemma StrayResponseIgnored(a: Answers, issued: nat, r: Report)
    requires ReplyInv(a, issued)
    requires r.kind == TYPE_RESPONSE
    requires r.correlationId > issued || Answered(a.finished, r.correlationId)
    ensures Take(a, r) == a
  {}

  ghost function AnsweredSet(finished: seq<Finished>): set<int> {
    set i | 0 <= i < |finished| :: finished[i].reply as int
  }

  lemma {:induction false} AnsweredCount(finished: seq<Finished>)
    requires forall i, j :: 0 <= i < j < |finished| ==> finished[i].reply != finished[j].reply
    ensures |AnsweredSet(finished)| == |finished|
  {
    if finished != [] {
      var n := |finished| - 1;
      AnsweredCount(finished[..n]);
      assert finished == finished[..n] + [finished[n]];
      assert AnsweredSet(finished) == AnsweredSet(finished[..n]) + {finished[n].reply as int};
    }
  }

  function UpTo(n: nat): (r: set<int>)
    ensures |r| == n && forall i :: i in r <==> 1 <= i <= n
  {
    if n == 0 then {} else UpTo(n - 1) + {n}
  }

  lemma SameSizeSubset(a: set<int>, b: set<int>)
    requires a <= b && |a| == |b|
    ensures a == b
  {
    assert |b - a| == |b| - |a|;
  }

  /** The pending replies are exactly those issued and not answered. */
  lemma PendingExact(a: Answers, issued: nat)
    requires ReplyInv(a, issued)
    ensures forall id: u32 :: id in a.replies <==> 1 <= id <= issued && !Answered(a.finished, id)
  {
    var pending: set<int> := a.replies.Keys;
    var answered := AnsweredSet(a.finished);
    assert |pending| == |a.replies|;
    AnsweredCount(a.finished);
    assert pending !! answered by {
      forall id | id in pending && id in answered
        ensures false
      {
        assert Answered(a.finished, id);
      }
    }
    SameSizeSubset(pending + answered, UpTo(issued));
    forall id: u32 | 1 <= id <= issued && !Answered(a.finished, id)
      ensures id in a.replies
    {
      assert id in UpTo(issued) && id !in answered;
    }
  }

  ghost predicate FromReports(finished: seq<Finished>, reports: seq<Report>) {
    forall i :: 0 <= i < |finished| ==> finished[i].report in reports
  }

  lemma FromReportsStep(a: Answers, r: Report, reports: seq<Report>)
    requires FromReports(a.finished, reports)
    ensures FromReports(Take(a, r).finished, reports + [r])
  {
    assert forall x :: x in reports ==> x in reports + [r];
    assert r in reports + [r];
  }

  lemma TakeKeepsBoth(a: Answers, issued: nat, r: Report, reports: seq<Report>)
    requires ReplyInv(a, issued) && FromReports(a.finished, reports)
    ensures ReplyInv(Take(a, r), issued) && FromReports(Take(a, r).finished, reports + [r])
  {
    TakeKeepsReplyInv(a, issued, r);
    FromReportsStep(a, r, reports);
  }

  lemma {:induction false} TakeAllKeepsReplyInv(a: Answers, issued: nat, rs: seq<Report>, before: seq<Report>)
    requires ReplyInv(a, issued) && FromReports(a.finished, before)
    ensures ReplyInv(TakeAll(a, rs), issued) && FromReports(TakeAll(a, rs).finished, before + rs)
    decreases |rs|
  {
    if rs == [] {
      assert before + rs == before;
    } else {
      var n := |rs| - 1;
      TakeAllKeepsReplyInv(a, issued, rs[..n], before);
      assert before + rs == before + rs[..n] + [rs[n]];
      TakeKeepsBoth(TakeAll(a, rs[..n]), issued, rs[n], before + rs[..n]);
    }
  }

  // ---------------------------------------------------------------- one endpoint, whole system

  ghost predicate EndInv(e: End) {
    && SendInv(e.log, e.conn.out)
    && e.conn.input == Observe(P.INIT, e.received, EMPTY)
    && e.conn.nextCorrelationId == e.conn.issued
    && ReplyInv(e.conn.answers, e.conn.issued)
    && FromReports(e.conn.answers.finished, e.conn.input.reader.reports)
  }

  /** What an endpoint received is a prefix of what the other one wrote. */
  ghost predicate SystemInv(sys: System) {
    && EndInv(sys.left) && EndInv(sys.right)
    && sys.left.received <= sys.right.conn.out.wire
    && sys.right.received <= sys.left.conn.out.wire
  }

  lemma RequestKeepsEndInv(e: End, data: Data, flags: byte)
    requires EndInv(e) && e.conn.issued + 1 < 0x1_0000_0000
    ensures EndInv(End(RequestStep(e.conn, data, flags), e.log + [RequestFrame(e.conn, data, flags)], e.received))
    ensures e.conn.out.wire <= RequestStep(e.conn, data, flags).out.wire
  {
    EnqueueKeepsSendInv(e.log, e.conn.out, RequestFrame(e.conn, data, flags));
    IssueKeepsReplyInv(e.conn.answers, e.conn.issued);
  }

  lemma ReadKeepsInput(received: seq<byte>, chunk: seq<byte>)
    ensures var i := Observe(P.INIT, received, EMPTY);
      && Feed(i, chunk) == Observe(P.INIT, received + chunk, EMPTY)
      && Feed(i, chunk).reader.reports == i.reader.reports + NewReports(i, Feed(i, chunk))
  {
    ObserveAppend(P.INIT, received, chunk, EMPTY);
    ReportsAreMonotone(received, chunk);
  }

  lemma ReadKeepsEndInv(e: End, chunk: seq<byte>)
    requires EndInv(e)
    ensures EndInv(End(ReadStep(e.conn, chunk), e.log, e.received + chunk))
  {
    var i := e.conn.input;
    ReadKeepsInput(e.received, chunk);
    TakeAllKeepsReplyInv(e.conn.answers, e.conn.issued, NewReports(i, Feed(i, chunk)), i.reader.reports);
  }

  lemma RespondKeepsEndInv(e: End, id: u32, data: Data, flags: byte)
    requires EndInv(e)
    ensures EndInv(End(RespondStep(e.conn, id, data, flags), e.log + [ResponseFrame(id, data, flags)], e.received))
    ensures e.conn.out.wire <= RespondStep(e.conn, id, data, flags).out.wire
  {
    EnqueueKeepsSendInv(e.log, e.conn.out, ResponseFrame(id, data, flags));
  }

  lemma DoneKeepsEndInv(e: End)
    requires EndInv(e) && e.conn.out.notifications > 0
    ensures EndInv(e.(conn := DoneStep(e.conn))) && e.conn.out.wire <= DoneStep(e.conn).out.wire
  {
    DoneKeepsSendInv(e.log, e.conn.out);
  }

  lemma NextChunk(received: seq<byte>, wire: seq<byte>, n: nat)
    requires received <= wire && |received| + n <= |wire|
    ensures received + wire[|received|..|received| + n] <= wire
  {
    assert received + wire[|received|..|received| + n] == wire[..|received| + n];
  }

  lemma DeliverKeepsEndInv(at: End, peerWire: seq<byte>, n: nat)
    requires EndInv(at) && at.received <= peerWire && Enabled(at, peerWire, Deliver(n))
    ensures EndInv(Step(at, peerWire, Deliver(n))) && Step(at, peerWire, Deliver(n)).received <= peerWire
  {
    ReadKeepsEndInv(at, peerWire[|at.received|..|at.received| + n]);
    NextChunk(at.received, peerWire, n);
  }

  lemma StepKeepsEndInv(at: End, peerWire: seq<byte>, action: Action)
    requires EndInv(at) && at.received <= peerWire && Enabled(at, peerWire, action)
    ensures EndInv(Step(at, peerWire, action)) && Step(at, peerWire, action).received <= peerWire
    ensures at.conn.out.wire <= Step(at, peerWire, action).conn.out.wire
  {
    match action
    case Request(data, flags) => RequestKeepsEndInv(at, data, flags);
    case Respond(id, data, flags) => RespondKeepsEndInv(at, id, data, flags);
    case Done => DoneKeepsEndInv(at);
    case Deliver(n) => DeliverKeepsEndInv(at, peerWire, n);
  }

  lemma SystemStep(sys: System, s: Side, action: Action)
    requires SystemInv(sys) && Enabled(sys.At(s), PeerWire(sys, s), action)
    ensures SystemInv(sys.With(s, Step(sys.At(s), PeerWire(sys, s), action)))
  {
    StepKeepsEndInv(sys.At(s), PeerWire(sys, s), action);
    var e := Step(sys.At(s), PeerWire(sys, s), action);
    match s
    case Left => assert sys.With(s, e) == System(e, sys.right);
    case Right => assert sys.With(s, e) == System(sys.left, e);
  }

  lemma {:induction false} SystemInvariant(h: History)
    requires Possible(h)
    ensures SystemInv(RunOf(h))
  {
    match h
    case Start =>
    case Then(prev, s, action) =>
      SystemInvariant(prev);
      SystemStep(RunOf(prev), s, action);
  }

  /** What the invariant says of one direction. */
  lemma OneDirection(h: History, s: Side)
    requires Possible(h)
    ensures var at, peer := RunOf(h).At(s), RunOf(h).At(s.Other());
      && at.conn.input == Observe(P.INIT, at.received, EMPTY)
      && at.received <= EncodeAll(Written(peer.log, peer.conn.out))
      && peer.log == Written(peer.log, peer.conn.out) + peer.conn.out.sendQueue
  {
    SystemInvariant(h);
  }

  /** At any time the frames an endpoint has reported are, in order, the first ones its peer
      enqueued. */
  lemma ReportedIsPrefixOfSent(h: History, s: Side)
    requires Possible(h)
    ensures RunOf(h).At(s).conn.input.reader.reports <= ReportsOf(RunOf(h).At(s.Other()).log)
  {
    OneDirection(h, s);
    var peer := RunOf(h).At(s.Other());
    var written := Written(peer.log, peer.conn.out);
    PrefixReported(written, RunOf(h).At(s).received);
    ReportsOfPrefix(written, peer.conn.out.sendQueue);
  }

  lemma ReportsOfPrefix(fs: seq<CorFrame>, gs: seq<CorFrame>)
    ensures ReportsOf(fs) <= ReportsOf(fs + gs)
  {}

  /** Each reply is notified at most once, and with the data of a response that the peer sent
      for that reply's correlation id; the replies pending are those issued and not yet
      answered. */
  lemma RepliesGenuine(h: History, s: Side)
    requires Possible(h)
    ensures var a := RunOf(h).At(s).conn.answers;
      && |a.replies| == RunOf(h).At(s).conn.issued - |a.finished|
      && (forall id: u32 :: id in a.replies <==> 1 <= id <= RunOf(h).At(s).conn.issued && !Answered(a.finished, id))
      && (forall i, j :: 0 <= i < j < |a.finished| ==> a.finished[i].reply != a.finished[j].reply)
      && (forall id :: id in a.replies ==> a.replies[id] == id && !Answered(a.finished, id))
      && (forall i :: 0 <= i < |a.finished| ==>
            SentResponse(RunOf(h).At(s.Other()).log, a.finished[i]))
  {
    SystemInvariant(h);
    ReportedIsPrefixOfSent(h, s);
    var end, log := RunOf(h).At(s), RunOf(h).At(s.Other()).log;
    var a, reports := end.conn.answers, end.conn.input.reader.reports;
    PendingExact(a, end.conn.issued);
    forall i | 0 <= i < |a.finished|
      ensures SentResponse(log, a.finished[i])
    {
      assert a.finished[i].report in reports;
      var k :| 0 <= k < |reports| && reports[k] == a.finished[i].report;
      assert reports[k] == ReportsOf(log)[k] == ReportOf(log[k]);
    }
  }

  /** The peer enqueued a response with that correlation id, and the reply got its data. */
  ghost predicate SentResponse(log: seq<CorFrame>, f: Finished) {
    exists k :: 0 <= k < |log|
      && log[k].kind == TYPE_RESPONSE
      && log[k].correlationId == f.reply
      && f.report.frame == Some(QFrame(true, log[k].correlationId, log[k].data))
  }

  /** Once an endpoint has received all its peer wrote, and the peer's queue is drained, it
      has reported every frame, but for a last one without a body. */
  lemma AllReported(h: History, s: Side)
    requires Possible(h)
    requires RunOf(h).At(s.Other()).conn.out.sendQueue == []
    requires RunOf(h).At(s).received == RunOf(h).At(s.Other()).conn.out.wire
    ensures RunOf(h).At(s).conn.input.reader.reports == ReportsOf(Reported(RunOf(h).At(s.Other()).log))
  {
    SystemInvariant(h);
    var peer := RunOf(h).At(s.Other());
    assert Written(peer.log, peer.conn.out) == peer.log;
    WholeListParses(peer.log);
  }
}
