/** Requests and replies, told by what the applications did: what goes out is what was asked to
    be sent, and a reply finishes with the first response that arrives for it. */
module CorReplies {
  import opened Wrappers
  import opened Sequences
  import opened Bytes
  import opened CorProtocol
  import opened CorReader
  import opened CorConnection
  import opened CorEndpoints
  import P = CorParser

  // ---------------------------------------------------------------- what was sent

  ghost function RequestCount(h: History, s: Side): nat {
    if h.Start? then 0 else RequestCount(h.prev, s) + (if h.side == s && h.action.Request? then 1 else 0)
  }

  /** The frames an application asked for: version 1, requests numbered from 1, responses under
      the id they answer, each with its own data. */
  ghost function Asked(h: History, s: Side): seq<CorFrame>
    requires RequestCount(h, s) < 0x1_0000_0000
  {
    if h.Start? then []
    else if h.side != s then Asked(h.prev, s)
    else
      match h.action
      case Request(data, flags) => Asked(h.prev, s) + [CorFrame(1, 0, flags, RequestCount(h, s), data)]
      case Respond(id, data, flags) => Asked(h.prev, s) + [CorFrame(1, 1, flags, id, data)]
      case Done => Asked(h.prev, s)
      case Deliver(_) => Asked(h.prev, s)
  }

  /** While both are connected, ids are given in order. */
  lemma NextIdIsIssued(h: History, s: Side)
    requires Possible(h)
    ensures RunOf(h).At(s).conn.out.connected
    ensures RunOf(h).At(s).conn.nextCorrelationId == RunOf(h).At(s).conn.issued
  {
    SystemInvariant(h);
  }

  lemma AtOtherSide(h: History, s: Side)
    requires Possible(h) && h.Then? && h.side != s
    ensures RunOf(h).At(s) == RunOf(h.prev).At(s)
  {}

  lemma AtOwnSide(h: History, s: Side)
    requires Possible(h) && h.Then? && h.side == s
    ensures RunOf(h).At(s) == Step(RunOf(h.prev).At(s), PeerWire(RunOf(h.prev), s), h.action)
  {}

  /** Over every run an endpoint enqueues exactly what its application asked for, in order. */
  lemma {:induction false} LogIsAsked(h: History, s: Side)
    requires Possible(h)
    ensures RunOf(h).At(s).conn.issued == RequestCount(h, s) < 0x1_0000_0000
    ensures RunOf(h).At(s).log == Asked(h, s)
  {
    if h.Then? {
      LogIsAsked(h.prev, s);
      if h.side == s {
        NextIdIsIssued(h.prev, s);
        AtOwnSide(h, s);
      } else {
        AtOtherSide(h, s);
      }
    }
  }

  /** At any time the frames an endpoint reported are the first ones the peer's application
      asked for: type, id and data. */
  lemma ReportedIsPrefixOfAsked(h: History, s: Side)
    requires Possible(h)
    ensures RequestCount(h, s.Other()) < 0x1_0000_0000
    ensures RunOf(h).At(s).conn.input.reader.reports <= ReportsOf(Asked(h, s.Other()))
  {
    LogIsAsked(h, s.Other());
    ReportedIsPrefixOfSent(h, s);
  }

  lemma {:induction false} AskedResponse(h: History, s: Side, k: nat)
    requires RequestCount(h, s) < 0x1_0000_0000 && k < |Asked(h, s)| && Asked(h, s)[k].kind == 1
    ensures ResponseAction(h, s, Asked(h, s)[k].correlationId, Asked(h, s)[k].data)
  {
    var own := h.side == s && (h.action.Request? || h.action.Respond?);
    if !own || k < |Asked(h, s)| - 1 {
      AskedResponse(h.prev, s, k);
    }
  }

  /** The application responded to that id with that data. */
  ghost predicate ResponseAction(h: History, s: Side, id: u32, data: Data) {
    h.Then? && (
      || ResponseAction(h.prev, s, id, data)
      || (h.side == s && h.action.Respond? && h.action.correlationId == id && h.action.data == data))
  }

  /** Every finished reply carries the data with which the peer's application responded to that
      reply's id. */
  lemma RepliesCarryResponses(h: History, s: Side, i: nat)
    requires Possible(h) && i < |RunOf(h).At(s).conn.answers.finished|
    ensures var f := RunOf(h).At(s).conn.answers.finished[i];
      && f.reply < 0x1_0000_0000 && f.report.frame.Some?
      && |f.report.frame.value.data| < 0x8000_0000
      && ResponseAction(h, s.Other(), f.reply, f.report.frame.value.data)
  {
    RepliesGenuine(h, s);
    LogIsAsked(h, s.Other());
    var f, log := RunOf(h).At(s).conn.answers.finished[i], RunOf(h).At(s.Other()).log;
    var k :| 0 <= k < |log| && log[k].kind == TYPE_RESPONSE && log[k].correlationId == f.reply
      && f.report.frame == Some(QFrame(true, log[k].correlationId, log[k].data));
    AskedResponse(h, s.Other(), k);
  }

  /** While the socket is not connected nothing is queued, written or issued. */
  lemma SilentWhenDisconnected(c: Conn, id: u32, data: Data, flags: byte)
    requires !c.out.connected
    ensures RequestStep(c, data, flags) == c && RespondStep(c, id, data, flags) == c
    ensures c.out.notifications > 0 ==>
      DoneStep(c).out.wire == c.out.wire && DoneStep(c).out.sendQueue == c.out.sendQueue
  {}

  // ---------------------------------------------------------------- taking reports

  function Requests(rs: seq<Report>): seq<Report> {
    if rs == [] then []
    else
      var n := |rs| - 1;
      Requests(rs[..n]) + (if rs[n].kind == 0 then [rs[n]] else [])
  }

  predicate IsResponse(r: Report, id: u32) {
    r.kind == 1 && r.correlationId == id
  }

  /** The first response to id from index k on is at i. */
  predicate FirstResponse(rs: seq<Report>, k: nat, i: int, id: u32) {
    k <= i < |rs| && IsResponse(rs[i], id) && forall j :: k <= j < i ==> !IsResponse(rs[j], id)
  }

  predicate NoResponse(rs: seq<Report>, k: nat, id: u32) {
    forall i :: k <= i < |rs| ==> !IsResponse(rs[i], id)
  }

  /** The reply waits while no response to it was reported since index k, and has finished with
      the first one otherwise. */
  ghost predicate Settled(a: Answers, rs: seq<Report>, k: nat, id: u32, reply: nat) {
    && (id in a.replies <==> NoResponse(rs, k, id))
    && (id in a.replies ==> a.replies[id] == reply)
    && (forall i :: FirstResponse(rs, k, i, id) ==> Finished(reply, rs[i]) in a.finished)
  }

  lemma TakeOne(a: Answers, r: Report)
    ensures Take(a, r).incoming == a.incoming + (if r.kind == 0 then [r] else [])
    ensures a.finished <= Take(a, r).finished
    ensures forall id :: id in Take(a, r).replies <==> id in a.replies && !IsResponse(r, id)
    ensures forall id :: id in Take(a, r).replies ==> Take(a, r).replies[id] == a.replies[id]
    ensures r.kind == 1 && r.correlationId in a.replies ==>
              Finished(a.replies[r.correlationId], r) in Take(a, r).finished
  {
    assert a.incoming + [] == a.incoming;
  }

  lemma SettledStep(a: Answers, rs: seq<Report>, k: nat, id: u32, reply: nat, r: Report)
    requires k <= |rs| && Settled(a, rs, k, id, reply)
    ensures Settled(Take(a, r), rs + [r], k, id, reply)
  {
    TakeOne(a, r);
    var all, n := rs + [r], |rs|;
    assert forall i :: 0 <= i < n ==> all[i] == rs[i];
    assert all[n] == r;
    assert NoResponse(all, k, id) <==> NoResponse(rs, k, id) && !IsResponse(r, id);
    forall i | FirstResponse(all, k, i, id)
      ensures Finished(reply, all[i]) in Take(a, r).finished
    {
      if i < n {
        assert FirstResponse(rs, k, i, id);
      }
    }
  }

  lemma {:induction false} SettledAll(a: Answers, rs: seq<Report>, k: nat, id: u32, reply: nat, more: seq<Report>)
    requires k <= |rs| && Settled(a, rs, k, id, reply)
    ensures Settled(TakeAll(a, more), rs + more, k, id, reply)
  {
    if more == [] {
      assert rs + more == rs;
    } else {
      var n := |more| - 1;
      SettledAll(a, rs, k, id, reply, more[..n]);
      SettledStep(TakeAll(a, more[..n]), rs + more[..n], k, id, reply, more[n]);
      assert rs + more == rs + more[..n] + [more[n]];
    }
  }

  /** Reading a batch of frames: a reply that waits finishes with the first response to it in the
      batch, and goes on waiting if there is none. */
  lemma BatchSettles(a: Answers, id: u32, more: seq<Report>)
    requires id in a.replies
    ensures Settled(TakeAll(a, more), more, 0, id, a.replies[id])
  {
    SettledAll(a, [], 0, id, a.replies[id], more);
    assert [] + more == more;
  }

  lemma RequestsStep(rs: seq<Report>, r: Report)
    ensures Requests(rs + [r]) == Requests(rs) + (if r.kind == 0 then [r] else [])
  {
    assert (rs + [r])[..|rs|] == rs;
  }

  /** The requests announced are exactly the request frames read, in order. */
  lemma {:induction false} IncomingAll(a: Answers, rs: seq<Report>, more: seq<Report>)
    requires a.incoming == Requests(rs)
    ensures TakeAll(a, more).incoming == Requests(rs + more)
  {
    if more == [] {
      assert rs + more == rs;
    } else {
      var n := |more| - 1;
      IncomingAll(a, rs, more[..n]);
      TakeOne(TakeAll(a, more[..n]), more[n]);
      RequestsStep(rs + more[..n], more[n]);
      assert rs + more == rs + more[..n] + [more[n]];
    }
  }

  // ---------------------------------------------------------------- over runs

  ghost function ReportsAt(h: History, s: Side): seq<Report>
    requires Possible(h)
  {
    RunOf(h).At(s).conn.input.reader.reports
  }

  /** How many frames had been reported when request id was issued. */
  ghost function SeenAtIssue(h: History, s: Side, id: nat): nat
    requires Possible(h)
  {
    if h.Start? then 0
    else if h.side == s && h.action.Request? && RequestCount(h, s) == id then |ReportsAt(h.prev, s)|
    else SeenAtIssue(h.prev, s, id)
  }

  ghost predicate AllSettled(h: History, s: Side)
    requires Possible(h)
  {
    var a, rs := RunOf(h).At(s).conn.answers, ReportsAt(h, s);
    && a.incoming == Requests(rs)
    && forall id: u32 :: 1 <= id <= RequestCount(h, s) ==>
         SeenAtIssue(h, s, id) <= |rs| && Settled(a, rs, SeenAtIssue(h, s, id), id, id)
  }

  lemma RequestIssues(h: History, s: Side)
    requires Possible(h) && h.Then? && h.side == s && h.action.Request?
    ensures ReportsAt(h, s) == ReportsAt(h.prev, s) && 1 <= RequestCount(h, s) < 0x1_0000_0000
    ensures var a, id: u32 := RunOf(h.prev).At(s).conn.answers, RequestCount(h, s);
      RunOf(h).At(s).conn.answers == a.(replies := a.replies[id := id as nat])
  {
    LogIsAsked(h.prev, s);
    NextIdIsIssued(h.prev, s);
    AtOwnSide(h, s);
  }

  lemma RequestSettles(h: History, s: Side)
    requires Possible(h) && h.Then? && h.side == s && h.action.Request? && AllSettled(h.prev, s)
    ensures AllSettled(h, s)
  {
    RequestIssues(h, s);
    var a, new_: u32 := RunOf(h.prev).At(s).conn.answers, RequestCount(h, s);
    var after, rs := a.(replies := a.replies[new_ := new_ as nat]), ReportsAt(h, s);
    forall id: u32 | 1 <= id <= new_
      ensures SeenAtIssue(h, s, id) <= |rs| && Settled(after, rs, SeenAtIssue(h, s, id), id, id)
    {
      if id < new_ {
        assert Settled(a, rs, SeenAtIssue(h.prev, s, id), id, id);
      }
    }
  }

  lemma ReadStepSettles(e: End, chunk: seq<byte>)
    requires e.conn.input == Observe(P.INIT, e.received, EMPTY)
    ensures var more := NewReports(e.conn.input, Feed(e.conn.input, chunk));
      && ReadStep(e.conn, chunk).input.reader.reports == e.conn.input.reader.reports + more
      && ReadStep(e.conn, chunk).answers == TakeAll(e.conn.answers, more)
  {
    ReadKeepsInput(e.received, chunk);
  }

  lemma DeliverReads(e: End, peerWire: seq<byte>, n: nat) returns (more: seq<Report>)
    requires Enabled(e, peerWire, Deliver(n)) && e.conn.input == Observe(P.INIT, e.received, EMPTY)
    ensures var after := Step(e, peerWire, Deliver(n));
      && after.conn.input.reader.reports == e.conn.input.reader.reports + more
      && after.conn.answers == TakeAll(e.conn.answers, more)
  {
    var chunk := peerWire[|e.received|..|e.received| + n];
    ReadStepSettles(e, chunk);
    more := NewReports(e.conn.input, Feed(e.conn.input, chunk));
  }

  lemma DeliverTakes(h: History, s: Side) returns (more: seq<Report>)
    requires Possible(h) && h.Then? && h.side == s && h.action.Deliver?
    ensures ReportsAt(h, s) == ReportsAt(h.prev, s) + more
    ensures RunOf(h).At(s).conn.answers == TakeAll(RunOf(h.prev).At(s).conn.answers, more)
  {
    OneDirection(h.prev, s);
    AtOwnSide(h, s);
    more := DeliverReads(RunOf(h.prev).At(s), PeerWire(RunOf(h.prev), s), h.action.n);
  }

  lemma ReadSettles(h: History, s: Side)
    requires Possible(h) && h.Then? && h.side == s && h.action.Deliver? && AllSettled(h.prev, s)
    ensures AllSettled(h, s)
  {
    var more := DeliverTakes(h, s);
    BatchKeepsAll(h, s, RunOf(h.prev).At(s).conn.answers, ReportsAt(h.prev, s), more);
  }

  lemma BatchKeepsAll(h: History, s: Side, a: Answers, rs: seq<Report>, more: seq<Report>)
    requires Possible(h) && h.Then? && h.side == s && h.action.Deliver? && AllSettled(h.prev, s)
    requires a == RunOf(h.prev).At(s).conn.answers && rs == ReportsAt(h.prev, s)
    requires RunOf(h).At(s).conn.answers == TakeAll(a, more) && ReportsAt(h, s) == rs + more
    ensures AllSettled(h, s)
  {
    IncomingAll(a, rs, more);
    forall id: u32 | 1 <= id <= RequestCount(h, s)
      ensures SeenAtIssue(h, s, id) <= |rs + more|
      ensures Settled(TakeAll(a, more), rs + more, SeenAtIssue(h, s, id), id, id)
    {
      SettledAll(a, rs, SeenAtIssue(h.prev, s, id), id, id, more);
    }
  }

  lemma OtherActionSettles(h: History, s: Side)
    requires Possible(h) && h.Then? && AllSettled(h.prev, s)
    requires h.side != s || h.action.Respond? || h.action.Done?
    ensures AllSettled(h, s)
  {
    assert RunOf(h).At(s).conn.answers == RunOf(h.prev).At(s).conn.answers;
    assert ReportsAt(h, s) == ReportsAt(h.prev, s);
    assert forall id: u32 :: SeenAtIssue(h, s, id) == SeenAtIssue(h.prev, s, id);
  }

  /** Over every run: a reply waits exactly as long as no response to it was reported since it
      was issued, it has finished with the first such response otherwise, and the requests
      announced are the request frames reported, in order. */
  lemma {:induction false} RepliesExact(h: History, s: Side)
    requires Possible(h)
    ensures AllSettled(h, s)
  {
    if h.Then? {
      RepliesExact(h.prev, s);
      if h.side == s && h.action.Request? {
        RequestSettles(h, s);
      } else if h.side == s && h.action.Deliver? {
        ReadSettles(h, s);
      } else {
        OtherActionSettles(h, s);
      }
    }
  }

  // ---------------------------------------------------------------- a polite peer

  /** The endpoint responds only to requests it was told of. */
  ghost predicate Polite(h: History, s: Side)
    requires Possible(h)
  {
    h.Start? || (
      && Polite(h.prev, s)
      && (h.side == s && h.action.Respond? ==>
            exists i :: 0 <= i < |ReportsAt(h.prev, s)| && ReportsAt(h.prev, s)[i].kind == 0
                        && ReportsAt(h.prev, s)[i].correlationId == h.action.correlationId))
  }

  lemma {:induction false} AskedNumbers(h: History, s: Side, k: nat)
    requires RequestCount(h, s) < 0x1_0000_0000 && k < |Asked(h, s)| && Asked(h, s)[k].kind == 0
    ensures 1 <= Asked(h, s)[k].correlationId <= RequestCount(h, s)
  {
    var own := h.side == s && (h.action.Request? || h.action.Respond?);
    if !own || k < |Asked(h, s)| - 1 {
      AskedNumbers(h.prev, s, k);
    }
  }

  /** A request reported by the peer was issued. */
  lemma ReportedWasIssued(h: History, s: Side, i: nat)
    requires Possible(h) && i < |ReportsAt(h, s.Other())| && ReportsAt(h, s.Other())[i].kind == 0
    ensures 1 <= ReportsAt(h, s.Other())[i].correlationId <= RequestCount(h, s)
  {
    ReportedIsPrefixOfAsked(h, s.Other());
    assert s.Other().Other() == s;
    assert ReportsAt(h, s.Other())[i] == ReportOf(Asked(h, s)[i]);
    AskedNumbers(h, s, i);
  }

  /** Responses to a request come after it was issued. */
  ghost predicate AfterIssue(h: History, s: Side, log: seq<CorFrame>)
    requires Possible(h)
  {
    forall k :: 0 <= k < |log| && log[k].kind == 1 ==>
      log[k].correlationId <= RequestCount(h, s) && SeenAtIssue(h, s, log[k].correlationId) <= k
  }

  lemma {:induction false} PoliteAnswersLater(h: History, s: Side)
    requires Possible(h) && Polite(h, s.Other())
    ensures RequestCount(h, s.Other()) < 0x1_0000_0000
    ensures AfterIssue(h, s, Asked(h, s.Other()))
  {
    LogIsAsked(h, s.Other());
    if h.Then? {
      LogIsAsked(h.prev, s.Other());
      PoliteAnswersLater(h.prev, s);
      if h.side == s.Other() && h.action.Respond? {
        var i :| 0 <= i < |ReportsAt(h.prev, h.side)| && ReportsAt(h.prev, h.side)[i].kind == 0
          && ReportsAt(h.prev, h.side)[i].correlationId == h.action.correlationId;
        ReportedWasIssued(h.prev, s, i);
        SeenIsPast(h.prev, s, h.action.correlationId);
      }
      ReportedIsPrefixOfAsked(h.prev, s);
    }
  }

  /** No more frames were seen at the issue than the peer had enqueued by then. */
  lemma SeenIsPast(h: History, s: Side, id: u32)
    requires Possible(h) && 1 <= id <= RequestCount(h, s)
    ensures RequestCount(h, s.Other()) < 0x1_0000_0000
    ensures SeenAtIssue(h, s, id) <= |Asked(h, s.Other())|
  {
    RepliesExact(h, s);
    ReportedIsPrefixOfAsked(h, s);
  }

  /** With a peer that responds only to what it was asked: once all it wrote was read, every
      request it responded to has finished with the data of its first response; only a response
      without data that is the very last frame waits for a further byte. */
  lemma EveryReplyArrives(h: History, s: Side, k: nat)
    requires Possible(h) && Polite(h, s.Other())
    requires RunOf(h).At(s.Other()).conn.out.sendQueue == []
    requires RunOf(h).At(s).received == RunOf(h).At(s.Other()).conn.out.wire
    requires RequestCount(h, s.Other()) < 0x1_0000_0000
    requires k < |Reported(Asked(h, s.Other()))| && Asked(h, s.Other())[k].kind == 1
    requires forall j :: 0 <= j < k ==>
               !(Asked(h, s.Other())[j].kind == 1
                 && Asked(h, s.Other())[j].correlationId == Asked(h, s.Other())[k].correlationId)
    ensures var f, a := Asked(h, s.Other())[k], RunOf(h).At(s).conn.answers;
      && f.correlationId !in a.replies
      && var report := Report(1, f.correlationId, Some(QFrame(true, f.correlationId, f.data)));
      Finished(f.correlationId, report) in a.finished
  {
    var log, rs := Asked(h, s.Other()), ReportsAt(h, s);
    var id := log[k].correlationId;
    LogIsAsked(h, s.Other());
    AllReported(h, s);
    RepliesExact(h, s);
    PoliteAnswersLater(h, s);
    assert rs == ReportsOf(Reported(log));
    assert forall i :: 0 <= i < |rs| ==> rs[i] == ReportOf(log[i]);
    assert IsResponse(rs[k], id);
    ResponseWasIssued(h, s, k);
    assert FirstResponse(rs, SeenAtIssue(h, s, id), k, id);
  }

  lemma ResponseWasIssued(h: History, s: Side, k: nat)
    requires Possible(h) && Polite(h, s.Other()) && RequestCount(h, s.Other()) < 0x1_0000_0000
    requires k < |Asked(h, s.Other())| && Asked(h, s.Other())[k].kind == 1
    ensures 1 <= Asked(h, s.Other())[k].correlationId
  {
    if h.side == s.Other() && h.action.Respond? && k == |Asked(h, s.Other())| - 1 {
      var i :| 0 <= i < |ReportsAt(h.prev, h.side)| && ReportsAt(h.prev, h.side)[i].kind == 0
        && ReportsAt(h.prev, h.side)[i].correlationId == h.action.correlationId;
      ReportedWasIssued(h.prev, s, i);
    } else {
      ResponseWasIssued(h.prev, s, k);
    }
  }
}
