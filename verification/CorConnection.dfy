/** QCorConnection: the send queue, the table of pending replies, and reading. */
module CorConnection {
  import opened Wrappers
  import opened Bytes
  import opened CorProtocol
  import opened CorReader
  import P = CorParser

  /** A reply object that was notified, and the frame it was given. */
  datatype Finished = Finished(reply: nat, report: Report)

  /** Pending replies by correlation id, notified replies, incoming requests. */
  datatype Answers = Answers(replies: map<u32, nat>, finished: seq<Finished>, incoming: seq<Report>)

  /** The end of onParserFrameEnd: a request is announced, a response takes its reply out
      of the table and notifies it; anything else is ignored. */
  function Take(a: Answers, r: Report): Answers {
    if r.kind == TYPE_REQUEST then a.(incoming := a.incoming + [r])
    else if r.kind == TYPE_RESPONSE && r.correlationId in a.replies then
      a.(replies := a.replies - {r.correlationId},
         finished := a.finished + [Finished(a.replies[r.correlationId], r)])
    else a
  }

  function TakeAll(a: Answers, rs: seq<Report>): Answers {
    if rs == [] then a else Take(TakeAll(a, rs[..|rs| - 1]), rs[|rs| - 1])
  }

  /** The sending half; of the outside, the bytes written to the socket and the queued done
      notifications. */
  datatype Outgoing = Outgoing(
    connected: bool,
    sendQueue: seq<CorFrame>,
    current: Option<CorFrame>,
    wire: seq<byte>,
    notifications: nat)

  /** The connection's fields; replies are numbered as they are issued. */
  datatype Conn = Conn(out: Outgoing, input: Input, nextCorrelationId: u32, issued: nat, answers: Answers)

  const FRESH := Conn(Outgoing(true, [], None, [], 0), START, 0, 0, Answers(map[], [], []))

  /** doNextSendItem */
  function DoNext(o: Outgoing): Outgoing {
    if !o.connected || o.current.Some? || o.sendQueue == [] then o
    else Outgoing(true, o.sendQueue[1..], Some(o.sendQueue[0]), o.wire + Encode(o.sendQueue[0]), o.notifications + 1)
  }

  function Enqueue(o: Outgoing, f: CorFrame): Outgoing {
    DoNext(o.(sendQueue := o.sendQueue + [f]))
  }

  /** 32-bit increment. */
  function NextId(id: u32): u32 {
    if id == 0xFFFF_FFFF then 0 else id + 1
  }

  /** The flags byte of a queued frame is never set: any value may go out. */
  function RequestFrame(c: Conn, data: Data, flags: byte): CorFrame {
    CorFrame(1, TYPE_REQUEST, flags, NextId(c.nextCorrelationId), data)
  }

  function ResponseFrame(correlationId: u32, data: Data, flags: byte): CorFrame {
    CorFrame(1, TYPE_RESPONSE, flags, correlationId, data)
  }

  function RequestStep(c: Conn, data: Data, flags: byte): Conn {
    if !c.out.connected then c
    else
      var f := RequestFrame(c, data, flags);
      Conn(Enqueue(c.out, f), c.input, f.correlationId, c.issued + 1,
           c.answers.(replies := c.answers.replies[f.correlationId := c.issued + 1]))
  }

  function RespondStep(c: Conn, correlationId: u32, data: Data, flags: byte): Conn {
    if !c.out.connected then c
    else c.(out := Enqueue(c.out, ResponseFrame(correlationId, data, flags)))
  }

  /** The queued notification runs: the current item is finished, the next one goes out. */
  function FinishCurrent(o: Outgoing): Outgoing
    requires o.notifications > 0
  {
    DoNext(o.(current := None, notifications := o.notifications - 1))
  }

  function DoneStep(c: Conn): Conn
    requires c.out.notifications > 0
  {
    c.(out := FinishCurrent(c.out))
  }

  function ReadStep(c: Conn, chunk: seq<byte>): Conn
    requires c.input.parser.Valid()
  {
    var i := Feed(c.input, chunk);
    c.(input := i, answers := TakeAll(c.answers, NewReports(c.input, i)))
  }

  function ReadAll(c: Conn, chunks: seq<seq<byte>>): (r: Conn)
    requires c.input.parser.Valid()
    ensures r.input.parser.Valid()
  {
    if chunks == [] then c else ReadStep(ReadAll(c, chunks[..|chunks| - 1]), chunks[|chunks| - 1])
  }

  function NewReports(before: Input, after: Input): seq<Report> {
    if |before.reader.reports| <= |after.reader.reports| then after.reader.reports[|before.reader.reports|..] else []
  }

  class QCorConnection {
    const corParser: P.CorParser
    var connected: bool  // the socket's state is ConnectedState
    var buffer: seq<byte>
    var frame: Option<QFrame>
    var nextCorrelationId: u32
    var sendQueue: seq<CorFrame>
    var sendQueueCurrent: Option<CorFrame>
    var replies: map<u32, nat>
    var issued: nat
    var finished: seq<Finished>
    var incoming: seq<Report>
    var wire: seq<byte>
    var notifications: nat
    ghost var reports: seq<Report>

    ghost function Model(): Conn
      reads this, corParser
    {
      Conn(Out(), Input(corParser.Model(), buffer, Reader(frame, reports)), nextCorrelationId, issued,
           Answers(replies, finished, incoming))
    }

    ghost function Out(): Outgoing
      reads this
    {
      Outgoing(connected, sendQueue, sendQueueCurrent, wire, notifications)
    }

    ghost predicate Valid()
      reads this, corParser
    {
      corParser.Model().Valid()
    }

    constructor ()
      ensures Valid() && Model() == FRESH && fresh(corParser)
    {
      corParser := new P.CorParser();
      connected, buffer, frame, nextCorrelationId, sendQueue, sendQueueCurrent := true, [], None, 0, [], None;
      replies, issued, finished, incoming, wire, notifications := map[], 0, [], [], [], 0;
      reports := [];
    }

    method SendRequest(data: Data, flags: byte) returns (reply: Option<nat>)
      requires Valid()
      modifies this`nextCorrelationId, this`issued, this`replies
      modifies this`sendQueueCurrent, this`sendQueue, this`wire, this`notifications
      ensures Valid() && Model() == RequestStep(old(Model()), data, flags)
      ensures reply == if old(connected) then Some(old(issued) + 1) else None
    {
      if !connected {
        return None;
      }
      nextCorrelationId := NextId(nextCorrelationId);
      var item := CorFrame(1, TYPE_REQUEST, flags, nextCorrelationId, data);
      issued := issued + 1;
      replies := replies[nextCorrelationId := issued];
      reply := Some(issued);
      EnqueueItem(item);
    }

    method SendResponse(correlationId: u32, data: Data, flags: byte)
      requires Valid()
      modifies this
      ensures Valid() && Model() == RespondStep(old(Model()), correlationId, data, flags)
    {
      if !connected {
        return;
      }
      EnqueueItem(CorFrame(1, TYPE_RESPONSE, flags, correlationId, data));
    }

    method EnqueueItem(item: CorFrame)
      modifies this`sendQueueCurrent, this`sendQueue, this`wire, this`notifications
      ensures Out() == Enqueue(old(Out()), item)
    {
      sendQueue := sendQueue + [item];
      DoNextSendItem();
    }

    method DoNextSendItem()
      modifies this`sendQueueCurrent, this`sendQueue, this`wire, this`notifications
      ensures Out() == DoNext(old(Out()))
    {
      if !connected {
        return;
      }
      if sendQueueCurrent.Some? || sendQueue == [] {
        return;
      }
      sendQueueCurrent, sendQueue := Some(sendQueue[0]), sendQueue[1..];
      wire := wire + Encode(sendQueueCurrent.value);
      notifications := notifications + 1;
    }

    /** Called only by the notification that doNextSendItem queued. */
    method OnCurrentSendItemDone()
      requires Valid() && notifications > 0
      modifies this
      ensures Valid() && Model() == DoneStep(old(Model()))
    {
      notifications := notifications - 1;
      sendQueueCurrent := None;
      DoNextSendItem();
    }

    /** onSocketReadyRead; arrivals are what the socket has available, read by read. */
    method OnSocketReadyRead(arrivals: seq<seq<byte>>)
      requires Valid()
      modifies this`buffer, this`frame, this`replies, this`finished, this`incoming, this`reports, corParser
      ensures Valid() && Model() == ReadAll(old(Model()), arrivals)
    {
      for i := 0 to |arrivals|
        invariant Valid() && Model() == ReadAll(old(Model()), arrivals[..i])
      {
        assert arrivals[..i + 1][..i] == arrivals[..i];
        ReadAvailable(arrivals[i]);
      }
      assert arrivals[..|arrivals|] == arrivals;
    }

    /** One turn of its loop. */
    method ReadAvailable(chunk: seq<byte>)
      requires Valid()
      modifies this`buffer, this`frame, this`replies, this`finished, this`incoming, this`reports, corParser
      ensures Valid() && Model() == ReadStep(old(Model()), chunk)
    {
      buffer := buffer + chunk;
      var read := ParseBuffer();
      Consume(read);
    }

    /** cor_parser_parse on the buffer, with its callbacks. */
    method ParseBuffer() returns (read: nat)
      requires Valid()
      modifies this`frame, this`replies, this`finished, this`incoming, this`reports, corParser
      ensures Valid() && read <= |buffer|
      ensures Input(corParser.Model(), buffer[read..], Reader(frame, reports))
           == Observe(old(corParser.Model()), buffer, old(Reader(frame, reports)))
      ensures |old(reports)| <= |reports|
      ensures Answers(replies, finished, incoming)
           == TakeAll(old(Answers(replies, finished, incoming)), reports[|old(reports)|..])
    {
      ObserveIsParse(corParser.Model(), buffer, Reader(frame, reports));
      var events;
      read, events := corParser.ParseInput(buffer);
      OnEvents(events);
    }

    method Consume(read: nat)
      requires read <= |buffer|
      modifies this`buffer
      ensures buffer == old(buffer)[read..]
    {
      if read > 0 {
        if read < |buffer| {
          buffer := buffer[read..];
        } else {
          buffer := [];
        }
      }
    }

    /** The parser's callbacks, one after the other. */
    method OnEvents(events: seq<P.Event>)
      requires Valid()
      modifies this`frame, this`replies, this`finished, this`incoming, this`reports
      ensures Valid()
      ensures Reader(frame, reports) == HandleAll(old(Reader(frame, reports)), events)
      ensures |old(reports)| <= |reports|
      ensures Answers(replies, finished, incoming)
           == TakeAll(old(Answers(replies, finished, incoming)), reports[|old(reports)|..])
    {
      for i := 0 to |events|
        invariant Valid()
        invariant Reader(frame, reports) == HandleAll(old(Reader(frame, reports)), events[..i])
        invariant |old(reports)| <= |reports|
        invariant Answers(replies, finished, incoming)
               == TakeAll(old(Answers(replies, finished, incoming)), reports[|old(reports)|..])
      {
        HandleAppend(old(Reader(frame, reports)), events[..i], [events[i]]);
        HandleOne(Reader(frame, reports), events[i]);
        assert events[..i + 1] == events[..i] + [events[i]];
        ghost var before := reports[|old(reports)|..];
        OnEvent(events[i]);
        assert reports[|old(reports)|..] == before ||
          (reports[|old(reports)|..] == before + [reports[|reports| - 1]] &&
              (before + [reports[|reports| - 1]])[..|before|] == before);
      }
      assert events[..|events|] == events;
    }

    method OnEvent(e: P.Event)
      requires Valid()
      modifies this`frame, this`replies, this`finished, this`incoming, this`reports
      ensures Valid()
      ensures Reader(frame, reports) == Handle(old(Reader(frame, reports)), e)
      ensures !e.FrameEnd? ==>
        reports == old(reports) && Answers(replies, finished, incoming) == old(Answers(replies, finished, incoming))
      ensures e.FrameEnd? ==>
        && |reports| == |old(reports)| + 1 && reports[..|old(reports)|] == old(reports)
        && Answers(replies, finished, incoming) ==
             Take(old(Answers(replies, finished, incoming)), reports[|old(reports)|])
    {
      match e {
        case FrameBegin =>
          frame := Some(QFrame(false, 0, []));
        case HeaderEnd(h) =>
          if frame.Some? {
            if h.kind == TYPE_REQUEST {
              frame := Some(frame.value.(response := false));
            } else if h.kind == TYPE_RESPONSE {
              frame := Some(frame.value.(response := true));
            }
            frame := Some(frame.value.(correlationId := h.correlationId));
          }
        case Body(data) =>
          if frame.Some? {
            frame := Some(frame.value.(data := frame.value.data + data));
          }
        case FrameEnd(h) =>
          var report := Report(h.kind, h.correlationId, frame);
          frame := None;
          reports := reports + [report];
          if h.kind == TYPE_REQUEST {
            incoming := incoming + [report];
          } else if h.kind == TYPE_RESPONSE {
            if h.correlationId in replies {
              var rep := replies[h.correlationId];
              replies := replies - {h.correlationId};
              finished := finished + [Finished(rep, report)];
            }
          }
        case HeaderBegin =>
        case BodyDataEnd =>
      }
    }
  }
}
