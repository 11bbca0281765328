/** The receiving side of a connection: what the parser's callbacks build, over any way of
    cutting the byte stream into reads. */
module CorReader {
  import opened Wrappers
  import opened Sequences
  import opened Bytes
  import opened CorProtocol
  import P = CorParser

  /** QCorFrame, as its callbacks fill it in. */
  datatype QFrame = QFrame(response: bool, correlationId: u32, data: seq<byte>)

  /** A finished frame, with the header fields the last callback saw. */
  datatype Report = Report(kind: u16, correlationId: u32, frame: Option<QFrame>)

  datatype Reader = Reader(frame: Option<QFrame>, reports: seq<Report>)

  const EMPTY := Reader(None, [])

  /** One callback of QCorConnectionPrivate. */
  function Handle(r: Reader, e: P.Event): Reader {
    match e
    case FrameBegin => r.(frame := Some(QFrame(false, 0, [])))
    case HeaderEnd(h) =>
      if r.frame.None? then r
      else
        var response := if h.kind == TYPE_REQUEST then false
                        else if h.kind == TYPE_RESPONSE then true
                        else r.frame.value.response;
        r.(frame := Some(r.frame.value.(response := response, correlationId := h.correlationId)))
    case Body(data) =>
      if r.frame.None? then r
      else r.(frame := Some(r.frame.value.(data := r.frame.value.data + data)))
    case FrameEnd(h) => Reader(None, r.reports + [Report(h.kind, h.correlationId, r.frame)])
    case HeaderBegin => r
    case BodyDataEnd => r
  }

  function HandleAll(r: Reader, events: seq<P.Event>): Reader
    decreases |events|
  {
    if events == [] then r else HandleAll(Handle(r, events[0]), events[1..])
  }

  lemma {:induction false} HandleAppend(r: Reader, a: seq<P.Event>, b: seq<P.Event>)
    ensures HandleAll(r, a + b) == HandleAll(HandleAll(r, a), b)
    decreases |a|
  {
    if a == [] {
      assert a + b == b;
    } else {
      HandleAppend(Handle(r, a[0]), a[1..], b);
      assert (a + b)[1..] == a[1..] + b;
    }
  }

  /** Reports are only ever appended. */
  lemma {:induction false} ReportsGrow(r: Reader, events: seq<P.Event>)
    ensures r.reports <= HandleAll(r, events).reports
    decreases |events|
  {
    if events != [] {
      ReportsGrow(Handle(r, events[0]), events[1..]);
    }
  }

  /** The receiving state of a connection: parser, unread bytes, frames. */
  datatype Input = Input(parser: P.Parser, buffer: seq<byte>, reader: Reader)

  const START := Input(P.INIT, [], EMPTY)

  /** Parsing with the callbacks applied on the way. */
  function Observe(p: P.Parser, s: seq<byte>, r: Reader): (o: Input)
    requires p.Valid()
    ensures o.parser.Valid()
    decreases |s|, P.Rank(p)
  {
    if P.Stuck(p, s) then Input(p, s, r)
    else
      var t := P.Turn(p, s);
      Observe(t.parser, s[t.consumed..], HandleAll(r, t.events))
  }

  /** Applying the callbacks during the parse or after it is the same. */
  lemma {:induction false} ObserveIsParse(p: P.Parser, s: seq<byte>, r: Reader)
    requires p.Valid()
    ensures var q := P.Parse(p, s); Observe(p, s, r) == Input(q.parser, q.rest, HandleAll(r, q.events))
    decreases |s|, P.Rank(p)
  {
    if !P.Stuck(p, s) {
      var t := P.Turn(p, s);
      ObserveIsParse(t.parser, s[t.consumed..], HandleAll(r, t.events));
      HandleAppend(r, t.events, P.Parse(t.parser, s[t.consumed..]).events);
    }
  }

  /** One read of onSocketReadyRead: append to the buffer, parse, keep the rest. */
  function Feed(i: Input, chunk: seq<byte>): (o: Input)
    requires i.parser.Valid()
    ensures o.parser.Valid()
  {
    Observe(i.parser, i.buffer + chunk, i.reader)
  }

  function FeedAll(i: Input, chunks: seq<seq<byte>>): (o: Input)
    requires i.parser.Valid()
    ensures o.parser.Valid()
  {
    if chunks == [] then i else Feed(FeedAll(i, chunks[..|chunks| - 1]), chunks[|chunks| - 1])
  }

  // ---------------------------------------------------------------- chunk independence

  /** More bytes behind do not change a turn that did not run out of body bytes. */
  lemma TurnIgnoresTail(p: P.Parser, a: seq<byte>, b: seq<byte>)
    requires p.Valid() && !P.Stuck(p, a)
    requires p.state == P.BodyData ==> p.request.length - p.bodyRead <= |a|
    ensures !P.Stuck(p, a + b) && P.Turn(p, a + b) == P.Turn(p, a)
    ensures (a + b)[P.Turn(p, a).consumed..] == a[P.Turn(p, a).consumed..] + b
  {
    if P.InHeader(p.state) {
      var n := P.FieldSize(p.state);
      assert (a + b)[..n] == a[..n];
    } else if p.state == P.BodyData {
      var n := p.request.length - p.bodyRead;
      assert (a + b)[..n] == a[..n];
    }
  }

  lemma HandleBodyEnd(r: Reader, x: seq<byte>, h: P.Header)
    ensures HandleAll(r, [P.Body(x), P.BodyDataEnd, P.FrameEnd(h)]) == Handle(Handle(r, P.Body(x)), P.FrameEnd(h))
  {
    var r1 := Handle(r, P.Body(x));
    assert [P.Body(x), P.BodyDataEnd, P.FrameEnd(h)][1..] == [P.BodyDataEnd, P.FrameEnd(h)];
    assert [P.BodyDataEnd, P.FrameEnd(h)][1..] == [P.FrameEnd(h)];
    assert HandleAll(r1, [P.BodyDataEnd, P.FrameEnd(h)]) == HandleAll(r1, [P.FrameEnd(h)]);
    HandleOne(r1, P.FrameEnd(h));
  }

  lemma HandleOne(r: Reader, e: P.Event)
    ensures HandleAll(r, [e]) == Handle(r, e)
  {
    assert [e][1..] == [];
  }

  /** Two pieces of a body are handled like one. */
  lemma BodyMerges(r: Reader, x: seq<byte>, y: seq<byte>)
    ensures Handle(Handle(r, P.Body(x)), P.Body(y)) == Handle(r, P.Body(x + y))
  {
    if r.frame.Some? {
      ConcatAssociative(r.frame.value.data, x, y);
    }
  }

  /** A body cut in two reads: one turn over both does what a turn over each does. */
  lemma BodyCut(p: P.Parser, a: seq<byte>, b: seq<byte>, r: Reader)
    requires p.Valid() && p.state == P.BodyData && a != [] && b != []
    requires |a| < p.request.length - p.bodyRead
    ensures var p1 := p.(bodyRead := p.bodyRead + |a|);
            var r1 := HandleAll(r, [P.Body(a)]);
            && p1.Valid()
            && P.Turn(p, a + b).parser == P.Turn(p1, b).parser
            && P.Turn(p, a + b).consumed == |a| + P.Turn(p1, b).consumed
            && HandleAll(r, P.Turn(p, a + b).events) == HandleAll(r1, P.Turn(p1, b).events)
  {
    var p1 := p.(bodyRead := p.bodyRead + |a|);
    var n := P.Turn(p1, b).consumed;
    var y := b[..n];
    assert (a + b)[..|a| + n] == a + y;
    HandleOne(r, P.Body(a));
    BodyMerges(r, a, y);
    if p1.bodyRead + n == p.request.length {
      assert P.Turn(p1, b).events == [P.Body(y), P.BodyDataEnd, P.FrameEnd(p.request)];
      assert P.Turn(p, a + b).events == [P.Body(a + y), P.BodyDataEnd, P.FrameEnd(p.request)];
      HandleBodyEnd(Handle(r, P.Body(a)), y, p.request);
      HandleBodyEnd(r, a + y, p.request);
    } else {
      HandleOne(Handle(r, P.Body(a)), P.Body(y));
      HandleOne(r, P.Body(a + y));
    }
  }

  lemma ObserveBodyCut(p: P.Parser, a: seq<byte>, b: seq<byte>, r: Reader)
    requires p.Valid() && p.state == P.BodyData && a != [] && |a| < p.request.length - p.bodyRead
    ensures var o := Observe(p, a, r); Observe(p, a + b, r) == Observe(o.parser, o.buffer + b, o.reader)
  {
    var p1 := p.(bodyRead := p.bodyRead + |a|);
    var r1 := HandleAll(r, [P.Body(a)]);
    assert a[..|a|] == a && a[|a|..] == [] && [] + b == b;
    assert P.Turn(p, a).events == [P.Body(a)];
    assert Observe(p, a, r) == Input(p1, [], r1);
    if b == [] {
      assert a + b == a;
    } else {
      BodyCut(p, a, b, r);
      var n := P.Turn(p1, b).consumed;
      assert (a + b)[|a| + n..] == b[n..];
    }
  }

  /** Parsing a + b is parsing a, then what it left over followed by b. */
  lemma {:induction false} ObserveAppend(p: P.Parser, a: seq<byte>, b: seq<byte>, r: Reader)
    requires p.Valid()
    ensures var o := Observe(p, a, r); Observe(p, a + b, r) == Observe(o.parser, o.buffer + b, o.reader)
    decreases |a|, P.Rank(p)
  {
    if P.Stuck(p, a) {
    } else if p.state == P.BodyData && |a| < p.request.length - p.bodyRead {
      ObserveBodyCut(p, a, b, r);
    } else {
      var t := P.Turn(p, a);
      TurnIgnoresTail(p, a, b);
      ObserveAppend(t.parser, a[t.consumed..], b, HandleAll(r, t.events));
    }
  }

  /** For every byte string and every way of cutting it into reads, the connection ends in
      the same parser state, with the same leftover bytes, the same frame under
      construction and the same finished frames as after one read of the whole. */
  lemma {:induction false} ChunkIndependence(chunks: seq<seq<byte>>)
    ensures FeedAll(START, chunks) == Observe(P.INIT, Flatten(chunks), EMPTY)
    ensures FeedAll(START, chunks) == FeedAll(START, [Flatten(chunks)])
  {
    var whole := [Flatten(chunks)];
    assert whole[..0] == [] && [] + Flatten(chunks) == Flatten(chunks);
    assert FeedAll(START, whole) == Feed(FeedAll(START, whole[..0]), whole[0]);
    if chunks != [] {
      var n := |chunks| - 1;
      ChunkIndependence(chunks[..n]);
      ObserveAppend(P.INIT, Flatten(chunks[..n]), chunks[n], EMPTY);
    }
  }

  /** After any reads at most 3 bytes stay in the connection's buffer. */
  lemma LeftoverBound(chunks: seq<seq<byte>>)
    ensures |FeedAll(START, chunks).buffer| <= 3
  {
    ChunkIndependence(chunks);
    P.RemainderBound(P.INIT, Flatten(chunks));
    ObserveIsParse(P.INIT, Flatten(chunks), EMPTY);
  }

  /** Frames once reported stay reported while more bytes come in. */
  lemma ReportsAreMonotone(s: seq<byte>, more: seq<byte>)
    ensures Observe(P.INIT, s, EMPTY).reader.reports <= Observe(P.INIT, s + more, EMPTY).reader.reports
  {
    ObserveAppend(P.INIT, s, more, EMPTY);
    var o := Observe(P.INIT, s, EMPTY);
    ObserveIsParse(o.parser, o.buffer + more, o.reader);
    ReportsGrow(o.reader, P.Parse(o.parser, o.buffer + more).events);
  }

  // ---------------------------------------------------------------- round trip

  function HeaderOf(f: CorFrame): P.Header {
    P.Header(f.version, f.kind, f.correlationId, |f.data|)
  }

  /** What reporting f means: all its fields but the flags. */
  function ReportOf(f: CorFrame): Report {
    Report(f.kind, f.correlationId, Some(QFrame(f.kind == TYPE_RESPONSE, f.correlationId, f.data)))
  }

  function ReportsOf(fs: seq<CorFrame>): (r: seq<Report>)
    ensures |r| == |fs|
  {
    seq(|fs|, i requires 0 <= i < |fs| => ReportOf(fs[i]))
  }

  lemma FieldTurn(p: P.Parser, field: seq<byte>, tail: seq<byte>, r: Reader)
    requires p.Valid() && P.InHeader(p.state) && |field| == P.FieldSize(p.state)
    ensures var p' := P.StoreField(p, field);
      Observe(p, field + tail, r) ==
      Observe(p', tail, HandleAll(r, if p'.state == P.BodyData then [P.HeaderEnd(p'.request)] else []))
  {
    assert (field + tail)[..|field|] == field;
    assert (field + tail)[|field|..] == tail;
  }

  lemma StoreWritten(p: P.Parser, v: nat)
    requires P.InHeader(p.state) && v < Pow256(P.FieldSize(p.state))
    ensures P.FieldSize(p.state) == |BigEndian(P.FieldSize(p.state), v)|
    ensures var q := P.StoreField(p, BigEndian(P.FieldSize(p.state), v));
      match p.state
      case HeaderVersion =>
        q == p.(state := P.HeaderType, request := p.request.(version := q.request.version)) && q.request.version == v
      case HeaderType =>
        q == p.(state := P.HeaderFlags, request := p.request.(kind := q.request.kind)) && q.request.kind == v
      case HeaderFlags =>
        q == p.(state := P.HeaderCorrelationId)
      case HeaderCorrelationId =>
        var id := q.request.correlationId;
        q == p.(state := P.HeaderBodyLength, request := p.request.(correlationId := id)) && id == v
      case HeaderBodyLength =>
        q == p.(state := P.BodyData, request := p.request.(length := q.request.length)) && q.request.length == v
  {
    BigEndianRoundTrip(P.FieldSize(p.state), v);
  }

  /** The fields up to the flags. */
  lemma HeaderStarts(f: CorFrame, tail: seq<byte>, r: Reader)
    ensures
      Observe(P.INIT, Stream.Write16(f.version) + (Stream.Write16(f.kind) + (Stream.Write8(f.flags) + tail)), r) ==
      Observe(P.Parser(P.HeaderCorrelationId, 0, P.NO_HEADER.(version := f.version, kind := f.kind)), tail,
              Handle(r, P.FrameBegin))
  {
    WidthConstants();
    var t2 := Stream.Write8(f.flags) + tail;
    var t1 := Stream.Write16(f.kind) + t2;
    var r1 := Handle(r, P.FrameBegin);
    assert HandleAll(r, [P.FrameBegin, P.HeaderBegin]) == r1 by {
      assert [P.FrameBegin, P.HeaderBegin][1..] == [P.HeaderBegin];
      HandleOne(r1, P.HeaderBegin);
    }
    var p0 := P.Parser(P.HeaderVersion, 0, P.NO_HEADER);
    var p1 := P.Parser(P.HeaderType, 0, P.NO_HEADER.(version := f.version));
    var p2 := P.Parser(P.HeaderFlags, 0, p1.request.(kind := f.kind));
    StoreWritten(p0, f.version);
    FieldTurn(p0, Stream.Write16(f.version), t1, r1);
    StoreWritten(p1, f.kind);
    FieldTurn(p1, Stream.Write16(f.kind), t2, r1);
    StoreWritten(p2, f.flags);
    FieldTurn(p2, Stream.Write8(f.flags), tail, r1);
  }

  /** Reading a header brings the parser to the body, whatever the flags. */
  lemma HeaderParses(f: CorFrame, tail: seq<byte>, r: Reader)
    ensures Observe(P.INIT, Encode(f) + tail, r) ==
      Observe(P.Parser(P.BodyData, 0, HeaderOf(f)), f.data + tail,
              r.(frame := Some(QFrame(f.kind == TYPE_RESPONSE, f.correlationId, []))))
  {
    WidthConstants();
    var t5 := f.data + tail;
    var t4 := Stream.Write32(|f.data|) + t5;
    var t3 := Stream.Write32(f.correlationId) + t4;
    assert Encode(f) + tail == Stream.Write16(f.version) + (Stream.Write16(f.kind) + (Stream.Write8(f.flags) + t3));
    HeaderStarts(f, t3, r);
    var r1 := Handle(r, P.FrameBegin);
    var p3 := P.Parser(P.HeaderCorrelationId, 0, P.NO_HEADER.(version := f.version, kind := f.kind));
    var p4 := P.Parser(P.HeaderBodyLength, 0, p3.request.(correlationId := f.correlationId));
    StoreWritten(p3, f.correlationId);
    FieldTurn(p3, Stream.Write32(f.correlationId), t4, r1);
    StoreWritten(p4, |f.data|);
    FieldTurn(p4, Stream.Write32(|f.data|), t5, r1);
    HandleOne(r1, P.HeaderEnd(HeaderOf(f)));
  }

  lemma BodyParses(h: P.Header, data: seq<byte>, tail: seq<byte>, r: Reader)
    requires h.length == |data| && (data != [] || tail != []) && r.frame.Some?
    ensures Observe(P.Parser(P.BodyData, 0, h), data + tail, r) ==
      Observe(P.INIT, tail, Reader(None, r.reports +
        [Report(h.kind, h.correlationId, Some(r.frame.value.(data := r.frame.value.data + data)))]))
  {
    var p := P.Parser(P.BodyData, 0, h);
    var s := data + tail;
    assert s[..|data|] == data && s[|data|..] == tail;
    if data == [] {
      assert P.Turn(p, s).events == [P.BodyDataEnd, P.FrameEnd(h)];
      assert [P.BodyDataEnd, P.FrameEnd(h)][1..] == [P.FrameEnd(h)];
      HandleOne(r, P.FrameEnd(h));
      assert r.frame.value.data + data == r.frame.value.data;
    } else {
      assert P.Turn(p, s).events == [P.Body(data), P.BodyDataEnd, P.FrameEnd(h)];
      HandleBodyEnd(r, data, h);
    }
  }

  /** A frame with a body, or followed by anything, is reported and leaves no trace. */
  lemma OneFrame(f: CorFrame, tail: seq<byte>, r: Reader)
    requires f.data != [] || tail != []
    ensures Observe(P.INIT, Encode(f) + tail, r) == Observe(P.INIT, tail, Reader(None, r.reports + [ReportOf(f)]))
  {
    HeaderParses(f, tail, r);
    BodyParses(HeaderOf(f), f.data, tail, r.(frame := Some(QFrame(f.kind == TYPE_RESPONSE, f.correlationId, []))));
    assert [] + f.data == f.data;
  }

  lemma FieldCalls(p: P.Parser, field: seq<byte>, tail: seq<byte>)
    requires p.Valid() && P.InHeader(p.state) && |field| == P.FieldSize(p.state)
    ensures var p' := P.StoreField(p, field);
      P.Parse(p, field + tail) ==
        P.After(if p'.state == P.BodyData then [P.HeaderEnd(p'.request)] else [], P.Parse(p', tail))
  {
    assert (field + tail)[..|field|] == field;
    assert (field + tail)[|field|..] == tail;
  }

  lemma NoCalls(q: P.Parsed)
    ensures P.After([], q) == q
  {
    assert [] + q.events == q.events;
  }

  lemma HeaderCalls(f: CorFrame, tail: seq<byte>)
    ensures P.Parse(P.Parser(P.HeaderVersion, 0, P.NO_HEADER), Encode(f) + tail) ==
      P.After([P.HeaderEnd(HeaderOf(f))], P.Parse(P.Parser(P.BodyData, 0, HeaderOf(f)), f.data + tail))
  {
    WidthConstants();
    var t5 := f.data + tail;
    var t4 := Stream.Write32(|f.data|) + t5;
    var t3 := Stream.Write32(f.correlationId) + t4;
    var t2 := Stream.Write8(f.flags) + t3;
    var t1 := Stream.Write16(f.kind) + t2;
    assert Encode(f) + tail == Stream.Write16(f.version) + t1;
    var p0 := P.Parser(P.HeaderVersion, 0, P.NO_HEADER);
    var p1 := P.Parser(P.HeaderType, 0, P.NO_HEADER.(version := f.version));
    var p2 := P.Parser(P.HeaderFlags, 0, p1.request.(kind := f.kind));
    var p3 := P.Parser(P.HeaderCorrelationId, 0, p2.request);
    var p4 := P.Parser(P.HeaderBodyLength, 0, p3.request.(correlationId := f.correlationId));
    StoreWritten(p0, f.version);
    FieldCalls(p0, Stream.Write16(f.version), t1);
    StoreWritten(p1, f.kind);
    FieldCalls(p1, Stream.Write16(f.kind), t2);
    StoreWritten(p2, f.flags);
    FieldCalls(p2, Stream.Write8(f.flags), t3);
    StoreWritten(p3, f.correlationId);
    FieldCalls(p3, Stream.Write32(f.correlationId), t4);
    StoreWritten(p4, |f.data|);
    FieldCalls(p4, Stream.Write32(|f.data|), t5);
    NoCalls(P.Parse(p1, t1));
    NoCalls(P.Parse(p2, t2));
    NoCalls(P.Parse(p3, t3));
    NoCalls(P.Parse(p4, t4));
  }

  /** A frame with a body that arrives in one piece causes these six callbacks, and leaves the
      parser as it was. */
  lemma CallbacksOfFrame(f: CorFrame)
    requires f.data != []
    ensures P.Parse(P.INIT, Encode(f)) == P.Parsed(P.INIT, [],
      [P.FrameBegin, P.HeaderBegin, P.HeaderEnd(HeaderOf(f)), P.Body(f.data), P.BodyDataEnd, P.FrameEnd(HeaderOf(f))])
  {
    var h := HeaderOf(f);
    assert Encode(f) + [] == Encode(f) && f.data + [] == f.data;
    HeaderCalls(f, []);
    var p := P.Parser(P.BodyData, 0, h);
    assert f.data[..|f.data|] == f.data && f.data[|f.data|..] == [];
    assert P.Turn(p, f.data) == P.Turned(P.INIT, |f.data|, [P.Body(f.data), P.BodyDataEnd, P.FrameEnd(h)]);
    assert P.Parse(P.INIT, []) == P.Parsed(P.INIT, [], []);
    var begun := P.Parser(P.HeaderVersion, 0, P.NO_HEADER);
    assert P.Turn(P.INIT, Encode(f)) == P.Turned(begun, 0, [P.FrameBegin, P.HeaderBegin]);
    assert Encode(f)[0..] == Encode(f);
  }

  /** A frame without a body at the very end waits for the next byte. */
  lemma EmptyFrameWaits(f: CorFrame, r: Reader)
    requires f.data == []
    ensures Observe(P.INIT, Encode(f), r) ==
      Input(P.Parser(P.BodyData, 0, HeaderOf(f)), [],
            r.(frame := Some(QFrame(f.kind == TYPE_RESPONSE, f.correlationId, []))))
  {
    HeaderParses(f, [], r);
    assert Encode(f) + [] == Encode(f) && f.data + [] == [];
  }

  /** The last frame, if any, has a body. */
  predicate EndsWithBody(fs: seq<CorFrame>) {
    fs == [] || fs[|fs| - 1].data != []
  }

  /** The frames reported as soon as all bytes of fs have been read. */
  function Reported(fs: seq<CorFrame>): seq<CorFrame> {
    if EndsWithBody(fs) then fs else fs[..|fs| - 1]
  }

  lemma {:induction false} EncodedFramesParse(fs: seq<CorFrame>, tail: seq<byte>, r: Reader)
    requires r.frame == None
    requires EndsWithBody(fs) || tail != []
    ensures Observe(P.INIT, EncodeAll(fs) + tail, r) == Observe(P.INIT, tail, Reader(None, r.reports + ReportsOf(fs)))
    decreases |fs|
  {
    if fs == [] {
      assert EncodeAll(fs) + tail == tail;
      assert r.reports + ReportsOf(fs) == r.reports;
    } else {
      var rest := EncodeAll(fs[1..]) + tail;
      ConcatAssociative(Encode(fs[0]), EncodeAll(fs[1..]), tail);
      OneFrame(fs[0], rest, r);
      EncodedFramesParse(fs[1..], tail, Reader(None, r.reports + [ReportOf(fs[0])]));
      assert r.reports + [ReportOf(fs[0])] + ReportsOf(fs[1..]) == r.reports + ReportsOf(fs);
    }
  }

  lemma WholeListParses(fs: seq<CorFrame>)
    ensures var o := Observe(P.INIT, EncodeAll(fs), EMPTY);
      && o.reader.reports == ReportsOf(Reported(fs))
      && o.buffer == []
      && (EndsWithBody(fs) <==> o.parser == P.INIT)
  {
    assert EncodeAll(fs) + [] == EncodeAll(fs);
    assert [] + ReportsOf(Reported(fs)) == ReportsOf(Reported(fs));
    if EndsWithBody(fs) {
      EncodedFramesParse(fs, [], EMPTY);
    } else {
      var n := |fs| - 1;
      assert fs == fs[..n] + [fs[n]];
      EncodeAllAppend(fs[..n], [fs[n]]);
      assert EncodeAll([fs[n]]) == Encode(fs[n]) by {
        assert [fs[n]][1..] == [] && Encode(fs[n]) + [] == Encode(fs[n]);
      }
      EncodedFramesParse(fs[..n], Encode(fs[n]), EMPTY);
      EmptyFrameWaits(fs[n], Reader(None, [] + ReportsOf(fs[..n])));
    }
  }

  /** Parsing the encodings of any list of frames, cut into reads in any way, reports
      exactly that list with nothing left over; only a final frame without a body is held
      back. */
  lemma CorRoundTrip(fs: seq<CorFrame>, chunks: seq<seq<byte>>)
    requires Flatten(chunks) == EncodeAll(fs)
    ensures var o := FeedAll(START, chunks);
      && o.reader.reports == ReportsOf(Reported(fs))
      && o.buffer == []
      && (EndsWithBody(fs) <==> o.parser == P.INIT)
  {
    ChunkIndependence(chunks);
    WholeListParses(fs);
  }

  /** With any byte after them, all frames are reported. */
  lemma CorRoundTripNextByte(fs: seq<CorFrame>, next: byte)
    ensures Observe(P.INIT, EncodeAll(fs) + [next], EMPTY).reader.reports == ReportsOf(fs)
  {
    EncodedFramesParse(fs, [next], EMPTY);
    var r := Reader(None, [] + ReportsOf(fs));
    assert [] + ReportsOf(fs) == ReportsOf(fs);
    var begun := P.INIT.(state := P.HeaderVersion);
    assert P.Turn(P.INIT, [next]) == P.Turned(begun, 0, [P.FrameBegin, P.HeaderBegin]);
    assert [next][0..] == [next] && P.Stuck(begun, [next]);
    ReportsUnchanged(r, [P.FrameBegin, P.HeaderBegin]);
  }

  lemma {:induction false} ReportsUnchanged(r: Reader, events: seq<P.Event>)
    requires forall i :: 0 <= i < |events| ==> !events[i].FrameEnd?
    ensures HandleAll(r, events).reports == r.reports
    decreases |events|
  {
    if events != [] {
      ReportsUnchanged(Handle(r, events[0]), events[1..]);
    }
  }

  /** A receiver that has read a prefix of what was written has reported a prefix of the
      frames written. */
  lemma PrefixReported(fs: seq<CorFrame>, read: seq<byte>)
    requires read <= EncodeAll(fs)
    ensures Observe(P.INIT, read, EMPTY).reader.reports <= ReportsOf(fs)
  {
    var more := EncodeAll(fs)[|read|..];
    assert read + more == EncodeAll(fs);
    ReportsAreMonotone(read, more);
    WholeListParses(fs);
  }
}
