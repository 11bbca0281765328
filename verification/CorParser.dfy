/** COR frames and their wire form, as QCorConnection::doNextSendItem writes them. */
module CorProtocol {
  import opened Sequences
  import opened Bytes
  import opened Stream

  const TYPE_REQUEST: u16 := 0
  const TYPE_RESPONSE: u16 := 1

  /** A QByteArray; its size is an int. */
  type Data = s: seq<byte> | |s| < 0x8000_0000

  datatype CorFrame = CorFrame(version: u16, kind: u16, flags: byte, correlationId: u32, data: Data)

  function Encode(f: CorFrame): (r: seq<byte>)
    ensures |r| == 13 + |f.data|
  {
    Write16(f.version) + (Write16(f.kind) + (Write8(f.flags) +
      (Write32(f.correlationId) + (Write32(|f.data|) + f.data))))
  }

  /** The wire form, byte by byte: version, type, flags, correlation id, length, data. */
  lemma FrameLayout(f: CorFrame)
    ensures var w := Encode(f);
      && w[..2] == BigEndian(2, f.version) && w[2..4] == BigEndian(2, f.kind) && w[4] == f.flags
      && w[5..9] == BigEndian(4, f.correlationId) && w[9..13] == BigEndian(4, |f.data|) && w[13..] == f.data
  {
    OneByte(f.flags);
  }

  function EncodeAll(fs: seq<CorFrame>): seq<byte> {
    if fs == [] then [] else Encode(fs[0]) + EncodeAll(fs[1..])
  }

  lemma {:induction false} EncodeAllAppend(fs: seq<CorFrame>, gs: seq<CorFrame>)
    ensures EncodeAll(fs + gs) == EncodeAll(fs) + EncodeAll(gs)
  {
    if fs == [] {
      assert fs + gs == gs;
    } else {
      EncodeAllAppend(fs[1..], gs);
      assert (fs + gs)[1..] == fs[1..] + gs;
      ConcatAssociative(Encode(fs[0]), EncodeAll(fs[1..]), EncodeAll(gs));
    }
  }
}

/** The resumable frame parser. */
module CorParser {
  import opened Sequences
  import opened Bytes

  datatype State = None | HeaderVersion | HeaderType | HeaderFlags | HeaderCorrelationId | HeaderBodyLength | BodyData

  /** The stored header fields; the flags byte is consumed but never stored. */
  datatype Header = Header(version: u16, kind: u16, correlationId: u32, length: u32)

  const NO_HEADER := Header(0, 0, 0, 0)

  datatype Parser = Parser(state: State, bodyRead: nat, request: Header) {
    ghost predicate Valid() {
      if state == BodyData then bodyRead < request.length || bodyRead == request.length == 0
      else bodyRead == 0
    }
  }

  const INIT := Parser(None, 0, NO_HEADER)

  /** The callbacks, in the order they are made. */
  datatype Event =
    | FrameBegin
    | HeaderBegin
    | HeaderEnd(h: Header)
    | Body(data: seq<byte>)
    | BodyDataEnd
    | FrameEnd(h: Header)

  function FieldSize(s: State): nat {
    match s
    case HeaderVersion => 2
    case HeaderType => 2
    case HeaderFlags => 1
    case HeaderCorrelationId => 4
    case HeaderBodyLength => 4
    case _ => 0
  }

  predicate InHeader(s: State) {
    s != None && s != BodyData
  }

  /** One header field read from its bytes. */
  function StoreField(p: Parser, field: seq<byte>): (r: Parser)
    requires InHeader(p.state) && |field| == FieldSize(p.state)
  {
    WidthConstants();
    FromBigEndianBound(field);
    var v := FromBigEndian(field);
    match p.state
    case HeaderVersion => p.(state := HeaderType, request := p.request.(version := v))
    case HeaderType => p.(state := HeaderFlags, request := p.request.(kind := v))
    case HeaderFlags => p.(state := HeaderCorrelationId)
    case HeaderCorrelationId => p.(state := HeaderBodyLength, request := p.request.(correlationId := v))
    case HeaderBodyLength => p.(state := BodyData, request := p.request.(length := v))
  }

  datatype Parsed = Parsed(parser: Parser, rest: seq<byte>, events: seq<Event>)

  function After(events: seq<Event>, r: Parsed): Parsed {
    r.(events := events + r.events)
  }

  /** Orders the loop turns that consume nothing: ending an empty body, then starting. */
  function Rank(p: Parser): nat {
    match p.state
    case BodyData => 2
    case None => 1
    case _ => 0
  }

  /** The loop cannot go on: no byte left, or a header field not complete. */
  predicate Stuck(p: Parser, s: seq<byte>) {
    s == [] || (InHeader(p.state) && |s| < FieldSize(p.state))
  }

  /** One turn of the loop: the state after it, the bytes consumed, the callbacks made. */
  datatype Turned = Turned(parser: Parser, consumed: nat, events: seq<Event>)

  function Turn(p: Parser, s: seq<byte>): (r: Turned)
    requires p.Valid() && !Stuck(p, s)
    ensures r.parser.Valid() && r.consumed <= |s|
    ensures r.consumed > 0 || Rank(r.parser) < Rank(p)
  {
    if p.state == None then
      Turned(p.(state := HeaderVersion), 0, [FrameBegin, HeaderBegin])
    else if InHeader(p.state) then
      var n := FieldSize(p.state);
      var p' := StoreField(p, s[..n]);
      Turned(p', n, if p'.state == BodyData then [HeaderEnd(p'.request)] else [])
    else
      var len := Min(|s|, p.request.length - p.bodyRead);
      var body := if len > 0 then [Body(s[..len])] else [];
      if p.bodyRead + len == p.request.length then
        Turned(INIT, len, body + [BodyDataEnd, FrameEnd(p.request)])
      else
        Turned(p.(bodyRead := p.bodyRead + len), len, body)
  }

  /** Parsing s from state p: the final state, the bytes not consumed, the callbacks. The
      measure (bytes left, rank) bounds the number of turns. */
  function Parse(p: Parser, s: seq<byte>): Parsed
    requires p.Valid()
    decreases |s|, Rank(p)
  {
    if Stuck(p, s) then Parsed(p, s, [])
    else
      var t := Turn(p, s);
      After(t.events, Parse(t.parser, s[t.consumed..]))
  }

  /** Taking one turn first changes nothing but where the callbacks are counted. */
  lemma TurnStep(events: seq<Event>, p: Parser, s: seq<byte>)
    requires p.Valid() && !Stuck(p, s)
    ensures var t := Turn(p, s);
      After(events, Parse(p, s)) == After(events + t.events, Parse(t.parser, s[t.consumed..]))
  {
    var t := Turn(p, s);
    ConcatAssociative(events, t.events, Parse(t.parser, s[t.consumed..]).events);
  }

  /** What stays unread is shorter than the header field being waited for, so at most 3
      bytes; in the body nothing stays. */
  lemma {:induction false} RemainderBound(p: Parser, s: seq<byte>)
    requires p.Valid()
    ensures var r := Parse(p, s);
      && r.parser.Valid()
      && |r.rest| <= |s| && r.rest == s[|s| - |r.rest|..]
      && (r.rest != [] ==> InHeader(r.parser.state) && |r.rest| < FieldSize(r.parser.state) <= 4)
    decreases |s|, Rank(p)
  {
    if !Stuck(p, s) {
      var t := Turn(p, s);
      RemainderBound(t.parser, s[t.consumed..]);
    }
  }

  // ---------------------------------------------------------------- the loop

  class CorParser {
    var state: State
    var requestBodyBytesRead: nat
    var request: Header

    ghost function Model(): Parser
      reads this
    {
      Parser(state, requestBodyBytesRead, request)
    }

    constructor ()
      ensures Model() == INIT
    {
      state, requestBodyBytesRead, request := None, 0, NO_HEADER;
    }

    /** cor_parser_init */
    method Init()
      modifies this
      ensures Model() == INIT
    {
      state, requestBodyBytesRead, request := None, 0, NO_HEADER;
    }

    /** cor_parser_parse; events are the callbacks made. */
    method ParseInput(data: seq<byte>) returns (readBytes: nat, events: seq<Event>)
      requires Model().Valid()
      modifies this
      ensures Model().Valid() && readBytes <= |data|
      ensures Parsed(Model(), data[readBytes..], events) == Parse(old(Model()), data)
    {
      readBytes, events := 0, [];
      var p := data;  // the bytes from readBytes on
      while readBytes < |data|
        invariant readBytes <= |data| && p == data[readBytes..]
        invariant Model().Valid()
        invariant After(events, Parse(Model(), p)) == Parse(old(Model()), data)
        decreases |p|, Rank(Model())
      {
        if InHeader(state) && |data| - readBytes < FieldSize(state) {
          return;
        }
        TurnStep(events, Model(), p);
        var consumed, made := LoopTurn(p);
        p := p[consumed..];
        readBytes := readBytes + consumed;
        events := events + made;
      }
    }

    /** The loop body. */
    method LoopTurn(p: seq<byte>) returns (consumed: nat, events: seq<Event>)
      requires Model().Valid() && !Stuck(Model(), p)
      modifies this
      ensures Turned(Model(), consumed, events) == Turn(old(Model()), p)
    {
      if state == None {
        state := HeaderVersion;
        return 0, [FrameBegin, HeaderBegin];
      }
      if InHeader(state) {
        consumed, events := ReadField(p);
        return;
      }
      consumed, events := ReadBody(p);
    }

    method ReadField(p: seq<byte>) returns (consumed: nat, events: seq<Event>)
      requires Model().Valid() && !Stuck(Model(), p) && InHeader(state)
      modifies this
      ensures Turned(Model(), consumed, events) == Turn(old(Model()), p)
    {
      var fieldSize := FieldSize(state);
      var stored := StoreField(Parser(state, requestBodyBytesRead, request), p[..fieldSize]);
      state, request := stored.state, stored.request;
      consumed, events := fieldSize, [];
      if state == BodyData {
        events := [HeaderEnd(request)];
      }
    }

    method ReadBody(p: seq<byte>) returns (consumed: nat, events: seq<Event>)
      requires Model().Valid() && p != [] && state == BodyData
      modifies this
      ensures Turned(Model(), consumed, events) == Turn(old(Model()), p)
    {
      consumed, events := 0, [];
      if requestBodyBytesRead < request.length {
        var len := |p|;
        if len > request.length - requestBodyBytesRead {
          len := request.length - requestBodyBytesRead;
        }
        events := [Body(p[..len])];
        consumed := len;
        requestBodyBytesRead := requestBodyBytesRead + len;
      }
      if requestBodyBytesRead == request.length {
        events := events + [BodyDataEnd, FrameEnd(request)];
        Init();
      }
    }
  }
}
