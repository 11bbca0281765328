/** From one client through the server's relay to another: who gets a datagram, and what
    comes out of it. */
module Delivery {
  import opened Bytes
  import opened Stream
  import opened MediaFrame
  import opened MediaProtocol
  import opened HonestFrames
  import opened Membership
  import opened Relay
  import opened ServerState
  import opened ClientMedia
  import R = ServerRuns
  import Client = ClientEndToEnd

  // ---------------------------------------------------------------- who gets it

  ghost predicate IsClient(s: Server, x: Receiver) {
    exists q :: q in s.clients && s.clients[q].HasEndpoint() && x == ReceiverOf(s.clients[q])
  }

  function CopyFor(c: ServerState.Client, data: seq<byte>): Packet {
    Packet(c.mediaAddress, c.mediaPort, data)
  }

  /** Nobody else has p's endpoint. */
  ghost predicate OwnEndpoint(s: Server, p: ClientId)
    requires p in s.clients
  {
    forall q :: q in s.clients && q != p && s.clients[q].HasEndpoint() ==>
      s.clients[q].mediaAddress != s.clients[p].mediaAddress || s.clients[q].mediaPort != s.clients[p].mediaPort
  }

  /** The copies written to a client's own endpoint are as many as its entries in the
      receiver list. */
  lemma {:induction false} CopiesCounted(s: Server, receivers: seq<Receiver>, p: ClientId, data: seq<byte>)
    requires ServerState.Inv(s) && p in s.clients && OwnEndpoint(s, p)
    requires forall i :: 0 <= i < |receivers| ==> IsClient(s, receivers[i])
    ensures multiset(CopyTo(receivers, data))[CopyFor(s.clients[p], data)] ==
        multiset(receivers)[ReceiverOf(s.clients[p])]
  {
    if receivers != [] {
      var n := |receivers| - 1;
      CopiesCounted(s, receivers[..n], p, data);
      var copies, copy := CopyTo(receivers[..n], data), CopyTo(receivers, data)[n];
      assert receivers == receivers[..n] + [receivers[n]];
      assert CopyTo(receivers, data) == copies + [copy];
      var q :| q in s.clients && s.clients[q].HasEndpoint() && receivers[n] == ReceiverOf(s.clients[q]);
      assert copy == CopyFor(s.clients[q], data);
      assert copy == CopyFor(s.clients[p], data) <==> q == p;
      assert receivers[n] == ReceiverOf(s.clients[p]) <==> q == p;
    }
  }

  /** A video datagram from where client c streams. */
  ghost predicate VideoFrom(s: Server, c: ClientId, x: Arrival) {
    StreamsFrom(s, c, x.address, x.port) && KindOf(Taken(x)) == VideoPart
  }

  function CopiesTo(s: Server, p: ClientId, ps: seq<Packet>, x: Arrival): nat
    requires p in s.clients
  {
    multiset(ps)[CopyFor(s.clients[p], Taken(x))]
  }

  /** At any table that routes like one just rebuilt: once if the two share a channel and p
      may be seen, once more for a direct relation, otherwise not at all; never to itself. */
  lemma CopiesExact(s: Server, table: Recipients, installed: Recipients, c: ClientId, p: ClientId, x: Arrival)
    requires ServerState.Inv(s) && Routes(s, table) && SameRoutes(installed, table)
    requires VideoFrom(s, c, x) && StreamsAlone(s, c) && p in s.clients && OwnEndpoint(s, p)
    ensures CopiesTo(s, p, Forward(installed, x), x) ==
              (if ConferenceReceiver(s, c, p) then 1 else 0) + (if DirectReceiver(s, c, p) then 1 else 0)
  {
    var receivers := Route(table, x.address, x.port);
    forall i | 0 <= i < |receivers|
      ensures IsClient(s, receivers[i])
    {
      ReceiversAreClients(s, table, x.address, x.port, i);
    }
    SameRoutesForward(installed, table, x);
    CopiesCounted(s, receivers, p, Taken(x));
    ReceiversExact(s, table, c, p);
  }

  /** p gets c's video for sharing a channel, by the visibility levels of the last rebuild:
      later levels do not count until the table is rebuilt. */
  ghost predicate ConferenceThen(b: Server, s: Server, c: ClientId, p: ClientId) {
    && c in s.clients && p in s.clients && p != c && s.clients[p].HasEndpoint()
    && ShareChannel(s.tables, c, p)
    && p in b.clients && s.clients[c].IsAllowedToSee(b.clients[p])
  }

  lemma DriftCopies(b: Server, s: Server, c: ClientId, p: ClientId, x: Arrival)
    requires R.Drifted(b, s) && VideoFrom(s, c, x) && p in b.clients
    ensures VideoFrom(b, c, x) && (StreamsAlone(s, c) ==> StreamsAlone(b, c)) &&
        (OwnEndpoint(s, p) ==> OwnEndpoint(b, p))
    ensures ConferenceReceiver(b, c, p) <==> ConferenceThen(b, s, c, p)
    ensures DirectReceiver(b, c, p) <==> DirectReceiver(s, c, p)
    ensures forall ps :: CopiesTo(b, p, ps, x) == CopiesTo(s, p, ps, x)
  {
    R.StreamsUnchanged(b, s, c, x.address, x.port);
    if StreamsAlone(s, c) {
      forall d | d != c
        ensures !StreamsFrom(b, d, b.clients[c].mediaAddress, b.clients[c].mediaPort)
      {
        R.StreamsUnchanged(b, s, d, b.clients[c].mediaAddress, b.clients[c].mediaPort);
      }
    }
  }

  lemma NoCopy(s: Server, receivers: seq<Receiver>, p: Packet)
    requires p.address.None? || p.port == 0
    requires forall i :: 0 <= i < |receivers| ==> IsClient(s, receivers[i])
    ensures multiset(CopyTo(receivers, p.data))[p] == 0
  {
    forall i | 0 <= i < |receivers|
      ensures CopyTo(receivers, p.data)[i] != p
    {
      assert IsClient(s, receivers[i]);
    }
    assert p !in CopyTo(receivers, p.data);
  }

  /** A client who came after the last rebuild has no endpoint, and gets nothing. */
  lemma NewcomerGetsNothing(b: Server, s: Server, table: Recipients, installed: Recipients, p: ClientId, x: Arrival)
    requires ServerState.Inv(b) && Routes(b, table) && SameRoutes(installed, table) && R.Drifted(b, s)
    requires p in s.clients && p !in b.clients && KindOf(Taken(x)) == VideoPart
    ensures CopiesTo(s, p, Forward(installed, x), x) == 0
  {
    var receivers := Route(table, x.address, x.port);
    forall i | 0 <= i < |receivers|
      ensures IsClient(b, receivers[i])
    {
      ReceiversAreClients(b, table, x.address, x.port, i);
    }
    NoCopy(b, receivers, CopyFor(s.clients[p], Taken(x)));
  }

  /** Over every run, with the table the relay has then: a video datagram of a streaming
      client is written to another client's endpoint once for a shared channel, by the
      visibility of the last rebuild, and once more for a direct relation. */
  lemma VideoReachesExactly(text: R.Text, h: R.History, c: ClientId, p: ClientId, x: Arrival)
    requires R.Possible(text, h)
    requires var s := R.RunOf(text, h).server;
      VideoFrom(s, c, x) && StreamsAlone(s, c) && p in s.clients && OwnEndpoint(s, p)
    ensures var s := R.RunOf(text, h).server;
      CopiesTo(s, p, Forward(R.RunOf(text, h).installed, x), x) ==
        (if ConferenceThen(R.BaseOf(text, h), s, c, p) then 1 else 0) + (if DirectReceiver(s, c, p) then 1 else 0)
  {
    var l, b, table := R.RunOf(text, h), R.BaseOf(text, h), R.TableOf(text, h);
    R.RoutesOfLastRebuild(text, h);
    R.DriftedSinceRebuild(text, h);
    R.BaseInv(text, h);
    if p in b.clients {
      DriftCopies(b, l.server, c, p, x);
      CopiesExact(b, table, l.installed, c, p, x);
    } else {
      NewcomerGetsNothing(b, l.server, table, l.installed, p, x);
    }
  }

  /** So the copies are those the present tables ask for if and only if p was not hidden
      from, or shown to, the streaming client since the last rebuild. */
  lemma VideoReachesNow(text: R.Text, h: R.History, c: ClientId, p: ClientId, x: Arrival)
    requires R.Possible(text, h)
    requires var s := R.RunOf(text, h).server;
      VideoFrom(s, c, x) && StreamsAlone(s, c) && p in s.clients && OwnEndpoint(s, p)
    ensures var s := R.RunOf(text, h).server;
      CopiesTo(s, p, Forward(R.RunOf(text, h).installed, x), x) ==
        (if ConferenceReceiver(s, c, p) then 1 else 0) + (if DirectReceiver(s, c, p) then 1 else 0)
      <==> !R.SeesDifferently(R.BaseOf(text, h), s, c, p)
  {
    VideoReachesExactly(text, h, c, p, x);
    R.DriftedSinceRebuild(text, h);
  }

  /** After a client left the only channel it shared with a streaming client, it gets none of
      that client's video, unless they are related directly. */
  lemma LeftGetsNothing(text: R.Text, h: R.History, c: ClientId, p: ClientId, ch: ChannelId, x: Arrival)
    requires R.Possible(text, h) && h.Then? && h.e.Request? && h.e.r == Left(p, ch)
    requires var s := R.RunOf(text, h.prev).server;
      && VideoFrom(s, c, x) && StreamsAlone(s, c) && p in s.clients && OwnEndpoint(s, p) && c != p
      && (forall y :: Member(s.tables, c, y) && Member(s.tables, p, y) ==> y == ch)
      && !Related(s, c, p)
    ensures CopiesTo(R.RunOf(text, h).server, p, Forward(R.RunOf(text, h).installed, x), x) == 0
  {
    var s, t := R.RunOf(text, h.prev).server, R.RunOf(text, h).server;
    R.InvAlways(text, h.prev);
    LeaveRequestKeepsInv(s.tables, p, ch);
    TablesOnly(s, t, c, p, x);
    VideoReachesExactly(text, h, c, p, x);
  }

  /** After a client was let into a channel where another one streams that may see it, it gets
      that client's video. */
  lemma JoinedGetsVideo(text: R.Text, h: R.History, c: ClientId, p: ClientId, id: int, ident: string, ch: ChannelId,
                        x: Arrival)
    requires R.Possible(text, h) && h.Then? && h.e.Request? && h.e.r == Joined(p, id, ident, true)
    requires var s := R.RunOf(text, h.prev).server;
      && VideoFrom(s, c, x) && StreamsAlone(s, c) && p in s.clients && OwnEndpoint(s, p) && c != p
      && s.clients[p].HasEndpoint() && s.clients[c].IsAllowedToSee(s.clients[p])
      && JoinAdds(s.tables, id, ident, true, ch) && Member(s.tables, c, ch)
    ensures CopiesTo(R.RunOf(text, h).server, p, Forward(R.RunOf(text, h).installed, x), x) >= 1
  {
    var s, t := R.RunOf(text, h.prev).server, R.RunOf(text, h).server;
    R.InvAlways(text, h.prev);
    JoinRequestKeepsInv(s.tables, p, id, ident, true);
    TablesOnly(s, t, c, p, x);
    assert Member(t.tables, c, ch) && Member(t.tables, p, ch);
    assert R.EndsInRebuild(text, h);
    VideoReachesExactly(text, h, c, p, x);
  }

  /** Membership does not touch who streams from where. */
  lemma TablesOnly(s: Server, t: Server, c: ClientId, p: ClientId, x: Arrival)
    requires t == s.(tables := t.tables) && VideoFrom(s, c, x) && StreamsAlone(s, c)
    requires p in s.clients && OwnEndpoint(s, p)
    ensures VideoFrom(t, c, x) && StreamsAlone(t, c) && OwnEndpoint(t, p)
  {
    forall d | d != c
      ensures !StreamsFrom(t, d, t.clients[c].mediaAddress, t.clients[c].mediaPort)
    {
      assert !StreamsFrom(s, d, s.clients[c].mediaAddress, s.clients[c].mediaPort);
    }
  }

  /** Over every run a client's request for a key frame is forwarded, unchanged, to the one
      client it names, if that one streams; and to nobody otherwise. */
  lemma RecoveryReachesSender(text: R.Text, h: R.History, sender: i32, frameId: u64, a: Address, port: u16)
    requires R.Possible(text, h)
    ensures var s := R.RunOf(text, h).server;
      var wire := RecoveryDatagram(sender, frameId);
      Forward(R.RunOf(text, h).installed, Arrival(wire, a, port)) ==
        if sender >= 0 && sender in s.clients && s.clients[sender].Streams() then [CopyFor(s.clients[sender], wire)]
        else []
  {
    var l, b := R.RunOf(text, h), R.BaseOf(text, h);
    R.RoutesOfLastRebuild(text, h);
    R.DriftedSinceRebuild(text, h);
    RecoveryIsRead(sender, frameId);
    assert ReceiverById(l.installed, sender) == ReceiverById(R.TableOf(text, h), sender);
  }

  lemma RecoveryIsRead(sender: i32, frameId: u64)
    ensures |RecoveryDatagram(sender, frameId)| <= READ_BUFFER
    ensures KindOf(RecoveryDatagram(sender, frameId)).Recovery?
    ensures ToSigned(Read32(KindOf(RecoveryDatagram(sender, frameId)).rest).value) == sender
  {
    var t2 := Write64(frameId) + Write16(0);
    var t1 := Write32(ToUnsigned(sender)) + t2;
    ReadBack8(MAGIC, Write8(TYPE_RECOVERY) + t1);
    ReadBack8(TYPE_RECOVERY, t1);
    ReadBack32(ToUnsigned(sender), t2);
  }

  // ---------------------------------------------------------------- what comes out

  lemma SentFits(w: Client.World, raw: seq<byte>)
    requires Client.SendableWorld(w) && Client.OnWire(w, raw)
    ensures |raw| <= 512
  {
    var s, d :| Client.SentBy(w, s, d) && raw == Encode(d);
    var data := Serialize(w[s][d.frameId]);
    var parts := SentParts(VideoMedia, s, w[s])[d.frameId];
    var i :| 0 <= i < |parts| && parts[i] == d;
    PartFitsDatagram(VideoMedia, s, d.frameId, data, i);
  }

  /** The relay writes nothing but what arrived, and only video parts and recovery requests. */
  lemma ForwardUnchanged(r: Recipients, x: Arrival, i: nat)
    requires i < |Forward(r, x)|
    ensures Forward(r, x)[i].data == Taken(x)
    ensures KindOf(Taken(x)) == VideoPart || KindOf(Taken(x)).Recovery?
  {}

  /** A datagram that is a video part was sent by somebody; anything else may be anything. */
  ghost predicate HonestVideo(w: Client.World, raw: seq<byte>)
    requires Client.SendableWorld(w)
  {
    Client.OnWire(w, raw) || Client.NoVideo(raw)
  }

  lemma KindsAgree(raw: seq<byte>)
    requires KindOf(raw).Recovery?
    ensures Client.NoVideo(raw)
  {}

  lemma RelayedHonest(r: Recipients, x: Arrival, w: Client.World, i: nat)
    requires Client.SendableWorld(w) && i < |Forward(r, x)|
    requires KindOf(Taken(x)) == VideoPart ==> Client.OnWire(w, x.data)
    ensures HonestVideo(w, Forward(r, x)[i].data)
  {
    ForwardUnchanged(r, x, i);
    if KindOf(Taken(x)) == VideoPart {
      SentFits(w, x.data);
    } else {
      KindsAgree(Taken(x));
    }
  }

  /** Video parts reach the server as their senders wrote them; in between, clients come and
      go, tables are rebuilt, and anything else may arrive. */
  ghost predicate HonestArrivals(h: R.History, w: Client.World)
    requires Client.SendableWorld(w)
  {
    match h
    case Start => true
    case Then(prev, e) =>
      && HonestArrivals(prev, w)
      && (e.Datagram? && KindOf(Taken(e.x)) == VideoPart ==> Client.OnWire(w, e.x.data))
  }

  lemma {:induction false} WrittenHonest(text: R.Text, h: R.History, w: Client.World)
    requires Client.SendableWorld(w) && R.Possible(text, h) && HonestArrivals(h, w)
    ensures forall i :: 0 <= i < |R.RunOf(text, h).sent| ==> HonestVideo(w, R.RunOf(text, h).sent[i].data)
  {
    if h.Then? {
      WrittenHonest(text, h.prev, w);
      if h.e.Datagram? {
        var l := R.RunOf(text, h.prev);
        forall i | 0 <= i < |Forward(l.installed, h.e.x)|
          ensures HonestVideo(w, Forward(l.installed, h.e.x)[i].data)
        {
          RelayedHonest(l.installed, h.e.x, w, i);
        }
      }
    }
  }

  /** The client receives only what the server wrote, in any order, any number of times. */
  ghost predicate FromServer(h: Client.History, written: seq<Packet>) {
    match h
    case Start => true
    case Then(prev, e) =>
      && FromServer(prev, written)
      && (e.Receive? ==> exists i :: 0 <= i < |written| && written[i].data == e.raw)
  }

  lemma {:induction false} ServerIsChannel(h: Client.History, written: seq<Packet>, w: Client.World)
    requires Client.SendableWorld(w) && FromServer(h, written)
    requires forall i :: 0 <= i < |written| ==> HonestVideo(w, written[i].data)
    ensures Client.FromChannel(h, w)
  {
    if h.Then? {
      ServerIsChannel(h.prev, written, w);
    }
  }

  /** Client to server to client, both hops lossy, over any run of the server: every frame a
      client passes on is one that the named sender transmitted. */
  lemma ThroughTheServer(h: Client.History, text: R.Text, g: R.History, w: Client.World)
    requires Client.SendableWorld(w) && R.Possible(text, g) && HonestArrivals(g, w)
    requires FromServer(h, R.RunOf(text, g).sent)
    ensures Client.Runnable(h) && Client.Genuine(Client.RunOf(h).out, w)
  {
    WrittenHonest(text, g, w);
    ServerIsChannel(h, R.RunOf(text, g).sent, w);
    Client.ClientEndToEndSafety(h, w);
  }
}
