/** Whole runs of the server: the requests of its clients and the datagrams it reads, with
    the routing table rebuilt where, and only where, the program rebuilds it. */
module ServerRuns {
  import opened Histories
  import opened Wrappers
  import opened Bytes
  import opened Membership
  import opened Relay
  import S = ServerState

  /** QString::fromUtf8 */
  type Text = seq<byte> -> string

  /** The server, the relay's table with the default entries inserted so far, and what the
      relay wrote. */
  datatype Live = Live(server: S.Server, installed: Recipients, sent: seq<Packet>, bytesRead: nat, bytesWritten: nat)

  const INIT := Live(S.INIT, NO_RECIPIENTS, [], 0, 0)

  /** A request that was handled or a datagram that was read; table is what a rebuild, if
      the event causes one, makes of the server's tables. */
  datatype Event = Request(r: S.Event, table: Recipients) | Datagram(x: Arrival, table: Recipients)

  /** The step of the server that an event causes: a datagram may announce a token. */
  ghost function Effect(text: Text, e: Event): Option<S.Event> {
    match e
    case Request(r, _) => Some(r)
    case Datagram(x, _) =>
      match Announce(x)
      case Some(t) => Some(S.TokenUsed(text(t.bytes), t.address, t.port))
      case None => None
  }

  ghost predicate Enabled(text: Text, s: S.Server, e: Event) {
    match e
    case Request(r, _) => !r.TokenUsed? && S.Enabled(s, r)
    case Datagram(_, _) => true
  }

  ghost function ServerAfter(text: Text, s: S.Server, e: Event): S.Server
    requires Enabled(text, s, e)
  {
    match Effect(text, e) case Some(r) => S.Step(s, r) case None => s
  }

  ghost predicate Rebuilds(text: Text, s: S.Server, e: Event) {
    Effect(text, e).Some? && S.Rebuilds(s, Effect(text, e).value)
  }

  /** One event. A token is accepted inside the read loop, so the next datagram already goes
      by the new table. */
  ghost function Step(text: Text, l: Live, e: Event): Live
    requires Enabled(text, l.server, e)
  {
    var s := ServerAfter(text, l.server, e);
    var rebuilt := Rebuilds(text, l.server, e);
    match e
    case Request(_, table) => l.(server := s, installed := if rebuilt then table else l.installed)
    case Datagram(x, table) =>
      Live(s, if rebuilt then table else Touched(l.installed, x),
           l.sent + Forward(l.installed, x),
           l.bytesRead + |Taken(x)|,
           l.bytesWritten + PacketBytes(Forward(l.installed, x)))
  }

  /** What one datagram does, spelled out. */
  lemma DatagramStep(text: Text, l: Live, x: Arrival, table: Recipients)
    ensures var e := Datagram(x, table);
      var after := Step(text, l, e);
      && after.sent == l.sent + Forward(l.installed, x)
      && after.bytesRead == l.bytesRead + |Taken(x)|
      && after.bytesWritten == l.bytesWritten + PacketBytes(Forward(l.installed, x))
      && match Announce(x)
         case None => after.server == l.server && after.installed == Touched(l.installed, x) &&
             !Rebuilds(text, l.server, e)
         case Some(t) =>
           var name := text(t.bytes);
           && after.server == S.UseToken(l.server, name, t.address, t.port) == ServerAfter(text, l.server, e)
           && (Rebuilds(text, l.server, e) <==> name in l.server.tokens && l.server.tokens[name] in l.server.clients)
           && after.installed == (if Rebuilds(text, l.server, e) then table else l.installed)
  {}

  /** A rebuild yields some table that meets the relational specification. */
  ghost predicate Rebuilt(text: Text, s: S.Server, e: Event)
    requires Enabled(text, s, e)
  {
    Rebuilds(text, s, e) ==> S.Routes(ServerAfter(text, s, e), e.table)
  }

  type History = Trace<Event>

  ghost predicate Possible(text: Text, h: History)
    decreases h, 0
  {
    h.Start? || (
      && Possible(text, h.prev)
      && Enabled(text, RunOf(text, h.prev).server, h.e)
      && Rebuilt(text, RunOf(text, h.prev).server, h.e))
  }

  ghost function RunOf(text: Text, h: History): Live
    requires Possible(text, h)
    decreases h, 1
  {
    if h.Start? then INIT else Step(text, RunOf(text, h.prev), h.e)
  }

  /** The last event rebuilt the table. */
  ghost predicate EndsInRebuild(text: Text, h: History)
    requires Possible(text, h)
  {
    h.Then? && Rebuilds(text, RunOf(text, h.prev).server, h.e)
  }

  /** The server when the table was last rebuilt. */
  ghost function BaseOf(text: Text, h: History): S.Server
    requires Possible(text, h)
  {
    if h.Start? then S.INIT
    else if EndsInRebuild(text, h) then RunOf(text, h).server
    else BaseOf(text, h.prev)
  }

  /** The table that was last handed to the relay. */
  ghost function TableOf(text: Text, h: History): Recipients
    requires Possible(text, h)
  {
    if h.Start? then NO_RECIPIENTS
    else if EndsInRebuild(text, h) then h.e.table
    else TableOf(text, h.prev)
  }

  // ---------------------------------------------------------------- the server's part

  /** The run seen from the server's tables alone. */
  ghost function Requests(text: Text, h: History): S.History {
    match h
    case Start => Start
    case Then(prev, e) =>
      match Effect(text, e)
      case Some(r) => Then(Requests(text, prev), r)
      case None => Requests(text, prev)
  }

  lemma {:induction false} RequestsMatch(text: Text, h: History)
    requires Possible(text, h)
    ensures S.Possible(Requests(text, h))
    ensures RunOf(text, h).server == S.RunOf(Requests(text, h))
  {
    if h.Then? {
      RequestsMatch(text, h.prev);
    }
  }

  lemma InvAlways(text: Text, h: History)
    requires Possible(text, h)
    ensures S.Inv(RunOf(text, h).server)
  {
    RequestsMatch(text, h);
    S.ServerInvariant(Requests(text, h));
  }

  lemma {:induction false} BaseInv(text: Text, h: History)
    requires Possible(text, h)
    ensures S.Inv(BaseOf(text, h))
  {
    InvAlways(text, h);
    if h.Then? {
      BaseInv(text, h.prev);
    }
  }

  // ---------------------------------------------------------------- the table's part

  lemma EmptyRoutes()
    ensures S.Routes(S.INIT, NO_RECIPIENTS)
  {}

  lemma StepRoutesAlike(text: Text, l: Live, e: Event)
    requires Enabled(text, l.server, e)
    ensures SameRoutes(Step(text, l, e).installed, if Rebuilds(text, l.server, e) then e.table else l.installed)
  {
    if e.Datagram? {
      TouchedSameRoutes(l.installed, e.x);
    }
  }

  /** Over every run the relay routes exactly as the table of the last rebuild says, and that
      table meets the specification for the server as it was then. */
  lemma {:induction false} RoutesOfLastRebuild(text: Text, h: History)
    requires Possible(text, h)
    ensures S.Routes(BaseOf(text, h), TableOf(text, h))
    ensures SameRoutes(RunOf(text, h).installed, TableOf(text, h))
  {
    match h
    case Start => EmptyRoutes();
    case Then(prev, e) =>
      RoutesOfLastRebuild(text, prev);
      StepRoutesAlike(text, RunOf(text, prev), e);
      if !EndsInRebuild(text, h) {
        SameRoutesTransitive(RunOf(text, h).installed, RunOf(text, prev).installed, TableOf(text, prev));
      }
  }

  /** No event since base rebuilt the table; of datagrams, none announced a token that a
      connected client waits for. */
  ghost predicate NoRebuildSince(text: Text, h: History, base: History)
    requires Possible(text, h) && Extends(h, base)
  {
    h == base || (NoRebuildSince(text, h.prev, base) && !EndsInRebuild(text, h))
  }

  /** The routes stay the same from one rebuild to the next, whatever datagrams arrive... */
  lemma {:induction false} RoutesKeptBetweenRebuilds(text: Text, h: History, base: History)
    requires Possible(text, h) && Extends(h, base) && Possible(text, base) && NoRebuildSince(text, h, base)
    ensures SameRoutes(RunOf(text, h).installed, RunOf(text, base).installed)
  {
    if h != base {
      RoutesKeptBetweenRebuilds(text, h.prev, base);
      StepRoutesAlike(text, RunOf(text, h.prev), h.e);
      SameRoutesTransitive(RunOf(text, h).installed, RunOf(text, h.prev).installed, RunOf(text, base).installed);
    }
  }

  /** ...and a datagram with an accepted token changes them before the next datagram is
      read: from then on they are the routes of the server with the client's endpoint. */
  lemma TokenTakesEffectAtOnce(text: Text, h: History)
    requires Possible(text, h) && h.Then? && h.e.Datagram? && Announce(h.e.x).Some?
    ensures var s := RunOf(text, h.prev).server;
      var token := Announce(h.e.x).value;
      var name := text(token.bytes);
      && (EndsInRebuild(text, h) <==> name in s.tokens && s.tokens[name] in s.clients)
      && (EndsInRebuild(text, h) ==>
            && S.Routes(RunOf(text, h).server, RunOf(text, h).installed)
            && RunOf(text, h).server == S.UseToken(s, name, h.e.x.address, h.e.x.port))
  {}

  // ---------------------------------------------------------------- packets and bytes

  /** What the relay should have written: each datagram by the table last handed to it. */
  ghost function Written(text: Text, h: History): seq<Packet>
    requires Possible(text, h)
  {
    if h.Start? then []
    else Written(text, h.prev) + (if h.e.Datagram? then Forward(TableOf(text, h.prev), h.e.x) else [])
  }

  ghost function Cost(text: Text, h: History): nat
    requires Possible(text, h)
  {
    if h.Start? then 0
    else Cost(text, h.prev) + (if h.e.Datagram? then CopyCost(TableOf(text, h.prev), h.e.x) else 0)
  }

  ghost function Received(h: History): nat {
    match h
    case Start => 0
    case Then(prev, e) => Received(prev) + (if e.Datagram? then |Taken(e.x)| else 0)
  }

  /** Over every run, tokens accepted in between included: exactly the packets of the table
      in force were written, in order; the bytes written are the sum of length times fan-out
      over the video parts plus the forwarded recovery requests; every byte is counted. */
  lemma {:induction false} ByteConservation(text: Text, h: History)
    requires Possible(text, h)
    ensures RunOf(text, h).sent == Written(text, h)
    ensures RunOf(text, h).bytesWritten == PacketBytes(RunOf(text, h).sent) == Cost(text, h)
    ensures RunOf(text, h).bytesRead == Received(h)
  {
    if h.Then? {
      ByteConservation(text, h.prev);
      var l := RunOf(text, h.prev);
      if h.e.Datagram? {
        RoutesOfLastRebuild(text, h.prev);
        SameRoutesForward(l.installed, TableOf(text, h.prev), h.e.x);
        PacketBytesAppend(l.sent, Forward(l.installed, h.e.x));
        ForwardCost(TableOf(text, h.prev), h.e.x);
      }
    }
  }

  // ---------------------------------------------------------------- one read loop

  /** The arrivals xs one after the other, tables[i] being the result of a rebuild at xs[i]. */
  ghost function Arrive(text: Text, l: Live, xs: seq<Arrival>, tables: seq<Recipients>): Live
    requires |tables| == |xs|
  {
    if xs == [] then l
    else
      var n := |xs| - 1;
      Step(text, Arrive(text, l, xs[..n], tables[..n]), Datagram(xs[n], tables[n]))
  }

  ghost predicate AllRebuilt(text: Text, l: Live, xs: seq<Arrival>, tables: seq<Recipients>)
    requires |tables| == |xs|
  {
    xs == [] || (
      var n := |xs| - 1;
      && AllRebuilt(text, l, xs[..n], tables[..n])
      && Rebuilt(text, Arrive(text, l, xs[..n], tables[..n]).server, Datagram(xs[n], tables[n])))
  }

  ghost function Continued(h: History, xs: seq<Arrival>, tables: seq<Recipients>): History
    requires |tables| == |xs|
  {
    if xs == [] then h
    else
      var n := |xs| - 1;
      Then(Continued(h, xs[..n], tables[..n]), Datagram(xs[n], tables[n]))
  }

  /** A read loop continues the run of the server, so all that holds over runs holds in it. */
  lemma {:induction false} ReadLoopContinuesRun(text: Text, h: History, xs: seq<Arrival>, tables: seq<Recipients>)
    requires Possible(text, h) && |tables| == |xs| && AllRebuilt(text, RunOf(text, h), xs, tables)
    ensures Possible(text, Continued(h, xs, tables)) && Extends(Continued(h, xs, tables), h)
    ensures RunOf(text, Continued(h, xs, tables)) == Arrive(text, RunOf(text, h), xs, tables)
  {
    if xs != [] {
      ReadLoopContinuesRun(text, h, xs[..|xs| - 1], tables[..|xs| - 1]);
    }
  }

  lemma OneMoreArrival(text: Text, l: Live, xs: seq<Arrival>, i: nat, tables: seq<Recipients>, table: Recipients)
    requires i < |xs| && |tables| == i && AllRebuilt(text, l, xs[..i], tables)
    requires Rebuilt(text, Arrive(text, l, xs[..i], tables).server, Datagram(xs[i], table))
    ensures AllRebuilt(text, l, xs[..i + 1], tables + [table])
    ensures Arrive(text, l, xs[..i + 1], tables + [table]) ==
        Step(text, Arrive(text, l, xs[..i], tables), Datagram(xs[i], table))
  {
    assert xs[..i + 1][..i] == xs[..i] && (tables + [table])[..i] == tables;
  }

  // ---------------------------------------------------------------- what changed since

  /** Since the last rebuild nothing changed that the routes depend on, but for visibility
      levels; clients who came since have no endpoint. */
  ghost predicate Drifted(b: S.Server, s: S.Server) {
    && s.tables == b.tables && s.sender2receiver == b.sender2receiver
    && b.clients.Keys <= s.clients.Keys
    && (forall c :: c in b.clients ==> s.clients[c] == b.clients[c].(visibilityLevel := s.clients[c].visibilityLevel))
    && (forall c :: c in s.clients && c !in b.clients ==> !s.clients[c].HasEndpoint())
  }

  lemma QuietStepDrifts(b: S.Server, s: S.Server, e: S.Event)
    requires S.Inv(s) && S.Enabled(s, e) && !S.Rebuilds(s, e) && Drifted(b, s)
    ensures Drifted(b, S.Step(s, e))
  {}

  lemma {:induction false} DriftedSinceRebuild(text: Text, h: History)
    requires Possible(text, h)
    ensures Drifted(BaseOf(text, h), RunOf(text, h).server)
  {
    if h.Then? && !EndsInRebuild(text, h) {
      DriftedSinceRebuild(text, h.prev);
      InvAlways(text, h.prev);
      if Effect(text, h.e).Some? {
        QuietStepDrifts(BaseOf(text, h), RunOf(text, h.prev).server, Effect(text, h.e).value);
      }
    }
  }

  /** A client that is not connected is in no routing table, neither as sender nor as
      receiver, from its disconnect on and for ever. */
  lemma GoneFromRoutes(text: Text, h: History, base: History, c: ClientId)
    requires Possible(text, h) && Extends(h, base) && Possible(text, base)
    requires c !in RunOf(text, base).server.clients && c <= RunOf(text, base).server.nextClientId
    ensures var installed := RunOf(text, h).installed;
      && c !in RunOf(text, h).server.clients
      && ReceiverById(installed, c) == NO_RECEIVER
      && forall a, port, i :: 0 <= i < |Route(installed, a, port)| ==> Route(installed, a, port)[i].clientId != c
  {
    StaysGone(text, h, base, c);
    RoutesOfLastRebuild(text, h);
    DriftedSinceRebuild(text, h);
    BaseInv(text, h);
    var b, table := BaseOf(text, h), TableOf(text, h);
    S.UnknownIsAbsent(b, c);
    S.AbsentFromRoutes(b, table, c);
  }

  lemma {:induction false} StaysGone(text: Text, h: History, base: History, c: ClientId)
    requires Possible(text, h) && Extends(h, base) && Possible(text, base)
    requires c !in RunOf(text, base).server.clients && c <= RunOf(text, base).server.nextClientId
    ensures c !in RunOf(text, h).server.clients && c <= RunOf(text, h).server.nextClientId
  {
    if h != base {
      StaysGone(text, h.prev, base, c);
      if Effect(text, h.e).Some? {
        S.StepKeepsGone(RunOf(text, h.prev).server, Effect(text, h.e).value, c);
      }
    }
  }

  // ---------------------------------------------------------------- visibility

  /** The relay routes as a rebuild would let it. */
  ghost predicate Current(s: S.Server, installed: Recipients) {
    exists table :: S.Routes(s, table) && SameRoutes(installed, table)
  }

  /** The routes of the installed table, as ReceiversExact says for a table just rebuilt. */
  lemma CurrentReceivers(s: S.Server, installed: Recipients, c: ClientId, p: ClientId)
    requires S.Inv(s) && Current(s, installed)
    requires c in s.clients && s.clients[c].Streams() && S.StreamsAlone(s, c) && p in s.clients
    ensures multiset(Route(installed, s.clients[c].mediaAddress, s.clients[c].mediaPort))[S.ReceiverOf(s.clients[p])] ==
              (if S.ConferenceReceiver(s, c, p) then 1 else 0) + (if S.DirectReceiver(s, c, p) then 1 else 0)
  {
    var table :| S.Routes(s, table) && SameRoutes(installed, table);
    S.ReceiversExact(s, table, c, p);
  }

  /** Between b and s client p was hidden from d, or shown, although d streams to a channel
      of theirs. */
  ghost predicate SeesDifferently(b: S.Server, s: S.Server, d: ClientId, p: ClientId) {
    && d in b.clients && p in b.clients && p in s.clients && d != p
    && b.clients[d].Streams() && b.clients[p].HasEndpoint() && S.ShareChannel(b.tables, d, p)
    && !(b.clients[d].IsAllowedToSee(b.clients[p]) <==> b.clients[d].IsAllowedToSee(s.clients[p]))
  }

  lemma SiblingUnchanged(b: S.Server, s: S.Server, c: ClientId, q: ClientId)
    requires S.Inv(b) && S.Inv(s) && Drifted(b, s)
    requires c in b.clients && b.clients[c].Streams() && q in b.clients && b.clients[q].HasEndpoint() && q != c
    requires !SeesDifferently(b, s, c, q)
    ensures q in S.Siblings(s, c, true) <==> q in S.Siblings(b, c, true)
  {
    S.SiblingsShareChannel(b, c, q);
    S.SiblingsShareChannel(s, c, q);
  }

  lemma AmongUnchanged(b: S.Server, s: S.Server, c: ClientId, before: set<ClientId>, after: set<ClientId>)
    requires Drifted(b, s)
    requires forall q :: q in b.clients && b.clients[q].HasEndpoint() && q != c ==> (q in before <==> q in after)
    ensures S.ReceiversAmong(s, c, after) == S.ReceiversAmong(b, c, before)
  {
    assert forall q :: q in b.clients ==> S.ReceiverOf(s.clients[q]) == S.ReceiverOf(b.clients[q]);
    assert forall q :: q in b.clients ==> s.clients[q].HasEndpoint() == b.clients[q].HasEndpoint();
  }

  lemma SenderUnchanged(b: S.Server, s: S.Server, c: ClientId, x: Sender)
    requires S.Inv(b) && S.Inv(s) && Drifted(b, s) && c in b.clients && b.clients[c].Streams()
    requires forall q :: !SeesDifferently(b, s, c, q)
    ensures S.SenderFor(s, c, x) <==> S.SenderFor(b, c, x)
  {
    forall q | q in b.clients && b.clients[q].HasEndpoint() && q != c
      ensures q in S.Siblings(b, c, true) <==> q in S.Siblings(s, c, true)
    {
      SiblingUnchanged(b, s, c, q);
    }
    AmongUnchanged(b, s, c, S.Siblings(b, c, true), S.Siblings(s, c, true));
    AmongUnchanged(b, s, c, Get(b.sender2receiver, c), Get(s.sender2receiver, c));
  }

  lemma StreamsUnchanged(b: S.Server, s: S.Server, c: ClientId, a: Address, port: u16)
    requires Drifted(b, s)
    ensures S.StreamsFrom(s, c, a, port) <==> S.StreamsFrom(b, c, a, port)
  {}

  lemma SenderKept(b: S.Server, s: S.Server, a: Address, port: u16, x: Sender)
    requires S.Inv(b) && S.Inv(s) && Drifted(b, s) && S.Justified(b, b.clients.Keys, a, port, x)
    requires forall d, p :: !SeesDifferently(b, s, d, p)
    ensures S.Justified(s, s.clients.Keys, a, port, x)
  {
    var c :| c in b.clients && S.StreamsFrom(b, c, a, port) && S.SenderFor(b, c, x);
    SenderUnchanged(b, s, c, x);
    StreamsUnchanged(b, s, c, a, port);
    assert c in s.clients.Keys;
  }

  lemma ListedKept(b: S.Server, s: S.Server, table: Recipients)
    requires Drifted(b, s) && S.AllListed(b, b.clients.Keys, table)
    ensures S.AllListed(s, s.clients.Keys, table)
  {
    assert forall c :: c in s.clients && s.clients[c].Streams() ==> c in b.clients && b.clients[c].Streams();
  }

  lemma RoutesKept(b: S.Server, s: S.Server, table: Recipients)
    requires S.Inv(b) && S.Inv(s) && Drifted(b, s) && S.Routes(b, table)
    requires forall d, p :: !SeesDifferently(b, s, d, p)
    ensures S.Routes(s, table)
  {
    ListedKept(b, s, table);
    forall a, port | SenderAt(table, a, port).Some?
      ensures S.Justified(s, s.clients.Keys, a, port, SenderAt(table, a, port).value)
    {
      SenderKept(b, s, a, port, SenderAt(table, a, port).value);
    }
    assert S.AllJustified(s, s.clients.Keys, table);
  }

  lemma StaysAlone(b: S.Server, s: S.Server, d: ClientId)
    requires Drifted(b, s) && d in b.clients && S.StreamsAlone(b, d)
    ensures S.StreamsAlone(s, d)
  {
    forall c | c != d
      ensures !S.StreamsFrom(s, c, b.clients[d].mediaAddress, b.clients[d].mediaPort)
    {
      StreamsUnchanged(b, s, c, b.clients[d].mediaAddress, b.clients[d].mediaPort);
    }
  }

  ghost predicate NobodyHiddenOrShown(b: S.Server, s: S.Server) {
    forall d, p :: !SeesDifferently(b, s, d, p)
  }

  lemma EntryDiffers(b: S.Server, s: S.Server, d: ClientId, p: ClientId)
    requires Drifted(b, s) && SeesDifferently(b, s, d, p)
    ensures S.ConferenceReceiver(s, d, p) != S.ConferenceReceiver(b, d, p)
    ensures S.DirectReceiver(s, d, p) == S.DirectReceiver(b, d, p)
    ensures s.clients[d].Streams() && S.ReceiverOf(s.clients[p]) == S.ReceiverOf(b.clients[p])
    ensures s.clients[d].mediaAddress == b.clients[d].mediaAddress && s.clients[d].mediaPort == b.clients[d].mediaPort
  {}

  lemma RoutesStale(b: S.Server, s: S.Server, installed: Recipients, d: ClientId, p: ClientId)
    requires S.Inv(b) && S.Inv(s) && Drifted(b, s) && Current(b, installed)
    requires SeesDifferently(b, s, d, p) && S.StreamsAlone(b, d)
    ensures !Current(s, installed)
  {
    CurrentReceivers(b, installed, d, p);
    EntryDiffers(b, s, d, p);
    if Current(s, installed) {
      StaysAlone(b, s, d);
      CurrentReceivers(s, installed, d, p);
      assert false;
    }
  }

  /** The relay's table stays right, while nothing is rebuilt, if and only if nobody was
      hidden from or shown to a client who streams to a channel of theirs. */
  lemma DriftExact(b: S.Server, s: S.Server, installed: Recipients)
    requires S.Inv(b) && S.Inv(s) && Drifted(b, s) && Current(b, installed)
    requires forall d, p :: SeesDifferently(b, s, d, p) ==> S.StreamsAlone(b, d)
    ensures Current(s, installed) <==> NobodyHiddenOrShown(b, s)
  {
    if d, p :| SeesDifferently(b, s, d, p) {
      RoutesStale(b, s, installed, d, p);
    } else {
      var table :| S.Routes(b, table) && SameRoutes(installed, table);
      RoutesKept(b, s, table);
    }
  }

  lemma BaseCurrent(text: Text, h: History)
    requires Possible(text, h)
    ensures S.Inv(BaseOf(text, h)) && S.Inv(RunOf(text, h).server)
    ensures Current(BaseOf(text, h), RunOf(text, h).installed)
  {
    InvAlways(text, h);
    BaseInv(text, h);
    RoutesOfLastRebuild(text, h);
  }

  /** Over every run: what the relay does now is what a rebuild now would make it do if and
      only if no visibility level set since the last rebuild hides a client from, or shows it
      to, somebody who streams to a channel of theirs. */
  lemma CurrentOverRuns(text: Text, h: History)
    requires Possible(text, h)
    requires forall d, p :: SeesDifferently(BaseOf(text, h), RunOf(text, h).server, d, p) ==>
               S.StreamsAlone(BaseOf(text, h), d)
    ensures Current(RunOf(text, h).server, RunOf(text, h).installed) <==>
              NobodyHiddenOrShown(BaseOf(text, h), RunOf(text, h).server)
  {
    BaseCurrent(text, h);
    DriftedSinceRebuild(text, h);
    DriftExact(BaseOf(text, h), RunOf(text, h).server, RunOf(text, h).installed);
  }

  /** Somebody else streams to a channel of p. */
  ghost predicate Watches(s: S.Server, d: ClientId, p: ClientId) {
    d in s.clients && s.clients[d].Streams() && d != p && S.ShareChannel(s.tables, d, p)
  }

  /** Client d may see p at the new level exactly if it might at the old one. */
  ghost predicate SeesAlike(s: S.Server, p: ClientId, level: int, d: ClientId)
    requires p in s.clients && d in s.clients
  {
    s.clients[d].visibilityLevelAllowed >= s.clients[p].visibilityLevel <==>
        s.clients[d].visibilityLevelAllowed >= level
  }

  /** One request to change a visibility level does not rebuild the table. The routes stay
      right if and only if the client has no endpoint, or everybody else who streams to a
      channel of theirs may see it after exactly if they might before. */
  lemma VisibilityStaysCurrent(s: S.Server, installed: Recipients, p: ClientId, level: int)
    requires S.Inv(s) && Current(s, installed) && p in s.clients
    requires forall d :: Watches(s, d, p) && !SeesAlike(s, p, level, d) ==> S.StreamsAlone(s, d)
    ensures Current(S.Step(s, S.VisibilitySet(p, level)), installed) <==>
      !s.clients[p].HasEndpoint() || forall d :: Watches(s, d, p) ==> SeesAlike(s, p, level, d)
  {
    S.StepKeepsInv(s, S.VisibilitySet(p, level));
    OnlyLevelOfP(s, p, level);
    DriftExact(s, S.Step(s, S.VisibilitySet(p, level)), installed);
  }

  lemma OnlyLevelOfP(s: S.Server, p: ClientId, level: int)
    requires p in s.clients
    ensures Drifted(s, S.Step(s, S.VisibilitySet(p, level)))
    ensures forall d, q :: SeesDifferently(s, S.Step(s, S.VisibilitySet(p, level)), d, q) ==>
              q == p && Watches(s, d, p) && !SeesAlike(s, p, level, d)
    ensures NobodyHiddenOrShown(s, S.Step(s, S.VisibilitySet(p, level))) <==>
      !s.clients[p].HasEndpoint() || forall d :: Watches(s, d, p) ==> SeesAlike(s, p, level, d)
  {
    var t := S.Step(s, S.VisibilitySet(p, level));
    forall d, q
      ensures SeesDifferently(s, t, d, q) <==>
        q == p && s.clients[p].HasEndpoint() && Watches(s, d, p) && !SeesAlike(s, p, level, d)
    {}
    if d :| Watches(s, d, p) && !SeesAlike(s, p, level, d) {
      assert SeesDifferently(s, t, d, p) <==> s.clients[p].HasEndpoint();
    }
  }

  // ---------------------------------------------------------------- a run that goes stale

  lemma SomeTable(text: Text, s: S.Server, e: Event) returns (table: Recipients)
    requires S.Inv(s) && Enabled(text, s, e)
    ensures Rebuilt(text, s, e.(table := table))
  {
    table := NO_RECIPIENTS;
    if Rebuilds(text, s, e) {
      S.StepKeepsInv(s, Effect(text, e).value);
      S.RoutesExist(ServerAfter(text, s, e));
      table :| S.Routes(ServerAfter(text, s, e), table);
    }
  }

  /** Every enabled event can happen, with some outcome of the rebuild. */
  lemma Continue(text: Text, h: History, e: Event) returns (next: History)
    requires Possible(text, h) && Enabled(text, RunOf(text, h).server, e)
    ensures Possible(text, next) && next.Then? && next.prev == h
    ensures next.e == e.(table := next.e.table)
    ensures RunOf(text, next).server == ServerAfter(text, RunOf(text, h).server, e)
  {
    InvAlways(text, h);
    var table := SomeTable(text, RunOf(text, h).server, e);
    next := Then(h, e.(table := table));
  }

  /** A client announces its token from its endpoint. */
  lemma Announced(text: Text, h: History, id: ClientId, token: seq<byte>, a: Address, port: u16) returns (next: History)
    requires Possible(text, h) && |token| + 4 <= READ_BUFFER
    requires id in RunOf(text, h).server.clients
    requires text(token) in RunOf(text, h).server.tokens && RunOf(text, h).server.tokens[text(token)] == id
    ensures Possible(text, next)
    ensures RunOf(text, next).server == S.UseToken(RunOf(text, h).server, text(token), a, port)
  {
    AuthAnnounces(token, a, port);
    next := Continue(text, h, Datagram(Arrival(AuthDatagram(token), a, port), NO_RECIPIENTS));
  }

  lemma Connected(text: Text, h: History) returns (next: History)
    requires Possible(text, h)
    ensures Possible(text, next)
    ensures RunOf(text, next).server == S.Connect(RunOf(text, h).server)
  {
    next := Continue(text, h, Request(S.Connected, NO_RECIPIENTS));
  }

  /** A client connects, gets a token, and announces it from its endpoint. */
  lemma Enter(text: Text, h: History, token: seq<byte>, a: Address, port: u16) returns (next: History)
    requires Possible(text, h) && |token| + 4 <= READ_BUFFER
    ensures Possible(text, next)
    ensures var s, t := RunOf(text, h).server, RunOf(text, next).server;
      var id := s.nextClientId + 1;
      && t.nextClientId == id && t.tables == s.tables && t.sender2receiver == s.sender2receiver
      && t.clients == s.clients[id := S.NewClient(id).(mediaAddress := a, mediaPort := port)]
  {
    var id := RunOf(text, h).server.nextClientId + 1;
    var h1 := Connected(text, h);
    var h2 := Continue(text, h1, Request(S.TokenIssued(text(token), id), NO_RECIPIENTS));
    next := Announced(text, h2, id, token, a, port);
  }

  /** Client 1 streams from endpoint a, client 2 has endpoint b, and they share channel 1. */
  ghost predicate TwoMet(s: S.Server) {
    && s.clients == map[1 := S.Client(1, Some("a"), 1, true, false, 0, 0),
        2 := S.Client(2, Some("b"), 1, false, false, 0, 0)]
    && s.tables.participants == map[1 := {1, 2}]
  }

  lemma TwoMeet()
    ensures CreateRequest(NONE, 1).id2channel == map[1 := Channel(1, "")]
    ensures JoinRequest(CreateRequest(NONE, 1), 2, 1, "", true).participants == map[1 := {1, 2}]
  {
    var t := CreateRequest(NONE, 1);
    assert t.id2channel == map[1 := Channel(1, "")];
    assert Get(map[], 1) + {1} == {1} && {1} + {2} == {1, 2};
    assert t.participants == map[1 := {1}];
  }

  /** Two clients with an endpoint each, and nothing else. */
  ghost predicate TwoEntered(s: S.Server) {
    && s.clients == map[1 := S.Client(1, Some("a"), 1, false, false, 0, 0),
        2 := S.Client(2, Some("b"), 1, false, false, 0, 0)]
    && s.tables == NONE
  }

  lemma TwoEnter(text: Text, token1: seq<byte>, token2: seq<byte>) returns (h: History)
    requires |token1| + 4 <= READ_BUFFER && |token2| + 4 <= READ_BUFFER
    ensures Possible(text, h) && TwoEntered(RunOf(text, h).server)
  {
    var h1 := Enter(text, Start, token1, Some("a"), 1);
    h := Enter(text, h1, token2, Some("b"), 1);
  }

  /** The first client opens channel 1, and the second one joins. */
  lemma Gather(text: Text, h: History) returns (next: History)
    requires Possible(text, h) && TwoEntered(RunOf(text, h).server)
    ensures Possible(text, next)
    ensures RunOf(text, next).server.clients == RunOf(text, h).server.clients
    ensures RunOf(text, next).server.tables.participants == map[1 := {1, 2}]
  {
    var h3 := Continue(text, h, Request(S.ChannelCreated(1), NO_RECIPIENTS));
    TwoMeet();
    next := Continue(text, h3, Request(S.Joined(2, 1, "", true), NO_RECIPIENTS));
  }

  lemma VideoOn(text: Text, h: History, id: ClientId) returns (next: History)
    requires Possible(text, h) && id in RunOf(text, h).server.clients
    ensures Possible(text, next) && EndsInRebuild(text, next)
    ensures var s := RunOf(text, h).server;
      var client := s.clients[id].(videoEnabled := true, audioInputEnabled := false);
      RunOf(text, next).server == s.(clients := s.clients[id := client])
  {
    next := Continue(text, h, Request(S.MediaSwitched(id, true, false), NO_RECIPIENTS));
  }

  lemma Meet(text: Text, token1: seq<byte>, token2: seq<byte>) returns (h: History)
    requires |token1| + 4 <= READ_BUFFER && |token2| + 4 <= READ_BUFFER
    ensures Possible(text, h) && EndsInRebuild(text, h) && TwoMet(RunOf(text, h).server)
  {
    var h2 := TwoEnter(text, token1, token2);
    var h4 := Gather(text, h2);
    h := VideoOn(text, h4, 1);
  }

  lemma FirstWatchesSecond(s: S.Server)
    requires TwoMet(s)
    ensures forall d :: Watches(s, d, 2) ==> S.StreamsAlone(s, d)
    ensures s.clients[2].HasEndpoint()
    ensures Watches(s, 1, 2) && !SeesAlike(s, 2, 100, 1)
  {
    assert Member(s.tables, 1, 1) && Member(s.tables, 2, 1);
  }

  lemma HidingBreaksRoutes(s: S.Server, installed: Recipients)
    requires S.Inv(s) && Current(s, installed) && TwoMet(s)
    ensures !Current(S.Step(s, S.VisibilitySet(2, 100)), installed)
  {
    FirstWatchesSecond(s);
    VisibilityStaysCurrent(s, installed, 2, 100);
  }

  lemma LevelIsQuiet(text: Text, h: History, p: ClientId, level: int)
    requires Possible(text, h) && h.Then? && h.e.Request? && h.e.r == S.VisibilitySet(p, level)
    ensures RunOf(text, h).installed == RunOf(text, h.prev).installed
    ensures S.Enabled(RunOf(text, h.prev).server, S.VisibilitySet(p, level))
    ensures RunOf(text, h).server == S.Step(RunOf(text, h.prev).server, S.VisibilitySet(p, level))
  {}

  lemma StaleAfterHiding(text: Text, h: History)
    requires Possible(text, h) && h.Then? && h.e.Request? && h.e.r == S.VisibilitySet(2, 100)
    requires TwoMet(RunOf(text, h.prev).server) && EndsInRebuild(text, h.prev)
    ensures !Current(RunOf(text, h).server, RunOf(text, h).installed)
  {
    BaseCurrent(text, h.prev);
    LevelIsQuiet(text, h, 2, 100);
    HidingBreaksRoutes(RunOf(text, h.prev).server, RunOf(text, h.prev).installed);
  }

  /** Two clients, whatever tokens they were given, meet in a channel, one streams, the other
      hides: the relay still copies the video of the first to the second, whom the first may
      no longer see. */
  lemma RoutesCanGoStale(text: Text, token1: seq<byte>, token2: seq<byte>) returns (h: History)
    requires |token1| + 4 <= READ_BUFFER && |token2| + 4 <= READ_BUFFER
    ensures Possible(text, h) && h.Then? && h.e.Request? && h.e.r == S.VisibilitySet(2, 100)
    ensures TwoMet(RunOf(text, h.prev).server) && EndsInRebuild(text, h.prev)
    ensures !Current(RunOf(text, h).server, RunOf(text, h).installed)
  {
    var before := Meet(text, token1, token2);
    h := Continue(text, before, Request(S.VisibilitySet(2, 100), NO_RECIPIENTS));
    StaleAfterHiding(text, h);
  }
}
