/** The conference server's state: clients, memberships, direct relations, media tokens. */
module ServerState {
  import opened Histories
  import opened Wrappers
  import opened Bytes
  import opened Membership
  import opened Relay

  datatype Client = Client(
    id: ClientId,
    mediaAddress: Address,
    mediaPort: u16,
    videoEnabled: bool,
    audioInputEnabled: bool,
    visibilityLevel: int,
    visibilityLevelAllowed: int)
  {
    predicate HasEndpoint() { mediaAddress.Some? && mediaPort > 0 }
    predicate Streams() { HasEndpoint() && (videoEnabled || audioInputEnabled) }
    predicate IsAllowedToSee(other: Client) { visibilityLevelAllowed >= other.visibilityLevel }
  }

  function NewClient(id: ClientId): Client { Client(id, None, 0, false, false, 0, 0) }

  datatype Server = Server(
    nextClientId: ClientId,
    clients: map<ClientId, Client>,
    connections: set<ClientId>,
    tables: Tables,
    sender2receiver: map<ClientId, set<ClientId>>,
    tokens: map<string, ClientId>)

  const INIT := Server(0, map[], {}, NONE, map[], map[])

  ghost predicate Inv(s: Server) {
    && Membership.Inv(s.tables)
    && s.connections == s.clients.Keys
    && (forall c :: c in s.clients ==> s.clients[c].id == c && 1 <= c <= s.nextClientId)
    && (forall c, ch :: Member(s.tables, c, ch) ==> c in s.clients)
    && (forall c :: c in s.sender2receiver ==> c in s.clients && s.sender2receiver[c] <= s.clients.Keys)
    && (forall t :: t in s.tokens ==> s.tokens[t] <= s.nextClientId)
  }

  function ReceiverOf(c: Client): Receiver { Receiver(c.id, c.mediaAddress, c.mediaPort) }

  // ---------------------------------------------------------------- who receives what

  /** p takes part in a channel of S, and passes the visibility filter. */
  ghost predicate Sees(s: Server, c: ClientId, p: ClientId, filter: bool) {
    filter ==> c in s.clients && p in s.clients && s.clients[c].IsAllowedToSee(s.clients[p])
  }

  ghost function SiblingsIn(s: Server, c: ClientId, filter: bool, S: set<ChannelId>): set<ClientId> {
    set ch, p | ch in S && p in Get(s.tables.participants, ch) && Sees(s, c, p, filter) :: p
  }

  /** getSiblingClientIds */
  ghost function Siblings(s: Server, c: ClientId, filter: bool): set<ClientId> {
    SiblingsIn(s, c, filter, Get(s.tables.client2channels, c))
  }

  /** The receivers among the given ids: known clients with an endpoint, but not c itself. */
  ghost function ReceiversAmong(s: Server, c: ClientId, ids: set<ClientId>): set<Receiver> {
    set p | p in ids && p in s.clients && s.clients[p].HasEndpoint() && p != c :: ReceiverOf(s.clients[p])
  }

  ghost predicate SenderFor(s: Server, c: ClientId, x: Sender)
    requires c in s.clients
  {
    && x.clientId == c && x.address == s.clients[c].mediaAddress && x.port == s.clients[c].mediaPort
    && multiset(x.receivers) ==
         multiset(ReceiversAmong(s, c, Siblings(s, c, true))) +
         multiset(ReceiversAmong(s, c, Get(s.sender2receiver, c)))
  }

  ghost predicate StreamsFrom(s: Server, c: ClientId, a: Address, port: u16) {
    c in s.clients && s.clients[c].Streams() && s.clients[c].mediaAddress == a && s.clients[c].mediaPort == port
  }

  /** The entry x for an endpoint is that of a client of S who streams from there. */
  ghost predicate Justified(s: Server, S: set<ClientId>, a: Address, port: u16, x: Sender)
    requires S <= s.clients.Keys
  {
    exists c :: c in S && StreamsFrom(s, c, a, port) && SenderFor(s, c, x)
  }

  ghost predicate AllJustified(s: Server, S: set<ClientId>, r: Recipients)
    requires S <= s.clients.Keys
  {
    forall a, port :: SenderAt(r, a, port).Some? ==> Justified(s, S, a, port, SenderAt(r, a, port).value)
  }

  /** Every streaming client of S finds an entry, and is the receiver stored under its id. */
  ghost predicate AllListed(s: Server, S: set<ClientId>, r: Recipients)
    requires S <= s.clients.Keys
  {
    && (forall c :: c in S && s.clients[c].Streams() ==>
          SenderAt(r, s.clients[c].mediaAddress, s.clients[c].mediaPort).Some?)
    && (forall i :: i in r.clientid2receiver <==> i in S && s.clients[i].Streams())
    && (forall i :: i in r.clientid2receiver ==> r.clientid2receiver[i] == ReceiverOf(s.clients[i]))
  }

  /** The table holds what the clients of S contribute, and nothing else. */
  ghost predicate RoutesOf(s: Server, S: set<ClientId>, r: Recipients)
    requires S <= s.clients.Keys
  {
    AllJustified(s, S, r) && AllListed(s, S, r)
  }

  /** The relational specification of updateMediaRecipients. */
  ghost predicate Routes(s: Server, r: Recipients) {
    RoutesOf(s, s.clients.Keys, r)
  }

  // ---------------------------------------------------------------- building the table

  /** recips.addr2sender[address][port] = sender, and the sender as a receiver. */
  function WithSender(r: Recipients, sender: Sender, receiver: Receiver): Recipients {
    Recipients(
      r.addr2sender[sender.address := SendersAt(r, sender.address)[sender.port := sender]],
      r.clientid2receiver[receiver.clientId := receiver])
  }

  lemma NoneListed(s: Server)
    ensures RoutesOf(s, {}, NO_RECIPIENTS)
  {
    assert forall a, port :: SenderAt(NO_RECIPIENTS, a, port) == None;
  }

  lemma SkipClient(s: Server, done: set<ClientId>, r: Recipients, c: ClientId)
    requires done <= s.clients.Keys && c in s.clients && RoutesOf(s, done, r) && !s.clients[c].Streams()
    ensures RoutesOf(s, done + {c}, r)
  {
    forall a, port | SenderAt(r, a, port).Some?
      ensures Justified(s, done + {c}, a, port, SenderAt(r, a, port).value)
    {
      var d :| d in done && StreamsFrom(s, d, a, port) && SenderFor(s, d, SenderAt(r, a, port).value);
      assert d in done + {c};
    }
  }

  lemma SenderStored(r: Recipients, sender: Sender, receiver: Receiver, a: Address, port: u16)
    ensures SenderAt(WithSender(r, sender, receiver), a, port) ==
      if a == sender.address && port == sender.port then Some(sender) else SenderAt(r, a, port)
  {}

  /** Adding a streaming client's sender extends the part of the table that is done; of
      clients with the same endpoint the last one stays. */
  lemma AddSender(s: Server, done: set<ClientId>, r: Recipients, x: Sender)
    requires Inv(s) && done <= s.clients.Keys && RoutesOf(s, done, r)
    requires x.clientId in s.clients && s.clients[x.clientId].Streams() && SenderFor(s, x.clientId, x)
    ensures RoutesOf(s, done + {x.clientId}, WithSender(r, x, ReceiverOf(s.clients[x.clientId])))
  {
    var receiver := ReceiverOf(s.clients[x.clientId]);
    var after := WithSender(r, x, receiver);
    forall a, port
      ensures SenderAt(after, a, port) ==
        if a == x.address && port == x.port then Some(x) else SenderAt(r, a, port)
    {
      SenderStored(r, x, receiver, a, port);
    }
    forall a, port | SenderAt(after, a, port).Some?
      ensures Justified(s, done + {x.clientId}, a, port, SenderAt(after, a, port).value)
    {
      if a == x.address && port == x.port {
        assert StreamsFrom(s, x.clientId, a, port);
      } else {
        var c :| c in done && StreamsFrom(s, c, a, port) && SenderFor(s, c, SenderAt(r, a, port).value);
        assert c in done + {x.clientId};
      }
    }
  }

  /** A set as a list, in some order. */
  lemma {:induction false} Listed<T>(s: set<T>) returns (xs: seq<T>)
    ensures multiset(xs) == multiset(s)
  {
    xs := [];
    if s != {} {
      var x :| x in s;
      var rest := Listed(s - {x});
      xs := rest + [x];
      assert s == (s - {x}) + {x};
    }
  }

  lemma {:induction false} PartExists(s: Server, S: set<ClientId>)
    requires Inv(s) && S <= s.clients.Keys
    ensures exists r :: RoutesOf(s, S, r)
  {
    if S == {} {
      NoneListed(s);
    } else {
      var c :| c in S;
      var done := S - {c};
      PartExists(s, done);
      var r :| RoutesOf(s, done, r);
      assert done + {c} == S;
      if s.clients[c].Streams() {
        var conference := Listed(ReceiversAmong(s, c, Siblings(s, c, true)));
        var direct := Listed(ReceiversAmong(s, c, Get(s.sender2receiver, c)));
        AddSender(s, done, r, Sender(c, s.clients[c].mediaAddress, s.clients[c].mediaPort, conference + direct));
      } else {
        SkipClient(s, done, r, c);
      }
    }
  }

  /** The specification can always be met. */
  lemma RoutesExist(s: Server)
    requires Inv(s)
    ensures exists r :: Routes(s, r)
  {
    PartExists(s, s.clients.Keys);
    var r :| RoutesOf(s, s.clients.Keys, r);
    assert Routes(s, r);
  }

  // ---------------------------------------------------------------- what the table means

  /** Nobody else streams from c's endpoint. */
  ghost predicate StreamsAlone(s: Server, c: ClientId)
    requires c in s.clients
  {
    forall d :: d != c ==> !StreamsFrom(s, d, s.clients[c].mediaAddress, s.clients[c].mediaPort)
  }

  ghost predicate ShareChannel(t: Tables, c: ClientId, p: ClientId) {
    exists ch :: Member(t, c, ch) && Member(t, p, ch)
  }

  /** The other clients with an endpoint that share a channel with c and that c may see. */
  ghost predicate ConferenceReceiver(s: Server, c: ClientId, p: ClientId) {
    && c in s.clients && p in s.clients && p != c
    && s.clients[p].HasEndpoint() && s.clients[c].IsAllowedToSee(s.clients[p])
    && ShareChannel(s.tables, c, p)
  }

  ghost predicate DirectReceiver(s: Server, c: ClientId, p: ClientId) {
    p in s.clients && p != c && s.clients[p].HasEndpoint() && p in Get(s.sender2receiver, c)
  }

  lemma SiblingsShareChannel(s: Server, c: ClientId, p: ClientId)
    requires Inv(s)
    ensures p in Siblings(s, c, true) <==>
              && c in s.clients && p in s.clients && s.clients[c].IsAllowedToSee(s.clients[p])
              && ShareChannel(s.tables, c, p)
  {
    if ch :| Member(s.tables, c, ch) && Member(s.tables, p, ch) {
      var S := Get(s.tables.client2channels, c);
      assert ch in S && p in Get(s.tables.participants, ch);
      assert Sees(s, c, p, true) ==> p in SiblingsIn(s, c, true, S);
      assert Sees(s, c, p, true) <== p in SiblingsIn(s, c, true, S);
    }
    if p in Siblings(s, c, true) {
      var ch :| ch in Get(s.tables.client2channels, c) && p in Get(s.tables.participants, ch);
      assert Member(s.tables, c, ch) && Member(s.tables, p, ch);
    }
  }

  lemma AmongMeans(s: Server, c: ClientId, ids: set<ClientId>, p: ClientId)
    requires Inv(s) && p in s.clients
    ensures ReceiverOf(s.clients[p]) in ReceiversAmong(s, c, ids) <==> p in ids && s.clients[p].HasEndpoint() && p != c
  {
    if ReceiverOf(s.clients[p]) in ReceiversAmong(s, c, ids) {
      var q :| q in ids && q in s.clients && s.clients[q].HasEndpoint() && q != c &&
          ReceiverOf(s.clients[q]) == ReceiverOf(s.clients[p]);
      assert q == p;
    }
  }

  /** The senders are exactly the clients with an endpoint and video or audio on. */
  lemma SendersExact(s: Server, r: Recipients, a: Address, port: u16)
    requires Routes(s, r)
    ensures SenderAt(r, a, port).Some? <==>
      a.Some? && port > 0 && exists c :: c in s.clients && SendsFrom(s.clients[c], a, port)
  {
    assert forall c :: c in s.clients && a.Some? && port > 0 ==>
      (SendsFrom(s.clients[c], a, port) <==> StreamsFrom(s, c, a, port));
  }

  ghost predicate SendsFrom(c: Client, a: Address, port: u16) {
    c.mediaAddress == a && c.mediaPort == port && (c.videoEnabled || c.audioInputEnabled)
  }

  /** A sender's list names each client once for sharing a channel, once for a direct
      relation, and so twice only when both apply; and never the sender itself. */
  lemma ReceiversExact(s: Server, r: Recipients, c: ClientId, p: ClientId)
    requires Inv(s) && Routes(s, r)
    requires c in s.clients && s.clients[c].Streams() && StreamsAlone(s, c) && p in s.clients
    ensures multiset(Route(r, s.clients[c].mediaAddress, s.clients[c].mediaPort))[ReceiverOf(s.clients[p])] ==
              (if ConferenceReceiver(s, c, p) then 1 else 0) + (if DirectReceiver(s, c, p) then 1 else 0)
    ensures p != c && s.clients[p].mediaAddress.Some? && s.clients[p].mediaPort > 0 ==>
      && (ConferenceReceiver(s, c, p) <==>
            && ShareChannel(s.tables, c, p)
            && s.clients[c].visibilityLevelAllowed >= s.clients[p].visibilityLevel)
      && (DirectReceiver(s, c, p) <==> p in Get(s.sender2receiver, c))
    ensures p == c || s.clients[p].mediaAddress == None || s.clients[p].mediaPort == 0 ==>
              !ConferenceReceiver(s, c, p) && !DirectReceiver(s, c, p)
  {
    var a, port := s.clients[c].mediaAddress, s.clients[c].mediaPort;
    var x := SenderAt(r, a, port).value;
    var d :| d in s.clients && StreamsFrom(s, d, a, port) && SenderFor(s, d, x);
    assert d == c;
    SiblingsShareChannel(s, c, p);
    AmongMeans(s, c, Siblings(s, c, true), p);
    AmongMeans(s, c, Get(s.sender2receiver, c), p);
  }

  /** Nobody else is in the list: every entry is a client with its own endpoint. */
  lemma ReceiversAreClients(s: Server, r: Recipients, a: Address, port: u16, i: nat)
    requires Inv(s) && Routes(s, r)
    requires i < |Route(r, a, port)|
    ensures exists p :: p in s.clients && s.clients[p].HasEndpoint() && Route(r, a, port)[i] == ReceiverOf(s.clients[p])
  {
    var x := SenderAt(r, a, port).value;
    var c :| c in s.clients && StreamsFrom(s, c, a, port) && SenderFor(s, c, x);
    assert x.receivers[i] in multiset(x.receivers);
    assert x.receivers[i] in ReceiversAmong(s, c, Siblings(s, c, true)) ||
        x.receivers[i] in ReceiversAmong(s, c, Get(s.sender2receiver, c));
  }

  // ---------------------------------------------------------------- steps

  function Connect(s: Server): Server {
    var id := s.nextClientId + 1;
    s.(nextClientId := id, clients := s.clients[id := NewClient(id)], connections := s.connections + {id})
  }

  /** The destructor of a connection, before the routing table is rebuilt. */
  ghost function Disconnect(s: Server, c: ClientId): Server {
    s.(tables := LeaveAll(s.tables, c),
       clients := s.clients - {c},
       connections := s.connections - {c},
       sender2receiver := map k | k in s.sender2receiver && k != c :: s.sender2receiver[k] - {c})
  }

  /** onMediaSocketTokenAuthentication: a token is used up by its first use. */
  function UseToken(s: Server, token: string, a: Address, port: u16): Server {
    if token !in s.tokens then s
    else
      var id := s.tokens[token];
      var t := s.(tokens := s.tokens - {token});
      if id !in s.clients then t
      else t.(clients := s.clients[id := s.clients[id].(mediaAddress := a, mediaPort := port)])
  }

  /** What can happen at the server; the requests of a client come from a connected one. */
  datatype Event =
    | Connected
    | Disconnected(c: ClientId)
    | ChannelCreated(c: ClientId)
    | Joined(c: ClientId, id: int, ident: string, admitted: bool)
    | Left(c: ClientId, ch: ChannelId)
    | MediaSwitched(c: ClientId, video: bool, audio: bool)
    | VisibilitySet(c: ClientId, level: int)
    | TokenIssued(token: string, c: ClientId)
    | TokenUsed(token: string, a: Address, port: u16)
    | DirectAdded(from: ClientId, to: ClientId)
    | DirectRemoved(from: ClientId, to: ClientId)

  ghost predicate Enabled(s: Server, e: Event) {
    match e
    case Disconnected(c) => c in s.clients
    case ChannelCreated(c) => c in s.clients
    case Joined(c, _, _, _) => c in s.clients
    case Left(c, _) => c in s.clients
    case MediaSwitched(c, _, _) => c in s.clients
    case VisibilitySet(c, _) => c in s.clients
    case TokenIssued(_, c) => c in s.clients
    case _ => true
  }

  ghost function Step(s: Server, e: Event): Server
    requires Enabled(s, e)
  {
    match e
    case Connected => Connect(s)
    case Disconnected(c) => Disconnect(s, c)
    case ChannelCreated(c) => s.(tables := CreateRequest(s.tables, c))
    case Joined(c, id, ident, admitted) => s.(tables := JoinRequest(s.tables, c, id, ident, admitted))
    case Left(c, ch) => s.(tables := LeaveRequest(s.tables, c, ch))
    case MediaSwitched(c, video, audio) =>
      s.(clients := s.clients[c := s.clients[c].(videoEnabled := video, audioInputEnabled := audio)])
    case VisibilitySet(c, level) => s.(clients := s.clients[c := s.clients[c].(visibilityLevel := level)])
    case TokenIssued(token, c) => s.(tokens := s.tokens[token := c])
    case TokenUsed(token, a, port) => UseToken(s, token, a, port)
    case DirectAdded(from, to) =>
      if from !in s.clients || to !in s.clients then s
      else s.(sender2receiver := s.sender2receiver[from := Get(s.sender2receiver, from) + {to}])
    case DirectRemoved(from, to) =>
      s.(sender2receiver := Put(s.sender2receiver, from, Get(s.sender2receiver, from) - {to}))
  }

  /** The steps after which updateMediaRecipients is called. */
  ghost predicate Rebuilds(s: Server, e: Event) {
    match e
    case Connected => false
    case Disconnected(_) => true
    case ChannelCreated(_) => true
    case Joined(_, id, ident, admitted) => Joins(s.tables, id, ident, admitted)
    case Left(_, ch) => ch in s.tables.id2channel
    case MediaSwitched(_, _, _) => true
    case VisibilitySet(_, _) => false
    case TokenIssued(_, _) => false
    case TokenUsed(token, _, _) => token in s.tokens && s.tokens[token] in s.clients
    case DirectAdded(from, to) => from in s.clients && to in s.clients
    case DirectRemoved(_, _) => true
  }

  type History = Trace<Event>

  ghost predicate Possible(h: History)
    decreases h, 0
  {
    h.Start? || (Possible(h.prev) && Enabled(RunOf(h.prev), h.e))
  }

  ghost function RunOf(h: History): Server
    requires Possible(h)
    decreases h, 1
  {
    if h.Start? then INIT else Step(RunOf(h.prev), h.e)
  }

  lemma DisconnectKeepsInv(s: Server, c: ClientId)
    requires Inv(s)
    ensures Inv(Disconnect(s, c))
  {
    LeaveAllKeepsInv(s.tables, c);
  }

  lemma StepKeepsInv(s: Server, e: Event)
    requires Inv(s) && Enabled(s, e)
    ensures Inv(Step(s, e))
  {
    match e
    case Disconnected(c) => DisconnectKeepsInv(s, c);
    case ChannelCreated(c) =>
      CreateRequestKeepsInv(s.tables, c);
      TablesKeepInv(s, CreateRequest(s.tables, c), c);
    case Joined(c, id, ident, admitted) => JoinedKeepsInv(s, c, id, ident, admitted);
    case Left(c, ch) => LeftKeepsInv(s, c, ch);
    case _ => OtherStepKeepsInv(s, e);
  }

  lemma TokenKeepsInv(s: Server, token: string, a: Address, port: u16)
    requires Inv(s)
    ensures Inv(UseToken(s, token, a, port))
  {
    ClientsKeepInv(s, UseToken(s, token, a, port));
  }

  lemma TablesKeepInv(s: Server, u: Tables, c: ClientId)
    requires Inv(s) && c in s.clients && Membership.Inv(u)
    requires forall x, y :: Member(u, x, y) ==> Member(s.tables, x, y) || x == c
    ensures Inv(s.(tables := u))
  {}

  lemma JoinedKeepsInv(s: Server, c: ClientId, id: int, ident: string, admitted: bool)
    requires Inv(s) && c in s.clients
    ensures Inv(s.(tables := JoinRequest(s.tables, c, id, ident, admitted)))
  {
    JoinRequestKeepsInv(s.tables, c, id, ident, admitted);
    TablesKeepInv(s, JoinRequest(s.tables, c, id, ident, admitted), c);
  }

  lemma LeftKeepsInv(s: Server, c: ClientId, ch: ChannelId)
    requires Inv(s) && c in s.clients
    ensures Inv(s.(tables := LeaveRequest(s.tables, c, ch)))
  {
    LeaveRequestKeepsInv(s.tables, c, ch);
    TablesKeepInv(s, LeaveRequest(s.tables, c, ch), c);
  }

  lemma OtherStepKeepsInv(s: Server, e: Event)
    requires Inv(s) && Enabled(s, e)
    requires !e.Disconnected? && !e.ChannelCreated? && !e.Joined? && !e.Left?
    ensures Inv(Step(s, e))
  {
    if e.DirectAdded? || e.DirectRemoved? {
      RelationsKeepInv(s, Step(s, e));
    } else {
      ClientsKeepInv(s, Step(s, e));
    }
  }

  lemma RelationsKeepInv(s: Server, t: Server)
    requires Inv(s) && t == s.(sender2receiver := t.sender2receiver)
    requires forall c :: c in t.sender2receiver ==> c in s.clients && t.sender2receiver[c] <= s.clients.Keys
    ensures Inv(t)
  {}

  lemma ClientsKeepInv(s: Server, t: Server)
    requires Inv(s) && t.tables == s.tables && t.sender2receiver == s.sender2receiver
    requires s.clients.Keys <= t.clients.Keys && t.connections == t.clients.Keys && s.nextClientId <= t.nextClientId
    requires forall c :: c in t.clients ==> t.clients[c].id == c && 1 <= c <= t.nextClientId
    requires forall x :: x in t.tokens ==> t.tokens[x] <= t.nextClientId
    ensures Inv(t)
  {}

  lemma {:induction false} ServerInvariant(h: History)
    requires Possible(h)
    ensures Inv(RunOf(h))
  {
    match h
    case Start =>
    case Then(prev, e) =>
      ServerInvariant(prev);
      StepKeepsInv(RunOf(prev), e);
  }

  // ---------------------------------------------------------------- what the steps change

  /** p receives from c directly. */
  ghost predicate Related(s: Server, c: ClientId, p: ClientId) {
    p in Get(s.sender2receiver, c)
  }

  /** Adding a direct relation between known clients adds the one pair, from sender to
      receiver, and changes nothing else; with an unknown client it changes nothing. */
  lemma DirectAddedExact(s: Server, from: ClientId, to: ClientId)
    ensures var t := Step(s, DirectAdded(from, to));
      && t == s.(sender2receiver := t.sender2receiver)
      && forall c, p :: Related(t, c, p) <==>
           Related(s, c, p) || (c == from && p == to && from in s.clients && to in s.clients)
  {}

  /** Removing one removes the one pair, and changes nothing else. */
  lemma DirectRemovedExact(s: Server, from: ClientId, to: ClientId)
    ensures var t := Step(s, DirectRemoved(from, to));
      && t == s.(sender2receiver := t.sender2receiver)
      && forall c, p :: Related(t, c, p) <==> Related(s, c, p) && !(c == from && p == to)
  {}

  /** Switching media, setting a visibility level and issuing a token each change the one thing
      of the one client. */
  lemma ClientStepsExact(s: Server, c: ClientId, video: bool, audio: bool, level: int, token: string)
    requires c in s.clients
    ensures Step(s, MediaSwitched(c, video, audio)) ==
      s.(clients := s.clients[c := s.clients[c].(videoEnabled := video).(audioInputEnabled := audio)])
    ensures Step(s, VisibilitySet(c, level)) == s.(clients := s.clients[c := s.clients[c].(visibilityLevel := level)])
    ensures Step(s, TokenIssued(token, c)) == s.(tokens := s.tokens[token := c])
  {}

  /** A disconnect takes out the one client, its memberships and its direct relations on either
      side; every other client, membership, relation and token stays. */
  lemma DisconnectExact(s: Server, c: ClientId)
    requires Inv(s) && c in s.clients
    ensures var t := Step(s, Disconnected(c));
      && t.clients == s.clients - {c} && t.connections == s.connections - {c}
      && t.tokens == s.tokens && t.nextClientId == s.nextClientId
      && (forall x, y :: Member(t.tables, x, y) <==> Member(s.tables, x, y) && x != c)
      && (forall x, y :: Related(t, x, y) <==> Related(s, x, y) && x != c && y != c)
  {
    LeaveAllKeepsInv(s.tables, c);
  }

  /** A new client gets the next id; it has no endpoint, sends nothing, and is visible to all. */
  lemma ConnectExact(s: Server)
    ensures var t, id := Step(s, Connected), s.nextClientId + 1;
      && t.nextClientId == id && t.connections == s.connections + {id}
      && t.clients == s.clients[id := Client(id, None, 0, false, false, 0, 0)]
      && t == s.(nextClientId := id, clients := t.clients, connections := t.connections)
  {}

  // ---------------------------------------------------------------- gone for good

  /** The id occurs nowhere but perhaps in a token. */
  ghost predicate Absent(s: Server, c: ClientId) {
    && c !in s.clients && c !in s.connections
    && c !in s.tables.client2channels
    && (forall ch :: ch in s.tables.participants ==> c !in s.tables.participants[ch])
    && c !in s.sender2receiver
    && (forall d :: d in s.sender2receiver ==> c !in s.sender2receiver[d])
  }

  /** A destroyed connection leaves its client id nowhere. */
  lemma DisconnectLeavesNoTrace(s: Server, c: ClientId)
    requires Inv(s) && c in s.clients
    ensures Absent(Disconnect(s, c), c) && c <= Disconnect(s, c).nextClientId
  {
    LeaveAllKeepsInv(s.tables, c);
    var t := LeaveAll(s.tables, c);
    forall ch | ch in t.participants
      ensures c !in t.participants[ch]
    {
      assert !Member(t, c, ch);
    }
  }

  /** Under the invariant an unknown client occurs in no table. */
  lemma UnknownIsAbsent(s: Server, c: ClientId)
    requires Inv(s) && c !in s.clients
    ensures Absent(s, c)
  {
    forall ch
      ensures ch !in Get(s.tables.client2channels, c)
    {
      assert !Member(s.tables, c, ch);
    }
    assert Get(s.tables.client2channels, c) == {};
    forall ch | ch in s.tables.participants
      ensures c !in s.tables.participants[ch]
    {
      assert Member(s.tables, c, ch) <==> c in s.tables.participants[ch];
    }
  }

  /** An absent client is no sender and no receiver in a rebuilt routing table. */
  lemma AbsentFromRoutes(s: Server, r: Recipients, c: ClientId)
    requires Inv(s) && Routes(s, r) && Absent(s, c)
    ensures c !in r.clientid2receiver
    ensures forall a, port :: SenderAt(r, a, port).Some? ==> SenderAt(r, a, port).value.clientId != c
    ensures forall a, port, i :: 0 <= i < |Route(r, a, port)| ==> Route(r, a, port)[i].clientId != c
  {
    forall a, port, i | 0 <= i < |Route(r, a, port)|
      ensures Route(r, a, port)[i].clientId != c
    {
      ReceiversAreClients(s, r, a, port, i);
    }
  }

  /** Ids are never reused: whatever happens after, a client that is gone stays gone. */
  lemma {:induction false} GoneStaysGone(h: History, base: History, c: ClientId)
    requires Possible(h) && Extends(h, base) && Possible(base)
    requires c !in RunOf(base).clients && c <= RunOf(base).nextClientId
    ensures c !in RunOf(h).clients && c <= RunOf(h).nextClientId && Absent(RunOf(h), c)
  {
    if h != base {
      GoneStaysGone(h.prev, base, c);
      StepKeepsGone(RunOf(h.prev), h.e, c);
    }
    ServerInvariant(h);
    UnknownIsAbsent(RunOf(h), c);
  }

  lemma StepKeepsGone(s: Server, e: Event, c: ClientId)
    requires Enabled(s, e) && c !in s.clients && c <= s.nextClientId
    ensures c !in Step(s, e).clients && c <= Step(s, e).nextClientId
  {}

  /** A media token left over from a client that is gone never gives anyone an endpoint. */
  lemma LeftoverTokenHarmless(h: History, base: History, c: ClientId, token: string, a: Address, port: u16)
    requires Possible(h) && Extends(h, base) && Possible(base)
    requires c !in RunOf(base).clients && c <= RunOf(base).nextClientId
    requires token in RunOf(h).tokens && RunOf(h).tokens[token] == c
    ensures UseToken(RunOf(h), token, a, port).clients == RunOf(h).clients
  {
    GoneStaysGone(h, base, c);
  }

  /** Using a token gives an endpoint to the client it was issued for and to nobody else,
      and the token cannot be used again. */
  lemma TokenGivesOneEndpoint(s: Server, token: string, a: Address, port: u16)
    ensures var t := UseToken(s, token, a, port);
      && token !in t.tokens
      && t.clients.Keys == s.clients.Keys
      && (forall c :: c in s.clients && !(token in s.tokens && s.tokens[token] == c) ==> t.clients[c] == s.clients[c])
      && (token in s.tokens && s.tokens[token] in s.clients ==>
            t.clients[s.tokens[token]] == s.clients[s.tokens[token]].(mediaAddress := a, mediaPort := port))
  {}
}
