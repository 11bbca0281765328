/** VirtualServer, with the connect and disconnect steps of its connection handlers. */
module ConferenceServer {
  import opened Wrappers
  import opened Bytes
  import opened Membership
  import opened Relay
  import opened ServerState
  import R = ServerRuns

  class VirtualServer {
    const mediaSocketHandler: MediaSocketHandler
    var nextClientId: ClientId
    var clients: map<ClientId, Client>
    var connections: set<ClientId>
    var nextChannelId: ChannelId
    var id2channel: map<ChannelId, Channel>
    var ident2channel: map<string, ChannelId>
    var participants: map<ChannelId, set<ClientId>>
    var client2channels: map<ClientId, set<ChannelId>>
    var sender2receiver: map<ClientId, set<ClientId>>
    var tokens: map<string, ClientId>

    ghost function Channels(): Tables
      reads this
    {
      Tables(nextChannelId, id2channel, ident2channel, participants, client2channels)
    }

    ghost function Model(): Server
      reads this
    {
      Server(nextClientId, clients, connections, Channels(), sender2receiver, tokens)
    }

    /** With the state of the relay. */
    ghost function LiveModel(): R.Live
      reads this, mediaSocketHandler
    {
      R.Live(Model(), mediaSocketHandler.recipients, mediaSocketHandler.sent, mediaSocketHandler.bytesRead,
          mediaSocketHandler.bytesWritten)
    }

    constructor ()
      ensures LiveModel() == R.INIT && fresh(mediaSocketHandler)
    {
      mediaSocketHandler := new MediaSocketHandler();
      nextClientId, clients, connections := 0, map[], {};
      nextChannelId, id2channel, ident2channel, participants, client2channels := 0, map[], map[], map[], map[];
      sender2receiver, tokens := map[], map[];
    }

    /** A connection handler is constructed. */
    method OnNewConnection() returns (id: ClientId)
      modifies this`nextClientId, this`clients, this`connections
      ensures Model() == Connect(old(Model())) && id == old(nextClientId) + 1
    {
      nextClientId := nextClientId + 1;
      id := nextClientId;
      clients := clients[id := NewClient(id)];
      connections := connections + {id};
    }

    method CreateChannel(ident: string) returns (c: Channel)
      modifies this`nextChannelId, this`id2channel, this`ident2channel
      ensures Channels() == Create(old(Channels()), ident)
      ensures c == Channel(old(nextChannelId) + 1, ident)
    {
      nextChannelId := nextChannelId + 1;
      c := Channel(nextChannelId, ident);
      id2channel := id2channel[c.id := c];
      if c.ident != "" {
        ident2channel := ident2channel[c.ident := c.id];
      }
    }

    method AddClientToChannel(clientId: ClientId, channelId: ChannelId) returns (r: Option<Channel>)
      requires channelId in id2channel ==> id2channel[channelId].id == channelId
      modifies this`participants, this`client2channels
      ensures Channels() == Join(old(Channels()), clientId, channelId)
      ensures r == if channelId in id2channel then Some(id2channel[channelId]) else None
    {
      if channelId !in id2channel {
        return None;
      }
      var channelEntity := id2channel[channelId];
      participants := participants[channelEntity.id := Get(participants, channelEntity.id) + {clientId}];
      client2channels := client2channels[clientId := Get(client2channels, clientId) + {channelEntity.id}];
      return Some(channelEntity);
    }

    /** Indexing a QHash inserts an empty set, which is removed again below. */
    method RemoveClientFromChannel(clientId: ClientId, channelId: ChannelId)
      requires CanLeave(Channels(), clientId, channelId)
      modifies this`participants, this`client2channels, this`id2channel, this`ident2channel
      ensures Channels() == Leave(old(Channels()), clientId, channelId)
    {
      participants := participants[channelId := Get(participants, channelId) - {clientId}];
      client2channels := client2channels[clientId := Get(client2channels, clientId) - {channelId}];
      if participants[channelId] == {} {
        participants := participants - {channelId};
        var c := id2channel[channelId];
        id2channel := id2channel - {channelId};
        ident2channel := ident2channel - {c.ident};
      }
      if client2channels[clientId] == {} {
        client2channels := client2channels - {clientId};
      }
      assert participants == Leave(old(Channels()), clientId, channelId).participants;
      assert client2channels == Leave(old(Channels()), clientId, channelId).client2channels;
    }

    /** Leaves all channels, one after the other in any order; none of them is missing. */
    method RemoveClientFromChannels(clientId: ClientId)
      requires Membership.Inv(Channels())
      modifies this`participants, this`client2channels, this`id2channel, this`ident2channel
      ensures Channels() == LeaveAll(old(Channels()), clientId)
    {
      var todo := Get(client2channels, clientId);
      ghost var t, done := Channels(), {};
      LeaveNone(t, clientId);
      while todo != {}
        invariant done + todo == Get(t.client2channels, clientId) && done !! todo
        invariant Channels() == LeaveSet(t, clientId, done)
        decreases |todo|
      {
        var channelId :| channelId in todo;
        RemoveClientFromNextChannel(t, done, clientId, channelId);
        MoveOne(Get(t.client2channels, clientId), done, todo, channelId);
        todo := todo - {channelId};
        done := done + {channelId};
      }
      assert done == Get(t.client2channels, clientId);
    }

    /** One turn of the loop, after the channels in done were left. */
    method RemoveClientFromNextChannel(ghost t: Tables, ghost done: set<ChannelId>, clientId: ClientId,
        channelId: ChannelId)
      requires Membership.Inv(t) && Channels() == LeaveSet(t, clientId, done)
      requires done <= Get(t.client2channels, clientId) && channelId in Get(t.client2channels, clientId) &&
          channelId !in done
      modifies this`participants, this`client2channels, this`id2channel, this`ident2channel
      ensures Channels() == LeaveSet(t, clientId, done + {channelId})
    {
      LeaveOneMore(t, clientId, done, channelId);
      RemoveClientFromChannel(clientId, channelId);
    }

    /** The QSet is collected channel by channel, participant by participant. */
    method GetSiblingClientIds(clientId: ClientId, filterByVisibilityLevel: bool) returns (clientIds: set<ClientId>)
      ensures clientIds == Siblings(Model(), clientId, filterByVisibilityLevel)
    {
      clientIds := {};
      var todo := Get(client2channels, clientId);
      ghost var done: set<ChannelId> := {};
      while todo != {}
        invariant done + todo == Get(client2channels, clientId)
        invariant clientIds == SiblingsIn(Model(), clientId, filterByVisibilityLevel, done)
        decreases |todo|
      {
        var channelId :| channelId in todo;
        var more := VisibleParticipants(clientId, filterByVisibilityLevel, channelId);
        clientIds := clientIds + more;
        todo := todo - {channelId};
        done := done + {channelId};
      }
    }

    method VisibleParticipants(clientId: ClientId, filter: bool, channelId: ChannelId) returns (ids: set<ClientId>)
      ensures ids == SiblingsIn(Model(), clientId, filter, {channelId})
    {
      ids := {};
      var todo := Get(participants, channelId);
      ghost var s := Model();
      while todo != {}
        invariant todo <= Get(participants, channelId)
        invariant forall p :: p in ids <==> p in Get(participants, channelId) - todo && Sees(s, clientId, p, filter)
        decreases |todo|
      {
        var p :| p in todo;
        var skip := false;
        if filter {
          if clientId !in clients || p !in clients || !clients[clientId].IsAllowedToSee(clients[p]) {
            skip := true;
          }
        }
        if !skip {
          ids := ids + {p};
        }
        todo := todo - {p};
      }
      SiblingsInOne(s, clientId, filter, channelId, ids);
    }

    /** One of the two loops that fill a sender's receiver list. */
    method CollectReceivers(clientId: ClientId, ids: set<ClientId>) returns (receivers: seq<Receiver>)
      requires ServerState.Inv(Model())
      ensures multiset(receivers) == multiset(ReceiversAmong(Model(), clientId, ids))
    {
      receivers := [];
      var todo := ids;
      ghost var s := Model();
      ghost var done: set<ClientId> := {};
      while todo != {}
        invariant done + todo == ids && done !! todo
        invariant multiset(receivers) == multiset(ReceiversAmong(s, clientId, done))
        decreases |todo|
      {
        var id :| id in todo;
        AmongOneMore(s, clientId, done, id);
        if id in clients && clients[id].HasEndpoint() && id != clientId {
          receivers := receivers + [ReceiverOf(clients[id])];
        }
        MoveOne(ids, done, todo, id);
        todo := todo - {id};
        done := done + {id};
      }
      assert done == ids;
    }

    /** Rebuilds the routing table from scratch. */
    method UpdateMediaRecipients()
      requires ServerState.Inv(Model())
      modifies mediaSocketHandler`recipients
      ensures Routes(Model(), mediaSocketHandler.recipients)
    {
      var recips := BuildRecipients();
      mediaSocketHandler.SetRecipients(recips);
    }

    method BuildRecipients() returns (recips: Recipients)
      requires ServerState.Inv(Model())
      ensures Routes(Model(), recips)
    {
      recips := NO_RECIPIENTS;
      var todo := clients.Keys;
      ghost var done: set<ClientId> := {};
      NoneListed(Model());
      while todo != {}
        invariant done + todo == clients.Keys
        invariant RoutesOf(Model(), done, recips)
        decreases |todo|
      {
        var id :| id in todo;
        recips := AddRecipients(done, recips, id);
        MoveOne(clients.Keys, done, todo, id);
        todo := todo - {id};
        done := done + {id};
      }
      assert done == clients.Keys;
    }

    /** One turn of the loop: the client's sender and receiver entry, if it streams. */
    method AddRecipients(ghost done: set<ClientId>, recips: Recipients, id: ClientId) returns (r: Recipients)
      requires ServerState.Inv(Model()) && id in clients
      requires done <= clients.Keys && RoutesOf(Model(), done, recips)
      ensures RoutesOf(Model(), done + {id}, r)
    {
      var client := clients[id];
      if !client.Streams() {
        SkipClient(Model(), done, recips, id);
        return recips;
      }
      var sender := CreateSender(client);
      AddSender(Model(), done, recips, sender);
      r := WithSender(recips, sender, ReceiverOf(client));
    }

    method CreateSender(client: Client) returns (sender: Sender)
      requires ServerState.Inv(Model()) && client.id in clients && clients[client.id] == client
      ensures SenderFor(Model(), client.id, sender)
    {
      var siblingClientIds := GetSiblingClientIds(client.id, true);
      var conference := CollectReceivers(client.id, siblingClientIds);
      var direct := CollectReceivers(client.id, Get(sender2receiver, client.id));
      sender := Sender(client.id, client.mediaAddress, client.mediaPort, conference + direct);
    }

    method OnMediaSocketTokenAuthentication(token: string, address: Address, port: u16)
      requires ServerState.Inv(Model())
      modifies this`tokens, this`clients, mediaSocketHandler`recipients
      ensures Model() == UseToken(old(Model()), token, address, port)
      ensures if token in old(tokens) && old(tokens)[token] in clients
              then Routes(Model(), mediaSocketHandler.recipients)
              else mediaSocketHandler.recipients == old(mediaSocketHandler.recipients)
    {
      if token !in tokens {
        return;
      }
      var clientId := tokens[token];
      tokens := tokens - {token};
      if clientId !in clients {
        return;
      }
      clients := clients[clientId := clients[clientId].(mediaAddress := address, mediaPort := port)];
      UpdateMediaRecipients();
    }

    /** MediaSocketHandler::onReadyRead. The signal that announces a token runs its slot
        at once, so a client that is accepted here already counts for the datagrams that
        follow in the same call; tables are the results of those rebuilds. */
    method OnReadyRead(text: R.Text, xs: seq<Arrival>) returns (ghost tables: seq<Recipients>)
      requires ServerState.Inv(Model())
      modifies this`tokens, this`clients, mediaSocketHandler
      ensures ServerState.Inv(Model())
      ensures |tables| == |xs| && R.AllRebuilt(text, old(LiveModel()), xs, tables)
      ensures LiveModel() == R.Arrive(text, old(LiveModel()), xs, tables)
    {
      tables := [];
      ghost var l := LiveModel();
      for i := 0 to |xs|
        invariant ServerState.Inv(Model())
        invariant |tables| == i && R.AllRebuilt(text, l, xs[..i], tables)
        invariant LiveModel() == R.Arrive(text, l, xs[..i], tables)
      {
        ghost var table := OnDatagram(text, xs[i]);
        R.OneMoreArrival(text, l, xs, i, tables, table);
        tables := tables + [table];
      }
      assert xs[..|xs|] == xs;
    }

    /** One turn of the loop. */
    method OnDatagram(text: R.Text, x: Arrival) returns (ghost table: Recipients)
      requires ServerState.Inv(Model())
      modifies this`tokens, this`clients, mediaSocketHandler
      ensures ServerState.Inv(Model())
      ensures R.Rebuilt(text, old(Model()), R.Datagram(x, table))
      ensures LiveModel() == R.Step(text, old(LiveModel()), R.Datagram(x, table))
    {
      var token := mediaSocketHandler.OnDatagram(x);
      if token.Some? {
        TokenKeepsInv(Model(), text(token.value.bytes), token.value.address, token.value.port);
        OnMediaSocketTokenAuthentication(text(token.value.bytes), token.value.address, token.value.port);
      }
      table := mediaSocketHandler.recipients;
      R.DatagramStep(text, old(LiveModel()), x, table);
    }

    /** A connection handler is destroyed. */
    method OnDisconnected(clientId: ClientId)
      requires ServerState.Inv(Model()) && clientId in clients
      modifies this, mediaSocketHandler`recipients
      ensures Model() == Disconnect(old(Model()), clientId)
      ensures ServerState.Inv(Model()) && Routes(Model(), mediaSocketHandler.recipients)
      ensures Absent(Model(), clientId) && clientId !in mediaSocketHandler.recipients.clientid2receiver
    {
      DisconnectKeepsInv(Model(), clientId);
      DisconnectLeavesNoTrace(Model(), clientId);
      ForgetClient(clientId);
      UpdateMediaRecipients();
    }

    method ForgetClient(clientId: ClientId)
      requires Membership.Inv(Channels())
      modifies this
      ensures Model() == Disconnect(old(Model()), clientId)
    {
      RemoveClientFromChannels(clientId);
      clients := clients - {clientId};
      connections := connections - {clientId};
      RemoveDirectRelations(clientId);
    }

    /** As a sender first, then from the receivers of every other sender. */
    method RemoveDirectRelations(clientId: ClientId)
      modifies this`sender2receiver
      ensures sender2receiver == map k | k in old(sender2receiver) && k != clientId ::
          old(sender2receiver)[k] - {clientId}
    {
      sender2receiver := sender2receiver - {clientId};
      RemoveReceiver(clientId);
    }

    /** The loop over the values of sender2receiver. */
    method RemoveReceiver(clientId: ClientId)
      modifies this`sender2receiver
      ensures sender2receiver == map k | k in old(sender2receiver) :: old(sender2receiver)[k] - {clientId}
    {
      var todo := sender2receiver.Keys;
      while todo != {}
        invariant sender2receiver.Keys == old(sender2receiver).Keys && todo <= sender2receiver.Keys
        invariant forall k :: k in sender2receiver ==>
          sender2receiver[k] == if k in todo then old(sender2receiver)[k] else old(sender2receiver)[k] - {clientId}
        decreases |todo|
      {
        var k :| k in todo;
        sender2receiver := sender2receiver[k := sender2receiver[k] - {clientId}];
        todo := todo - {k};
      }
    }
  }

  lemma MoveOne(all: set<nat>, done: set<nat>, todo: set<nat>, x: nat)
    requires done + todo == all && x in todo
    ensures (done + {x}) + (todo - {x}) == all
    ensures done !! todo ==> (done + {x}) !! (todo - {x})
    ensures |todo - {x}| < |todo|
  {}

  lemma SiblingsInOne(s: Server, c: ClientId, filter: bool, ch: ChannelId, ids: set<ClientId>)
    requires forall p :: p in ids <==> p in Get(s.tables.participants, ch) && Sees(s, c, p, filter)
    ensures ids == SiblingsIn(s, c, filter, {ch})
  {
    forall p
      ensures p in ids <==> p in SiblingsIn(s, c, filter, {ch})
    {
      assert ch in {ch};
    }
  }

  /** One more id adds one more receiver if it is eligible, and it was not there before. */
  lemma AmongOneMore(s: Server, c: ClientId, ids: set<ClientId>, p: ClientId)
    requires ServerState.Inv(s) && p !in ids
    ensures var before, after := ReceiversAmong(s, c, ids), ReceiversAmong(s, c, ids + {p});
      multiset(after) ==
        multiset(before) + (
          if p in s.clients && s.clients[p].HasEndpoint() && p != c then multiset{ReceiverOf(s.clients[p])}
          else multiset{})
  {
    var before, after := ReceiversAmong(s, c, ids), ReceiversAmong(s, c, ids + {p});
    if p in s.clients && s.clients[p].HasEndpoint() && p != c {
      var r := ReceiverOf(s.clients[p]);
      AmongMeans(s, c, ids, p);
      assert after == before + {r};
      assert multiset(before + {r}) == multiset(before) + multiset{r};
    } else {
      assert after == before;
    }
  }
}
