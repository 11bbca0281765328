/** The requests of connected clients that change who receives what. Each does to the tables
    what its event stands for, and rebuilds the routing table exactly where that event says. */
module Actions {
  import opened Wrappers
  import opened Membership
  import opened ServerState
  import opened ConferenceServer

  /** The outcome of a request: the tables after e, and the routing table. */
  twostate predicate Handled(server: VirtualServer, e: Event)
    reads server, server.mediaSocketHandler
  {
    && Enabled(old(server.Model()), e)
    && server.Model() == Step(old(server.Model()), e)
    && ServerState.Inv(server.Model())
    && if Rebuilds(old(server.Model()), e)
       then Routes(server.Model(), server.mediaSocketHandler.recipients)
       else server.mediaSocketHandler.recipients == old(server.mediaSocketHandler.recipients)
  }

  /** The end of both requests that lead into a channel. */
  method Enroll(server: VirtualServer, clientId: ClientId, channelId: ChannelId)
    requires channelId in server.id2channel && server.id2channel[channelId].id == channelId
    requires ServerState.Inv(server.Model().(tables := Join(server.Channels(), clientId, channelId)))
    modifies server`participants, server`client2channels, server.mediaSocketHandler`recipients
    ensures server.Model() == old(server.Model().(tables := Join(server.Channels(), clientId, channelId)))
    ensures Routes(server.Model(), server.mediaSocketHandler.recipients)
  {
    var _ := server.AddClientToChannel(clientId, channelId);
    server.UpdateMediaRecipients();
  }

  method CreateChannelAction(server: VirtualServer, clientId: ClientId) returns (c: Channel)
    requires ServerState.Inv(server.Model()) && clientId in server.clients
    modifies server, server.mediaSocketHandler`recipients
    ensures Handled(server, ChannelCreated(clientId))
    ensures c == Channel(old(server.nextChannelId) + 1, "")
  {
    StepKeepsInv(server.Model(), ChannelCreated(clientId));
    c := server.CreateChannel("");
    Enroll(server, clientId, c.id);
  }

  /** The channel to join: an existing one that admits the client, or a new one. */
  method FindChannel(server: VirtualServer, id: int, ident: string, admitted: bool) returns (r: Option<ChannelId>)
    requires ServerState.Inv(server.Model())
    modifies server`nextChannelId, server`id2channel, server`ident2channel
    ensures var t, ch := old(server.Channels()), Lookup(old(server.Channels()), id, ident);
      && (r.Some? <==> Joins(t, id, ident, admitted))
      && server.Channels() == (if r.Some? && ch !in t.id2channel then Create(t, ident) else t)
      && (r.Some? ==> r.value == if ch in t.id2channel then ch else t.nextChannelId + 1)
    ensures r.Some? ==> r.value in server.id2channel && server.id2channel[r.value].id == r.value
  {
    var channelId: nat := 0;
    if id > 0 {
      channelId := id;
    } else if ident in server.ident2channel {
      channelId := server.ident2channel[ident];
    }
    if channelId == 0 && ident == "" {
      return None;
    }
    if channelId in server.id2channel {
      return if admitted then Some(channelId) else None;
    }
    if ident == "" {
      return None;
    }
    var c := server.CreateChannel(ident);
    return Some(c.id);
  }

  method JoinChannelAction(server: VirtualServer, clientId: ClientId, id: int, ident: string, admitted: bool)
      returns (ok: bool)
    requires ServerState.Inv(server.Model()) && clientId in server.clients
    modifies server, server.mediaSocketHandler`recipients
    ensures Handled(server, Joined(clientId, id, ident, admitted))
    ensures ok == Joins(old(server.Channels()), id, ident, admitted)
  {
    ghost var s := server.Model();
    JoinedStep(s, clientId, id, ident, admitted);
    var channelId := FindChannel(server, id, ident, admitted);
    if channelId.None? {
      return false;
    }
    assert server.Model() == s.(tables := server.Channels());
    Enroll(server, clientId, channelId.value);
    return true;
  }

  /** The join event as finding the channel, then joining it. */
  lemma JoinedStep(s: Server, c: ClientId, id: int, ident: string, admitted: bool)
    requires ServerState.Inv(s) && c in s.clients
    ensures var e := Joined(c, id, ident, admitted);
      var ch := Lookup(s.tables, id, ident);
      && ServerState.Inv(Step(s, e)) && (Rebuilds(s, e) <==> Joins(s.tables, id, ident, admitted))
      && (if !Joins(s.tables, id, ident, admitted) then Step(s, e) == s
          else if ch in s.tables.id2channel then Step(s, e) == s.(tables := Join(s.tables, c, ch))
          else Step(s, e) == s.(tables := Join(Create(s.tables, ident), c, s.tables.nextChannelId + 1)))
  {
    StepKeepsInv(s, Joined(c, id, ident, admitted));
  }

  method LeaveChannelAction(server: VirtualServer, clientId: ClientId, channelId: ChannelId) returns (ok: bool)
    requires ServerState.Inv(server.Model()) && clientId in server.clients
    modifies server, server.mediaSocketHandler`recipients
    ensures Handled(server, Left(clientId, channelId))
    ensures ok == (channelId in old(server.id2channel))
  {
    StepKeepsInv(server.Model(), Left(clientId, channelId));
    if channelId !in server.id2channel {
      return false;
    }
    server.RemoveClientFromChannel(clientId, channelId);
    server.UpdateMediaRecipients();
    return true;
  }

  /** EnableVideoAction, DisableVideoAction */
  method SwitchVideo(server: VirtualServer, clientId: ClientId, on: bool)
    requires ServerState.Inv(server.Model()) && clientId in server.clients
    modifies server, server.mediaSocketHandler`recipients
    ensures Handled(server, MediaSwitched(clientId, on, old(server.clients)[clientId].audioInputEnabled))
  {
    StepKeepsInv(server.Model(), MediaSwitched(clientId, on, server.clients[clientId].audioInputEnabled));
    server.clients := server.clients[clientId := server.clients[clientId].(videoEnabled := on)];
    server.UpdateMediaRecipients();
  }

  /** EnableAudioInputAction, DisableAudioInputAction */
  method SwitchAudioInput(server: VirtualServer, clientId: ClientId, on: bool)
    requires ServerState.Inv(server.Model()) && clientId in server.clients
    modifies server, server.mediaSocketHandler`recipients
    ensures Handled(server, MediaSwitched(clientId, old(server.clients)[clientId].videoEnabled, on))
  {
    StepKeepsInv(server.Model(), MediaSwitched(clientId, server.clients[clientId].videoEnabled, on));
    server.clients := server.clients[clientId := server.clients[clientId].(audioInputEnabled := on)];
    server.UpdateMediaRecipients();
  }

  /** The end of a successful AuthenticationAction: a token for the media socket. */
  method IssueToken(server: VirtualServer, clientId: ClientId, token: string)
    requires ServerState.Inv(server.Model()) && clientId in server.clients
    modifies server
    ensures Handled(server, TokenIssued(token, clientId))
  {
    StepKeepsInv(server.Model(), TokenIssued(token, clientId));
    server.tokens := server.tokens[token := clientId];
  }

  /** The one request that changes what clients may see, and does not rebuild. */
  method UpdateVisibilityLevelAction(server: VirtualServer, clientId: ClientId, level: int)
    requires ServerState.Inv(server.Model()) && clientId in server.clients
    modifies server
    ensures Handled(server, VisibilitySet(clientId, level))
  {
    StepKeepsInv(server.Model(), VisibilitySet(clientId, level));
    server.clients := server.clients[clientId := server.clients[clientId].(visibilityLevel := level)];
  }

  method AddDirectStreamingRelationAction(server: VirtualServer, senderId: ClientId, receiverId: ClientId)
      returns (ok: bool)
    requires ServerState.Inv(server.Model())
    modifies server, server.mediaSocketHandler`recipients
    ensures Handled(server, DirectAdded(senderId, receiverId))
    ensures ok == (senderId in server.clients && receiverId in server.clients)
  {
    StepKeepsInv(server.Model(), DirectAdded(senderId, receiverId));
    if senderId !in server.clients || receiverId !in server.clients {
      return false;
    }
    server.sender2receiver := server.sender2receiver[senderId := Get(server.sender2receiver, senderId) + {receiverId}];
    server.UpdateMediaRecipients();
    return true;
  }

  method RemoveDirectStreamingRelationAction(server: VirtualServer, senderId: ClientId, receiverId: ClientId)
    requires ServerState.Inv(server.Model())
    modifies server, server.mediaSocketHandler`recipients
    ensures Handled(server, DirectRemoved(senderId, receiverId))
  {
    StepKeepsInv(server.Model(), DirectRemoved(senderId, receiverId));
    if senderId in server.sender2receiver {
      var list := server.sender2receiver[senderId] - {receiverId};
      server.sender2receiver := server.sender2receiver[senderId := list];
      if list == {} {
        server.sender2receiver := server.sender2receiver - {senderId};
      }
    }
    assert server.sender2receiver == Step(old(server.Model()), DirectRemoved(senderId, receiverId)).sender2receiver;
    server.UpdateMediaRecipients();
  }
}
