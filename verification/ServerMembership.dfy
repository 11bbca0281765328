/** Channels and who takes part in them: five redundant tables of the conference server. */
module Membership {
  import opened Histories

  type ClientId = nat
  type ChannelId = nat

  datatype Channel = Channel(id: ChannelId, ident: string)

  datatype Tables = Tables(
    nextChannelId: ChannelId,
    id2channel: map<ChannelId, Channel>,
    ident2channel: map<string, ChannelId>,
    participants: map<ChannelId, set<ClientId>>,
    client2channels: map<ClientId, set<ChannelId>>)

  const NONE := Tables(0, map[], map[], map[], map[])

  /** QHash::value for a table of sets: a missing key reads as the empty set. */
  function Get(m: map<nat, set<nat>>, k: nat): set<nat> {
    if k in m then m[k] else {}
  }

  /** Stores a set, or removes the key when the set became empty. */
  function Put(m: map<nat, set<nat>>, k: nat, s: set<nat>): map<nat, set<nat>> {
    if s == {} then m - {k} else m[k := s]
  }

  /** The relation both tables of sets stand for. */
  predicate Member(t: Tables, c: ClientId, ch: ChannelId) {
    c in Get(t.participants, ch)
  }

  ghost predicate Inv(t: Tables) {
    // participants and client2channels are inverse to each other; no empty set is stored
    && (forall ch :: ch in t.participants ==> t.participants[ch] != {})
    && (forall c :: c in t.client2channels ==> t.client2channels[c] != {})
    && (forall c, ch :: Member(t, c, ch) <==> ch in Get(t.client2channels, c))
    // every channel with participants is live, and ids are never reused
    && (forall ch :: ch in t.participants ==> ch in t.id2channel)
    && (forall ch :: ch in t.id2channel ==> t.id2channel[ch].id == ch && 1 <= ch <= t.nextChannelId)
    // every identifier entry names a live channel with that identifier
    && (forall x :: x in t.ident2channel ==>
          x != "" && t.ident2channel[x] in t.id2channel && t.id2channel[t.ident2channel[x]].ident == x)
  }

  /** Every live identifier resolves to its channel. */
  ghost predicate Resolves(t: Tables) {
    forall ch :: ch in t.id2channel && t.id2channel[ch].ident != "" ==>
      t.id2channel[ch].ident in t.ident2channel && t.ident2channel[t.id2channel[ch].ident] == ch
  }

  // ---------------------------------------------------------------- operations

  function Create(t: Tables, ident: string): Tables {
    var id := t.nextChannelId + 1;
    t.(nextChannelId := id,
       id2channel := t.id2channel[id := Channel(id, ident)],
       ident2channel := if ident == "" then t.ident2channel else t.ident2channel[ident := id])
  }

  function Join(t: Tables, c: ClientId, ch: ChannelId): Tables {
    if ch !in t.id2channel then t
    else t.(participants := t.participants[ch := Get(t.participants, ch) + {c}],
            client2channels := t.client2channels[c := Get(t.client2channels, c) + {ch}])
  }

  /** The channel looked up when it became empty exists. */
  predicate CanLeave(t: Tables, c: ClientId, ch: ChannelId) {
    Get(t.participants, ch) - {c} == {} ==> ch in t.id2channel
  }

  function Leave(t: Tables, c: ClientId, ch: ChannelId): Tables
    requires CanLeave(t, c, ch)
  {
    var left := Get(t.participants, ch) - {c};
    Tables(
      t.nextChannelId,
      if left == {} then t.id2channel - {ch} else t.id2channel,
      if left == {} then t.ident2channel - {t.id2channel[ch].ident} else t.ident2channel,
      Put(t.participants, ch, left),
      Put(t.client2channels, c, Get(t.client2channels, c) - {ch}))
  }

  // ---------------------------------------------------------------- what the requests do

  /** CreateChannelAction: a channel without identifier, which the client joins. */
  function CreateRequest(t: Tables, c: ClientId): Tables {
    var u := Create(t, "");
    Join(u, c, u.nextChannelId)
  }

  /** The channel a join request names: by its id, or else by its identifier. */
  function Lookup(t: Tables, id: int, ident: string): ChannelId {
    if id > 0 then id else if ident in t.ident2channel then t.ident2channel[ident] else 0
  }

  /** The request ends in a membership: a live channel that admits the client, or a new one,
      whose password is the client's own. */
  predicate Joins(t: Tables, id: int, ident: string, admitted: bool) {
    var ch := Lookup(t, id, ident);
    (ch != 0 || ident != "") && if ch in t.id2channel then admitted else ident != ""
  }

  /** JoinChannelAction; admitted tells whether an existing channel's password was right. */
  function JoinRequest(t: Tables, c: ClientId, id: int, ident: string, admitted: bool): Tables {
    var ch := Lookup(t, id, ident);
    if !Joins(t, id, ident, admitted) then t
    else if ch in t.id2channel then Join(t, c, ch)
    else
      var u := Create(t, ident);
      Join(u, c, u.nextChannelId)
  }

  /** LeaveChannelAction: refused for a channel that does not exist. */
  function LeaveRequest(t: Tables, c: ClientId, ch: ChannelId): Tables {
    if ch in t.id2channel then Leave(t, c, ch) else t
  }

  /** The join request that creates a second channel under an identifier in use. */
  predicate Clashes(t: Tables, id: int, ident: string) {
    id > 0 && id !in t.id2channel && ident in t.ident2channel
  }

  // ---------------------------------------------------------------- leaving several channels

  /** The channels of S that have no other participant than c. */
  ghost predicate Emptied(t: Tables, c: ClientId, S: set<ChannelId>, ch: ChannelId) {
    ch in S && ch in t.participants && t.participants[ch] == {c}
  }

  /** Client c taken out of all channels of S at once. */
  ghost function LeaveSet(t: Tables, c: ClientId, S: set<ChannelId>): Tables {
    Tables(
      t.nextChannelId,
      map ch | ch in t.id2channel && !Emptied(t, c, S, ch) :: t.id2channel[ch],
      map x | x in t.ident2channel &&
                !(exists ch :: ch in t.id2channel && Emptied(t, c, S, ch) && t.id2channel[ch].ident == x)
        :: t.ident2channel[x],
      map ch | ch in t.participants && !Emptied(t, c, S, ch) ::
          if ch in S then t.participants[ch] - {c} else t.participants[ch],
      Put(t.client2channels, c, Get(t.client2channels, c) - S))
  }

  ghost function LeaveAll(t: Tables, c: ClientId): Tables {
    LeaveSet(t, c, Get(t.client2channels, c))
  }

  lemma LeaveNone(t: Tables, c: ClientId)
    requires Inv(t)
    ensures LeaveSet(t, c, {}) == t
  {
    assert LeaveSet(t, c, {}).id2channel == t.id2channel;
    assert LeaveSet(t, c, {}).ident2channel == t.ident2channel;
    assert LeaveSet(t, c, {}).participants == t.participants;
    assert Get(t.client2channels, c) - {} == Get(t.client2channels, c);
  }

  /** One more channel: leaving it after the others is leaving all of them at once. */
  lemma LeaveOneMore(t: Tables, c: ClientId, S: set<ChannelId>, ch: ChannelId)
    requires Inv(t) && S <= Get(t.client2channels, c)
    requires ch in Get(t.client2channels, c) && ch !in S
    ensures CanLeave(LeaveSet(t, c, S), c, ch)
    ensures Leave(LeaveSet(t, c, S), c, ch) == LeaveSet(t, c, S + {ch})
  {
    var u, v := LeaveSet(t, c, S), LeaveSet(t, c, S + {ch});
    LeaveOneMoreMembers(t, c, S, ch);
    LeaveOneMoreIdents(t, c, S, ch);
    assert Get(u.client2channels, c) == Get(t.client2channels, c) - S;
    assert Get(t.client2channels, c) - S - {ch} == Get(t.client2channels, c) - (S + {ch});
    assert Leave(u, c, ch).client2channels == v.client2channels;
  }

  lemma LeaveOneMoreMembers(t: Tables, c: ClientId, S: set<ChannelId>, ch: ChannelId)
    requires Inv(t) && ch in Get(t.client2channels, c) && ch !in S
    ensures ch in t.id2channel && ch in t.participants && !Emptied(t, c, S, ch)
    ensures CanLeave(LeaveSet(t, c, S), c, ch)
    ensures Get(LeaveSet(t, c, S).participants, ch) - {c} == {} <==> Emptied(t, c, S + {ch}, ch)
    ensures Leave(LeaveSet(t, c, S), c, ch).participants == LeaveSet(t, c, S + {ch}).participants
    ensures Leave(LeaveSet(t, c, S), c, ch).id2channel == LeaveSet(t, c, S + {ch}).id2channel
  {
    assert Member(t, c, ch);
    var left := t.participants[ch] - {c};
    assert left == {} <==> Emptied(t, c, S + {ch}, ch);
    assert forall x :: x != ch ==> (Emptied(t, c, S, x) <==> Emptied(t, c, S + {ch}, x));
  }

  lemma LeaveOneMoreIdents(t: Tables, c: ClientId, S: set<ChannelId>, ch: ChannelId)
    requires Inv(t) && ch in t.id2channel && ch !in S
    requires CanLeave(LeaveSet(t, c, S), c, ch)
    requires ch in LeaveSet(t, c, S).id2channel
    requires Get(LeaveSet(t, c, S).participants, ch) - {c} == {} <==> Emptied(t, c, S + {ch}, ch)
    ensures Leave(LeaveSet(t, c, S), c, ch).ident2channel == LeaveSet(t, c, S + {ch}).ident2channel
  {
    assert forall x :: x != ch ==> (Emptied(t, c, S, x) <==> Emptied(t, c, S + {ch}, x));
    assert !Emptied(t, c, S, ch);
  }

  // ---------------------------------------------------------------- the invariant over runs

  datatype Op =
    | OpCreate(ident: string)
    | OpJoin(c: ClientId, ch: ChannelId)
    | OpLeave(c: ClientId, ch: ChannelId)
    | OpLeaveAll(c: ClientId)
    | OpCreateRequest(c: ClientId)
    | OpJoinRequest(c: ClientId, id: int, ident: string, admitted: bool)

  type Run = Trace<Op>

  /** Only live channels are left, as the leave action checks. */
  ghost predicate Allowed(t: Tables, op: Op) {
    op.OpLeave? ==> op.ch in t.id2channel
  }

  ghost function Apply(t: Tables, op: Op): Tables
    requires Allowed(t, op)
  {
    match op
    case OpCreate(ident) => Create(t, ident)
    case OpJoin(c, ch) => Join(t, c, ch)
    case OpLeave(c, ch) => Leave(t, c, ch)
    case OpLeaveAll(c) => LeaveAll(t, c)
    case OpCreateRequest(c) => CreateRequest(t, c)
    case OpJoinRequest(c, id, ident, admitted) => JoinRequest(t, c, id, ident, admitted)
  }

  ghost predicate Possible(r: Run)
    decreases r, 0
  {
    r.Start? || (Possible(r.prev) && Allowed(After(r.prev), r.e))
  }

  ghost function After(r: Run): Tables
    requires Possible(r)
    decreases r, 1
  {
    if r.Start? then NONE else Apply(After(r.prev), r.e)
  }

  /** Creating gives a new id, touches no membership, and keeps the invariant. */
  lemma CreateKeepsInv(t: Tables, ident: string)
    requires Inv(t)
    ensures Inv(Create(t, ident))
    ensures Create(t, ident).nextChannelId !in t.id2channel
    ensures forall c, ch :: Member(Create(t, ident), c, ch) <==> Member(t, c, ch)
  {
    var u := Create(t, ident);
    assert forall c, ch :: Member(u, c, ch) <==> Member(t, c, ch);
    assert u.nextChannelId !in t.id2channel;
  }

  /** Joining adds exactly the one pair. */
  lemma JoinKeepsInv(t: Tables, c: ClientId, ch: ChannelId)
    requires Inv(t)
    ensures Inv(Join(t, c, ch))
    ensures forall x, y :: Member(Join(t, c, ch), x, y) <==>
              Member(t, x, y) || (x == c && y == ch && ch in t.id2channel)
  {
    var u := Join(t, c, ch);
    forall x, y
      ensures Member(u, x, y) <==> Member(t, x, y) || (x == c && y == ch && ch in t.id2channel)
      ensures y in Get(u.client2channels, x) <==>
                y in Get(t.client2channels, x) || (x == c && y == ch && ch in t.id2channel)
    {}
  }

  /** Leaving a live channel removes exactly the one pair, and the channel with its
      identifier entry if nobody is left in it. */
  lemma LeaveKeepsInv(t: Tables, c: ClientId, ch: ChannelId)
    requires Inv(t) && ch in t.id2channel
    ensures Inv(Leave(t, c, ch))
    ensures forall x, y :: Member(Leave(t, c, ch), x, y) <==> Member(t, x, y) && !(x == c && y == ch)
    ensures forall y :: y in Leave(t, c, ch).id2channel <==>
              y in t.id2channel && !(y == ch && forall x :: Member(t, x, ch) ==> x == c)
  {
    var u := Leave(t, c, ch);
    forall x, y
      ensures Member(u, x, y) <==> Member(t, x, y) && !(x == c && y == ch)
      ensures y in Get(u.client2channels, x) <==> y in Get(t.client2channels, x) && !(x == c && y == ch)
    {}
    LastOneOut(t, c, ch);
  }

  lemma LastOneOut(t: Tables, c: ClientId, ch: ChannelId)
    ensures Get(t.participants, ch) - {c} == {} <==> forall x :: Member(t, x, ch) ==> x == c
  {
    var left := Get(t.participants, ch) - {c};
    if left != {} {
      var x :| x in left;
      assert Member(t, x, ch);
    } else {
      forall x | Member(t, x, ch) ensures x == c {
        assert x in left || x == c;
      }
    }
  }

  /** Leaving all channels removes exactly the pairs of that client. */
  lemma LeaveAllKeepsInv(t: Tables, c: ClientId)
    requires Inv(t)
    ensures Inv(LeaveAll(t, c))
    ensures forall x, y :: Member(LeaveAll(t, c), x, y) <==> Member(t, x, y) && x != c
    ensures c !in LeaveAll(t, c).client2channels
    ensures forall y :: y in LeaveAll(t, c).id2channel <==>
              y in t.id2channel && !(y in t.participants && t.participants[y] == {c})
  {
    var S := Get(t.client2channels, c);
    var u := LeaveAll(t, c);
    assert S - S == {};
    forall x, y
      ensures Member(u, x, y) <==> Member(t, x, y) && x != c
      ensures y in Get(u.client2channels, x) <==> y in Get(t.client2channels, x) && x != c
    {
      assert Member(t, c, y) <==> y in S;
    }
    forall ch | ch in u.participants
      ensures u.participants[ch] != {}
    {
      assert Member(t, c, ch) <==> ch in S;
    }
    forall y
      ensures Emptied(t, c, S, y) <==> y in t.participants && t.participants[y] == {c}
    {
      assert Member(t, c, y) <==> y in S;
    }
  }

  lemma CreateRequestKeepsInv(t: Tables, c: ClientId)
    requires Inv(t)
    ensures Inv(CreateRequest(t, c))
    ensures forall x, y :: Member(CreateRequest(t, c), x, y) <==>
        Member(t, x, y) || (x == c && y == t.nextChannelId + 1)
  {
    CreateKeepsInv(t, "");
    JoinKeepsInv(Create(t, ""), c, t.nextChannelId + 1);
  }

  /** The one pair a join request may add: by id if one is given, else by identifier; to an
      existing channel only if its password was right, and to a new one if there is none but an
      identifier. */
  ghost predicate JoinAdds(t: Tables, id: int, ident: string, admitted: bool, ch: ChannelId) {
    if id > 0 && id in t.id2channel then admitted && ch == id
    else if id <= 0 && ident in t.ident2channel then admitted && ch == t.ident2channel[ident]
    else ident != "" && ch == t.nextChannelId + 1
  }

  /** A join request adds exactly that pair. */
  lemma JoinRequestKeepsInv(t: Tables, c: ClientId, id: int, ident: string, admitted: bool)
    requires Inv(t)
    ensures Inv(JoinRequest(t, c, id, ident, admitted))
    ensures forall x, y :: Member(JoinRequest(t, c, id, ident, admitted), x, y) <==>
              Member(t, x, y) || (x == c && JoinAdds(t, id, ident, admitted, y))
    ensures Joins(t, id, ident, admitted) <==> exists ch :: JoinAdds(t, id, ident, admitted, ch)
  {
    var ch := Lookup(t, id, ident);
    if ch in t.id2channel {
      JoinKeepsInv(t, c, ch);
      assert JoinAdds(t, id, ident, admitted, ch) <==> admitted;
    } else {
      CreateKeepsInv(t, ident);
      JoinKeepsInv(Create(t, ident), c, t.nextChannelId + 1);
      assert JoinAdds(t, id, ident, admitted, t.nextChannelId + 1) <==> ident != "";
    }
  }

  /** A new channel carries its identifier. */
  lemma CreateAddsChannel(t: Tables, ident: string)
    ensures var u := Create(t, ident);
      && u.id2channel == t.id2channel[t.nextChannelId + 1 := Channel(t.nextChannelId + 1, ident)]
      && (ident != "" ==> ident in u.ident2channel && u.ident2channel[ident] == t.nextChannelId + 1)
  {}

  /** A leave request removes exactly the one pair, and the channel with it exactly if nobody
      else was in it; for a channel that does not exist it changes nothing. */
  lemma LeaveRequestKeepsInv(t: Tables, c: ClientId, ch: ChannelId)
    requires Inv(t)
    ensures Inv(LeaveRequest(t, c, ch))
    ensures forall x, y :: Member(LeaveRequest(t, c, ch), x, y) <==> Member(t, x, y) && !(x == c && y == ch)
    ensures forall y :: y in LeaveRequest(t, c, ch).id2channel <==>
              y in t.id2channel && !(y == ch && forall x :: Member(t, x, ch) ==> x == c)
    ensures ch !in t.id2channel ==> LeaveRequest(t, c, ch) == t
  {
    if ch in t.id2channel {
      LeaveKeepsInv(t, c, ch);
    }
  }

  lemma OpKeepsInv(t: Tables, op: Op)
    requires Inv(t) && Allowed(t, op)
    ensures Inv(Apply(t, op))
  {
    match op
    case OpCreate(ident) => CreateKeepsInv(t, ident);
    case OpJoin(c, ch) => JoinKeepsInv(t, c, ch);
    case OpLeave(c, ch) => LeaveKeepsInv(t, c, ch);
    case OpLeaveAll(c) => LeaveAllKeepsInv(t, c);
    case OpCreateRequest(c) => CreateRequestKeepsInv(t, c);
    case OpJoinRequest(c, id, ident, admitted) => JoinRequestInv(t, c, id, ident, admitted);
  }

  lemma JoinRequestInv(t: Tables, c: ClientId, id: int, ident: string, admitted: bool)
    requires Inv(t)
    ensures Inv(JoinRequest(t, c, id, ident, admitted))
  {
    JoinRequestKeepsInv(t, c, id, ident, admitted);
  }

  /** After any run of create, join, leave and leave-all the tables agree with each other. */
  lemma {:induction false} MembershipInvariant(r: Run)
    requires Possible(r)
    ensures Inv(After(r))
  {
    if r.Then? {
      MembershipInvariant(r.prev);
      OpKeepsInv(After(r.prev), r.e);
    }
  }

  /** Channel ids are never reused: whatever happens after a channel is gone, its id names
      no channel again. */
  lemma {:induction false} ChannelIdsNotReused(r: Run, base: Run, ch: ChannelId)
    requires Possible(r) && Extends(r, base) && Possible(base)
    requires ch <= After(base).nextChannelId && ch !in After(base).id2channel
    ensures ch <= After(r).nextChannelId && ch !in After(r).id2channel
  {
    if r != base {
      ChannelIdsNotReused(r.prev, base, ch);
      IdStaysFree(After(r.prev), r.e, ch);
    }
  }

  lemma IdStaysFree(t: Tables, op: Op, ch: ChannelId)
    requires Allowed(t, op) && ch <= t.nextChannelId && ch !in t.id2channel
    ensures ch <= Apply(t, op).nextChannelId && ch !in Apply(t, op).id2channel
  {}

  // ---------------------------------------------------------------- identifiers

  /** Identifiers keep resolving over a creation exactly if the new one is empty or unused. */
  lemma CreateKeepsResolution(t: Tables, ident: string)
    requires Inv(t) && Resolves(t)
    ensures Resolves(Create(t, ident)) <==> ident == "" || ident !in t.ident2channel
  {
    var u := Create(t, ident);
    if ident != "" && ident in t.ident2channel {
      var old_ := t.ident2channel[ident];
      assert old_ in u.id2channel && u.id2channel[old_].ident == ident;
      assert u.ident2channel[ident] != old_;
    }
  }

  lemma LeaveKeepsResolution(t: Tables, c: ClientId, ch: ChannelId)
    requires Inv(t) && Resolves(t) && ch in t.id2channel
    ensures Resolves(Leave(t, c, ch))
  {}

  lemma LeaveAllKeepsResolution(t: Tables, c: ClientId)
    requires Inv(t) && Resolves(t)
    ensures Resolves(LeaveAll(t, c))
  {
    LeaveAllKeepsInv(t, c);
  }

  lemma JoinKeepsResolution(t: Tables, c: ClientId, ch: ChannelId)
    ensures Resolves(Join(t, c, ch)) <==> Resolves(t)
  {}

  /** Identifiers keep resolving over a join request exactly if it does not name a missing
      channel id together with an identifier in use. */
  lemma JoinRequestKeepsResolution(t: Tables, c: ClientId, id: int, ident: string, admitted: bool)
    requires Inv(t) && Resolves(t)
    ensures Resolves(JoinRequest(t, c, id, ident, admitted)) <==> !Clashes(t, id, ident)
  {
    var ch := Lookup(t, id, ident);
    if ch in t.id2channel {
      JoinKeepsResolution(t, c, ch);
    } else if ident != "" {
      CreateKeepsResolution(t, ident);
      JoinKeepsResolution(Create(t, ident), c, t.nextChannelId + 1);
    }
  }

  /** No operation took an identifier in use for a new channel. */
  ghost predicate UnusedIdents(r: Run)
    requires Possible(r)
  {
    r.Start? || (
      && UnusedIdents(r.prev)
      && (r.e.OpCreate? ==> r.e.ident == "" || r.e.ident !in After(r.prev).ident2channel)
      && (r.e.OpJoinRequest? ==> !Clashes(After(r.prev), r.e.id, r.e.ident)))
  }

  /** Every live identifier resolves to its channel, at every point of the run. */
  ghost predicate AlwaysResolves(r: Run)
    requires Possible(r)
  {
    Resolves(After(r)) && (r.Then? ==> AlwaysResolves(r.prev))
  }

  lemma OpKeepsResolution(t: Tables, op: Op)
    requires Inv(t) && Resolves(t) && Allowed(t, op)
    ensures Resolves(Apply(t, op)) <==>
              && (op.OpCreate? ==> op.ident == "" || op.ident !in t.ident2channel)
              && (op.OpJoinRequest? ==> !Clashes(t, op.id, op.ident))
  {
    match op
    case OpCreate(ident) => CreateKeepsResolution(t, ident);
    case OpJoin(c, ch) => JoinKeepsResolution(t, c, ch);
    case OpLeave(c, ch) => LeaveKeepsResolution(t, c, ch);
    case OpLeaveAll(c) => LeaveAllKeepsResolution(t, c);
    case OpCreateRequest(c) =>
      CreateKeepsResolution(t, "");
      JoinKeepsResolution(Create(t, ""), c, t.nextChannelId + 1);
    case OpJoinRequest(c, id, ident, admitted) => JoinRequestKeepsResolution(t, c, id, ident, admitted);
  }

  /** Over every run: every live identifier resolves to its own channel at all times if and
      only if no operation took an identifier in use for a new channel. */
  lemma {:induction false} IdentifiersResolve(r: Run)
    requires Possible(r)
    ensures AlwaysResolves(r) <==> UnusedIdents(r)
  {
    match r
    case Start =>
    case Then(prev, op) =>
      IdentifiersResolve(prev);
      MembershipInvariant(prev);
      if UnusedIdents(prev) {
        OpKeepsResolution(After(prev), op);
      }
  }

  /** A run that fails: a client creates channel 1 by joining "x", and then joins the missing
      channel 7 as "x". Both channels are live under "x", which resolves to the second. */
  lemma IdentifiersCanClash()
    ensures var r := Then(Then(Start, OpJoinRequest(1, 0, "x", true)), OpJoinRequest(1, 7, "x", true));
      && Possible(r) && !Resolves(After(r))
      && After(r).id2channel == map[1 := Channel(1, "x"), 2 := Channel(2, "x")]
      && After(r).ident2channel == map["x" := 2]
  {
    var first := Then(Start, OpJoinRequest(1, 0, "x", true));
    assert After(first).id2channel == map[1 := Channel(1, "x")];
    assert After(first).ident2channel == map["x" := 1];
    var r := Then(first, OpJoinRequest(1, 7, "x", true));
    assert 1 in After(r).id2channel;
  }
}
