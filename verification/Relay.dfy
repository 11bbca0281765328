/** MediaSocketHandler: the server's UDP relay over the routing table. */
module Relay {
  import opened Wrappers
  import opened Bytes
  import opened Stream
  import opened MediaProtocol

  const TYPE_AUTH: byte := 0x01
  const READ_BUFFER: nat := 4096

  /** QHostAddress; None is the null address. */
  type Address = Option<string>

  datatype Receiver = Receiver(clientId: int, address: Address, port: u16)

  datatype Sender = Sender(clientId: int, address: Address, port: u16, receivers: seq<Receiver>)

  /** MediaRecipients */
  datatype Recipients = Recipients(
    addr2sender: map<Address, map<u16, Sender>>,
    clientid2receiver: map<int, Receiver>)

  const NO_RECIPIENTS := Recipients(map[], map[])
  const NO_SENDER := Sender(0, None, 0, [])
  const NO_RECEIVER := Receiver(0, None, 0)

  function SendersAt(r: Recipients, a: Address): map<u16, Sender> {
    if a in r.addr2sender then r.addr2sender[a] else map[]
  }

  function SenderAt(r: Recipients, a: Address, port: u16): Option<Sender> {
    if port in SendersAt(r, a) then Some(SendersAt(r, a)[port]) else None
  }

  /** Where datagrams from an endpoint go. */
  function Route(r: Recipients, a: Address, port: u16): seq<Receiver> {
    match SenderAt(r, a, port) case Some(s) => s.receivers case None => []
  }

  function ReceiverById(r: Recipients, id: int): Receiver {
    if id in r.clientid2receiver then r.clientid2receiver[id] else NO_RECEIVER
  }

  /** Both tables answer every question alike. */
  ghost predicate SameRoutes(r: Recipients, q: Recipients) {
    && (forall a, port :: Route(r, a, port) == Route(q, a, port))
    && (forall id :: ReceiverById(r, id) == ReceiverById(q, id))
  }

  /** A datagram written to the socket. */
  datatype Packet = Packet(address: Address, port: u16, data: seq<byte>)

  /** A datagram received from the socket. */
  datatype Arrival = Arrival(data: seq<byte>, address: Address, port: u16)

  /** A token announced by tokenAuthentication. */
  datatype Token = Token(bytes: seq<byte>, address: Address, port: u16)

  /** What readDatagram leaves in the buffer. */
  function Taken(x: Arrival): (r: seq<byte>)
    ensures |x.data| <= READ_BUFFER ==> r == x.data
  {
    if |x.data| <= READ_BUFFER then x.data else x.data[..READ_BUFFER]
  }

  datatype Kind = Other | Auth(rest: seq<byte>) | VideoPart | Recovery(rest: seq<byte>)

  function KindOf(data: seq<byte>): Kind {
    var magic := Read8(data);
    if magic.value != MAGIC then Other
    else
      var kind := Read8(magic.rest);
      if kind.value == TYPE_AUTH then Auth(kind.rest)
      else if kind.value == TYPE_VIDEO then VideoPart
      else if kind.value == TYPE_RECOVERY then Recovery(kind.rest)
      else Other
  }

  function CopyTo(receivers: seq<Receiver>, data: seq<byte>): (r: seq<Packet>)
    ensures |r| == |receivers|
  {
    seq(|receivers|, i requires 0 <= i < |receivers| => Packet(receivers[i].address, receivers[i].port, data))
  }

  /** The specification: a video part is copied to its sender's receivers, a recovery
      request goes to the one client it names. */
  function Forward(r: Recipients, x: Arrival): seq<Packet> {
    match KindOf(Taken(x))
    case VideoPart => CopyTo(Route(r, x.address, x.port), Taken(x))
    case Recovery(rest) =>
      var to := ReceiverById(r, ToSigned(Read32(rest).value));
      if to.address.None? || to.port == 0 then [] else [Packet(to.address, to.port, Taken(x))]
    case _ => []
  }

  /** The token an auth datagram announces, unless it is cut short. */
  function Announce(x: Arrival): Option<Token> {
    match KindOf(Taken(x))
    case Auth(rest) =>
      var size := Read16(rest);
      if |size.rest| < size.value then None else Some(Token(size.rest[..size.value], x.address, x.port))
    case _ => None
  }

  /** The table with the default entry that looking up the datagram's route inserts. */
  function Touched(r: Recipients, x: Arrival): Recipients {
    match KindOf(Taken(x))
    case VideoPart => TouchedSender(r, x.address, x.port)
    case Recovery(rest) => TouchedReceiver(r, ToSigned(Read32(rest).value))
    case _ => r
  }

  function TouchedSender(r: Recipients, a: Address, port: u16): Recipients {
    var senders := SendersAt(r, a);
    r.(addr2sender := r.addr2sender[a := if port in senders then senders else senders[port := NO_SENDER]])
  }

  function TouchedReceiver(r: Recipients, id: int): Recipients {
    if id in r.clientid2receiver then r
    else r.(clientid2receiver := r.clientid2receiver[id := NO_RECEIVER])
  }

  /** The inserted entries never change where anything is routed. */
  lemma TouchedSameRoutes(r: Recipients, x: Arrival)
    ensures SameRoutes(Touched(r, x), r)
  {
    var t := Touched(r, x);
    forall a, port
      ensures Route(t, a, port) == Route(r, a, port)
    {}
  }

  function PacketBytes(ps: seq<Packet>): nat {
    if ps == [] then 0 else PacketBytes(ps[..|ps| - 1]) + |ps[|ps| - 1].data|
  }

  lemma {:induction false} PacketBytesAppend(ps: seq<Packet>, qs: seq<Packet>)
    ensures PacketBytes(ps + qs) == PacketBytes(ps) + PacketBytes(qs)
  {
    if qs == [] {
      assert ps + qs == ps;
    } else {
      var n := |qs| - 1;
      PacketBytesAppend(ps, qs[..n]);
      assert (ps + qs)[..|ps| + n] == ps + qs[..n];
    }
  }

  /** Fan-out costs the datagram's length once per receiver. */
  lemma {:induction false} FanOutBytes(receivers: seq<Receiver>, data: seq<byte>)
    ensures PacketBytes(CopyTo(receivers, data)) == |data| * |receivers|
  {
    if receivers != [] {
      var n := |receivers| - 1;
      FanOutBytes(receivers[..n], data);
      assert CopyTo(receivers, data)[..n] == CopyTo(receivers[..n], data);
      assert |data| * |receivers| == |data| * n + |data|;
    }
  }

  function CopyCost(r: Recipients, x: Arrival): nat {
    match KindOf(Taken(x))
    case VideoPart => |Taken(x)| * |Route(r, x.address, x.port)|
    case Recovery(_) => if Forward(r, x) == [] then 0 else |Taken(x)|
    case _ => 0
  }

  /** Bytes written for one datagram: length times fan-out for a video part, the length of a
      forwarded recovery request, and nothing otherwise. */
  lemma ForwardCost(r: Recipients, x: Arrival)
    ensures PacketBytes(Forward(r, x)) == CopyCost(r, x)
  {
    match KindOf(Taken(x))
    case VideoPart => FanOutBytes(Route(r, x.address, x.port), Taken(x));
    case Recovery(_) =>
      if Forward(r, x) != [] {
        assert Forward(r, x)[..0] == [];
      }
    case Auth(_) =>
    case Other =>
  }

  lemma SameRoutesTransitive(r: Recipients, q: Recipients, p: Recipients)
    requires SameRoutes(r, q) && SameRoutes(q, p)
    ensures SameRoutes(r, p)
  {}

  lemma SameRoutesForward(r: Recipients, q: Recipients, x: Arrival)
    requires SameRoutes(r, q)
    ensures Forward(r, x) == Forward(q, x)
  {}

  /** Every part of a split video frame reaches each receiver of its sender unchanged. */
  lemma SplitPartsRelayed(r: Recipients, sender: i32, frameId: u64, data: seq<byte>, i: nat, a: Address, port: u16)
    requires Splittable(VideoMedia, data) && i < PartCount(VideoMedia, |data|)
    ensures var wire := Encode(Parts(VideoMedia, sender, frameId, data)[i]);
      Forward(r, Arrival(wire, a, port)) == CopyTo(Route(r, a, port), wire)
  {
    var d := Parts(VideoMedia, sender, frameId, data)[i];
    PartFitsDatagram(VideoMedia, sender, frameId, data, i);
    var rest := EncodeRest(d.sender, d.frameId, d.index, d.count, d.data);
    ReadBack8(MAGIC, Write8(TYPE_VIDEO) + (Write8(d.flags) + rest));
    ReadBack8(TYPE_VIDEO, Write8(d.flags) + rest);
  }

  /** sendAuthTokenDatagram, for the UTF-8 bytes of a token. */
  function AuthDatagram(token: seq<byte>): seq<byte>
    requires |token| < 0x1_0000
  {
    Write8(MAGIC) + (Write8(TYPE_AUTH) + (Write16(|token|) + token))
  }

  /** The relay announces the token a client sent, with the endpoint it came from, if the
      datagram fits the read buffer. */
  lemma AuthAnnounces(token: seq<byte>, a: Address, port: u16)
    requires |token| + 4 <= READ_BUFFER
    ensures Announce(Arrival(AuthDatagram(token), a, port)) == Some(Token(token, a, port))
  {
    ReadBack8(MAGIC, Write8(TYPE_AUTH) + (Write16(|token|) + token));
    ReadBack8(TYPE_AUTH, Write16(|token|) + token);
    ReadBack16(|token|, token);
    assert token[..|token|] == token;
  }

  /** The token's datagram, byte by byte: magic, type, size, token. */
  lemma AuthLayout(token: seq<byte>)
    requires |token| < 0x1_0000
    ensures var w := AuthDatagram(token);
      |w| == 4 + |token| && w[0] == 0xAE && w[1] == 0x01 && w[2..4] == BigEndian(2, |token|) && w[4..] == token
  {
    OneByte(MAGIC);
    OneByte(TYPE_AUTH);
    var size := Write16(|token|);
    var tail := size + token;
    assert AuthDatagram(token) == [MAGIC] + ([TYPE_AUTH] + tail);
    assert tail[..2] == size && tail[2..] == token;
  }

  /** A token cut short is not announced. */
  lemma ShortTokenIgnored(size: u16, token: seq<byte>, a: Address, port: u16)
    requires |token| < size && |token| + 4 <= READ_BUFFER
    ensures Announce(Arrival(Write8(MAGIC) + (Write8(TYPE_AUTH) + (Write16(size) + token)), a, port)) == None
  {
    ReadBack8(MAGIC, Write8(TYPE_AUTH) + (Write16(size) + token));
    ReadBack8(TYPE_AUTH, Write16(size) + token);
    ReadBack16(size, token);
  }

  /** Without the magic byte, or with a type other than token, video part and recovery request,
      a datagram is neither forwarded nor announced, and leaves the table alone. */
  lemma OthersIgnored(r: Recipients, x: Arrival)
    requires |x.data| <= 4096
    requires x.data == [] || x.data[0] != 0xAE || |x.data| == 1 ||
             (x.data[1] != 0x01 && x.data[1] != 0x02 && x.data[1] != 0x03)
    ensures Forward(r, x) == [] && Announce(x) == None && Touched(r, x) == r
  {
    if x.data != [] {
      ReadByte(x.data);
      if |x.data| > 1 {
        ReadByte(x.data[1..]);
      }
    }
  }

  /** Audio parts are not relayed. */
  lemma AudioNotRelayed(r: Recipients, d: Datagram, a: Address, port: u16)
    requires d.Audio? && |d.data| <= 492
    ensures Forward(r, Arrival(Encode(d), a, port)) == []
  {
    WireLayout(d);
    OthersIgnored(r, Arrival(Encode(d), a, port));
  }

  class MediaSocketHandler {
    var recipients: Recipients
    var bytesRead: nat
    var bytesWritten: nat
    var sent: seq<Packet>  // what writeDatagram was given

    constructor ()
      ensures recipients == NO_RECIPIENTS && bytesRead == bytesWritten == 0 && sent == []
    {
      recipients, bytesRead, bytesWritten, sent := NO_RECIPIENTS, 0, 0, [];
    }

    method SetRecipients(rec: Recipients)
      modifies this`recipients
      ensures recipients == rec
    {
      recipients := rec;
    }

    method WriteDatagram(data: seq<byte>, to: Receiver)
      modifies this`sent, this`bytesWritten
      ensures sent == old(sent) + [Packet(to.address, to.port, data)]
      ensures bytesWritten == old(bytesWritten) + |data|
    {
      sent := sent + [Packet(to.address, to.port, data)];
      bytesWritten := bytesWritten + |data|;
    }

    /** One turn of the onReadyRead loop, up to the signal that announces a token. */
    method OnDatagram(x: Arrival) returns (token: Option<Token>)
      modifies this
      ensures recipients == Touched(old(recipients), x)
      ensures sent == old(sent) + Forward(old(recipients), x)
      ensures bytesRead == old(bytesRead) + |Taken(x)|
      ensures bytesWritten == old(bytesWritten) + PacketBytes(Forward(old(recipients), x))
      ensures token == Announce(x)
    {
      var data := Taken(x);
      bytesRead := bytesRead + |data|;
      token := None;
      match KindOf(data) {
        case Auth(rest) =>
          var size := Read16(rest);
          if |size.rest| >= size.value {
            token := Some(Token(size.rest[..size.value], x.address, x.port));
          }
        case VideoPart =>
          Relay(data, x.address, x.port);
        case Recovery(rest) =>
          Recover(data, ToSigned(Read32(rest).value));
        case Other =>
      }
    }

    /** addr2sender[address][port]: the lookup inserts a sender without receivers. */
    method LookupSender(address: Address, port: u16) returns (s: Sender)
      modifies this`recipients
      ensures recipients == TouchedSender(old(recipients), address, port)
      ensures s.receivers == Route(old(recipients), address, port)
    {
      var senders := SendersAt(recipients, address);
      if port !in senders {
        senders := senders[port := NO_SENDER];
      }
      recipients := recipients.(addr2sender := recipients.addr2sender[address := senders]);
      return senders[port];
    }

    method Relay(data: seq<byte>, address: Address, port: u16)
      modifies this
      ensures recipients == TouchedSender(old(recipients), address, port)
      ensures sent == old(sent) + CopyTo(Route(old(recipients), address, port), data)
      ensures bytesWritten == old(bytesWritten) + PacketBytes(CopyTo(Route(old(recipients), address, port), data))
      ensures bytesRead == old(bytesRead)
    {
      var sender := LookupSender(address, port);
      ghost var copies := CopyTo(sender.receivers, data);
      label L:
      for i := 0 to |sender.receivers|
        invariant recipients == old@L(recipients) && bytesRead == old(bytesRead)
        invariant sent == old(sent) + copies[..i]
        invariant bytesWritten == old(bytesWritten) + PacketBytes(copies[..i])
      {
        assert copies[..i + 1][..i] == copies[..i];
        WriteDatagram(data, sender.receivers[i]);
      }
      assert copies[..|copies|] == copies;
    }

    method Recover(data: seq<byte>, id: int)
      modifies this
      ensures recipients == TouchedReceiver(old(recipients), id)
      ensures var to := ReceiverById(old(recipients), id);
              var out := if to.address.None? || to.port == 0 then [] else [Packet(to.address, to.port, data)];
              sent == old(sent) + out && bytesWritten == old(bytesWritten) + PacketBytes(out)
      ensures bytesRead == old(bytesRead)
    {
      if id !in recipients.clientid2receiver {
        recipients := recipients.(clientid2receiver := recipients.clientid2receiver[id := NO_RECEIVER]);
      }
      var receiver := recipients.clientid2receiver[id];
      if receiver.address.None? || receiver.port == 0 {
        return;
      }
      assert [Packet(receiver.address, receiver.port, data)][..0] == [];
      WriteDatagram(data, receiver);
    }
  }
}
