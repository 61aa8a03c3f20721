/** The UDP server of server/RawUdpServer.cpp: a socket, one connection object per peer, and the room that holds them.
    Self-suppression compares connection objects, so it is right only while no endpoint has two connections. */
module UdpRoom {
  import opened Wire
  import opened Relay
  import opened UdpRelay
  import opened NetPackets

  class Socket {
    var sent: seq<Datagram>

    constructor ()
      ensures sent == []
    {
      sent := [];
    }

    method SendTo(data: Bytes, destination: Endpoint)
      modifies this
      ensures sent == old(sent) + [Datagram(destination, data)]
    {
      sent := sent + [Datagram(destination, data)];
    }
  }

  class RawUdpConnection {
    const room: RawUdpRoom
    const socket: Socket
    const remoteEndpoint: Endpoint

    constructor (socket: Socket, remoteEndpoint: Endpoint, room: RawUdpRoom)
      ensures this.socket == socket && this.remoteEndpoint == remoteEndpoint && this.room == room
    {
      this.socket, this.remoteEndpoint, this.room := socket, remoteEndpoint, room;
    }

    method Send(msg: NetPacket)
      modifies socket
      ensures socket.sent == old(socket.sent) + [Datagram(remoteEndpoint, msg.wholePacket)]
    {
      socket.SendTo(msg.wholePacket, remoteEndpoint);
    }

    method OnReceived(data: array<Byte>, received: nat, stamp: Stamp)
      requires received <= data.Length <= RECEIVE_BUFFER
      requires room.Valid(socket) && this in room.peers
      modifies room, socket
      ensures room.Valid(socket)
      ensures room.Endpoints() == match Accept(data[..received])
                                  case None => old(room.Endpoints())
                                  case Some(packet) => RoomAfter(old(room.Endpoints()), remoteEndpoint, packet)
      ensures Extends(old(socket.sent), socket.sent,
                      match Accept(data[..received])
                      case None => multiset{}
                      case Some(packet) => Replies(room.Mode(), old(room.Endpoints()), remoteEndpoint, packet, stamp))
    {
      if Accept(data[..received]).Some? {
        AcceptedIsWellFormed(data[..received]);
      }
      var newPacket := MakePacket(data, received, stamp);
      if newPacket != null {
        room.ProcessClientMessagePayload(newPacket, this, stamp);
      }
    }
  }

  /** The socket sent exactly these datagrams more, in some order. */
  ghost predicate Extends(before: seq<Datagram>, after: seq<Datagram>, replies: multiset<Datagram>) {
    before <= after && multiset(after[|before|..]) == replies
  }

  /** So nothing sent earlier is lost or moved, and of every datagram exactly that many copies are added. */
  lemma ExtendsCounts(before: seq<Datagram>, after: seq<Datagram>, replies: multiset<Datagram>, d: Datagram)
    requires Extends(before, after, replies)
    ensures before <= after && multiset(after)[d] == multiset(before)[d] + replies[d]
  {
    assert after == before + after[|before|..];
  }

  function EndpointsOf(peers: set<RawUdpConnection>): set<Endpoint> {
    set p | p in peers :: p.remoteEndpoint
  }

  class RawUdpRoom {
    var peers: set<RawUdpConnection>
    const isEchoMode: bool

    constructor (isEchoMode: bool, socket: Socket)
      ensures Valid(socket) && Endpoints() == {} && this.isEchoMode == isEchoMode
    {
      this.isEchoMode := isEchoMode;
      peers := {};
    }

    /** Every connection belongs here, and no endpoint has two of them. */
    ghost predicate Valid(socket: Socket)
      reads this
    {
      && (forall p :: p in peers ==> p.room == this && p.socket == socket)
      && (forall p, q :: p in peers && q in peers && p.remoteEndpoint == q.remoteEndpoint ==> p == q)
    }

    function Endpoints(): set<Endpoint>
      reads this
    {
      EndpointsOf(peers)
    }

    function Mode(): (mode: Mode)
      ensures mode.Echo? <==> isEchoMode
    {
      if isEchoMode then Echo else Broadcast
    }

    method FindPeer(endpoint: Endpoint) returns (peer: RawUdpConnection?)
      ensures peer == null <==> endpoint !in Endpoints()
      ensures peer != null ==> peer in peers && peer.remoteEndpoint == endpoint
    {
      var rest := peers;
      while rest != {}
        invariant rest <= peers
        invariant endpoint !in EndpointsOf(peers - rest)
      {
        var p :| p in rest;
        if p.remoteEndpoint == endpoint {
          assert endpoint in EndpointsOf(peers);
          return p;
        }
        rest := rest - {p};
      }
      assert peers - rest == peers;
      return null;
    }

    /** One received datagram: registers the sender when it is new, then hands it the data. */
    method Insert(socket: Socket, endpoint: Endpoint, data: array<Byte>, received: nat, stamp: Stamp)
      requires 0 < received <= data.Length <= RECEIVE_BUFFER && Valid(socket)
      modifies this, socket
      ensures Valid(socket)
      ensures Endpoints() == ServeRoom(old(Endpoints()), Datagram(endpoint, data[..received]))
      ensures Extends(old(socket.sent), socket.sent,
                      ServeReplies(Mode(), old(Endpoints()), Datagram(endpoint, data[..received]), stamp))
    {
      var peer := FindPeer(endpoint);
      if peer == null {
        peer := new RawUdpConnection(socket, endpoint, this);
        peers := peers + {peer};
      }
      assert Endpoints() == old(Endpoints()) + {endpoint};
      peer.OnReceived(data, received, stamp);
    }

    method KickMeOut(me: RawUdpConnection)
      modifies this
      ensures peers == old(peers) - {me}
    {
      peers := peers - {me};
    }

    method ProcessClientMessagePayload(msg: NetPacket, sender: RawUdpConnection, stamp: Stamp)
      requires WellFormed(msg.wholePacket) && Valid(sender.socket) && sender in peers
      modifies this, sender.socket
      ensures Valid(sender.socket)
      ensures Endpoints() == RoomAfter(old(Endpoints()), sender.remoteEndpoint, msg.wholePacket)
      ensures Extends(old(sender.socket.sent), sender.socket.sent,
                      Replies(Mode(), old(Endpoints()), sender.remoteEndpoint, msg.wholePacket, stamp))
    {
      var kind := KindOf(msg.wholePacket);
      if kind == HEARTBEAT_REQUEST {
        var answer := new NetPacket.Blank(HEARTBEAT_RESPONSE, 0, stamp);
        sender.Send(answer);
      } else if kind == TEXT_MESSAGE || kind == AUDIO_MESSAGE || kind == AUDIO_MESSAGE_CN {
        if isEchoMode {
          sender.Send(msg);
        } else {
          SendToOthers(msg, sender);
        }
      } else if kind == LOGIN_REQUEST {
        var answer := new NetPacket.Blank(LOGIN_RESPONSE, 0, stamp);
        sender.Send(answer);
      } else if kind == LOGOUT_REQUEST {
        KickMeOut(sender);
        assert Endpoints() == old(Endpoints()) - {sender.remoteEndpoint};
      }
    }

    /** The broadcast loop: whatever order the peers come in, each other endpoint gets exactly one copy. */
    method SendToOthers(msg: NetPacket, sender: RawUdpConnection)
      requires Valid(sender.socket) && sender in peers
      modifies sender.socket
      ensures Extends(old(sender.socket.sent), sender.socket.sent,
                      multiset(Copies(Endpoints() - {sender.remoteEndpoint}, msg.wholePacket)))
    {
      var rest := peers;
      ghost var copies := [];
      while rest != {}
        invariant rest <= peers
        invariant sender.socket.sent == old(sender.socket.sent) + copies
        invariant multiset(copies)
               == multiset(Copies(EndpointsOf(peers - rest) - {sender.remoteEndpoint}, msg.wholePacket))
      {
        var participant :| participant in rest;
        ghost var served := EndpointsOf(peers - rest);
        rest := rest - {participant};
        assert EndpointsOf(peers - rest) == served + {participant.remoteEndpoint};
        if participant == sender {
          assert EndpointsOf(peers - rest) - {sender.remoteEndpoint} == served - {sender.remoteEndpoint};
          continue;
        }
        CopiesExtend(served - {sender.remoteEndpoint}, participant.remoteEndpoint, msg.wholePacket);
        assert EndpointsOf(peers - rest) - {sender.remoteEndpoint}
            == served - {sender.remoteEndpoint} + {participant.remoteEndpoint};
        participant.Send(msg);
        copies := copies + [Datagram(participant.remoteEndpoint, msg.wholePacket)];
      }
      assert EndpointsOf(peers - rest) == Endpoints();
    }
  }

  /** The receiving end: one buffer of 1024 bytes, overwritten by every datagram. */
  class RawUdpServer {
    const socket: Socket
    const room: RawUdpRoom
    const buffer: array<Byte>

    constructor (isEchoMode: bool)
      ensures Valid() && room.Endpoints() == {} && socket.sent == [] && room.isEchoMode == isEchoMode
      ensures fresh(socket) && fresh(room) && fresh(buffer)
    {
      var theSocket := new Socket();
      socket := theSocket;
      room := new RawUdpRoom(isEchoMode, theSocket);
      buffer := new Byte[RECEIVE_BUFFER](_ => 0);
    }

    ghost predicate Valid()
      reads this, room
    {
      buffer.Length == RECEIVE_BUFFER && room.Valid(socket)
    }

    /** The completion handler of async_receive_from; the socket has cut the datagram to the buffer's size. */
    method OnReceive(failed: bool, sender: Endpoint, datagram: Bytes, stamp: Stamp)
      requires Valid()
      modifies room, socket, buffer
      ensures Valid()
      ensures failed ==> room.Endpoints() == old(room.Endpoints()) && socket.sent == old(socket.sent)
      ensures !failed ==> room.Endpoints() == ServeRoom(old(room.Endpoints()), Datagram(sender, datagram))
      ensures !failed ==> Extends(old(socket.sent), socket.sent,
                                  ServeReplies(room.Mode(), old(room.Endpoints()), Datagram(sender, datagram), stamp))
    {
      if failed {
        return;
      }
      var received := |Truncate(datagram)|;
      forall i | 0 <= i < received {
        buffer[i] := datagram[i];
      }
      assert buffer[..received] == Truncate(datagram);
      if received > 0 {
        room.Insert(socket, sender, buffer, received, stamp);
      }
    }
  }
}
