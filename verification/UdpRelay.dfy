/** What the UDP relay of server/RawUdpServer.cpp does with one datagram, as a function of the endpoints in the room.
    Membership is implicit: every datagram registers its sender, and only a LogoutRequest removes it again. */
module UdpRelay {
  import opened Wire
  import opened Relay

  datatype Endpoint = Endpoint(address: U32, port: U16)

  /** A datagram seen from the server: peer is the source of an incoming one and the destination of an outgoing one. */
  datatype Datagram = Datagram(peer: Endpoint, data: Bytes)

  function Copies(to: set<Endpoint>, data: Bytes): set<Datagram> {
    set e | e in to :: Datagram(e, data)
  }

  lemma CopiesExtend(to: set<Endpoint>, e: Endpoint, data: Bytes)
    requires e !in to
    ensures multiset(Copies(to + {e}, data)) == multiset(Copies(to, data)) + multiset{Datagram(e, data)}
  {
    assert Copies(to + {e}, data) == Copies(to, data) + {Datagram(e, data)};
  }

  /** The datagrams sent in answer to a packet; a multiset, because the order follows the peer set's iteration. */
  function Replies(mode: Mode, room: set<Endpoint>, sender: Endpoint, packet: Bytes, stamp: Stamp): multiset<Datagram>
    requires WellFormed(packet)
  {
    var kind := KindOf(packet);
    if kind == HEARTBEAT_REQUEST then multiset{Datagram(sender, Control(HEARTBEAT_RESPONSE, 0, stamp))}
    else if IsMedia(kind) then
      if mode.Echo? then multiset{Datagram(sender, packet)} else multiset(Copies(room - {sender}, packet))
    else if kind == LOGIN_REQUEST then multiset{Datagram(sender, Control(LOGIN_RESPONSE, 0, stamp))}
    else multiset{}
  }

  /** The parse of a datagram after it went through the receive buffer. */
  function Receive(data: Bytes): (packet: Option<Bytes>)
    ensures packet.Some? ==> WellFormed(packet.value) && |packet.value| <= RECEIVE_BUFFER && packet.value <= data
  {
    if Accept(Truncate(data)).Some? then
      AcceptedIsWellFormed(Truncate(data));
      Accept(Truncate(data))
    else None
  }

  predicate IsLogout(data: Bytes) {
    Receive(data).Some? && KindOf(Receive(data).value) == LOGOUT_REQUEST
  }

  /** The room after one datagram. An empty datagram is ignored altogether. */
  function ServeRoom(room: set<Endpoint>, d: Datagram): set<Endpoint> {
    if d.data == [] then room
    else
      match Receive(d.data)
      case None => room + {d.peer}
      case Some(packet) => RoomAfter(room + {d.peer}, d.peer, packet)
  }

  function ServeReplies(mode: Mode, room: set<Endpoint>, d: Datagram, stamp: Stamp): multiset<Datagram> {
    match Receive(d.data)
    case None => multiset{}
    case Some(packet) => Replies(mode, room + {d.peer}, d.peer, packet, stamp)
  }

  // ---------- Membership as a function of history ----------

  function Members(history: seq<Datagram>): set<Endpoint> {
    if history == [] then {}
    else ServeRoom(Members(history[..|history| - 1]), history[|history| - 1])
  }

  /** The i-th datagram is e's most recent one that reached the room. */
  ghost predicate IsLatest(history: seq<Datagram>, e: Endpoint, i: int) {
    && 0 <= i < |history|
    && history[i].peer == e && history[i].data != []
    && forall j :: i < j < |history| && history[j].peer == e ==> history[j].data == []
  }

  lemma ServeRoomMembership(room: set<Endpoint>, d: Datagram, e: Endpoint)
    ensures e in ServeRoom(room, d) <==>
            if d.peer != e || d.data == [] then e in room
            else Receive(d.data).Some? ==> KindOf(Receive(d.data).value) != LOGOUT_REQUEST
  {
  }

  lemma LatestExtend(history: seq<Datagram>, e: Endpoint, i: int)
    requires history != []
    ensures var n := |history| - 1;
      IsLatest(history, e, i) <==>
      if history[n].peer == e && history[n].data != [] then i == n else IsLatest(history[..n], e, i)
  {
    var n := |history| - 1;
    forall j | 0 <= j < n ensures history[..n][j] == history[j] {}
  }

  /** Whatever was sent, malformed datagrams included: an endpoint is in the room exactly when it has sent something
      and its most recent datagram was not a LogoutRequest. */
  lemma {:induction false} MembershipIsLatestDatagram(history: seq<Datagram>, e: Endpoint)
    ensures e in Members(history) <==>
            exists i :: 0 <= i < |history| && history[i].peer == e && history[i].data != []
                        && (forall j :: i < j < |history| && history[j].peer == e ==> history[j].data == [])
                        && (Receive(history[i].data).Some? ==> KindOf(Receive(history[i].data).value) != LOGOUT_REQUEST)
  {
    MembershipIsLatest(history, e);
    if e in Members(history) {
      var i :| IsLatest(history, e, i) && !IsLogout(history[i].data);
      assert history[i].peer == e;
    }
    forall i | 0 <= i < |history| && history[i].peer == e && history[i].data != []
               && (forall j :: i < j < |history| && history[j].peer == e ==> history[j].data == [])
      ensures IsLatest(history, e, i) {}
  }

  lemma {:induction false} MembershipIsLatest(history: seq<Datagram>, e: Endpoint)
    ensures e in Members(history) <==> exists i :: IsLatest(history, e, i) && !IsLogout(history[i].data)
  {
    if history != [] {
      var n := |history| - 1;
      MembershipIsLatest(history[..n], e);
      ServeRoomMembership(Members(history[..n]), history[n], e);
      forall i ensures IsLatest(history, e, i) <==>
        if history[n].peer == e && history[n].data != [] then i == n else IsLatest(history[..n], e, i)
      {
        LatestExtend(history, e, i);
      }
      if history[n].peer == e && history[n].data != [] {
        assert IsLatest(history, e, n);
      } else {
        forall i ensures IsLatest(history, e, i) && !IsLogout(history[i].data)
                    <==> IsLatest(history[..n], e, i) && !IsLogout(history[..n][i].data) {}
      }
    }
  }

  /** Fan-out. A text, audio or comfort-noise packet yields one copy per other endpoint of the room in broadcast mode and
      one copy back to its sender in echo mode, each of them the packet itself, whatever followed it in the datagram. A
      packet of any other kind is passed on to nobody. */
  lemma FanOut(mode: Mode, room: set<Endpoint>, d: Datagram, stamp: Stamp, e: Endpoint, data: Bytes)
    requires Receive(d.data).Some?
    requires data == Receive(d.data).value || KindOf(Receive(d.data).value) in {TEXT_MESSAGE, AUDIO_MESSAGE, AUDIO_MESSAGE_CN}
    ensures var packet, copies := Receive(d.data).value, ServeReplies(mode, room, d, stamp)[Datagram(e, data)];
      copies == if KindOf(packet) !in {TEXT_MESSAGE, AUDIO_MESSAGE, AUDIO_MESSAGE_CN} || data != packet then 0
                else if mode.Echo? then (if e == d.peer then 1 else 0)
                else if e in room && e != d.peer then 1 else 0
  {
    var packet := Receive(d.data).value;
    var to := room + {d.peer} - {d.peer};
    assert Datagram(e, data) in Copies(to, packet) <==> e in to && data == packet;
  }

  /** The same for a packet given by its fields: with up to 1004 bytes of payload each other endpoint of the room gets one
      copy of a text, audio or comfort-noise packet, the sender in echo mode; a longer one or one of another kind reaches
      nobody. */
  lemma PacketFanOut(mode: Mode, room: set<Endpoint>, from: Endpoint, p: Packet, stamp: Stamp, e: Endpoint)
    ensures ServeReplies(mode, room, Datagram(from, Encode(p)), stamp)[Datagram(e, Encode(p))] ==
            if |p.payload| > 1004 || p.kind !in {TEXT_MESSAGE, AUDIO_MESSAGE, AUDIO_MESSAGE_CN} then 0
            else if mode.Echo? then (if e == from then 1 else 0)
            else if e in room && e != from then 1 else 0
  {
    TruncatedPacket(p);
    RoundTrip(p, []);
    if |p.payload| <= 1004 {
      FanOut(mode, room, Datagram(from, Encode(p)), stamp, e, Encode(p));
    }
  }

  lemma {:induction false} CopiesCount(to: set<Endpoint>, data: Bytes)
    ensures |Copies(to, data)| == |to|
  {
    if to == {} {
      assert Copies(to, data) == {};
    } else {
      var e :| e in to;
      CopiesCount(to - {e}, data);
      assert Copies(to, data) == Copies(to - {e}, data) + {Datagram(e, data)};
    }
  }

  /** How many datagrams one datagram sets off: one for each packet that is answered, none for the packets that are not,
      and for media in broadcast mode one for each other endpoint in the room. */
  lemma ReplyCount(mode: Mode, room: set<Endpoint>, d: Datagram, stamp: Stamp)
    ensures |ServeReplies(mode, room, d, stamp)| ==
            if Receive(d.data).None? then 0
            else
              var kind := KindOf(Receive(d.data).value);
              if kind == HEARTBEAT_REQUEST || kind == LOGIN_REQUEST then 1
              else if kind !in {TEXT_MESSAGE, AUDIO_MESSAGE, AUDIO_MESSAGE_CN} then 0
              else if mode.Echo? then 1
              else |room - {d.peer}|
  {
    if Receive(d.data).Some? {
      CopiesCount(room - {d.peer}, Receive(d.data).value);
      assert room + {d.peer} - {d.peer} == room - {d.peer};
    }
  }

  /** Nothing else is forwarded: any other reply goes to the sender, who is then in the room, and is the heartbeat
      response to a heartbeat request or the login response to a login request, a header without payload. */
  lemma OnlyMediaIsForwarded(mode: Mode, room: set<Endpoint>, d: Datagram, stamp: Stamp, reply: Datagram)
    requires reply in ServeReplies(mode, room, d, stamp)
    ensures Receive(d.data).Some? && WellFormed(reply.data) && |reply.data| <= 1024
    ensures KindOf(reply.data) in {TEXT_MESSAGE, AUDIO_MESSAGE, AUDIO_MESSAGE_CN} ==>
              reply.data == Receive(d.data).value && (mode.Broadcast? ==> reply.peer in room && reply.peer != d.peer)
    ensures KindOf(reply.data) !in {TEXT_MESSAGE, AUDIO_MESSAGE, AUDIO_MESSAGE_CN} ==>
              var asked, answer := KindOf(Receive(d.data).value), KindOf(reply.data);
              && reply.peer == d.peer && reply.peer in ServeRoom(room, d)
              && reply.data == Control(answer, 0, stamp)
              && (answer == HEARTBEAT_RESPONSE || answer == LOGIN_RESPONSE)
              && (answer == HEARTBEAT_RESPONSE <==> asked == HEARTBEAT_REQUEST)
              && (answer == LOGIN_RESPONSE <==> asked == LOGIN_REQUEST)
  {
  }
}
