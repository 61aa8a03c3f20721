/** The two-person room of server/Room.hpp as functions of who is in it, and the session objects of
    server/TcpServer.hpp that deliver through it. */
module TcpRelay {
  import opened Wire
  import opened Relay
  import opened Framing
  import opened WriteQueue

  const ROOM_SIZE: int := 2

  /** What one packet of sender's makes the room deliver to the session to. */
  function Deliveries<Id(==)>(mode: Mode, room: set<Id>, sender: Id, to: Id, packet: Bytes, stamp: Stamp): (ps: seq<Bytes>)
    requires WellFormed(packet)
    ensures |ps| <= 1 && AllWellFormed(ps)
  {
    var kind := KindOf(packet);
    if kind == HEARTBEAT_REQUEST then if to == sender then [Control(HEARTBEAT_RESPONSE, 0, stamp)] else []
    else if IsMedia(kind) then
      if mode.Echo? then if to == sender then [packet] else []
      else if to in room && to != sender then [packet] else []
    else if kind == LOGIN_REQUEST then if to == sender then [Control(LOGIN_RESPONSE, 0, stamp)] else []
    else []
  }

  /** What is delivered is the forwarded text, audio or comfort-noise packet, to another participant or in echo mode to its
      sender, or the matching answer to a request, to the sender alone. */
  lemma DeliveriesAreForwardsOrAnswers<Id>(mode: Mode, room: set<Id>, sender: Id, to: Id, packet: Bytes, stamp: Stamp)
    requires WellFormed(packet)
    ensures var kind, ps := KindOf(packet), Deliveries(mode, room, sender, to, packet, stamp);
      && (ps == [packet] <==>
            && kind in {TEXT_MESSAGE, AUDIO_MESSAGE, AUDIO_MESSAGE_CN}
            && if mode.Echo? then to == sender else to in room && to != sender)
      && (ps != [] && ps != [packet] <==> to == sender && (kind == HEARTBEAT_REQUEST || kind == LOGIN_REQUEST))
      && (to == sender && kind == HEARTBEAT_REQUEST ==> ps == [Control(HEARTBEAT_RESPONSE, 0, stamp)])
      && (to == sender && kind == LOGIN_REQUEST ==> ps == [Control(LOGIN_RESPONSE, 0, stamp)])
  {
    hide Control;
    var ps := Deliveries(mode, room, sender, to, packet, stamp);
    if ps != [] {
      assert ps == [packet] <==> ps[0] == packet;
    }
  }

  function DeliverAll(w: Writer, ps: seq<Bytes>): (t: Writer)
    requires |ps| <= 1
    ensures t.queue == w.queue + ps
  {
    if ps == [] then w else Apply(w, Deliver(ps[0]))
  }

  class TcpSession {
    const room: Room
    const reader: PacketReader
    const writer: PacketWriter

    constructor (room: Room, stamp: Stamp)
      ensures this.room == room && fresh(reader) && fresh(writer) && fresh(reader.readMsg)
      ensures reader.Valid() && reader.Held() == [] && writer.Valid() && writer.State() == IDLE && writer.delivered == []
    {
      this.room := room;
      reader := new PacketReader(stamp);
      writer := new PacketWriter();
    }

    method Deliver(msg: Bytes)
      modifies writer
      ensures writer.State() == Apply(old(writer.State()), Event.Deliver(msg))
      ensures writer.delivered == old(writer.delivered) + [msg]
    {
      writer.Push(msg);
    }

    /** Some of the bytes that the outstanding read waits for; the last of them hand a packet to the room. */
    method OnRead(piece: Bytes, stamp: Stamp)
      requires room.Valid() && this in room.sessions
      requires reader.Valid() && Accept(reader.Held()).None? && |piece| <= Need(reader.Held())
      modifies reader, reader.readMsg, room, room.Writers()
      ensures room.Valid() && reader.Valid() && room.sessions == old(room.sessions)
      ensures var b := old(reader.Held()) + piece;
        if WellFormed(b) then
          && reader.Held() == []
          && room.participants == RoomAfter(old(room.participants), this, b)
          && forall s :: s in room.sessions ==>
               s.writer.State() == DeliverAll(old(s.writer.State()),
                                              Deliveries(room.Mode(), old(room.participants), this, s, b, stamp))
        else
          && reader.Held() == b && room.participants == old(room.participants)
          && forall s :: s in room.sessions ==> s.writer.State() == old(s.writer.State())
    {
      var packets := reader.Take(piece);
      if packets != [] {
        room.ProcessClientMessagePayload(packets[0], this, stamp);
      }
    }

    /** A failed read or write takes the session out of the room; it never comes back. */
    method OnWritten(k: nat, error: bool)
      requires room.Valid() && this in room.sessions
      requires writer.Valid() && Enabled(writer.State(), if error then Fail(k) else Complete(k))
      modifies writer, room
      ensures room.Valid() && writer.Valid() && room.sessions == old(room.sessions)
      ensures writer.State() == Apply(old(writer.State()), if error then Fail(k) else Complete(k))
      ensures room.participants == old(room.participants) - if error then {this} else {}
    {
      writer.OnWritten(k, error);
      if error {
        room.Leave(this);
      }
    }
  }

  class Room {
    var participants: set<TcpSession>
    ghost var sessions: set<TcpSession>
    const isEchoMode: bool

    constructor (isEchoMode: bool)
      ensures Valid() && participants == sessions == {} && this.isEchoMode == isEchoMode
    {
      this.isEchoMode := isEchoMode;
      participants, sessions := {}, {};
    }

    function Mode(): (mode: Mode)
      ensures mode.Echo? <==> isEchoMode
    {
      if isEchoMode then Echo else Broadcast
    }

    ghost function Writers(): set<PacketWriter>
      reads this
    {
      set s | s in sessions :: s.writer
    }

    /** sessions are all sessions ever started here, also those that have left; no two share a write queue. */
    ghost predicate Valid()
      reads this
    {
      && participants <= sessions && |participants| <= ROOM_SIZE
      && (forall s :: s in sessions ==> s.room == this)
      && (forall s, t :: s in sessions && t in sessions && s.writer == t.writer ==> s == t)
    }

    method Join(session: TcpSession) returns (ok: bool)
      requires Valid() && session !in sessions && session.room == this
      requires forall s :: s in sessions ==> s.writer != session.writer
      modifies this
      ensures Valid() && ok == (|old(participants)| < 2)
      ensures participants == old(participants) + if ok then {session} else {}
      ensures sessions == old(sessions) + if ok then {session} else {}
    {
      if |participants| >= ROOM_SIZE {
        return false;
      }
      participants, sessions := participants + {session}, sessions + {session};
      return true;
    }

    method Leave(session: TcpSession)
      requires Valid()
      modifies this
      ensures Valid() && participants == old(participants) - {session} && sessions == old(sessions)
    {
      Fewer(participants, session);
      participants := participants - {session};
    }

    static lemma Fewer<T>(xs: set<T>, x: T)
      ensures |xs - {x}| <= |xs|
    {
      if x !in xs {
        assert xs - {x} == xs;
      }
    }

    /** One packet of a session's: every session that has ever been here gets exactly what Deliveries says. */
    method ProcessClientMessagePayload(msg: Bytes, sender: TcpSession, stamp: Stamp)
      requires Valid() && sender in sessions && WellFormed(msg)
      modifies this, Writers()
      ensures Valid() && sessions == old(sessions)
      ensures participants == RoomAfter(old(participants), sender, msg)
      ensures forall s :: s in sessions ==>
                && s.writer.State() == DeliverAll(old(s.writer.State()),
                                                  Deliveries(Mode(), old(participants), sender, s, msg, stamp))
                && s.writer.delivered == old(s.writer.delivered)
                                         + Deliveries(Mode(), old(participants), sender, s, msg, stamp)
    {
      var kind := KindOf(msg);
      if kind == HEARTBEAT_REQUEST {
        sender.Deliver(Control(HEARTBEAT_RESPONSE, 0, stamp));
      } else if kind == TEXT_MESSAGE || kind == AUDIO_MESSAGE || kind == AUDIO_MESSAGE_CN {
        if isEchoMode {
          sender.Deliver(msg);
        } else {
          DeliverToOthers(msg, sender);
        }
      } else if kind == LOGIN_REQUEST {
        sender.Deliver(Control(LOGIN_RESPONSE, 0, stamp));
      } else if kind == LOGOUT_REQUEST {
        Leave(sender);
      }
    }

    method DeliverToOthers(msg: Bytes, sender: TcpSession)
      requires Valid()
      modifies Writers()
      ensures Valid()
      ensures forall s :: s in sessions ==>
                var got := if s in participants && s != sender then [msg] else [];
                && s.writer.State() == DeliverAll(old(s.writer.State()), got)
                && s.writer.delivered == old(s.writer.delivered) + got
    {
      var rest := participants;
      while rest != {}
        invariant rest <= participants
        invariant forall s :: s in participants - rest - {sender} ==>
                    && s.writer.State() == DeliverAll(old(s.writer.State()), [msg])
                    && s.writer.delivered == old(s.writer.delivered) + [msg]
        invariant forall s :: s in sessions && s !in participants - rest - {sender} ==> unchanged(s.writer)
      {
        var participant :| participant in rest;
        rest := rest - {participant};
        if participant == sender {
          continue;
        }
        participant.Deliver(msg);
      }
    }
  }
}
