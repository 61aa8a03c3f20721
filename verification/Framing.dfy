/** Cutting a TCP byte stream into packets: the two-phase reader that server/TcpServer.hpp and
    client_essential/TcpClient.hpp share, with its one reused buffer. */
module Framing {
  import opened Wire
  import opened NetPackets
  import opened Sequences

  function Concat(packets: seq<Bytes>): Bytes {
    if packets == [] then [] else packets[0] + Concat(packets[1..])
  }

  lemma {:induction false} ConcatAppend(ps: seq<Bytes>, qs: seq<Bytes>)
    ensures Concat(ps + qs) == Concat(ps) + Concat(qs)
  {
    if ps == [] {
      assert ps + qs == qs;
    } else {
      ConcatAppend(ps[1..], qs);
      assert (ps + qs)[1..] == ps[1..] + qs && (ps + qs)[0] == ps[0];
      Associative(ps[0], Concat(ps[1..]), Concat(qs));
    }
  }

  lemma ConcatCons(p: Bytes, ps: seq<Bytes>)
    ensures Concat([p] + ps) == p + Concat(ps)
  {
    assert ([p] + ps)[1..] == ps;
  }

  lemma ConcatOne(p: Bytes)
    ensures Concat([p]) == p
  {
    assert Concat([p]) == p + [];
  }

  // ---------- What a stream means ----------

  datatype Parsed = Parsed(packets: seq<Bytes>, rest: Bytes)

  /** The packets a byte stream holds, and the bytes of the packet still to be completed. */
  function Parse(b: Bytes): Parsed
    decreases |b|
  {
    if Accept(b).None? then Parsed([], b)
    else
      var p := Accept(b).value;
      var later := Parse(b[|p|..]);
      Parsed([p] + later.packets, later.rest)
  }

  lemma ParseFirst(p: Bytes, b: Bytes)
    requires WellFormed(p)
    ensures Parse(p + b) == Parsed([p] + Parse(b).packets, Parse(b).rest)
  {
    AcceptIgnoresTrailingBytes(p, b);
    assert (p + b)[|p|..] == b;
  }

  /** Parsing loses and invents nothing: the packets and the unfinished rest are the stream. */
  lemma {:induction false} ParseConserves(b: Bytes)
    ensures Concat(Parse(b).packets) + Parse(b).rest == b
    ensures AllWellFormed(Parse(b).packets) && Accept(Parse(b).rest).None?
    decreases |b|
  {
    if Accept(b).Some? {
      var p := Accept(b).value;
      var later := Parse(b[|p|..]);
      AcceptedIsWellFormed(b);
      ParseConserves(b[|p|..]);
      ConcatCons(p, later.packets);
      Associative(p, Concat(later.packets), later.rest);
    }
  }

  /** The result does not depend on where the stream is split. */
  lemma {:induction false} ParseSplit(a: Bytes, b: Bytes)
    ensures Parse(a + b) == Parsed(Parse(a).packets + Parse(Parse(a).rest + b).packets, Parse(Parse(a).rest + b).rest)
    decreases |a|
  {
    if Accept(a).Some? {
      var p, a1 := Accept(a).value, a[|Accept(a).value|..];
      AcceptedIsWellFormed(a);
      assert a == p + a1 && a + b == p + (a1 + b);
      ParseFirst(p, a1);
      ParseFirst(p, a1 + b);
      ParseSplit(a1, b);
      Associative([p], Parse(a1).packets, Parse(Parse(a1).rest + b).packets);
    }
  }

  /** A stream of whole packets yields exactly those packets. */
  lemma {:induction false} ParsePackets(packets: seq<Bytes>, tail: Bytes)
    requires AllWellFormed(packets)
    ensures Parse(Concat(packets) + tail) == Parsed(packets + Parse(tail).packets, Parse(tail).rest)
  {
    if packets == [] {
      assert [] + tail == tail;
    } else {
      var p, later := packets[0], Concat(packets[1..]) + tail;
      assert AllWellFormed(packets[1..]);
      ParsePackets(packets[1..], tail);
      assert WellFormed(p) by { assert p in packets; }
      ParseFirst(p, later);
      Associative(p, Concat(packets[1..]), tail);
      Uncons(packets);
      Associative([p], packets[1..], Parse(tail).packets);
    }
  }

  /** However much of a stream of packets has arrived, what it yields is a prefix of them. */
  lemma ParsePrefix(packets: seq<Bytes>, arrived: Bytes)
    requires AllWellFormed(packets) && arrived <= Concat(packets)
    ensures Parse(arrived).packets <= packets
  {
    var missing := Concat(packets)[|arrived|..];
    assert arrived + missing == Concat(packets) == Concat(packets) + [];
    ParsePackets(packets, []);
    ParseSplit(arrived, missing);
  }

  // ---------- One completed read ----------

  /** How many bytes the outstanding read still waits for when held are the bytes of the current packet so far. */
  function Need(held: Bytes): nat
    requires Accept(held).None?
  {
    if |held| < HEADER_LENGTH then HEADER_LENGTH - |held| else HEADER_LENGTH + PayloadSize(held) - |held|
  }

  /** Some bytes arrive, no more than the outstanding read asked for: they complete a packet, or they do not. */
  lemma {:induction false} ParseNeeded(held: Bytes, piece: Bytes)
    requires Accept(held).None? && |piece| <= Need(held)
    ensures Parse(held + piece) == if WellFormed(held + piece) then Parsed([held + piece], []) else Parsed([], held + piece)
  {
    var b := held + piece;
    if HEADER_LENGTH <= |held| {
      assert b[18..20] == held[18..20];
    }
    if WellFormed(b) {
      ParseFirst(b, []);
      assert b + [] == b;
    }
  }

  /** After such a piece the reader holds what ParseNeeded says, and the rest of the stream parses on from there. */
  lemma {:induction false} ParseOn(held: Bytes, piece: Bytes, rest: Bytes, packets: seq<Bytes>, held': Bytes)
    requires Accept(held).None? && |piece| <= Need(held)
    requires if WellFormed(held + piece) then packets == [held + piece] && held' == []
             else packets == [] && held' == held + piece
    ensures Parse(held + (piece + rest)) == Parsed(packets + Parse(held' + rest).packets, Parse(held' + rest).rest)
  {
    ParseNeeded(held, piece);
    ParseSplit(held + piece, rest);
    Associative(held, piece, rest);
  }

  // ---------- The reader ----------

  class PacketReader {
    const readMsg: NetPacket
    var inPayload: bool
    var got: nat

    constructor (stamp: Stamp)
      ensures Valid() && fresh(readMsg) && Held() == []
    {
      readMsg := new NetPacket.Blank(UNDEFINED, 0, stamp);
      inPayload, got := false, 0;
    }

    ghost predicate Valid()
      reads this, readMsg
    {
      && HEADER_LENGTH <= |readMsg.wholePacket|
      && (!inPayload ==> got < HEADER_LENGTH)
      && (inPayload ==> WellFormed(readMsg.wholePacket) && HEADER_LENGTH + got < |readMsg.wholePacket|)
    }

    function Filled(): nat
      reads this
    {
      (if inPayload then HEADER_LENGTH else 0) + got
    }

    /** The bytes of the packet being read; whatever else the buffer holds is left from earlier packets. */
    ghost function Held(): Bytes
      requires Valid()
      reads this, readMsg
    {
      readMsg.wholePacket[..Filled()]
    }

    lemma HeldIsUnfinished()
      requires Valid()
      ensures Accept(Held()).None?
      ensures Need(Held()) == (if inPayload then |readMsg.wholePacket| else HEADER_LENGTH) - Filled()
    {
      if inPayload {
        assert Held()[18..20] == readMsg.wholePacket[18..20];
      }
    }

    /** A chunk of any size arrives. The packets handed on are those of the stream, and never bytes of an earlier one. */
    method Receive(chunk: Bytes) returns (packets: seq<Bytes>)
      requires Valid()
      modifies this, readMsg
      ensures Valid()
      ensures Parsed(packets, Held()) == Parse(old(Held()) + chunk)
    {
      ghost var stream := Held() + chunk;
      var rest := chunk;
      packets := [];
      while rest != []
        invariant Valid()
        invariant Parse(stream) == Parsed(packets + Parse(Held() + rest).packets, Parse(Held() + rest).rest)
        decreases |rest|
      {
        var wanted := (if inPayload then |readMsg.wholePacket| else HEADER_LENGTH) - Filled();
        var n := if |rest| < wanted then |rest| else wanted;
        ghost var before := Held();
        HeldIsUnfinished();
        assert rest == rest[..n] + rest[n..];
        var packet := Take(rest[..n]);
        ParseOn(before, rest[..n], rest[n..], packet, Held());
        Associative(packets, packet, Parse(Held() + rest[n..]).packets);
        packets := packets + packet;
        rest := rest[n..];
      }
      HeldIsUnfinished();
      assert Held() + rest == Held();
    }

    /** The outstanding read gets some of the bytes it waits for, and completes when it has them all. */
    method Take(piece: Bytes) returns (packets: seq<Bytes>)
      requires Valid() && Accept(Held()).None? && |piece| <= Need(Held())
      modifies this, readMsg
      ensures Valid()
      ensures if WellFormed(old(Held()) + piece) then packets == [old(Held()) + piece] && Held() == []
              else packets == [] && Held() == old(Held()) + piece
    {
      ghost var held := Held() + piece;
      HeldIsUnfinished();
      readMsg.Store(Filled(), piece);
      got := got + |piece|;
      assert readMsg.wholePacket[..Filled()] == held;
      packets := [];
      if inPayload {
        assert readMsg.wholePacket[18..20] == held[18..20];
      }
      if Filled() == if inPayload then |readMsg.wholePacket| else HEADER_LENGTH {
        if inPayload {
          assert readMsg.wholePacket == held;
        }
        packets := OnCompleted(held);
      }
    }

    /** The two completion handlers. After a header the buffer takes the announced size; after a payload, at once when
        it is empty, the packet is handed on and the next header is read over it. */
    method OnCompleted(ghost held: Bytes) returns (packets: seq<Bytes>)
      requires HEADER_LENGTH <= |readMsg.wholePacket| && Filled() <= |readMsg.wholePacket|
      requires readMsg.wholePacket[..Filled()] == held
      requires !inPayload ==> got == HEADER_LENGTH
      requires inPayload ==> WellFormed(held) && readMsg.wholePacket == held
      modifies this, readMsg
      ensures Valid()
      ensures if WellFormed(held) then packets == [held] && Held() == [] else packets == [] && Held() == held
    {
      packets := [];
      if !inPayload {
        assert readMsg.wholePacket[18..20] == held[18..20];
        var ok := readMsg.CheckHeader();
        assert readMsg.wholePacket[18..20] == held[18..20];
        inPayload, got := true, 0;
        assert readMsg.wholePacket[..HEADER_LENGTH] == held;
      }
      if HEADER_LENGTH + got == |readMsg.wholePacket| {
        assert readMsg.wholePacket == held;
        packets := [readMsg.wholePacket];
        inPayload, got := false, 0;
      }
    }
  }
}
