/** The NetPacket object of include/NetPacket.hpp, built in place field by field, and the makePacket function that
    both UDP ends use to turn a receive buffer into one. */
module NetPackets {
  import opened Wire

  // ---------- std::vector::resize and memcpy ----------

  function Resize(v: Bytes, n: nat): (r: Bytes)
    ensures |r| == n
    ensures forall i :: 0 <= i < n ==> r[i] == if i < |v| then v[i] else 0
  {
    if n <= |v| then v[..n] else v + seq(n - |v|, _ => 0)
  }

  function Overwrite(v: Bytes, at: nat, data: Bytes): (r: Bytes)
    requires at + |data| <= |v|
    ensures |r| == |v|
    ensures forall i :: 0 <= i < |v| ==> r[i] == if at <= i < at + |data| then data[i - at] else v[i]
  {
    v[..at] + data + v[at + |data|..]
  }

  // ---------- The packet object ----------

  class NetPacket {
    var wholePacket: Bytes

    constructor Blank(kind: U16, serial: U32, stamp: Stamp)
      ensures wholePacket == Control(kind, serial, stamp)
    {
      wholePacket := [];
      new;
      Init(kind, 0, serial, stamp);
      assert wholePacket == wholePacket[..HEADER_LENGTH] + [];
    }

    /** Null stands for the exception thrown on an oversized payload. */
    static method WithPayload(kind: U16, serial: U32, payload: Bytes, stamp: Stamp) returns (packet: NetPacket?)
      ensures packet == null <==> |payload| > 0xFFFF
      ensures packet != null ==> fresh(packet)
      ensures packet != null ==>
                packet.wholePacket == Encode(Packet(MARKER, stamp.version, stamp.uptime, kind, serial, payload))
    {
      if |payload| > 0xFFFF {
        return null;
      }
      packet := new NetPacket.Blank(UNDEFINED, 0, stamp);
      packet.Init(kind, |payload|, serial, stamp);
      packet.WritePayload(payload);
      assert packet.wholePacket == packet.wholePacket[..HEADER_LENGTH] + payload;
    }

    /** Sizes the packet and writes its six header fields one after the other. */
    method Init(kind: U16, payloadSize: U16, serial: U32, stamp: Stamp)
      modifies this
      ensures |wholePacket| == HEADER_LENGTH + payloadSize
      ensures wholePacket[..HEADER_LENGTH] == Header(MARKER, stamp.version, stamp.uptime, kind, serial, payloadSize)
    {
      wholePacket := Resize(wholePacket, HEADER_LENGTH + payloadSize);
      Store(0, MARKER);
      Store(4 * 1, stamp.version);
      Store(4 * 2, EncodeU32(stamp.uptime));
      Store(4 * 3, EncodeU16(kind));
      Store(4 * 3 + 2, EncodeU32(serial));
      Store(4 * 3 + 2 + 4, EncodeU16(payloadSize));
    }

    /** One memcpy into the header, seen as extending the part of it that is already in place. */
    method Store(at: nat, field: Bytes)
      requires at + |field| <= |wholePacket|
      modifies this
      ensures |wholePacket| == old(|wholePacket|)
      ensures wholePacket[..at + |field|] == old(wholePacket[..at]) + field
      ensures wholePacket[at + |field|..] == old(wholePacket[at + |field|..])
    {
      wholePacket := Overwrite(wholePacket, at, field);
    }

    /** Resizes the packet to the length its header announces; it never objects to a header. */
    method CheckHeader() returns (ok: bool)
      requires HEADER_LENGTH <= |wholePacket|
      modifies this
      ensures ok && |wholePacket| == HEADER_LENGTH + PayloadSize(old(wholePacket))
      ensures wholePacket[..HEADER_LENGTH] == old(wholePacket[..HEADER_LENGTH])
    {
      wholePacket := Resize(wholePacket, HEADER_LENGTH + PayloadSize(wholePacket));
      ok := true;
    }

    method WriteHeader(data: Bytes)
      requires HEADER_LENGTH <= |wholePacket| && |data| == HEADER_LENGTH
      modifies this
      ensures wholePacket == data + old(wholePacket[HEADER_LENGTH..])
    {
      wholePacket := Overwrite(wholePacket, 0, data);
    }

    method WritePayload(data: Bytes)
      requires HEADER_LENGTH + |data| <= |wholePacket|
      modifies this
      ensures wholePacket == old(wholePacket[..HEADER_LENGTH]) + data + old(wholePacket[HEADER_LENGTH + |data|..])
    {
      wholePacket := Overwrite(wholePacket, HEADER_LENGTH, data);
    }

    function PayloadLength(): nat
      requires HEADER_LENGTH <= |wholePacket|
      reads this
    {
      |wholePacket| - HEADER_LENGTH
    }
  }

  /** Builds a packet from the first received bytes of a reused buffer; null when they do not hold a whole packet.
      Whatever an earlier datagram left behind those bytes never enters the packet. */
  method MakePacket(data: array<Byte>, received: nat, stamp: Stamp) returns (packet: NetPacket?)
    requires received <= data.Length
    ensures packet == null <==> Accept(data[..received]) == None
    ensures packet != null ==> fresh(packet) && Some(packet.wholePacket) == Accept(data[..received])
  {
    if received < HEADER_LENGTH {
      return null;
    }
    ghost var got := data[..received];
    packet := new NetPacket.Blank(UNDEFINED, 0, stamp);
    packet.WriteHeader(data[..HEADER_LENGTH]);
    assert packet.wholePacket[..HEADER_LENGTH] == got[..HEADER_LENGTH];
    assert packet.wholePacket[18..20] == got[18..20];
    var ok := packet.CheckHeader();
    if !ok {
      return null;
    }
    if received < HEADER_LENGTH + packet.PayloadLength() {
      return null;
    }
    packet.WritePayload(data[HEADER_LENGTH..HEADER_LENGTH + packet.PayloadLength()]);
    assert packet.wholePacket == got[..HEADER_LENGTH + PayloadSize(got)];
  }
}
