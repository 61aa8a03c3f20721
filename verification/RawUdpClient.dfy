/** The client end of the UDP relay, client_essential/net_engine/RawUdpClient.cpp: a receive loop over one reused buffer
    that hands every whole packet to the client's handler. */
module RawUdpClients {
  import opened Wire
  import opened NetPackets
  import opened UdpRelay
  import opened CallClient

  class RawUdpClient {
    const worker: Worker
    const reply: array<Byte>

    constructor (worker: Worker)
      ensures this.worker == worker && reply.Length == RECEIVE_BUFFER && fresh(reply)
    {
      this.worker := worker;
      reply := new Byte[RECEIVE_BUFFER](_ => 0);
    }

    /** One turn of the receive loop. A datagram that does not hold a whole packet changes nothing; stale bytes of an
        earlier, longer one are never read. */
    method OnDatagram(datagram: Bytes, stamp: Stamp)
      requires reply.Length == RECEIVE_BUFFER
      modifies reply, worker
      ensures Receive(datagram).None? ==>
                worker.State() == old(worker.State()) && worker.sent == old(worker.sent) && worker.played == old(worker.played)
      ensures Receive(datagram).Some? ==>
                var packet := Receive(datagram).value;
                && worker.State() == Handle(old(worker.State()), packet)
                && worker.sent == old(worker.sent) + Answers(packet, stamp)
                && worker.played == old(worker.played)
                                    + if KindOf(packet) in {AUDIO_MESSAGE, AUDIO_MESSAGE_CN} then [packet] else []
    {
      var length := |Truncate(datagram)|;
      forall i | 0 <= i < length {
        reply[i] := datagram[i];
      }
      assert reply[..length] == Truncate(datagram);
      var newPacket := MakePacket(reply, length, stamp);
      if newPacket != null {
        assert Receive(datagram) == Some(newPacket.wholePacket);
        worker.OnReceived(newPacket.wholePacket, stamp);
      }
    }
  }
}
