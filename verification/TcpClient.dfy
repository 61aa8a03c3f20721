/** The client end of the TCP relay, client_essential/TcpClient.hpp: the write queue and the two-phase reader on one
    socket, which any error closes. */
module TcpClients {
  import opened Wire
  import opened Framing
  import opened WriteQueue

  class TcpClient {
    const reader: PacketReader
    const writer: PacketWriter
    var isConnected: bool
    var isClosed: bool
    var received: seq<Bytes>

    constructor (stamp: Stamp)
      ensures Valid() && !isConnected && !isClosed && received == []
      ensures fresh(reader) && fresh(reader.readMsg) && fresh(writer) && QueueState() == IDLE && reader.Held() == []
    {
      reader := new PacketReader(stamp);
      writer := new PacketWriter();
      isConnected, isClosed, received := false, false, [];
    }

    ghost predicate Valid()
      reads this, reader, reader.readMsg, writer
    {
      reader.Valid() && writer.Valid()
    }

    function QueueState(): Writer
      reads this, writer
    {
      writer.State()
    }

    method OnConnect(error: bool)
      modifies this
      ensures isConnected == (old(isConnected) || !error) && isClosed == (old(isClosed) || error)
      ensures received == old(received)
    {
      if error {
        isClosed := true;
        return;
      }
      isConnected := true;
    }

    method Send(msg: Bytes)
      requires Valid()
      modifies writer
      ensures Valid() && QueueState() == Apply(old(QueueState()), Deliver(msg)) && writer.delivered == old(writer.delivered) + [msg]
    {
      EventKeepsInv(writer.State(), writer.delivered, Deliver(msg));
      writer.Push(msg);
    }

    /** A completed or partial read: a whole packet is copied and handed to the handler. */
    method OnRead(piece: Bytes)
      requires Valid() && Accept(reader.Held()).None? && |piece| <= Need(reader.Held())
      modifies this, reader, reader.readMsg
      ensures Valid() && isClosed == old(isClosed) && isConnected == old(isConnected)
      ensures var b := old(reader.Held()) + piece;
        if WellFormed(b) then received == old(received) + [b] && reader.Held() == []
        else received == old(received) && reader.Held() == b
    {
      var packets := reader.Take(piece);
      received := received + packets;
    }

    method OnReadError()
      modifies this
      ensures isClosed && isConnected == old(isConnected) && received == old(received)
    {
      isClosed := true;
    }

    method OnWritten(k: nat, error: bool)
      requires Valid() && Enabled(QueueState(), if error then Fail(k) else Complete(k))
      modifies this, writer
      ensures Valid() && QueueState() == Apply(old(QueueState()), if error then Fail(k) else Complete(k))
      ensures isClosed == (old(isClosed) || error) && isConnected == old(isConnected) && received == old(received)
    {
      writer.OnWritten(k, error);
      if error {
        isClosed := true;
      }
    }
  }
}
