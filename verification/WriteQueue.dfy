/** The write queue that server/TcpServer.hpp and client_essential/TcpClient.hpp share, and one direction of a TCP
    connection: write queue, byte stream, reader. */
module WriteQueue {
  import opened Wire
  import opened Framing
  import opened Sequences

  /** writes holds, for each asynchronous write that is outstanding, the bytes it has still to hand to the connection;
      wire is everything handed over so far. */
  datatype Writer = Writer(queue: seq<Bytes>, writes: seq<Bytes>, wire: Bytes, failed: bool)

  const IDLE: Writer := Writer([], [], [], false)

  datatype Event =
    | Deliver(msg: Bytes)
    | Transfer(k: nat, n: nat)
    | Complete(k: nat)
    | Fail(k: nat)

  predicate Enabled(w: Writer, event: Event) {
    match event
    case Deliver(_) => true
    case Transfer(k, n) => k < |w.writes| && n <= |w.writes[k]|
    case Complete(k) => k < |w.writes| && w.writes[k] == []
    case Fail(k) => k < |w.writes|
  }

  function StartWrite(w: Writer): Writer
    requires w.queue != []
  {
    w.(writes := w.writes + [w.queue[0]])
  }

  function Apply(w: Writer, event: Event): Writer
    requires Enabled(w, event)
  {
    match event
    case Deliver(msg) =>
      var w1 := w.(queue := w.queue + [msg]);
      if w.queue == [] then StartWrite(w1) else w1
    case Transfer(k, n) => w.(wire := w.wire + w.writes[k][..n], writes := w.writes[k := w.writes[k][n..]])
    case Complete(k) =>
      var w1 := w.(queue := if w.queue == [] then [] else w.queue[1..], writes := Remove(w.writes, k));
      if w1.queue == [] then w1 else StartWrite(w1)
    case Fail(k) => w.(writes := Remove(w.writes, k), failed := true)
  }

  /** The packets whose write has completed, when all of delivered has passed through the queue. */
  function Done(w: Writer, delivered: seq<Bytes>): seq<Bytes>
    requires |w.queue| <= |delivered|
  {
    delivered[..|delivered| - |w.queue|]
  }

  ghost predicate WriterInv(w: Writer, delivered: seq<Bytes>) {
    && |w.queue| <= |delivered|
    && delivered == Done(w, delivered) + w.queue
    && |w.writes| == (if w.queue == [] || w.failed then 0 else 1)
    && (w.queue == [] ==> !w.failed && w.wire == Concat(Done(w, delivered)))
    && (w.queue != [] ==> Concat(Done(w, delivered)) <= w.wire <= Concat(Done(w, delivered)) + w.queue[0])
    && (w.writes != [] ==> w.wire + w.writes[0] == Concat(Done(w, delivered)) + w.queue[0])
  }

  function DeliveredAfter(delivered: seq<Bytes>, event: Event): seq<Bytes> {
    if event.Deliver? then delivered + [event.msg] else delivered
  }

  lemma EventKeepsInv(w: Writer, delivered: seq<Bytes>, event: Event)
    requires WriterInv(w, delivered) && Enabled(w, event)
    ensures WriterInv(Apply(w, event), DeliveredAfter(delivered, event))
    ensures w.wire <= Apply(w, event).wire
  {
    hide Concat;
    var t, after := Apply(w, event), DeliveredAfter(delivered, event);
    var done := Done(w, delivered);
    match event
    case Deliver(msg) =>
      assert Done(t, after) == done;
      Associative(done, w.queue, [msg]);
    case Transfer(k, n) =>
      Associative(w.wire, w.writes[0][..n], w.writes[0][n..]);
      assert w.writes[0] == w.writes[0][..n] + w.writes[0][n..];
    case Complete(k) =>
      assert Done(t, after) == done + [w.queue[0]];
      ConcatAppend(done, [w.queue[0]]);
      ConcatOne(w.queue[0]);
      assert w.wire + [] == w.wire;
    case Fail(k) =>
  }

  ghost function Run(w: Writer, delivered: seq<Bytes>, events: seq<Event>): (Writer, seq<Bytes>)
    requires Possible(w, events)
    decreases |events|
  {
    if events == [] then (w, delivered)
    else Run(Apply(w, events[0]), DeliveredAfter(delivered, events[0]), events[1..])
  }

  ghost predicate Possible(w: Writer, events: seq<Event>)
    decreases |events|
  {
    events != [] ==> Enabled(w, events[0]) && Possible(Apply(w, events[0]), events[1..])
  }

  lemma {:induction false} EventsKeepInv(w: Writer, delivered: seq<Bytes>, events: seq<Event>)
    requires WriterInv(w, delivered) && Possible(w, events)
    ensures WriterInv(Run(w, delivered, events).0, Run(w, delivered, events).1)
    decreases |events|
  {
    if events != [] {
      EventKeepsInv(w, delivered, events[0]);
      EventsKeepInv(Apply(w, events[0]), DeliveredAfter(delivered, events[0]), events[1..]);
    }
  }

  /** At most one write is outstanding; before an error there is one exactly when the queue is not empty; what it still
      has to write is the end of the queue's front; the queue ends what was delivered; and the wire carries the packets
      whose write has completed, and after them nothing but a part of the one being written. */
  ghost predicate Safe(w: Writer, delivered: seq<Bytes>) {
    && |w.writes| <= 1
    && (!w.failed ==> (w.writes != [] <==> w.queue != []))
    && (w.failed ==> w.writes == [])
    && (w.writes != [] ==> w.queue != [] && IsEndOf(w.writes[0], w.queue[0]))
    && |w.queue| <= |delivered| && delivered == Done(w, delivered) + w.queue
    && Concat(Done(w, delivered)) <= w.wire <= Concat(delivered)
  }

  predicate IsEndOf(a: Bytes, b: Bytes) {
    |a| <= |b| && a == b[|b| - |a|..]
  }

  lemma RestOfFront(done: Bytes, wire: Bytes, rest: Bytes, front: Bytes)
    requires done <= wire && wire + rest == done + front
    ensures IsEndOf(rest, front)
  {
    assert rest == (wire + rest)[|wire|..];
    assert front[|wire| - |done|..] == (done + front)[|wire|..];
  }

  lemma InvIsSafe(w: Writer, delivered: seq<Bytes>)
    requires WriterInv(w, delivered)
    ensures Safe(w, delivered)
  {
    WireIsPrefix(w, delivered);
    if w.writes != [] {
      RestOfFront(Concat(Done(w, delivered)), w.wire, w.writes[0], w.queue[0]);
    }
  }

  /** The queue is safe over every run of deliveries, partial transfers, completions and errors. */
  lemma {:induction false} WriterIsSafe(events: seq<Event>)
    requires Possible(IDLE, events)
    ensures var (w, delivered) := Run(IDLE, [], events);
      && |w.writes| <= 1
      && (!w.failed ==> (w.writes != [] <==> w.queue != []))
      && (w.failed ==> w.writes == [])
      && (w.writes != [] ==>
            && w.queue != [] && |w.writes[0]| <= |w.queue[0]|
            && w.writes[0] == w.queue[0][|w.queue[0]| - |w.writes[0]|..])
      && |w.queue| <= |delivered|
      && var done := delivered[..|delivered| - |w.queue|];
         delivered == done + w.queue && Concat(done) <= w.wire <= Concat(delivered)
  {
    hide Run, Possible, WriterInv, Concat;
    StartsSafe();
    EventsKeepInv(IDLE, [], events);
    InvIsSafe(Run(IDLE, [], events).0, Run(IDLE, [], events).1);
  }

  lemma StartsSafe()
    ensures WriterInv(IDLE, [])
  {
  }

  lemma WireIsPrefix(w: Writer, delivered: seq<Bytes>)
    requires WriterInv(w, delivered)
    ensures w.wire <= Concat(delivered)
  {
    var done := Done(w, delivered);
    ConcatAppend(done, w.queue);
    if w.queue != [] {
      Associative(Concat(done), w.queue[0], Concat(w.queue[1..]));
    }
  }

  /** The front of the queue stays where it is until its write has completed. */
  lemma FrontIsStable(w: Writer, event: Event)
    requires Enabled(w, event) && !event.Complete? && w.queue != []
    ensures Apply(w, event).queue != [] && Apply(w, event).queue[0] == w.queue[0]
  {
  }

  /** After a write error nothing further is written, whatever is delivered. */
  lemma {:induction false} NothingAfterError(w: Writer, delivered: seq<Bytes>, events: seq<Event>)
    requires WriterInv(w, delivered) && w.failed && Possible(w, events)
    ensures Run(w, delivered, events).0.wire == w.wire && Run(w, delivered, events).0.failed
    decreases |events|
  {
    if events != [] {
      EventKeepsInv(w, delivered, events[0]);
      NothingAfterError(Apply(w, events[0]), DeliveredAfter(delivered, events[0]), events[1..]);
    }
  }

  // ---------- The writing end of a connection ----------

  class PacketWriter {
    var writeMsgs: seq<Bytes>
    var writes: seq<Bytes>
    var wire: Bytes
    var failed: bool
    ghost var delivered: seq<Bytes>

    constructor ()
      ensures State() == IDLE && delivered == [] && Valid()
    {
      writeMsgs, writes, wire, failed, delivered := [], [], [], false, [];
    }

    function State(): Writer
      reads this
    {
      Writer(writeMsgs, writes, wire, failed)
    }

    ghost predicate Valid()
      reads this
    {
      WriterInv(State(), delivered)
    }

    /** Keeps Valid() by EventKeepsInv, which a caller with many writers need not be told about each. */
    method Push(msg: Bytes)
      modifies this
      ensures State() == Apply(old(State()), Deliver(msg)) && delivered == old(delivered) + [msg]
    {
      var writeInProgress := writeMsgs != [];
      writeMsgs := writeMsgs + [msg];
      delivered := delivered + [msg];
      if !writeInProgress {
        Write();
      }
    }

    /** Starts the asynchronous write of the front packet. */
    method Write()
      requires writeMsgs != []
      modifies this`writes
      ensures State() == StartWrite(old(State()))
    {
      writes := writes + [writeMsgs[0]];
    }

    /** The connection takes n more bytes of an outstanding write. */
    method OnTransfer(k: nat, n: nat)
      requires Valid() && Enabled(State(), Transfer(k, n))
      modifies this
      ensures Valid() && State() == Apply(old(State()), Transfer(k, n)) && delivered == old(delivered)
    {
      EventKeepsInv(State(), delivered, Transfer(k, n));
      wire, writes := wire + writes[k][..n], writes[k := writes[k][n..]];
    }

    /** The completion handler of a write. The caller closes or leaves the room when it reports an error. */
    method OnWritten(k: nat, error: bool)
      requires Valid() && Enabled(State(), if error then Fail(k) else Complete(k))
      modifies this
      ensures Valid() && State() == Apply(old(State()), if error then Fail(k) else Complete(k))
      ensures delivered == old(delivered)
    {
      EventKeepsInv(State(), delivered, if error then Fail(k) else Complete(k));
      writes := Remove(writes, k);
      if !error {
        writeMsgs := writeMsgs[1..];
        if writeMsgs != [] {
          Write();
        }
      } else {
        failed := true;
      }
    }
  }

  // ---------- One direction of a connection ----------

  /** arrived counts the bytes of the wire that the reader has taken, held are those of its unfinished packet. */
  datatype Channel = Channel(writer: Writer, delivered: seq<Bytes>, arrived: nat, held: Bytes, received: seq<Bytes>)

  const QUIET: Channel := Channel(IDLE, [], 0, [], [])

  ghost predicate ChannelInv(c: Channel) {
    && WriterInv(c.writer, c.delivered)
    && AllWellFormed(c.delivered)
    && c.arrived <= |c.writer.wire|
    && Parsed(c.received, c.held) == Parse(c.writer.wire[..c.arrived])
    && Accept(c.held).None?
  }

  function WriterStep(c: Channel, event: Event): Channel
    requires Enabled(c.writer, event)
  {
    c.(writer := Apply(c.writer, event), delivered := DeliveredAfter(c.delivered, event))
  }

  predicate CanRead(c: Channel, n: nat) {
    Accept(c.held).None? && n <= Need(c.held) && c.arrived + n <= |c.writer.wire|
  }

  /** The packets that the reader hands on when n more bytes arrive: one when they complete it, otherwise none. */
  function NewPackets(c: Channel, n: nat): seq<Bytes>
    requires CanRead(c, n)
  {
    var b := c.held + c.writer.wire[c.arrived..c.arrived + n];
    if WellFormed(b) then [b] else []
  }

  function ReadStep(c: Channel, n: nat): Channel
    requires CanRead(c, n)
  {
    var b := c.held + c.writer.wire[c.arrived..c.arrived + n];
    c.(arrived := c.arrived + n, held := if WellFormed(b) then [] else b, received := c.received + NewPackets(c, n))
  }

  lemma WriterStepKeepsChannel(c: Channel, event: Event)
    requires ChannelInv(c) && Enabled(c.writer, event) && (event.Deliver? ==> WellFormed(event.msg))
    ensures ChannelInv(WriterStep(c, event))
  {
    EventKeepsInv(c.writer, c.delivered, event);
    assert WriterStep(c, event).writer.wire[..c.arrived] == c.writer.wire[..c.arrived];
  }

  lemma ReadStepKeepsChannel(c: Channel, n: nat)
    requires ChannelInv(c) && CanRead(c, n)
    ensures ChannelInv(ReadStep(c, n))
    ensures forall p :: p in NewPackets(c, n) ==> WellFormed(p)
  {
    var before, piece := c.writer.wire[..c.arrived], c.writer.wire[c.arrived..c.arrived + n];
    var t := ReadStep(c, n);
    ParseNeeded(c.held, piece);
    var later := Parse(c.held + piece);
    assert NewPackets(c, n) == later.packets && t.held == later.rest;
    assert Parse(before + piece) == Parsed(c.received + later.packets, later.rest) by { ParseSplit(before, piece); }
    assert t.writer.wire[..t.arrived] == before + piece;
    assert Accept(t.held).None? by { ParseConserves(before + piece); }
  }

  /** What the reader hands on is, packet by packet and byte by byte, a prefix of what was delivered to the queue. */
  lemma ChannelIsFifo(c: Channel)
    requires ChannelInv(c)
    ensures c.received <= c.delivered
  {
    WireIsPrefix(c.writer, c.delivered);
    ParsePrefix(c.delivered, c.writer.wire[..c.arrived]);
  }

  /** And nothing is lost on the way: once the queue is empty and the reader has taken all of the wire, it has handed on
      everything that was delivered. */
  lemma ChannelDelivers(c: Channel)
    requires ChannelInv(c) && c.writer.queue == [] && c.arrived == |c.writer.wire|
    ensures c.received == c.delivered
  {
    assert Done(c.writer, c.delivered) == c.delivered && c.writer.wire[..c.arrived] == c.writer.wire;
    assert c.writer.wire + [] == c.writer.wire;
    ParsePackets(c.delivered, []);
  }
}
