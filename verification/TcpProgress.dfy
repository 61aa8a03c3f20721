/** That the TCP system can do what it is for: a packet of one participant's can travel through its write queue, the room
    and the other's write queue to the other's reader. */
module TcpProgress {
  import opened Wire
  import opened Relay
  import opened Framing
  import opened WriteQueue
  import opened TcpRelay
  import opened TcpNetwork

  lemma ReachesCons(mode: Mode, s: State, step: Step, steps: seq<Step>, t: State)
    requires CanStep(s, step) && Reaches(mode, Next(mode, s, step), steps, t)
    ensures Reaches(mode, s, [step] + steps, t)
  {
    hide Next, CanStep;
    assert ([step] + steps)[1..] == steps;
  }

  lemma ReachesOne(mode: Mode, s: State, step: Step)
    requires CanStep(s, step)
    ensures Reaches(mode, s, [step], Next(mode, s, step))
  {
    hide Next, CanStep;
    ReachesCons(mode, s, step, [], Next(mode, s, step));
    assert [step] + [] == [step];
  }

  lemma {:induction false} ReachesConcat(mode: Mode, s: State, xs: seq<Step>, u: State, ys: seq<Step>, t: State)
    requires Reaches(mode, s, xs, u) && Reaches(mode, u, ys, t)
    ensures Reaches(mode, s, xs + ys, t)
    decreases |xs|
  {
    hide Next, CanStep;
    if xs == [] {
      assert xs + ys == ys;
    } else {
      ReachesConcat(mode, Next(mode, s, xs[0]), xs[1..], u, ys, t);
      ReachesCons(mode, s, xs[0], xs[1..] + ys, t);
      assert xs + ys == [xs[0]] + (xs[1..] + ys);
    }
  }

  // ---------- One packet through one channel ----------

  /** Nothing is on its way, and the reader waits for a header. */
  predicate IsQuiet(c: Channel) {
    c.writer == Writer([], [], c.writer.wire, false) && c.arrived == |c.writer.wire| && c.held == []
  }

  function Queued(c: Channel, p: Bytes): Channel {
    c.(writer := Writer([p], [p], c.writer.wire, false), delivered := c.delivered + [p])
  }

  function Written(c: Channel, p: Bytes): Channel {
    Queued(c, p).(writer := Writer([p], [[]], c.writer.wire + p, false))
  }

  function HalfRead(c: Channel, p: Bytes): Channel
    requires HEADER_LENGTH <= |p|
  {
    Written(c, p).(arrived := c.arrived + HEADER_LENGTH, held := p[..HEADER_LENGTH])
  }

  function TakenIn(c: Channel, p: Bytes): Channel {
    Written(c, p).(arrived := c.arrived + |p|, held := [], received := c.received + [p])
  }

  lemma DeliverQueues(c: Channel, p: Bytes)
    requires IsQuiet(c)
    ensures WriterStep(c, Deliver(p)) == Queued(c, p)
  {
  }

  lemma TransferWrites(c: Channel, p: Bytes)
    requires IsQuiet(c)
    ensures Enabled(Queued(c, p).writer, Transfer(0, |p|))
    ensures WriterStep(Queued(c, p), Transfer(0, |p|)) == Written(c, p)
  {
    assert p[..|p|] == p && p[|p|..] == [];
  }

  lemma ReadHeader(c: Channel, p: Bytes)
    requires IsQuiet(c) && WellFormed(p) && HEADER_LENGTH < |p|
    ensures var w := Written(c, p);
      CanRead(w, HEADER_LENGTH) && NewPackets(w, HEADER_LENGTH) == [] && ReadStep(w, HEADER_LENGTH) == HalfRead(c, p)
  {
    var w := Written(c, p);
    var b := w.held + w.writer.wire[w.arrived..w.arrived + HEADER_LENGTH];
    assert b == p[..HEADER_LENGTH] && b[18..20] == p[18..20];
    assert w.received + [] == w.received;
  }

  lemma ReadRest(c: Channel, p: Bytes)
    requires IsQuiet(c) && WellFormed(p) && HEADER_LENGTH < |p|
    ensures var h, n := HalfRead(c, p), |p| - HEADER_LENGTH;
      CanRead(h, n) && NewPackets(h, n) == [p] && ReadStep(h, n) == TakenIn(c, p)
  {
    var h, n := HalfRead(c, p), |p| - HEADER_LENGTH;
    assert h.held[18..20] == p[18..20];
    assert h.held + h.writer.wire[h.arrived..h.arrived + n] == p;
  }

  lemma ReadWhole(c: Channel, p: Bytes)
    requires IsQuiet(c) && WellFormed(p) && HEADER_LENGTH == |p|
    ensures var w := Written(c, p);
      CanRead(w, HEADER_LENGTH) && NewPackets(w, HEADER_LENGTH) == [p] && ReadStep(w, HEADER_LENGTH) == TakenIn(c, p)
  {
    var w := Written(c, p);
    assert w.held + w.writer.wire[w.arrived..w.arrived + HEADER_LENGTH] == p;
  }

  // ---------- One packet through the system ----------

  lemma ClientSends(mode: Mode, s: State, a: nat, p: Bytes) returns (steps: seq<Step>, t: State)
    requires a in s.sessions && IsQuiet(s.sessions[a].up) && WellFormed(p)
    ensures t == Update(s, a, s.sessions[a].(up := Written(s.sessions[a].up, p)))
    ensures Reaches(mode, s, steps, t)
  {
    var up := s.sessions[a].up;
    DeliverQueues(up, p);
    TransferWrites(up, p);
    var queue, write := ClientQueues(a, p), ClientWrites(a, Transfer(0, |p|));
    ReachesOne(mode, s, queue);
    var u := Next(mode, s, queue);
    ReachesOne(mode, u, write);
    t := Next(mode, u, write);
    ReachesConcat(mode, s, [queue], u, [write], t);
    steps := [queue] + [write];
    assert t.sessions == Update(s, a, s.sessions[a].(up := Written(up, p))).sessions;
  }

  lemma ServerHears(mode: Mode, s: State, a: nat, up: Channel, p: Bytes, stamp: Stamp) returns (steps: seq<Step>, t: State)
    requires a in s.sessions && s.sessions[a].up == Written(up, p) && s.sessions[a].reading
    requires IsQuiet(up) && WellFormed(p)
    ensures t == Process(mode, Update(s, a, s.sessions[a].(up := TakenIn(up, p))), a, p, stamp)
    ensures Reaches(mode, s, steps, t)
  {
    hide Written, HalfRead, TakenIn, IsQuiet, Process;
    var first, second := ServerReads(a, HEADER_LENGTH, stamp), ServerReads(a, |p| - HEADER_LENGTH, stamp);
    if |p| == HEADER_LENGTH {
      ReadWhole(up, p);
      ReachesOne(mode, s, first);
      steps, t := [first], Next(mode, s, first);
    } else {
      ReadHeader(up, p);
      ReadRest(up, p);
      ReachesOne(mode, s, first);
      var u := Next(mode, s, first);
      assert u == Update(s, a, s.sessions[a].(up := HalfRead(up, p)));
      ReachesOne(mode, u, second);
      t := Next(mode, u, second);
      assert Update(u, a, u.sessions[a].(up := TakenIn(up, p))) == Update(s, a, s.sessions[a].(up := TakenIn(up, p)));
      ReachesConcat(mode, s, [first], u, [second], t);
      steps := [first] + [second];
    }
  }

  lemma ServerSends(mode: Mode, s: State, b: nat, down: Channel, p: Bytes) returns (steps: seq<Step>, t: State)
    requires b in s.sessions && s.sessions[b].down == Queued(down, p) && IsQuiet(down)
    ensures t == Update(s, b, s.sessions[b].(down := Written(down, p)))
    ensures Reaches(mode, s, steps, t)
  {
    TransferWrites(down, p);
    var write := ServerWrites(b, Transfer(0, |p|));
    ReachesOne(mode, s, write);
    steps, t := [write], Next(mode, s, write);
  }

  lemma ClientHears(mode: Mode, s: State, b: nat, down: Channel, p: Bytes) returns (steps: seq<Step>, t: State)
    requires b in s.sessions && s.sessions[b].down == Written(down, p) && IsQuiet(down) && WellFormed(p)
    ensures t == Update(s, b, s.sessions[b].(down := TakenIn(down, p)))
    ensures Reaches(mode, s, steps, t)
  {
    hide Written, HalfRead, TakenIn, IsQuiet;
    var first, second := ClientReads(b, HEADER_LENGTH), ClientReads(b, |p| - HEADER_LENGTH);
    if |p| == HEADER_LENGTH {
      ReadWhole(down, p);
      ReachesOne(mode, s, first);
      steps, t := [first], Next(mode, s, first);
    } else {
      ReadHeader(down, p);
      ReadRest(down, p);
      ReachesOne(mode, s, first);
      var u := Next(mode, s, first);
      assert u == Update(s, b, s.sessions[b].(down := HalfRead(down, p)));
      ReachesOne(mode, u, second);
      t := Next(mode, u, second);
      assert t == Update(s, b, s.sessions[b].(down := TakenIn(down, p)));
      ReachesConcat(mode, s, [first], u, [second], t);
      steps := [first] + [second];
    }
  }

  lemma ProcessQueues(s: State, a: nat, b: nat, p: Bytes, stamp: Stamp)
    requires a != b && b in s.sessions && b in s.room && IsQuiet(s.sessions[b].down)
    requires WellFormed(p) && KindOf(p) in {TEXT_MESSAGE, AUDIO_MESSAGE, AUDIO_MESSAGE_CN}
    ensures var t := Process(Broadcast, s, a, p, stamp);
      b in t.sessions && t.sessions[b].down == Queued(s.sessions[b].down, p)
  {
    DeliverQueues(s.sessions[b].down, p);
  }

  /** When nothing is on its way between a's client and b's client, what a's client queues next can reach b's client, byte
      for byte. */
  lemma PacketGetsThrough(s: State, a: nat, b: nat, p: Bytes, stamp: Stamp) returns (steps: seq<Step>, t: State)
    requires a != b && a in s.sessions && b in s.sessions && b in s.room && s.sessions[a].reading
    requires var up := s.sessions[a].up;
      up.writer == Writer([], [], up.writer.wire, false) && up.arrived == |up.writer.wire| && up.held == []
    requires var down := s.sessions[b].down;
      down.writer == Writer([], [], down.writer.wire, false) && down.arrived == |down.writer.wire| && down.held == []
    requires WellFormed(p) && KindOf(p) in {TEXT_MESSAGE, AUDIO_MESSAGE, AUDIO_MESSAGE_CN}
    ensures Reaches(Broadcast, s, steps, t)
    ensures b in t.sessions && t.sessions[b].down.received == s.sessions[b].down.received + [p]
  {
    hide Process, Reaches, WellFormed, KindOf;
    var up, down := s.sessions[a].up, s.sessions[b].down;
    var xs, s1 := ClientSends(Broadcast, s, a, p);
    var ys, s2 := ServerHears(Broadcast, s1, a, up, p, stamp);
    ProcessQueues(Update(s1, a, s1.sessions[a].(up := TakenIn(up, p))), a, b, p, stamp);
    ReachesConcat(Broadcast, s, xs, s1, ys, s2);
    var zs, s3 := ServerSends(Broadcast, s2, b, down, p);
    ReachesConcat(Broadcast, s, xs + ys, s2, zs, s3);
    var ws;
    ws, t := ClientHears(Broadcast, s3, b, down, p);
    ReachesConcat(Broadcast, s, xs + ys + zs, s3, ws, t);
    steps := xs + ys + zs + ws;
  }

  lemma BothJoin(s: State, a: nat, b: nat) returns (steps: seq<Step>, t: State)
    requires Initial(s) && a != b && a in s.sessions && b in s.sessions
    ensures Reaches(Broadcast, s, steps, t)
    ensures var joined := Session(QUIET, QUIET, [], Joined, true);
      t.sessions == s.sessions[a := joined][b := joined] && t.room == {a, b}
  {
    ReachesOne(Broadcast, s, Start(a));
    var u := Next(Broadcast, s, Start(a));
    ReachesOne(Broadcast, u, Start(b));
    t := Next(Broadcast, u, Start(b));
    ReachesConcat(Broadcast, s, [Start(a)], u, [Start(b)], t);
    steps := [Start(a)] + [Start(b)];
  }

  /** So from the start any two sessions can talk: there is a run in which b's client hears what a's queues. */
  lemma TwoSessionsCanTalk(s: State, a: nat, b: nat, p: Bytes, stamp: Stamp) returns (steps: seq<Step>, t: State)
    requires Initial(s) && a != b && a in s.sessions && b in s.sessions
    requires WellFormed(p) && KindOf(p) in {TEXT_MESSAGE, AUDIO_MESSAGE, AUDIO_MESSAGE_CN}
    ensures Reaches(Broadcast, s, steps, t)
    ensures b in t.sessions && t.sessions[b].down.received == [p]
  {
    hide Next, CanStep, Reaches, WellFormed, KindOf;
    var xs, s1 := BothJoin(s, a, b);
    var ys;
    ys, t := PacketGetsThrough(s1, a, b, p, stamp);
    ReachesConcat(Broadcast, s, xs, s1, ys, t);
    steps := xs + ys;
  }
}
