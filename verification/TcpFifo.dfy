/** First in, first out over two hops: from one client's write queue through the room to another client's reader. */
module TcpFifo {
  import opened Wire
  import opened Relay
  import opened Framing
  import opened WriteQueue
  import opened TcpRelay
  import opened TcpNetwork

  predicate IsMediaPacket(p: Bytes) {
    WellFormed(p) && IsMedia(KindOf(p))
  }

  function Media(ps: seq<Bytes>): seq<Bytes> {
    if ps == [] then []
    else
      var n := |ps| - 1;
      Media(ps[..n]) + if IsMediaPacket(ps[n]) then [ps[n]] else []
  }

  /** Those of the packets that are a's. */
  function From(a: nat, origins: seq<Option<nat>>, ps: seq<Bytes>): seq<Bytes>
    requires |origins| == |ps|
  {
    if ps == [] then []
    else
      var n := |ps| - 1;
      From(a, origins[..n], ps[..n]) + if origins[n] == Some(a) then [ps[n]] else []
  }

  lemma MediaSnoc(ps: seq<Bytes>, p: Bytes)
    ensures Media(ps + [p]) == Media(ps) + if IsMediaPacket(p) then [p] else []
  {
    assert (ps + [p])[..|ps|] == ps;
  }

  lemma FromSnoc(a: nat, origins: seq<Option<nat>>, ps: seq<Bytes>, origin: Option<nat>, p: Bytes)
    requires |origins| == |ps|
    ensures From(a, origins + [origin], ps + [p]) == From(a, origins, ps) + if origin == Some(a) then [p] else []
  {
    assert (ps + [p])[..|ps|] == ps && (origins + [origin])[..|ps|] == origins;
  }

  lemma {:induction false} MediaPrefix(ps: seq<Bytes>, k: nat)
    requires k <= |ps|
    ensures Media(ps[..k]) <= Media(ps)
  {
    if k == |ps| {
      assert ps[..k] == ps;
    } else {
      var n := |ps| - 1;
      MediaPrefix(ps[..n], k);
      assert ps[..n][..k] == ps[..k];
    }
  }

  lemma {:induction false} FromPrefix(a: nat, origins: seq<Option<nat>>, ps: seq<Bytes>, k: nat)
    requires |origins| == |ps| && k <= |ps|
    ensures From(a, origins[..k], ps[..k]) <= From(a, origins, ps)
  {
    if k == |ps| {
      assert ps[..k] == ps && origins[..k] == origins;
    } else {
      var n := |ps| - 1;
      FromPrefix(a, origins[..n], ps[..n], k);
      assert ps[..n][..k] == ps[..k] && origins[..n][..k] == origins[..k];
    }
  }

  /** out consists of the elements of xs at the places at, in order. */
  ghost predicate IsSelection(at: seq<nat>, xs: seq<Bytes>, out: seq<Bytes>) {
    && |at| == |out| && (forall k :: 0 <= k < |at| ==> at[k] < |xs| && out[k] == xs[at[k]])
    && forall j, k :: 0 <= j < k < |at| ==> at[j] < at[k]
  }

  lemma SelectionGrows(at: seq<nat>, xs: seq<Bytes>, out: seq<Bytes>, x: Bytes)
    requires IsSelection(at, xs, out)
    ensures IsSelection(at, xs + [x], out) && IsSelection(at + [|xs|], xs + [x], out + [x])
  {
  }

  /** Media selects exactly the text, audio and comfort-noise packets, in order: at says where they are. */
  lemma {:induction false} MediaSelects(ps: seq<Bytes>) returns (at: seq<nat>)
    ensures |at| == |Media(ps)| && forall k :: 0 <= k < |at| ==> at[k] < |ps| && Media(ps)[k] == ps[at[k]]
    ensures forall j, k :: 0 <= j < k < |at| ==> at[j] < at[k]
    ensures forall i :: 0 <= i < |ps| ==>
              (i in at <==> WellFormed(ps[i]) && KindOf(ps[i]) in {TEXT_MESSAGE, AUDIO_MESSAGE, AUDIO_MESSAGE_CN})
  {
    at := [];
    if ps != [] {
      var n := |ps| - 1;
      at := MediaSelects(ps[..n]);
      assert ps[..n] + [ps[n]] == ps;
      SelectionGrows(at, ps[..n], Media(ps[..n]), ps[n]);
      forall i | 0 <= i < n ensures ps[..n][i] == ps[i] {}
      if IsMediaPacket(ps[n]) {
        at := at + [n];
      }
      assert IsSelection(at, ps, Media(ps));
    }
  }

  /** From selects exactly the packets with that origin, in order. */
  lemma {:induction false} FromSelects(a: nat, origins: seq<Option<nat>>, ps: seq<Bytes>) returns (at: seq<nat>)
    requires |origins| == |ps|
    ensures |at| == |From(a, origins, ps)|
    ensures forall k :: 0 <= k < |at| ==> at[k] < |ps| && From(a, origins, ps)[k] == ps[at[k]]
    ensures forall j, k :: 0 <= j < k < |at| ==> at[j] < at[k]
    ensures forall i :: 0 <= i < |ps| ==> (i in at <==> origins[i] == Some(a))
  {
    at := [];
    if ps != [] {
      var n := |ps| - 1;
      at := FromSelects(a, origins[..n], ps[..n]);
      assert ps[..n] + [ps[n]] == ps;
      SelectionGrows(at, ps[..n], From(a, origins[..n], ps[..n]), ps[n]);
      forall i | 0 <= i < n ensures origins[..n][i] == origins[i] {}
      if origins[n] == Some(a) {
        at := at + [n];
      }
      assert IsSelection(at, ps, From(a, origins, ps));
    }
  }

  // ---------- What b has been sent of a's ----------

  function Sent(s: State, a: nat, b: nat): seq<Bytes>
    requires b in s.sessions && |s.sessions[b].origins| == |s.sessions[b].down.delivered|
  {
    From(a, s.sessions[b].origins, s.sessions[b].down.delivered)
  }

  predicate IsBlock(xs: seq<Bytes>, all: seq<Bytes>, lo: nat) {
    lo + |xs| <= |all| && xs == all[lo..lo + |xs|]
  }

  /** How b's share xs of a's media stands to all of it. In broadcast mode it is a block, which reaches the end while b is
      in the room and is empty before b joins; in echo mode everything goes back to its sender. */
  predicate IsShare(mode: Mode, own: bool, xs: seq<Bytes>, all: seq<Bytes>, present: bool, waiting: bool, lo: nat) {
    if mode.Echo? then xs == if own then all else []
    else if own then xs == []
    else
      && IsBlock(xs, all, lo)
      && (present ==> lo + |xs| == |all|)
      && (waiting ==> xs == [])
  }

  ghost predicate Follows(mode: Mode, s: State, a: nat, b: nat, lo: nat)
    requires a in s.sessions && b in s.sessions && |s.sessions[b].origins| == |s.sessions[b].down.delivered|
  {
    IsShare(mode, a == b, Sent(s, a, b), Media(s.sessions[a].up.received), b in s.room,
            s.sessions[b].stage == Waiting, lo)
  }

  /** One more packet: it joins all of the media when it is media, and the share when it is forwarded. */
  lemma ShareGrows(mode: Mode, own: bool, xs: seq<Bytes>, all: seq<Bytes>, present: bool, waiting: bool, lo: nat,
                   p: Bytes, media: bool, forwarded: bool, present': bool, waiting': bool)
    requires IsShare(mode, own, xs, all, present, waiting, lo)
    requires forwarded <==> media && if mode.Echo? then own else present && !own
    requires (present' ==> present) && (waiting' ==> waiting && !present)
    ensures IsShare(mode, own, xs + if forwarded then [p] else [], all + if media then [p] else [], present', waiting', lo)
  {
  }

  /** c's packet is delivered to b, as the room's function says. */
  predicate IsForwarded(mode: Mode, room: set<nat>, c: nat, b: nat) {
    if mode.Echo? then b == c else b in room && b != c
  }

  lemma MediaDelivery(mode: Mode, room: set<nat>, c: nat, b: nat, p: Bytes, stamp: Stamp)
    requires WellFormed(p)
    ensures IsMedia(KindOf(p)) ==>
              Deliveries(mode, room, c, b, p, stamp) == if IsForwarded(mode, room, c, b) then [p] else []
  {
  }

  /** What the read of p by the session c does to a and b: a's reader has got the packet if it is a's, and b's queue gets
      the packets ps. */
  ghost predicate Reads(s: State, t: State, a: nat, b: nat, c: nat, p: Bytes, ps: seq<Bytes>)
    requires a in s.sessions && b in s.sessions && a in t.sessions && b in t.sessions && WellFormed(p)
  {
    && t.sessions[a].up.received == s.sessions[a].up.received + (if a == c then [p] else [])
    && t.sessions[b].down.delivered == s.sessions[b].down.delivered + ps
    && t.sessions[b].origins == s.sessions[b].origins + (if ps == [] then [] else [Origin(c, p)])
    && t.room <= s.room
    && (t.sessions[b].stage == Waiting ==> s.sessions[b].stage == Waiting)
  }

  lemma FromGrows(a: nat, origins: seq<Option<nat>>, delivered: seq<Bytes>, ps: seq<Bytes>, origin: Option<nat>)
    requires |origins| == |delivered| && |ps| <= 1
    ensures ps == [] ==> origins + [] == origins && delivered + ps == delivered
    ensures ps != [] ==>
              From(a, origins + [origin], delivered + ps)
              == From(a, origins, delivered) + (if origin == Some(a) then [ps[0]] else [])
  {
    if ps != [] {
      assert delivered + ps == delivered + [ps[0]];
      FromSnoc(a, origins, delivered, origin, ps[0]);
    }
  }

  lemma ReadKeepsFollows(mode: Mode, s: State, t: State, a: nat, b: nat, lo: nat, c: nat, p: Bytes, ps: seq<Bytes>)
    requires a in s.sessions && b in s.sessions && a in t.sessions && b in t.sessions && WellFormed(p)
    requires SessionInv(s, b) && Follows(mode, s, a, b, lo) && Reads(s, t, a, b, c, p, ps) && |ps| <= 1
    requires IsMedia(KindOf(p)) ==> ps == if IsForwarded(mode, s.room, c, b) then [p] else []
    ensures |t.sessions[b].origins| == |t.sessions[b].down.delivered| && Follows(mode, t, a, b, lo)
  {
    var received, media := s.sessions[a].up.received, a == c && IsMediaPacket(p);
    var forwarded := media && IsForwarded(mode, s.room, c, b);
    assert Sent(t, a, b) == Sent(s, a, b) + (if forwarded then [p] else []) by {
      assert Sent(s, a, b) + [] == Sent(s, a, b);
      FromGrows(a, s.sessions[b].origins, s.sessions[b].down.delivered, ps, Origin(c, p));
    }
    assert Media(t.sessions[a].up.received) == Media(received) + (if media then [p] else []) by {
      MediaSnoc(received, p);
      assert received + [] == received;
    }
    ShareGrows(mode, a == b, Sent(s, a, b), Media(received), b in s.room, s.sessions[b].stage == Waiting, lo, p, media,
               forwarded, b in t.room, t.sessions[b].stage == Waiting);
  }

  lemma ProcessReads(mode: Mode, s: State, s1: State, c: nat, p: Bytes, stamp: Stamp, a: nat, b: nat)
    requires a in s.sessions && b in s.sessions && s1.sessions.Keys == s.sessions.Keys && WellFormed(p)
    requires s1.room == s.room && s1.sessions[b].down == s.sessions[b].down && s1.sessions[b].origins == s.sessions[b].origins
    requires s1.sessions[b].stage == s.sessions[b].stage
    requires s1.sessions[a].up.received == s.sessions[a].up.received + if a == c then [p] else []
    ensures var t := Process(mode, s1, c, p, stamp);
      && t.sessions.Keys == s.sessions.Keys
      && Reads(s, t, a, b, c, p, Deliveries(mode, s.room, c, b, p, stamp))
  {
    var ps := Deliveries(mode, s.room, c, b, p, stamp);
    if ps != [] {
      assert ps == [ps[0]];
    } else {
      assert s.sessions[b].down.delivered + ps == s.sessions[b].down.delivered;
      assert s.sessions[b].origins + [] == s.sessions[b].origins;
    }
  }

  lemma {:induction false} ServerReadReads(mode: Mode, s: State, step: Step, p: Bytes, a: nat, b: nat)
    requires CanStep(s, step) && step.ServerReads? && a in s.sessions && b in s.sessions
    requires NewPackets(s.sessions[step.a].up, step.n) == [p]
    ensures WellFormed(p)
    ensures var t := Next(mode, s, step);
      && t.sessions.Keys == s.sessions.Keys
      && Reads(s, t, a, b, step.a, p, Deliveries(mode, s.room, step.a, b, p, step.stamp))
  {
    var x := s.sessions[step.a];
    var s1 := Update(s, step.a, x.(up := ReadStep(x.up, step.n)));
    assert s.sessions[a].up.received + [] == s.sessions[a].up.received;
    ProcessReads(mode, s, s1, step.a, p, step.stamp, a, b);
  }

  /** The packets read, the packets delivered and what they come from are the same, and b is in the room only if it was. */
  ghost predicate IsQuiet(s: State, t: State, a: nat, b: nat) {
    && t.sessions.Keys == s.sessions.Keys && a in s.sessions && b in s.sessions
    && t.sessions[a].up.received == s.sessions[a].up.received
    && t.sessions[b].down.delivered == s.sessions[b].down.delivered
    && t.sessions[b].origins == s.sessions[b].origins
    && (t.sessions[b].stage == Waiting ==> s.sessions[b].stage == Waiting)
    && (b in t.room ==> b in s.room)
  }

  lemma {:induction false} UpdateIsQuiet(s: State, c: nat, x: Session, a: nat, b: nat)
    requires a in s.sessions && b in s.sessions && c in s.sessions
    requires x.up.received == s.sessions[c].up.received && x.down.delivered == s.sessions[c].down.delivered
    requires x.origins == s.sessions[c].origins && (x.stage == Waiting ==> s.sessions[c].stage == Waiting)
    ensures IsQuiet(s, Update(s, c, x), a, b)
  {
  }

  lemma {:induction false} WithRoomIsQuiet(s: State, t: State, room: set<nat>, a: nat, b: nat)
    requires IsQuiet(s, t, a, b) && room <= t.room
    ensures IsQuiet(s, WithRoom(t, room), a, b)
  {
  }

  /** All steps but the reading of a packet are quiet, or let b in. */
  lemma {:induction false} QuietStep(mode: Mode, s: State, step: Step, a: nat, b: nat)
    requires CanStep(s, step) && a in s.sessions && b in s.sessions
    requires step.ServerReads? ==> NewPackets(s.sessions[step.a].up, step.n) == []
    requires !(step == Start(b) && |s.room| < ROOM_SIZE)
    ensures IsQuiet(s, Next(mode, s, step), a, b)
  {
    var x := s.sessions[step.a];
    match step
    case ClientQueues(c, packet) => UpdateIsQuiet(s, c, x.(up := WriterStep(x.up, Deliver(packet))), a, b);
    case ClientWrites(c, event) => UpdateIsQuiet(s, c, x.(up := WriterStep(x.up, event)), a, b);
    case Start(c) => UpdateIsQuiet(s, c, x.(stage := Gone), a, b);
    case ServerReads(c, n, stamp) => UpdateIsQuiet(s, c, x.(up := ReadStep(x.up, n)), a, b);
    case ServerReadFails(c) =>
      UpdateIsQuiet(s, c, x.(reading := false), a, b);
      WithRoomIsQuiet(s, Update(s, c, x.(reading := false)), s.room - {c}, a, b);
    case ServerWrites(c, event) =>
      UpdateIsQuiet(s, c, x.(down := WriterStep(x.down, event)), a, b);
      WithRoomIsQuiet(s, Update(s, c, x.(down := WriterStep(x.down, event))), s.room - {c}, a, b);
    case ClientReads(c, n) => UpdateIsQuiet(s, c, x.(down := ReadStep(x.down, n)), a, b);
  }

  lemma StepKeepsFollows(mode: Mode, s: State, step: Step, a: nat, b: nat, lo: nat) returns (lo1: nat)
    requires CanStep(s, step) && a in s.sessions && b in s.sessions
    requires SessionInv(s, b) && Follows(mode, s, a, b, lo)
    ensures var t := Next(mode, s, step);
      && a in t.sessions && b in t.sessions && |t.sessions[b].origins| == |t.sessions[b].down.delivered|
      && Follows(mode, t, a, b, lo1)
      && (s.sessions[b].stage != Waiting ==> lo1 == lo && t.sessions[b].stage != Waiting)
  {
    var t := Next(mode, s, step);
    lo1 := lo;
    if step.ServerReads? && NewPackets(s.sessions[step.a].up, step.n) != [] {
      var p := NewPackets(s.sessions[step.a].up, step.n)[0];
      ServerReadReads(mode, s, step, p, a, b);
      MediaDelivery(mode, s.room, step.a, b, p, step.stamp);
      ReadKeepsFollows(mode, s, t, a, b, lo, step.a, p, Deliveries(mode, s.room, step.a, b, p, step.stamp));
    } else if step == Start(b) && |s.room| < ROOM_SIZE {
      lo1 := |Media(s.sessions[a].up.received)|;
    } else {
      QuietStep(mode, s, step, a, b);
    }
  }

  lemma {:induction false} RunKeepsFollows(mode: Mode, s: State, steps: seq<Step>, t: State, a: nat, b: nat, lo: nat)
      returns (lo1: nat)
    requires Inv(s) && Reaches(mode, s, steps, t) && a in s.sessions && b in s.sessions
    requires SessionInv(s, b) && Follows(mode, s, a, b, lo)
    ensures Inv(t) && a in t.sessions && b in t.sessions && SessionInv(t, b) && Follows(mode, t, a, b, lo1)
    ensures s.sessions[b].stage != Waiting ==> lo1 == lo
    decreases |steps|
  {
    if steps == [] {
      lo1 := lo;
    } else {
      TcpNetwork.StepKeepsInv(mode, s, steps[0]);
      lo1 := StepKeepsFollows(mode, s, steps[0], a, b, lo);
      assert SessionInv(Next(mode, s, steps[0]), b);
      lo1 := RunKeepsFollows(mode, Next(mode, s, steps[0]), steps[1..], t, a, b, lo1);
    }
  }

  // ---------- End to end ----------

  lemma PrefixOfBlock(xs: seq<Bytes>, ys: seq<Bytes>, all: seq<Bytes>, more: seq<Bytes>, lo: nat)
    requires xs <= ys && IsBlock(ys, all, lo) && all <= more
    ensures IsBlock(xs, more, lo)
  {
    assert xs == ys[..|xs|] == all[lo..lo + |xs|] == more[lo..lo + |xs|];
  }

  /** The packets of a's that b's reader has handed on. */
  function Heard(t: State, a: nat, b: nat): seq<Bytes>
    requires b in t.sessions && |t.sessions[b].down.received| <= |t.sessions[b].origins|
  {
    var k := |t.sessions[b].down.received|;
    From(a, t.sessions[b].origins[..k], t.sessions[b].down.received)
  }

  /** Over every run in broadcast mode, with sessions joining, leaving and failing at any time: what reaches b of a's is,
      byte for byte and in order, one contiguous block of the media packets that a queued. */
  lemma {:induction false} TwoHopFifo(s: State, steps: seq<Step>, t: State, a: nat, b: nat) returns (lo: nat)
    requires Initial(s) && Reaches(Broadcast, s, steps, t)
    requires a in s.sessions && b in s.sessions && a != b
    ensures a in t.sessions && b in t.sessions
    ensures |t.sessions[b].down.received| <= |t.sessions[b].origins|
    ensures var heard, media := Heard(t, a, b), Media(t.sessions[a].up.delivered);
      lo + |heard| <= |media| && heard == media[lo..lo + |heard|]
  {
    InitialHolds(Broadcast, s, a, b);
    lo := RunKeepsFollows(Broadcast, s, steps, t, a, b, 0);
    HeardIsSent(t, a, b);
    ReceivedMedia(t, a);
    PrefixOfBlock(Heard(t, a, b), Sent(t, a, b), Media(t.sessions[a].up.received), Media(t.sessions[a].up.delivered), lo);
  }

  /** Nothing is lost on the way. If b is in the room from a state u on in which a had queued no media yet, and in t all
      queues on the way are empty and all bytes are read, b has heard the whole of a's media. */
  lemma {:induction false} EverythingIsHeard(s: State, before: seq<Step>, u: State, after: seq<Step>, t: State,
                                             a: nat, b: nat)
    requires Initial(s) && Reaches(Broadcast, s, before, u) && Reaches(Broadcast, u, after, t)
    requires a in s.sessions && b in s.sessions && a != b
    requires a in u.sessions && Media(u.sessions[a].up.delivered) == [] && b in u.room
    requires b in t.room
    requires a in t.sessions && b in t.sessions
    requires var up := t.sessions[a].up;
      up.writer.queue == [] && up.arrived == |up.writer.wire|
    requires var down := t.sessions[b].down;
      down.writer.queue == [] && down.arrived == |down.writer.wire|
    ensures |t.sessions[b].down.received| <= |t.sessions[b].origins|
    ensures Heard(t, a, b) == Media(t.sessions[a].up.delivered)
  {
    hide Reaches, Follows, ChannelInv, Media, From, Heard, Sent;
    InitialHolds(Broadcast, s, a, b);
    var lo := RunKeepsFollows(Broadcast, s, before, u, a, b, 0);
    ReceivedMedia(u, a);
    NothingYet(u, a, b, lo);
    lo := RunKeepsFollows(Broadcast, u, after, t, a, b, lo);
    assert SessionInv(t, a);
    ChannelDelivers(t.sessions[a].up);
    ChannelDelivers(t.sessions[b].down);
    HeardAll(t, a, b);
    WholeShare(t, a, b);
  }

  lemma NothingYet(u: State, a: nat, b: nat, lo: nat)
    requires a in u.sessions && b in u.sessions && |u.sessions[b].origins| == |u.sessions[b].down.delivered|
    requires Follows(Broadcast, u, a, b, lo) && a != b && Media(u.sessions[a].up.received) == []
    ensures lo == 0
  {
  }

  lemma WholeShare(t: State, a: nat, b: nat)
    requires a in t.sessions && b in t.sessions && |t.sessions[b].origins| == |t.sessions[b].down.delivered|
    requires Follows(Broadcast, t, a, b, 0) && a != b && b in t.room
    ensures Sent(t, a, b) == Media(t.sessions[a].up.received)
  {
    var all := Media(t.sessions[a].up.received);
    assert all[0..|all|] == all;
  }

  lemma HeardAll(t: State, a: nat, b: nat)
    requires b in t.sessions && |t.sessions[b].origins| == |t.sessions[b].down.delivered|
    requires t.sessions[b].down.received == t.sessions[b].down.delivered
    ensures Heard(t, a, b) == Sent(t, a, b)
  {
    assert t.sessions[b].origins[..|t.sessions[b].down.received|] == t.sessions[b].origins;
  }

  /** Over every run in broadcast mode: nothing of a's comes back to a. */
  lemma {:induction false} NothingIsReflected(s: State, steps: seq<Step>, t: State, a: nat)
    requires Initial(s) && Reaches(Broadcast, s, steps, t) && a in s.sessions
    ensures a in t.sessions && |t.sessions[a].down.received| <= |t.sessions[a].origins|
    ensures Heard(t, a, a) == []
  {
    InitialHolds(Broadcast, s, a, a);
    var lo := RunKeepsFollows(Broadcast, s, steps, t, a, a, 0);
    HeardIsSent(t, a, a);
  }

  /** Over every run in echo mode: a hears its own media back, in order and without gaps, and nobody else does. */
  lemma {:induction false} EchoFifo(s: State, steps: seq<Step>, t: State, a: nat, b: nat)
    requires Initial(s) && Reaches(Echo, s, steps, t)
    requires a in s.sessions && b in s.sessions
    ensures a in t.sessions && b in t.sessions
    ensures |t.sessions[b].down.received| <= |t.sessions[b].origins|
    ensures if a == b then Heard(t, a, b) <= Media(t.sessions[a].up.delivered) else Heard(t, a, b) == []
  {
    InitialHolds(Echo, s, a, b);
    var lo := RunKeepsFollows(Echo, s, steps, t, a, b, 0);
    HeardIsSent(t, a, b);
    ReceivedMedia(t, a);
  }

  lemma InitialHolds(mode: Mode, s: State, a: nat, b: nat)
    requires Initial(s) && a in s.sessions && b in s.sessions
    ensures Inv(s) && SessionInv(s, b) && Follows(mode, s, a, b, 0)
  {
    forall x | x in s.sessions ensures SessionInv(s, x) {}
  }

  lemma HeardIsSent(t: State, a: nat, b: nat)
    requires Inv(t) && b in t.sessions && SessionInv(t, b)
    ensures |t.sessions[b].down.received| <= |t.sessions[b].origins|
    ensures Heard(t, a, b) <= Sent(t, a, b)
  {
    var down, k := t.sessions[b].down, |t.sessions[b].down.received|;
    ChannelIsFifo(down);
    assert down.received == down.delivered[..k];
    FromPrefix(a, t.sessions[b].origins, down.delivered, k);
  }

  lemma ReceivedMedia(t: State, a: nat)
    requires Inv(t) && a in t.sessions
    ensures Media(t.sessions[a].up.received) <= Media(t.sessions[a].up.delivered)
  {
    var up := t.sessions[a].up;
    assert SessionInv(t, a);
    ChannelIsFifo(up);
    assert up.received == up.delivered[..|up.received|];
    MediaPrefix(up.delivered, |up.received|);
  }
}
