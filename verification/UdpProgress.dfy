/** That the UDP system can do what it is for: if the network delivers, an idle client gets connected from any state
    whatever, and what one client says is heard by another. */
module UdpProgress {
  import opened Wire
  import opened Relay
  import opened UdpRelay
  import opened CallClient
  import opened Sequences
  import opened UdpNetwork
  import Cascade

  lemma ReachesCons(mode: Mode, s: State, step: Step, steps: seq<Step>, t: State)
    requires Enabled(mode, s, step) && Reaches(mode, Apply(mode, s, step), steps, t)
    ensures Reaches(mode, s, [step] + steps, t)
  {
    hide Apply, Enabled;
    assert ([step] + steps)[1..] == steps;
  }

  lemma {:induction false} ReachesConcat(mode: Mode, s: State, xs: seq<Step>, u: State, ys: seq<Step>, t: State)
    requires Reaches(mode, s, xs, u) && Reaches(mode, u, ys, t)
    ensures Reaches(mode, s, xs + ys, t)
    decreases |xs|
  {
    hide Apply, Enabled;
    if xs == [] {
      assert xs + ys == ys;
    } else {
      ReachesConcat(mode, Apply(mode, s, xs[0]), xs[1..], u, ys, t);
      ReachesCons(mode, s, xs[0], xs[1..] + ys, t);
      assert xs + ys == [xs[0]] + (xs[1..] + ys);
    }
  }

  lemma RemoveLast<T>(xs: seq<T>, x: T)
    ensures Remove(xs + [x], |xs|) == xs
  {
  }

  lemma BeginStep(mode: Mode, s: State, e: Endpoint, stamp: Stamp)
    requires e in s.clients && s.clients[e].phase == Idle
    ensures Enabled(mode, s, Begin(e, stamp))
    ensures var t, request := Apply(mode, s, Begin(e, stamp)), Datagram(e, Control(LOGIN_REQUEST, 0, stamp));
      && t.up == s.up + [request] && t.down == s.down && t.room == s.room
      && t.clients == s.clients[e := s.clients[e].(phase := LoggingIn)]
  {
    hide Control;
  }

  lemma ServeLogin(mode: Mode, s: State, up: seq<Datagram>, e: Endpoint, stamp: Stamp)
    requires s.up == up + [Datagram(e, Control(LOGIN_REQUEST, 0, stamp))]
    ensures var answer := Datagram(e, Control(LOGIN_RESPONSE, 0, stamp));
      var step := ServerReceives(|up|, stamp, [answer]);
      && Enabled(mode, s, step)
      && Apply(mode, s, step) == s.(up := up, room := s.room + {e}, down := s.down + [answer])
  {
    hide Control;
    RemoveLast(up, Datagram(e, Control(LOGIN_REQUEST, 0, stamp)));
  }

  lemma HearLogin(mode: Mode, s: State, down: seq<Datagram>, e: Endpoint, stamp: Stamp)
    requires s.down == down + [Datagram(e, Control(LOGIN_RESPONSE, 0, stamp))]
    requires e in s.clients && s.clients[e].phase == LoggingIn
    ensures Enabled(mode, s, ClientReceives(|down|, stamp))
    ensures var t := Apply(mode, s, ClientReceives(|down|, stamp));
      t.room == s.room && t.clients == s.clients[e := ClientState(LoggingIn, true)]
  {
    hide Control;
  }

  /** LoginRequest, its answer, and the look at the flag: an idle client ends up connected and in the room. */
  lemma CanConnect(mode: Mode, s: State, e: Endpoint, stamp: Stamp) returns (steps: seq<Step>, t: State)
    requires e in s.clients && s.clients[e].phase == Idle
    ensures Reaches(mode, s, steps, t)
    ensures t.clients == s.clients[e := ClientState(Connected, true)] && t.room == s.room + {e}
  {
    hide Control, Receive, Hear, Send, ServeRoom, ServeReplies;
    var answer := Datagram(e, Control(LOGIN_RESPONSE, 0, stamp));
    var begin, serve := Begin(e, stamp), ServerReceives(|s.up|, stamp, [answer]);
    var hear, report := ClientReceives(|s.down|, stamp), ReportConnected(e);
    BeginStep(mode, s, e, stamp);
    var s1 := Apply(mode, s, begin);
    ServeLogin(mode, s1, s.up, e, stamp);
    var s2 := Apply(mode, s1, serve);
    HearLogin(mode, s2, s.down, e, stamp);
    var s3 := Apply(mode, s2, hear);
    t := Apply(mode, s3, report);
    ReachesCons(mode, s3, report, [], t);
    ReachesCons(mode, s2, hear, [report], t);
    ReachesCons(mode, s1, serve, [hear] + [report], t);
    ReachesCons(mode, s, begin, [serve] + ([hear] + [report]), t);
    steps := [begin] + ([serve] + ([hear] + [report]));
  }

  /** What a connected client says is heard, byte for byte, by any other client whose run has begun and who is in the
      room. */
  lemma VoiceGetsThrough(s: State, a: Endpoint, b: Endpoint, packet: Bytes, stamp: Stamp)
      returns (steps: seq<Step>, t: State)
    requires a != b && a in s.clients && s.clients[a].phase == Connected
    requires b in s.clients && s.clients[b].phase != Idle && b in s.room
    requires WellFormed(packet) && |packet| <= 1024 && KindOf(packet) in {AUDIO_MESSAGE, AUDIO_MESSAGE_CN}
    ensures Reaches(Broadcast, s, steps, t)
    ensures t.heard == s.heard + [Datagram(b, packet)]
  {
    TruncatedWellFormed(packet);
    var d, copy := Datagram(a, packet), Datagram(b, packet);
    var say := Transmit(a, packet);
    var s1 := Apply(Broadcast, s, say);
    assert s1.up == s.up + [d];
    var replies := Cascade.Listing(ServeReplies(Broadcast, s.room, d, stamp));
    FanOut(Broadcast, s.room, d, stamp, b, packet);
    assert copy in multiset(replies);
    var k :| 0 <= k < |replies| && replies[k] == copy;
    var serve := ServerReceives(|s.up|, stamp, replies);
    var s2 := Apply(Broadcast, s1, serve);
    var hear := ClientReceives(|s.down| + k, stamp);
    assert s2.down[|s.down| + k] == copy;
    t := Apply(Broadcast, s2, hear);
    ReachesCons(Broadcast, s2, hear, [], t);
    ReachesCons(Broadcast, s1, serve, [hear], t);
    ReachesCons(Broadcast, s, say, [serve] + [hear], t);
    steps := [say] + ([serve] + [hear]);
  }

  /** So from the start any two clients can talk: there is a run in which both connect and b hears what a says. */
  lemma TwoClientsCanTalk(s: State, a: Endpoint, b: Endpoint, packet: Bytes, stamp: Stamp)
      returns (steps: seq<Step>, t: State)
    requires Initial(s) && a != b && a in s.clients && b in s.clients
    requires WellFormed(packet) && |packet| <= 1024 && KindOf(packet) in {AUDIO_MESSAGE, AUDIO_MESSAGE_CN}
    ensures Reaches(Broadcast, s, steps, t)
    ensures Datagram(b, packet) in t.heard
  {
    hide Apply, Enabled, Reaches, WellFormed, KindOf;
    var xs, s1 := CanConnect(Broadcast, s, a, stamp);
    var ys, s2 := CanConnect(Broadcast, s1, b, stamp);
    var zs;
    zs, t := VoiceGetsThrough(s2, a, b, packet, stamp);
    assert t.heard[|s2.heard|] == Datagram(b, packet);
    ReachesConcat(Broadcast, s, xs, s1, ys, s2);
    ReachesConcat(Broadcast, s, xs + ys, s2, zs, t);
    steps := xs + ys + zs;
  }
}
