/** The whole UDP system: every client run of client_essential/Worker.cpp, the server's room of server/RawUdpServer.cpp,
    and a network that loses, repeats and reorders datagrams. Endpoints that are not clients may send anything. */
module UdpNetwork {
  import opened Wire
  import opened Relay
  import opened UdpRelay
  import opened CallClient
  import opened Sequences

  /** up and down hold the datagrams in flight; any position may be delivered next. sent records every datagram ever
      sent to the server, heard every packet ever handed to a client's receive handler. */
  datatype State = State(
    clients: map<Endpoint, ClientState>,
    room: set<Endpoint>,
    up: seq<Datagram>,
    down: seq<Datagram>,
    sent: seq<Datagram>,
    heard: seq<Datagram>)

  datatype Step =
    | Begin(e: Endpoint, stamp: Stamp)
    | ReportConnected(e: Endpoint)
    | GiveUp(e: Endpoint)
    | Transmit(e: Endpoint, packet: Bytes)
    | Logout(e: Endpoint, stamp: Stamp)
    | StrangerSends(d: Datagram)
    | LoseUp(i: nat)
    | LoseDown(i: nat)
    | RepeatUp(i: nat)
    | RepeatDown(i: nat)
    | ServerReceives(i: nat, stamp: Stamp, replies: seq<Datagram>)
    | ClientReceives(i: nat, stamp: Stamp)

  predicate Initial(s: State) {
    && (forall e :: e in s.clients ==> s.clients[e] == ClientState(Idle, false))
    && s.room == {} && s.up == s.down == s.sent == s.heard == []
  }

  predicate InPhase(s: State, e: Endpoint, phase: Phase) {
    e in s.clients && s.clients[e].phase == phase
  }

  predicate Enabled(mode: Mode, s: State, step: Step) {
    match step
    case Begin(e, _) => InPhase(s, e, Idle)
    case ReportConnected(e) => InPhase(s, e, LoggingIn) && s.clients[e].isLogin
    case GiveUp(e) => InPhase(s, e, LoggingIn) && !s.clients[e].isLogin
    // The heartbeat loop runs until the stop flag is seen; the audio device may still be stopping after LogoutRequest.
    case Transmit(e, packet) =>
      && WellFormed(packet)
      && if KindOf(packet) == HEARTBEAT_REQUEST then InPhase(s, e, Connected)
         else IsPlayable(packet) && (InPhase(s, e, Connected) || InPhase(s, e, LoggedOut))
    case Logout(e, _) => InPhase(s, e, Connected)
    case StrangerSends(d) => d.peer !in s.clients
    case LoseUp(i) => i < |s.up|
    case LoseDown(i) => i < |s.down|
    case RepeatUp(i) => i < |s.up|
    case RepeatDown(i) => i < |s.down|
    case ServerReceives(i, stamp, replies) =>
      i < |s.up| && multiset(replies) == ServeReplies(mode, s.room, s.up[i], stamp)
    case ClientReceives(i, _) => i < |s.down|
  }

  function Send(s: State, ds: seq<Datagram>): State {
    s.(up := s.up + ds, sent := s.sent + ds)
  }

  function InPhaseNow(s: State, e: Endpoint, phase: Phase): State
    requires e in s.clients
  {
    s.(clients := s.clients[e := s.clients[e].(phase := phase)])
  }

  function FromClient(e: Endpoint, packets: seq<Bytes>): seq<Datagram> {
    seq(|packets|, i requires 0 <= i < |packets| => Datagram(e, packets[i]))
  }

  /** A client hears every packet that reaches its endpoint once its run has begun; other datagrams are dropped. */
  function Hear(s: State, d: Datagram, stamp: Stamp): State {
    if d.peer !in s.clients || s.clients[d.peer].phase == Idle || Receive(d.data).None? then s
    else
      var packet := Receive(d.data).value;
      var s1 := s.(clients := s.clients[d.peer := Handle(s.clients[d.peer], packet)],
                   heard := s.heard + [Datagram(d.peer, packet)]);
      Send(s1, FromClient(d.peer, Answers(packet, stamp)))
  }

  function Apply(mode: Mode, s: State, step: Step): State
    requires Enabled(mode, s, step)
  {
    match step
    case Begin(e, stamp) => Send(InPhaseNow(s, e, LoggingIn), [Datagram(e, Control(LOGIN_REQUEST, 0, stamp))])
    case ReportConnected(e) => InPhaseNow(s, e, Connected)
    case GiveUp(e) => InPhaseNow(s, e, Refused)
    case Transmit(e, packet) => Send(s, [Datagram(e, packet)])
    case Logout(e, stamp) => Send(InPhaseNow(s, e, LoggedOut), [Datagram(e, Control(LOGOUT_REQUEST, 0, stamp))])
    case StrangerSends(d) => Send(s, [d])
    case LoseUp(i) => s.(up := Remove(s.up, i))
    case LoseDown(i) => s.(down := Remove(s.down, i))
    case RepeatUp(i) => s.(up := s.up + [s.up[i]])
    case RepeatDown(i) => s.(down := s.down + [s.down[i]])
    case ServerReceives(i, stamp, replies) =>
      s.(up := Remove(s.up, i), room := ServeRoom(s.room, s.up[i]), down := s.down + replies)
    case ClientReceives(i, stamp) => Hear(s.(down := Remove(s.down, i)), s.down[i], stamp)
  }

  ghost predicate Reaches(mode: Mode, s: State, steps: seq<Step>, t: State)
    decreases |steps|
  {
    if steps == [] then s == t
    else Enabled(mode, s, steps[0]) && Reaches(mode, Apply(mode, s, steps[0]), steps[1..], t)
  }

  // ---------- The invariants ----------

  /** The server owes e nothing: e is in the room, or its run has sent LogoutRequest. */
  predicate InRoomOrOut(s: State, e: Endpoint)
    requires e in s.clients
  {
    e in s.room || s.clients[e].phase == LoggedOut
  }

  ghost predicate UpIsSent(s: State) {
    forall d :: d in s.up ==> d in s.sent
  }

  /** What a client run sends is a whole packet, and it is a LogoutRequest only after the run says so. */
  ghost predicate ClientsSendPackets(s: State) {
    forall d :: d in s.sent && d.peer in s.clients ==>
      && WellFormed(d.data)
      && (KindOf(d.data) == LOGOUT_REQUEST ==> s.clients[d.peer].phase == LoggedOut)
  }

  predicate IsServerPacket(data: Bytes) {
    && WellFormed(data) && |data| <= RECEIVE_BUFFER
    && (IsMedia(KindOf(data)) || KindOf(data) == HEARTBEAT_RESPONSE || KindOf(data) == LOGIN_RESPONSE)
  }

  /** Everything on its way to an endpoint is a packet of a kind the server sends, and a LoginResponse on its way to a
      client proves that the client is in the room. */
  ghost predicate DownIsFromServer(s: State) {
    forall d :: d in s.down ==>
      && IsServerPacket(d.data)
      && (KindOf(d.data) == LOGIN_RESPONSE && d.peer in s.clients ==> InRoomOrOut(s, d.peer))
  }

  ghost predicate LoginIsMembership(s: State) {
    forall e :: e in s.clients ==>
      && (s.clients[e].isLogin ==> InRoomOrOut(s, e))
      && (s.clients[e].phase == Connected ==> s.clients[e].isLogin)
  }

  ghost predicate Inv(s: State) {
    UpIsSent(s) && ClientsSendPackets(s) && DownIsFromServer(s) && LoginIsMembership(s)
  }

  lemma RemoveKeeps<T>(xs: seq<T>, i: nat, x: T)
    requires i < |xs| && x in Remove(xs, i)
    ensures x in xs
  {
  }

  lemma SendKeepsInv(s: State, ds: seq<Datagram>)
    requires Inv(s)
    requires forall d :: d in ds && d.peer in s.clients ==>
      WellFormed(d.data) && (KindOf(d.data) == LOGOUT_REQUEST ==> s.clients[d.peer].phase == LoggedOut)
    ensures Inv(Send(s, ds))
  {
  }

  lemma HearServerPacket(s: State, d: Datagram, stamp: Stamp)
    requires IsServerPacket(d.data)
    ensures var t := Hear(s, d, stamp);
      && t.up == s.up && t.sent == s.sent && t.down == s.down && t.room == s.room
      && (t.heard == s.heard || t.heard == s.heard + [d])
      && (t.clients == s.clients
          || (d.peer in s.clients && t.clients == s.clients[d.peer := Handle(s.clients[d.peer], d.data)]))
  {
    TruncatedWellFormed(d.data);
    assert FromClient(d.peer, Answers(d.data, stamp)) == [];
  }

  /** Hearing a packet of the server's never makes a client answer, and sets the flag only for a member. */
  lemma HearKeepsInv(s: State, d: Datagram, stamp: Stamp)
    requires Inv(s) && IsServerPacket(d.data)
    requires KindOf(d.data) == LOGIN_RESPONSE && d.peer in s.clients ==> InRoomOrOut(s, d.peer)
    ensures Inv(Hear(s, d, stamp))
  {
    HearServerPacket(s, d, stamp);
    var t := Hear(s, d, stamp);
    assert t.clients.Keys == s.clients.Keys;
    forall e | e in s.clients ensures t.clients[e].phase == s.clients[e].phase {}
  }

  lemma {:induction false} ServeKeepsInv(mode: Mode, s: State, i: nat, stamp: Stamp, replies: seq<Datagram>)
    requires Inv(s) && Enabled(mode, s, ServerReceives(i, stamp, replies))
    ensures Inv(Apply(mode, s, ServerReceives(i, stamp, replies)))
  {
    var t := Apply(mode, s, ServerReceives(i, stamp, replies));
    var d := s.up[i];
    assert UpIsSent(t) by {
      forall x | x in t.up ensures x in t.sent { RemoveKeeps(s.up, i, x); }
    }
    forall e | e in s.clients && InRoomOrOut(s, e) ensures InRoomOrOut(t, e) {
      if e == d.peer {
        assert d in s.up && d in s.sent;
        TruncatedWellFormed(d.data);
      }
      ServeRoomMembership(s.room, d, e);
    }
    forall x | x in t.down
      ensures IsServerPacket(x.data) && (KindOf(x.data) == LOGIN_RESPONSE && x.peer in t.clients ==> InRoomOrOut(t, x.peer))
    {
      if x !in s.down {
        assert x in replies && x in multiset(replies);
        OnlyMediaIsForwarded(mode, s.room, d, stamp, x);
      }
    }
  }

  lemma PhaseKeepsInv(s: State, e: Endpoint, phase: Phase)
    requires Inv(s) && e in s.clients && s.clients[e].phase != LoggedOut
    requires phase == Connected ==> s.clients[e].isLogin
    ensures Inv(InPhaseNow(s, e, phase))
  {
    var t := InPhaseNow(s, e, phase);
    forall x | x in s.clients && InRoomOrOut(s, x) ensures InRoomOrOut(t, x) {}
  }

  /** The network may hold any of the datagrams it held, any number of times. */
  lemma ShuffleKeepsInv(s: State, up: seq<Datagram>, down: seq<Datagram>)
    requires Inv(s)
    requires (forall d :: d in up ==> d in s.up) && (forall d :: d in down ==> d in s.down)
    ensures Inv(s.(up := up, down := down))
  {
    var t := s.(up := up, down := down);
    forall x | x in s.clients && InRoomOrOut(s, x) ensures InRoomOrOut(t, x) {}
  }

  lemma {:induction false} StepKeepsInv(mode: Mode, s: State, step: Step)
    requires Inv(s) && Enabled(mode, s, step)
    ensures Inv(Apply(mode, s, step))
  {
    match step
    case Begin(e, stamp) =>
      PhaseKeepsInv(s, e, LoggingIn);
      SendKeepsInv(InPhaseNow(s, e, LoggingIn), [Datagram(e, Control(LOGIN_REQUEST, 0, stamp))]);
    case ReportConnected(e) => PhaseKeepsInv(s, e, Connected);
    case GiveUp(e) => PhaseKeepsInv(s, e, Refused);
    case Transmit(e, packet) => SendKeepsInv(s, [Datagram(e, packet)]);
    case Logout(e, stamp) =>
      PhaseKeepsInv(s, e, LoggedOut);
      SendKeepsInv(InPhaseNow(s, e, LoggedOut), [Datagram(e, Control(LOGOUT_REQUEST, 0, stamp))]);
    case StrangerSends(d) => SendKeepsInv(s, [d]);
    case LoseUp(i) => ShuffleKeepsInv(s, Remove(s.up, i), s.down);
    case LoseDown(i) => ShuffleKeepsInv(s, s.up, Remove(s.down, i));
    case RepeatUp(i) => ShuffleKeepsInv(s, s.up + [s.up[i]], s.down);
    case RepeatDown(i) => ShuffleKeepsInv(s, s.up, s.down + [s.down[i]]);
    case ServerReceives(i, stamp, replies) => ServeKeepsInv(mode, s, i, stamp, replies);
    case ClientReceives(i, stamp) =>
      ShuffleKeepsInv(s, s.up, Remove(s.down, i));
      HearKeepsInv(s.(down := Remove(s.down, i)), s.down[i], stamp);
  }

  lemma {:induction false} RunKeepsInv(mode: Mode, s: State, steps: seq<Step>, t: State)
    requires Inv(s) && Reaches(mode, s, steps, t)
    ensures Inv(t) && t.clients.Keys == s.clients.Keys
    decreases |steps|
  {
    if steps != [] {
      StepKeepsInv(mode, s, steps[0]);
      RunKeepsInv(mode, Apply(mode, s, steps[0]), steps[1..], t);
    }
  }

  /** Over every run: a client that has been reported Connected and has not sent LogoutRequest is in the room. */
  lemma {:induction false} ConnectedClientsAreInTheRoom(mode: Mode, s: State, steps: seq<Step>, t: State, e: Endpoint)
    requires Initial(s) && Reaches(mode, s, steps, t)
    requires e in t.clients && t.clients[e].phase == Connected
    ensures e in t.room
  {
    RunKeepsInv(mode, s, steps, t);
  }

  /** Over every run, no client is ever asked for a heartbeat, so no client ever sends a heartbeat response. */
  lemma NoHeartbeatRequestReachesAClient(mode: Mode, s: State, steps: seq<Step>, t: State, d: Datagram)
    requires Initial(s) && Reaches(mode, s, steps, t)
    requires d in t.down
    ensures Receive(d.data) == Some(d.data) && KindOf(d.data) != HEARTBEAT_REQUEST
    ensures Answers(d.data, Stamp(MARKER, 0)) == []
  {
    RunKeepsInv(mode, s, steps, t);
    TruncatedWellFormed(d.data);
  }

  // ---------- The room and the datagrams that reached it ----------

  function ServedBy(s: State, step: Step): seq<Datagram>
    requires step.ServerReceives? ==> step.i < |s.up|
  {
    if step.ServerReceives? then [s.up[step.i]] else []
  }

  ghost function Served(mode: Mode, s: State, steps: seq<Step>, t: State): seq<Datagram>
    requires Reaches(mode, s, steps, t)
    decreases |steps|
  {
    if steps == [] then []
    else
      ServedBy(s, steps[0]) + Served(mode, Apply(mode, s, steps[0]), steps[1..], t)
  }

  lemma StepRoom(mode: Mode, s: State, step: Step, before: seq<Datagram>)
    requires Enabled(mode, s, step) && s.room == Members(before)
    ensures Apply(mode, s, step).room == Members(before + ServedBy(s, step))
  {
    var now := ServedBy(s, step);
    assert (before + now)[..|before|] == before && (now == [] ==> before + now == before);
  }

  /** The room of a run is the room of the datagrams served so far, in the order in which the network delivered them. */
  lemma {:induction false} RoomIsHistory(mode: Mode, s: State, steps: seq<Step>, t: State, before: seq<Datagram>)
    requires Reaches(mode, s, steps, t) && s.room == Members(before)
    ensures t.room == Members(before + Served(mode, s, steps, t))
    decreases |steps|
  {
    if steps == [] {
      assert before + [] == before;
    } else {
      var now, s1 := ServedBy(s, steps[0]), Apply(mode, s, steps[0]);
      var later := Served(mode, s1, steps[1..], t);
      assert before + Served(mode, s, steps, t) == before + now + later;
      assert s1.room == Members(before + now) by { StepRoom(mode, s, steps[0], before); }
      RoomIsHistory(mode, s1, steps[1..], t, before + now);
    }
  }

  // ---------- Where media comes from ----------

  /** u is a datagram from which the server makes d: the same packet, sent by another endpoint (by the same one in echo
      mode). */
  predicate IsOrigin(mode: Mode, u: Datagram, d: Datagram) {
    Receive(u.data) == Some(d.data) && (mode.Echo? <==> u.peer == d.peer)
  }

  ghost predicate HasOrigin(mode: Mode, sent: seq<Datagram>, d: Datagram) {
    exists u :: u in sent && IsOrigin(mode, u, d)
  }

  ghost predicate MediaHasOrigin(mode: Mode, sent: seq<Datagram>, ds: seq<Datagram>) {
    forall d :: d in ds && WellFormed(d.data) && IsMedia(KindOf(d.data)) ==> HasOrigin(mode, sent, d)
  }

  lemma MoreSentKeepsOrigin(mode: Mode, sent: seq<Datagram>, more: seq<Datagram>, ds: seq<Datagram>)
    requires MediaHasOrigin(mode, sent, ds)
    ensures MediaHasOrigin(mode, sent + more, ds)
  {
    forall d | d in ds && WellFormed(d.data) && IsMedia(KindOf(d.data)) ensures HasOrigin(mode, sent + more, d) {
      var u :| u in sent && IsOrigin(mode, u, d);
      assert u in sent + more;
    }
  }

  lemma ServeKeepsOrigin(mode: Mode, s: State, i: nat, stamp: Stamp, replies: seq<Datagram>)
    requires Inv(s) && Enabled(mode, s, ServerReceives(i, stamp, replies))
    ensures MediaHasOrigin(mode, s.sent, replies)
  {
    var u := s.up[i];
    assert u in s.up && u in s.sent;
    forall d | d in replies && WellFormed(d.data) && IsMedia(KindOf(d.data)) ensures HasOrigin(mode, s.sent, d) {
      assert d in multiset(replies);
      OnlyMediaIsForwarded(mode, s.room, u, stamp, d);
      assert IsOrigin(mode, u, d);
    }
  }

  lemma StepKeepsOrigin(mode: Mode, s: State, step: Step)
    requires Inv(s) && Enabled(mode, s, step)
    requires MediaHasOrigin(mode, s.sent, s.down) && MediaHasOrigin(mode, s.sent, s.heard)
    ensures var t := Apply(mode, s, step);
      MediaHasOrigin(mode, t.sent, t.down) && MediaHasOrigin(mode, t.sent, t.heard)
  {
    var t := Apply(mode, s, step);
    assert s.sent <= t.sent;
    var more := t.sent[|s.sent|..];
    assert t.sent == s.sent + more;
    MoreSentKeepsOrigin(mode, s.sent, more, s.down);
    MoreSentKeepsOrigin(mode, s.sent, more, s.heard);
    match step
    case ServerReceives(i, stamp, replies) => ServeKeepsOrigin(mode, s, i, stamp, replies);
    case ClientReceives(i, stamp) =>
      assert s.down[i] in s.down;
      TruncatedWellFormed(s.down[i].data);
      forall x | x in Remove(s.down, i) ensures x in s.down { RemoveKeeps(s.down, i, x); }
    case LoseDown(i) =>
      forall x | x in Remove(s.down, i) ensures x in s.down { RemoveKeeps(s.down, i, x); }
    case _ =>
  }

  lemma {:induction false} RunKeepsOrigin(mode: Mode, s: State, steps: seq<Step>, t: State)
    requires Inv(s) && Reaches(mode, s, steps, t)
    requires MediaHasOrigin(mode, s.sent, s.down) && MediaHasOrigin(mode, s.sent, s.heard)
    ensures MediaHasOrigin(mode, t.sent, t.down) && MediaHasOrigin(mode, t.sent, t.heard)
    decreases |steps|
  {
    if steps != [] {
      StepKeepsInv(mode, s, steps[0]);
      StepKeepsOrigin(mode, s, steps[0]);
      RunKeepsOrigin(mode, Apply(mode, s, steps[0]), steps[1..], t);
    }
  }

  /** Over every run: a media packet in flight to an endpoint, or heard by a client, was sent by another endpoint (by
      that endpoint itself in echo mode). None is fabricated, altered or, in broadcast mode, reflected; what a client
      sent arrives byte for byte, and what a stranger sent arrives without the bytes behind the packet. */
  lemma {:induction false} MediaIsAuthentic(mode: Mode, s: State, steps: seq<Step>, t: State, d: Datagram)
    requires Initial(s) && Reaches(mode, s, steps, t)
    requires d in t.down || d in t.heard
    requires WellFormed(d.data) && KindOf(d.data) in {TEXT_MESSAGE, AUDIO_MESSAGE, AUDIO_MESSAGE_CN}
    ensures exists u :: u in t.sent && (mode.Echo? <==> u.peer == d.peer) && d.data <= u.data
                        && (u.peer in t.clients ==> u.data == d.data)
  {
    RunKeepsInv(mode, s, steps, t);
    RunKeepsOrigin(mode, s, steps, t);
    var u :| u in t.sent && IsOrigin(mode, u, d);
    if u.peer in t.clients {
      TruncatedWellFormed(u.data);
    }
  }

  // ---------- How often media arrives ----------

  function Hit(u: Datagram, d: Datagram): nat {
    if IsOrigin(Broadcast, u, d) then 1 else 0
  }

  /** How many of the datagrams are origins of d. */
  function Origins(us: seq<Datagram>, d: Datagram): nat {
    if us == [] then 0 else Origins(us[..|us| - 1], d) + Hit(us[|us| - 1], d)
  }

  lemma {:induction false} OriginsConcat(us: seq<Datagram>, vs: seq<Datagram>, d: Datagram)
    ensures Origins(us + vs, d) == Origins(us, d) + Origins(vs, d)
    decreases |vs|
  {
    if vs == [] {
      assert us + vs == us;
    } else {
      var n := |vs| - 1;
      assert us + vs == (us + vs[..n]) + [vs[n]];
      OriginsConcat(us, vs[..n], d);
    }
  }

  lemma OriginsRemove(us: seq<Datagram>, i: nat, d: Datagram)
    requires i < |us|
    ensures Origins(Remove(us, i), d) == Origins(us, d) - Hit(us[i], d)
  {
    assert us == us[..i] + [us[i]] + us[i + 1..];
    assert Origins([us[i]], d) == Hit(us[i], d) by { assert [us[i]][..0] == []; }
    OriginsConcat(us[..i], us[i + 1..], d);
    OriginsConcat(us[..i], [us[i]], d);
    OriginsConcat(us[..i] + [us[i]], us[i + 1..], d);
  }

  lemma RemoveCount<T>(xs: seq<T>, i: nat)
    requires i < |xs|
    ensures multiset(Remove(xs, i)) == multiset(xs) - multiset{xs[i]}
  {
    assert xs == xs[..i] + [xs[i]] + xs[i + 1..];
  }

  predicate Repeats(step: Step) {
    step.RepeatUp? || step.RepeatDown?
  }

  /** Copies of d made so far and copies that may still be made, against the times it was sent. */
  ghost predicate NotMoreThanSent(s: State, d: Datagram) {
    Origins(s.up, d) + multiset(s.down)[d] + multiset(s.heard)[d] <= Origins(s.sent, d)
  }

  lemma {:induction false} StepKeepsCount(s: State, step: Step, d: Datagram)
    requires Inv(s) && Enabled(Broadcast, s, step) && !Repeats(step)
    requires WellFormed(d.data) && IsMedia(KindOf(d.data))
    requires NotMoreThanSent(s, d)
    ensures NotMoreThanSent(Apply(Broadcast, s, step), d)
  {
    match step
    case Begin(e, stamp) => SendKeepsCount(InPhaseNow(s, e, LoggingIn), [Datagram(e, Control(LOGIN_REQUEST, 0, stamp))], d);
    case ReportConnected(e) =>
    case GiveUp(e) =>
    case Transmit(e, packet) => SendKeepsCount(s, [Datagram(e, packet)], d);
    case Logout(e, stamp) =>
      SendKeepsCount(InPhaseNow(s, e, LoggedOut), [Datagram(e, Control(LOGOUT_REQUEST, 0, stamp))], d);
    case StrangerSends(u) => SendKeepsCount(s, [u], d);
    case LoseUp(i) => OriginsRemove(s.up, i, d);
    case LoseDown(i) => RemoveCount(s.down, i);
    case ServerReceives(i, stamp, replies) => ServeKeepsCount(s, i, stamp, replies, d);
    case ClientReceives(i, stamp) => HearKeepsCount(s, i, stamp, d);
  }

  lemma {:induction false} ServeKeepsCount(s: State, i: nat, stamp: Stamp, replies: seq<Datagram>, d: Datagram)
    requires Enabled(Broadcast, s, ServerReceives(i, stamp, replies))
    requires WellFormed(d.data) && IsMedia(KindOf(d.data)) && NotMoreThanSent(s, d)
    ensures NotMoreThanSent(Apply(Broadcast, s, ServerReceives(i, stamp, replies)), d)
  {
    OriginsRemove(s.up, i, d);
    if d in multiset(replies) {
      OnlyMediaIsForwarded(Broadcast, s.room, s.up[i], stamp, d);
      FanOut(Broadcast, s.room, s.up[i], stamp, d.peer, d.data);
    }
    assert multiset(s.down + replies)[d] == multiset(s.down)[d] + multiset(replies)[d];
  }

  lemma {:induction false} HearKeepsCount(s: State, i: nat, stamp: Stamp, d: Datagram)
    requires Inv(s) && i < |s.down| && NotMoreThanSent(s, d)
    ensures NotMoreThanSent(Apply(Broadcast, s, ClientReceives(i, stamp)), d)
  {
    var d1 := s.down[i];
    assert d1 in s.down;
    RemoveCount(s.down, i);
    HearServerPacket(s.(down := Remove(s.down, i)), d1, stamp);
    assert multiset(s.heard + [d1])[d] == multiset(s.heard)[d] + multiset{d1}[d];
  }

  lemma SendKeepsCount(s: State, us: seq<Datagram>, d: Datagram)
    requires NotMoreThanSent(s, d)
    ensures NotMoreThanSent(Send(s, us), d)
  {
    OriginsConcat(s.up, us, d);
    OriginsConcat(s.sent, us, d);
  }

  lemma {:induction false} RunKeepsCount(s: State, steps: seq<Step>, t: State, d: Datagram)
    requires Inv(s) && Reaches(Broadcast, s, steps, t)
    requires forall step :: step in steps ==> !Repeats(step)
    requires WellFormed(d.data) && IsMedia(KindOf(d.data)) && NotMoreThanSent(s, d)
    ensures NotMoreThanSent(t, d)
    decreases |steps|
  {
    if steps != [] {
      StepKeepsInv(Broadcast, s, steps[0]);
      StepKeepsCount(s, steps[0], d);
      RunKeepsCount(Apply(Broadcast, s, steps[0]), steps[1..], t, d);
    }
  }

  /** Over every run in which the network repeats nothing: a client hears a media packet at most as often as other
      endpoints have sent it. */
  lemma {:induction false} MediaIsNotMultiplied(s: State, steps: seq<Step>, t: State, e: Endpoint, packet: Bytes)
    requires Initial(s) && Reaches(Broadcast, s, steps, t)
    requires forall step :: step in steps ==> !Repeats(step)
    requires WellFormed(packet) && KindOf(packet) in {TEXT_MESSAGE, AUDIO_MESSAGE, AUDIO_MESSAGE_CN}
    ensures multiset(t.heard)[Datagram(e, packet)]
         <= |set i | 0 <= i < |t.sent| && t.sent[i].peer != e && Receive(t.sent[i].data) == Some(packet)|
  {
    RunKeepsCount(s, steps, t, Datagram(e, packet));
    OriginsCount(t.sent, e, packet);
  }

  lemma {:induction false} OriginsCount(us: seq<Datagram>, e: Endpoint, packet: Bytes)
    ensures Origins(us, Datagram(e, packet))
         == |set i | 0 <= i < |us| && us[i].peer != e && Receive(us[i].data) == Some(packet)|
  {
    if us == [] {
      assert OriginIndices(us, e, packet) == {};
    } else {
      OriginsCount(us[..|us| - 1], e, packet);
      OriginIndicesSnoc(us, e, packet);
    }
    assert OriginIndices(us, e, packet) == set i | 0 <= i < |us| && us[i].peer != e && Receive(us[i].data) == Some(packet);
  }

  function OriginIndices(us: seq<Datagram>, e: Endpoint, packet: Bytes): set<int> {
    set i | 0 <= i < |us| && us[i].peer != e && Receive(us[i].data) == Some(packet)
  }

  lemma OriginIndicesSnoc(us: seq<Datagram>, e: Endpoint, packet: Bytes)
    requires us != []
    ensures var n := |us| - 1;
      && n !in OriginIndices(us[..n], e, packet)
      && OriginIndices(us, e, packet)
         == OriginIndices(us[..n], e, packet) + if IsOrigin(Broadcast, us[n], Datagram(e, packet)) then {n} else {}
  {
    hide Receive;
    var n := |us| - 1;
    forall i | 0 <= i < n ensures us[..n][i] == us[i] {}
    forall i ensures i in OriginIndices(us, e, packet) <==>
      i in OriginIndices(us[..n], e, packet) || (i == n && IsOrigin(Broadcast, us[n], Datagram(e, packet))) {}
  }
}
