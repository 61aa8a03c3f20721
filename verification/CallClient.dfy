/** The client's run of client_essential/Worker.cpp: log in, report the state, send heartbeats until told to stop, log
    out. The receive handler runs beside it and shares only the login flag. */
module CallClient {
  import opened Clock
  import opened Wire

  /** How far the run has come: Connected and Refused are the two reports, LoggedOut means LogoutRequest is out. */
  datatype Phase = Idle | LoggingIn | Refused | Connected | LoggedOut

  datatype ClientState = ClientState(phase: Phase, isLogin: bool)

  predicate IsPlayable(packet: Bytes)
    requires WellFormed(packet)
  {
    KindOf(packet) == AUDIO_MESSAGE || KindOf(packet) == AUDIO_MESSAGE_CN
  }

  /** The effect of the receive handler on the run. */
  function Handle(c: ClientState, packet: Bytes): ClientState
    requires WellFormed(packet)
  {
    if KindOf(packet) == LOGIN_RESPONSE then c.(isLogin := true) else c
  }

  /** What the receive handler sends. */
  function Answers(packet: Bytes, stamp: Stamp): seq<Bytes>
    requires WellFormed(packet)
  {
    if KindOf(packet) == HEARTBEAT_REQUEST then [Control(HEARTBEAT_RESPONSE, 0, stamp)] else []
  }

  ghost predicate HasLoginResponse(packets: seq<Bytes>)
    requires AllWellFormed(packets)
  {
    exists p :: p in packets && KindOf(p) == LOGIN_RESPONSE
  }

  /** A LoginResponse is among what the receive handler gets while the client waits. */
  ghost predicate IsAdmitted(arrivals: seq<seq<Bytes>>)
    requires forall batch :: batch in arrivals ==> AllWellFormed(batch)
  {
    exists batch :: batch in arrivals && HasLoginResponse(batch)
  }

  lemma AdmittedByAnyResponse(arrivals: seq<seq<Bytes>>)
    requires forall batch :: batch in arrivals ==> AllWellFormed(batch)
    ensures IsAdmitted(arrivals) <==>
            exists batch, p :: batch in arrivals && p in batch && WellFormed(p) && KindOf(p) == LOGIN_RESPONSE
  {
    forall batch, p | batch in arrivals && p in batch && WellFormed(p) && KindOf(p) == LOGIN_RESPONSE
      ensures HasLoginResponse(batch) {}
  }

  predicate AllOfKind(packets: seq<Bytes>, kind: U16) {
    forall p :: p in packets ==> WellFormed(p) && KindOf(p) == kind
  }

  /** LoginRequest has been sent, and nothing after it but answers to heartbeat requests. */
  predicate IsOpening(before: seq<Bytes>, after: seq<Bytes>, stamp: Stamp) {
    before + [Control(LOGIN_REQUEST, 0, stamp)] <= after && AllOfKind(after[|before| + 1..], HEARTBEAT_RESPONSE)
  }

  lemma OpeningIsLoginAndAnswers(before: seq<Bytes>, after: seq<Bytes>, stamp: Stamp, i: nat)
    requires IsOpening(before, after, stamp)
    ensures |before| < |after| && before == after[..|before|] && after[|before|] == Control(LOGIN_REQUEST, 0, stamp)
    ensures |before| < i < |after| ==> WellFormed(after[i]) && KindOf(after[i]) == HEARTBEAT_RESPONSE
  {
    assert (before + [Control(LOGIN_REQUEST, 0, stamp)])[|before|] == after[|before|];
    if |before| < i < |after| {
      assert after[i] in after[|before| + 1..];
    }
  }

  /** The packets that go to playback. */
  function Playable(packets: seq<Bytes>): seq<Bytes>
    requires AllWellFormed(packets)
  {
    if packets == [] then []
    else
      var n := |packets| - 1;
      Playable(packets[..n]) + if IsPlayable(packets[n]) then [packets[n]] else []
  }

  // ---------- Heartbeats ----------

  /** The heartbeat clock: when it last started over, and how many heartbeats have gone out. */
  datatype Beats = Beats(last: Option<int>, count: nat)

  function Beat(b: Beats, now: int): Beats {
    match b.last
    case None => b.(last := Some(now))
    case Some(t) => if now - t > 10 * SECOND then Beats(Some(now), b.count + 1) else b
  }

  /** The clock after the sending loop has run at the given times. */
  function BeatsAfter(last: Option<int>, rounds: seq<int>): Beats {
    if rounds == [] then Beats(last, 0) else Beat(BeatsAfter(last, rounds[..|rounds| - 1]), rounds[|rounds| - 1])
  }

  /** The loop keeps the connection alive and does not flood it: heartbeats are more than 10 s apart, and at most 10 s and
      one round of the loop. */
  lemma {:induction false} HeartbeatRate(last: Option<int>, rounds: seq<int>, gap: nat)
    requires rounds != [] && (last.Some? ==> 0 <= rounds[0] - last.value <= gap)
    requires forall i :: 1 <= i < |rounds| ==> 0 <= rounds[i] - rounds[i - 1] <= gap
    ensures var elapsed := rounds[|rounds| - 1] - if last.Some? then last.value else rounds[0];
      var count := BeatsAfter(last, rounds).count;
      10_000_000_001 * count <= elapsed <= (10_000_000_000 + gap) * count + 10_000_000_000
  {
    ClockIsCurrent(last, if last.Some? then last.value else rounds[0], rounds, gap);
  }

  /** When the clock last started over, in terms of how often it has. */
  lemma {:induction false} ClockIsCurrent(last: Option<int>, start: int, rounds: seq<int>, gap: nat)
    requires rounds != [] && 0 <= rounds[0] - start <= gap && start == if last.Some? then last.value else rounds[0]
    requires forall i :: 1 <= i < |rounds| ==> 0 <= rounds[i] - rounds[i - 1] <= gap
    ensures var now, b := rounds[|rounds| - 1], BeatsAfter(last, rounds);
      && b.last.Some? && 0 <= now - b.last.value <= 10 * SECOND
      && (10 * SECOND + 1) * b.count <= b.last.value - start <= (10 * SECOND + gap) * b.count
  {
    var n := |rounds| - 1;
    if n == 0 {
      assert rounds[..0] == [];
      OneBeat(Beats(last, 0), start, rounds[0] - start, rounds[0], gap, 10 * SECOND);
    } else {
      ClockIsCurrent(last, start, rounds[..n], gap);
      OneBeat(BeatsAfter(last, rounds[..n]), start, rounds[n] - rounds[n - 1], rounds[n], gap, 10 * SECOND);
    }
  }

  lemma OneBeat(b: Beats, start: int, step: int, now: int, gap: nat, period: int)
    requires period == 10 * SECOND && 0 <= step <= gap
    requires b.last.None? ==> b.count == 0 && now == start
    requires b.last.Some? ==> 0 <= now - step - b.last.value <= period
    requires b.last.Some? ==> (period + 1) * b.count <= b.last.value - start <= (period + gap) * b.count
    ensures var c := Beat(b, now);
      && c.last.Some? && 0 <= now - c.last.value <= period
      && (period + 1) * c.count <= c.last.value - start <= (period + gap) * c.count
  {
    OneMore(period + 1, b.count);
    OneMore(period + gap, b.count);
  }

  lemma OneMore(a: int, n: nat)
    ensures a * (n + 1) == a * n + a
  {
  }

  /** The next n heartbeats after the one with the given serial. */
  function Heartbeats(serial: U32, n: nat, stamp: Stamp): seq<Bytes> {
    if n == 0 then []
    else Heartbeats(serial, n - 1, stamp) + [Control(HEARTBEAT_REQUEST, SerialAfter(serial, n), stamp)]
  }

  lemma {:induction false} HeartbeatsAreNumbered(serial: U32, n: nat, stamp: Stamp, i: nat)
    ensures |Heartbeats(serial, n, stamp)| == n
    ensures i < n ==>
              Heartbeats(serial, n, stamp)[i] == Control(HEARTBEAT_REQUEST, (serial + i + 1) % 0x1_0000_0000, stamp)
  {
    if n > 0 {
      HeartbeatsAreNumbered(serial, n - 1, stamp, i);
      SerialAfterIsSum(serial, n);
    }
  }

  lemma ThreeParts(opening: seq<Bytes>, beats: seq<Bytes>, last: Bytes)
    ensures var all := opening + beats + [last];
      |all| - 1 - |beats| == |opening| && all[..|opening|] == opening && all[|opening|..] == beats + [last]
  {
  }

  class Worker {
    var phase: Phase
    var isLogin: bool
    var sent: seq<Bytes>
    var played: seq<Bytes>
    var heartbeatSerial: U32
    var lastHeartbeat: Option<int>

    constructor ()
      ensures State() == ClientState(Idle, false) && sent == [] && played == []
    {
      phase, isLogin, sent, played, heartbeatSerial, lastHeartbeat := Idle, false, [], [], 0, None;
    }

    function State(): ClientState
      reads this
    {
      ClientState(phase, isLogin)
    }

    method OnReceived(packet: Bytes, stamp: Stamp)
      requires WellFormed(packet)
      modifies this`isLogin, this`sent, this`played
      ensures State() == Handle(old(State()), packet) && sent == old(sent) + Answers(packet, stamp)
      ensures isLogin <==> old(isLogin) || KindOf(packet) == LOGIN_RESPONSE
      ensures sent == old(sent)
                      + if KindOf(packet) == HEARTBEAT_REQUEST then [Control(HEARTBEAT_RESPONSE, 0, stamp)] else []
      ensures played == old(played) + if KindOf(packet) in {AUDIO_MESSAGE, AUDIO_MESSAGE_CN} then [packet] else []
    {
      var kind := KindOf(packet);
      if kind == HEARTBEAT_REQUEST {
        sent := sent + [Control(HEARTBEAT_RESPONSE, 0, stamp)];
      } else if kind == LOGIN_RESPONSE {
        isLogin := true;
      } else if kind == AUDIO_MESSAGE_CN || kind == AUDIO_MESSAGE {
        played := played + [packet];
      }
    }

    method OnReceivedAll(packets: seq<Bytes>, stamp: Stamp)
      requires AllWellFormed(packets)
      modifies this`isLogin, this`sent, this`played
      ensures isLogin <==> old(isLogin) || HasLoginResponse(packets)
      ensures old(sent) <= sent && AllOfKind(sent[|old(sent)|..], HEARTBEAT_RESPONSE)
      ensures played == old(played) + Playable(packets)
    {
      for i := 0 to |packets|
        invariant isLogin <==> old(isLogin) || HasLoginResponse(packets[..i])
        invariant old(sent) <= sent && AllOfKind(sent[|old(sent)|..], HEARTBEAT_RESPONSE)
        invariant played == old(played) + Playable(packets[..i])
      {
        OnReceived(packets[i], stamp);
        assert packets[..i + 1] == packets[..i] + [packets[i]];
        assert packets[..i + 1][..i] == packets[..i];
      }
      assert packets[..|packets|] == packets;
    }

    /** Sends LoginRequest, looks at the flag up to ten times and once more at the end. arrivals[i] is what the receive
        handler got before look i. The run is reported Connected exactly when a LoginResponse came in time. */
    method Login(arrivals: seq<seq<Bytes>>, stamp: Stamp)
      requires phase == Idle && !isLogin && |arrivals| == 11
      requires forall batch :: batch in arrivals ==> AllWellFormed(batch)
      modifies this`phase, this`isLogin, this`sent, this`played
      ensures phase == if IsAdmitted(arrivals) then Connected else Refused
      ensures phase == Connected ==> isLogin
      ensures IsOpening(old(sent), sent, stamp)
    {
      hide Control;
      phase := LoggingIn;
      sent := sent + [Control(LOGIN_REQUEST, 0, stamp)];
      ghost var start := sent;
      var looks := 0;
      while looks < 10
        invariant 0 <= looks <= 10
        invariant isLogin ==> exists batch :: batch in arrivals && HasLoginResponse(batch)
        invariant !isLogin ==> forall i :: 0 <= i < looks ==> !HasLoginResponse(arrivals[i])
        invariant start <= sent && AllOfKind(sent[|start|..], HEARTBEAT_RESPONSE)
        invariant phase == LoggingIn
      {
        OnReceivedAll(arrivals[looks], stamp);
        if isLogin {
          break;
        }
        looks := looks + 1;
      }
      if looks == 10 {
        OnReceivedAll(arrivals[10], stamp);
      }
      phase := if isLogin then Connected else Refused;
    }

    /** At most one heartbeat per 10 seconds; the clock starts at the first call. */
    method SendHeartbeat(now: int, stamp: Stamp)
      modifies this`sent, this`heartbeatSerial, this`lastHeartbeat
      ensures var due := old(lastHeartbeat.Some?) && now - old(lastHeartbeat).value > 10 * SECOND;
        && heartbeatSerial == (if due then Successor(old(heartbeatSerial)) else old(heartbeatSerial))
        && sent == old(sent) + (if due then [Control(HEARTBEAT_REQUEST, heartbeatSerial, stamp)] else [])
        && lastHeartbeat == if due || old(lastHeartbeat).None? then Some(now) else old(lastHeartbeat)
    {
      if lastHeartbeat.None? {
        lastHeartbeat := Some(now);
      }
      if now - lastHeartbeat.value > 10 * SECOND {
        heartbeatSerial := Successor(heartbeatSerial);
        sent := sent + [Control(HEARTBEAT_REQUEST, heartbeatSerial, stamp)];
        lastHeartbeat := Some(now);
      }
    }

    /** The whole run; rounds are the times at which the sending loop runs before it sees the stop flag. Connected or
        not, LoginRequest comes first. A connected run sends its heartbeats under consecutive serials, LogoutRequest
        last, and nothing else but answers. */
    method SyncStart(arrivals: seq<seq<Bytes>>, rounds: seq<int>, stamp: Stamp)
      requires phase == Idle && !isLogin && |arrivals| == 11
      requires forall batch :: batch in arrivals ==> AllWellFormed(batch)
      modifies this
      ensures phase == if IsAdmitted(arrivals) then LoggedOut else Refused
      ensures phase == Refused ==> IsOpening(old(sent), sent, stamp)
      ensures phase == LoggedOut ==>
                var beats := BeatsAfter(old(lastHeartbeat), rounds).count;
                var first := |sent| - 1 - beats;
                && |old(sent)| < first && IsOpening(old(sent), sent[..first], stamp)
                && sent[first..] == Heartbeats(old(heartbeatSerial), beats, stamp) + [Control(LOGOUT_REQUEST, 0, stamp)]
    {
      hide Control;
      Login(arrivals, stamp);
      if phase == Refused {
        return;
      }
      ghost var beats := BeatsAfter(lastHeartbeat, rounds).count;
      HeartbeatsAreNumbered(heartbeatSerial, beats, stamp, 0);
      ThreeParts(sent, Heartbeats(heartbeatSerial, beats, stamp), Control(LOGOUT_REQUEST, 0, stamp));
      SendUntilStopped(rounds, stamp);
      sent := sent + [Control(LOGOUT_REQUEST, 0, stamp)];
      phase := LoggedOut;
    }

    /** The sending loop. */
    method SendUntilStopped(rounds: seq<int>, stamp: Stamp)
      modifies this`sent, this`heartbeatSerial, this`lastHeartbeat
      ensures sent == old(sent) + Heartbeats(old(heartbeatSerial), BeatsAfter(old(lastHeartbeat), rounds).count, stamp)
    {
      ghost var serial, beats := heartbeatSerial, Beats(lastHeartbeat, 0);
      for round := 0 to |rounds|
        invariant beats == BeatsAfter(old(lastHeartbeat), rounds[..round]) && beats.last == lastHeartbeat
        invariant heartbeatSerial == SerialAfter(serial, beats.count)
        invariant sent == old(sent) + Heartbeats(serial, beats.count, stamp)
      {
        assert rounds[..round + 1][..round] == rounds[..round];
        SendHeartbeat(rounds[round], stamp);
        beats := Beat(beats, rounds[round]);
      }
      assert rounds[..|rounds|] == rounds;
    }
  }
}
