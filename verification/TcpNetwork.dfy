/** The whole TCP system: any number of clients with their sessions, two byte streams each, one room of two. Every queue,
    wire and reader moves on its own; sessions join, leave and fail at any time. */
module TcpNetwork {
  import opened Wire
  import opened Relay
  import opened Framing
  import opened WriteQueue
  import opened TcpRelay

  datatype Stage = Waiting | Joined | Gone

  /** up runs from the client's write queue to the session's reader, down from the session's write queue to the client's
      reader. origins says for each packet delivered to down which session's packet it is; None for the server's own. */
  datatype Session = Session(up: Channel, down: Channel, origins: seq<Option<nat>>, stage: Stage, reading: bool)

  datatype State = State(sessions: map<nat, Session>, room: set<nat>)

  datatype Step =
    | ClientQueues(a: nat, packet: Bytes)
    | ClientWrites(a: nat, event: Event)
    | Start(a: nat)
    | ServerReads(a: nat, n: nat, stamp: Stamp)
    | ServerReadFails(a: nat)
    | ServerWrites(a: nat, event: Event)
    | ClientReads(a: nat, n: nat)

  const NEW_SESSION: Session := Session(QUIET, QUIET, [], Waiting, false)

  predicate Initial(s: State) {
    s.room == {} && forall x :: x in s.sessions ==> s.sessions[x] == NEW_SESSION
  }

  predicate CanStep(s: State, step: Step) {
    && step.a in s.sessions
    && var x := s.sessions[step.a];
       match step
       case ClientQueues(_, packet) => WellFormed(packet)
       case ClientWrites(_, event) => !event.Deliver? && Enabled(x.up.writer, event)
       case Start(_) => x.stage.Waiting?
       case ServerReads(_, n, _) => x.reading && CanRead(x.up, n)
       case ServerReadFails(_) => x.reading
       case ServerWrites(_, event) => !event.Deliver? && Enabled(x.down.writer, event)
       case ClientReads(_, n) => CanRead(x.down, n)
  }

  function WithRoom(s: State, room: set<nat>): State {
    State(map x | x in s.sessions :: s.sessions[x].(stage := if x in s.room && x !in room then Gone else s.sessions[x].stage),
          room)
  }

  /** The session gets the packets that the room delivers to it on account of a's packet. */
  function Deliver1(x: Session, ps: seq<Bytes>, origin: Option<nat>): Session {
    if ps == [] then x
    else x.(down := WriterStep(x.down, Deliver(ps[0])), origins := x.origins + [origin])
  }

  function Origin(a: nat, packet: Bytes): Option<nat>
    requires WellFormed(packet)
  {
    if IsMedia(KindOf(packet)) then Some(a) else None
  }

  function Process(mode: Mode, s: State, a: nat, packet: Bytes, stamp: Stamp): State
    requires WellFormed(packet)
  {
    WithRoom(State(map x | x in s.sessions ::
                     Deliver1(s.sessions[x], Deliveries(mode, s.room, a, x, packet, stamp), Origin(a, packet)), s.room),
             RoomAfter(s.room, a, packet))
  }

  function Update(s: State, a: nat, x: Session): State {
    s.(sessions := s.sessions[a := x])
  }

  function Next(mode: Mode, s: State, step: Step): State
    requires CanStep(s, step)
  {
    var x := s.sessions[step.a];
    match step
    case ClientQueues(a, packet) => Update(s, a, x.(up := WriterStep(x.up, Deliver(packet))))
    case ClientWrites(a, event) => Update(s, a, x.(up := WriterStep(x.up, event)))
    case Start(a) =>
      if |s.room| < ROOM_SIZE then State(s.sessions[a := x.(stage := Joined, reading := true)], s.room + {a})
      else Update(s, a, x.(stage := Gone))
    case ServerReads(a, n, stamp) =>
      var s1 := Update(s, a, x.(up := ReadStep(x.up, n)));
      var packets := NewPackets(x.up, n);
      if packets == [] then s1 else Process(mode, s1, a, packets[0], stamp)
    case ServerReadFails(a) => WithRoom(Update(s, a, x.(reading := false)), s.room - {a})
    case ServerWrites(a, event) =>
      var s1 := Update(s, a, x.(down := WriterStep(x.down, event)));
      if event.Fail? then WithRoom(s1, s.room - {a}) else s1
    case ClientReads(a, n) => Update(s, a, x.(down := ReadStep(x.down, n)))
  }

  ghost predicate Reaches(mode: Mode, s: State, steps: seq<Step>, t: State)
    decreases |steps|
  {
    if steps == [] then s == t
    else CanStep(s, steps[0]) && Reaches(mode, Next(mode, s, steps[0]), steps[1..], t)
  }

  /** Who is in the room after a step: a session comes in by starting while fewer than two are in, and goes out by its
      LogoutRequest or by an error of one of its own reads or writes. Nothing else moves it. */
  lemma RoomChanges(mode: Mode, s: State, step: Step, b: nat)
    requires CanStep(s, step)
    ensures b in Next(mode, s, step).room <==>
            if step.a != b then b in s.room
            else if step.Start? then b in s.room || |s.room| < 2
            else
              && b in s.room && !step.ServerReadFails? && !(step.ServerWrites? && step.event.Fail?)
              && !(step.ServerReads? && NewPackets(s.sessions[b].up, step.n) != []
                   && KindOf(NewPackets(s.sessions[b].up, step.n)[0]) == LOGOUT_REQUEST)
  {
  }

  // ---------- The invariants of one session ----------

  ghost predicate SessionInv(s: State, x: nat)
    requires x in s.sessions
  {
    && ChannelInv(s.sessions[x].up) && ChannelInv(s.sessions[x].down)
    && |s.sessions[x].origins| == |s.sessions[x].down.delivered|
    && (x in s.room <==> s.sessions[x].stage == Joined)
  }

  ghost predicate Inv(s: State) {
    && |s.room| <= ROOM_SIZE
    && forall x :: x in s.sessions ==> SessionInv(s, x)
  }

  lemma SubsetSize<T>(a: set<T>, b: set<T>)
    requires a <= b
    ensures |a| <= |b|
  {
    assert b == a + (b - a);
  }

  lemma Deliver1KeepsChannel(x: Session, ps: seq<Bytes>, origin: Option<nat>)
    requires ChannelInv(x.down) && |x.origins| == |x.down.delivered| && AllWellFormed(ps)
    ensures var y := Deliver1(x, ps, origin);
      ChannelInv(y.down) && |y.origins| == |y.down.delivered| && y.up == x.up && y.stage == x.stage
  {
    if ps != [] {
      assert ps[0] in ps;
      WriterStepKeepsChannel(x.down, Deliver(ps[0]));
    }
  }

  lemma WithRoomKeepsInv(s: State, room: set<nat>)
    requires Inv(s) && room <= s.room
    ensures Inv(WithRoom(s, room))
  {
    SubsetSize(room, s.room);
    forall x | x in s.sessions ensures SessionInv(WithRoom(s, room), x) {
      assert SessionInv(s, x);
    }
  }

  lemma {:induction false} ProcessKeepsInv(mode: Mode, s: State, a: nat, packet: Bytes, stamp: Stamp)
    requires Inv(s) && WellFormed(packet)
    ensures Inv(Process(mode, s, a, packet, stamp))
  {
    var t := State(map x | x in s.sessions ::
                     Deliver1(s.sessions[x], Deliveries(mode, s.room, a, x, packet, stamp), Origin(a, packet)), s.room);
    forall x | x in t.sessions ensures SessionInv(t, x) {
      assert SessionInv(s, x);
      Deliver1KeepsChannel(s.sessions[x], Deliveries(mode, s.room, a, x, packet, stamp), Origin(a, packet));
    }
    WithRoomKeepsInv(t, RoomAfter(s.room, a, packet));
  }

  lemma UpdateKeepsInv(s: State, a: nat, x: Session)
    requires Inv(s) && a in s.sessions
    requires ChannelInv(x.up) && ChannelInv(x.down) && |x.origins| == |x.down.delivered|
    requires x.stage == s.sessions[a].stage || (x.stage != Joined && s.sessions[a].stage != Joined)
    ensures Inv(Update(s, a, x))
  {
    forall y | y in s.sessions ensures SessionInv(Update(s, a, x), y) {
      assert SessionInv(s, y);
    }
  }

  lemma {:induction false} StepKeepsInv(mode: Mode, s: State, step: Step)
    requires Inv(s) && CanStep(s, step)
    ensures Inv(Next(mode, s, step))
  {
    var x := s.sessions[step.a];
    assert SessionInv(s, step.a);
    match step
    case ClientQueues(a, packet) =>
      WriterStepKeepsChannel(x.up, Deliver(packet));
      UpdateKeepsInv(s, a, x.(up := WriterStep(x.up, Deliver(packet))));
    case ClientWrites(a, event) =>
      WriterStepKeepsChannel(x.up, event);
      UpdateKeepsInv(s, a, x.(up := WriterStep(x.up, event)));
    case Start(a) =>
      if |s.room| < ROOM_SIZE {
        var t := Next(mode, s, step);
        forall y | y in t.sessions ensures SessionInv(t, y) {
          assert SessionInv(s, y);
        }
      } else {
        UpdateKeepsInv(s, a, x.(stage := Gone));
      }
    case ServerReads(a, n, stamp) =>
      ReadStepKeepsChannel(x.up, n);
      var s1 := Update(s, a, x.(up := ReadStep(x.up, n)));
      UpdateKeepsInv(s, a, x.(up := ReadStep(x.up, n)));
      if NewPackets(x.up, n) != [] {
        ProcessKeepsInv(mode, s1, a, NewPackets(x.up, n)[0], stamp);
      }
    case ServerReadFails(a) =>
      UpdateKeepsInv(s, a, x.(reading := false));
      WithRoomKeepsInv(Update(s, a, x.(reading := false)), s.room - {a});
    case ServerWrites(a, event) =>
      WriterStepKeepsChannel(x.down, event);
      var s1 := Update(s, a, x.(down := WriterStep(x.down, event)));
      UpdateKeepsInv(s, a, x.(down := WriterStep(x.down, event)));
      if event.Fail? {
        WithRoomKeepsInv(s1, s.room - {a});
      }
    case ClientReads(a, n) =>
      ReadStepKeepsChannel(x.down, n);
      UpdateKeepsInv(s, a, x.(down := ReadStep(x.down, n)));
  }

  lemma NextKeepsKeys(mode: Mode, s: State, step: Step)
    requires CanStep(s, step)
    ensures Next(mode, s, step).sessions.Keys == s.sessions.Keys
  {
  }

  lemma {:induction false} RunKeepsInv(mode: Mode, s: State, steps: seq<Step>, t: State)
    requires Inv(s) && Reaches(mode, s, steps, t)
    ensures Inv(t) && t.sessions.Keys == s.sessions.Keys
    decreases |steps|
  {
    if steps != [] {
      hide Next, Inv, CanStep;
      NextKeepsKeys(mode, s, steps[0]);
      StepKeepsInv(mode, s, steps[0]);
      RunKeepsInv(mode, Next(mode, s, steps[0]), steps[1..], t);
    }
  }

  /** Over every run, no more than two are in the room, and whoever is in it has a session that has started. */
  lemma {:induction false} RoomHoldsTwo(mode: Mode, s: State, steps: seq<Step>, t: State, x: nat)
    requires Initial(s) && Reaches(mode, s, steps, t)
    ensures |t.room| <= 2
    ensures x in t.sessions ==> (x in t.room <==> t.sessions[x].stage == Joined)
  {
    hide Next, CanStep;
    assert Inv(s) by {
      forall y | y in s.sessions ensures SessionInv(s, y) {}
    }
    RunKeepsInv(mode, s, steps, t);
    if x in t.sessions {
      assert SessionInv(t, x);
    }
  }
}
