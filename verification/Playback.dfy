/** What is played, as a function of the order in which frames arrive and are fetched: the jitter queue of
    JitterBuffer.hpp and the two-slot lookahead of DownstreamProcessor.cpp, on frame values. */
module Playback {
  import opened Wire
  import opened Fade
  import opened Sequences

  const CAPACITY: int := 100

  /** m1 is the frame obtained last, m2 the one before it, which is the one that was played last. */
  datatype State = State(queue: seq<Frame>, m1: Option<Frame>, m2: Option<Frame>)

  const START: State := State([], None, None)

  /** A frame is appended, or one is fetched; noise is what the comfort-noise decoder would generate in that fetch. */
  datatype Event = Append(frame: Frame) | Fetch(noise: Frame)

  /** One fetch: what it played, the frame it obtained, and whether it found the queue empty. */
  datatype Fetched = Fetched(output: Frame, obtained: Frame, empty: bool)

  function AppendFrame(s: State, frame: Frame): State {
    if |s.queue| < CAPACITY then s.(queue := s.queue + [frame]) else s
  }

  /** A fetch that finds the queue empty and both slots filled fades both of their frames where they are. */
  predicate Conceals(s: State) {
    s.queue == [] && s.m1.Some? && s.m2.Some?
  }

  function Obtain(s: State, noise: Frame): Frame {
    if s.queue != [] then s.queue[0] else if Conceals(s) then noise else Zeros()
  }

  function FetchFrame(s: State, noise: Frame, r: real): (State, Fetched)
    requires IsBase(r)
  {
    var m1 := if Conceals(s) then Some(Faded(s.m1.value, r, 0)) else s.m1;
    var obtained := Obtain(s, noise);
    var t := State(if s.queue == [] then [] else s.queue[1..], Some(obtained), m1);
    (t, Fetched(if m1.Some? then m1.value else Zeros(), obtained, s.queue == []))
  }

  datatype Outcome = Outcome(state: State, log: seq<Fetched>)

  function Next(before: Outcome, event: Event, r: real): Outcome
    requires IsBase(r)
  {
    match event
    case Append(frame) => before.(state := AppendFrame(before.state, frame))
    case Fetch(noise) =>
      var (t, fetched) := FetchFrame(before.state, noise, r);
      Outcome(t, before.log + [fetched])
  }

  function Play(r: real, events: seq<Event>): Outcome
    requires IsBase(r)
  {
    if events == [] then Outcome(START, [])
    else Next(Play(r, events[..|events| - 1]), events[|events| - 1], r)
  }

  lemma {:induction false} PlaySnoc(r: real, events: seq<Event>, event: Event)
    requires IsBase(r)
    ensures Play(r, events + [event]) == Next(Play(r, events), event, r)
  {
    assert (events + [event])[..|events|] == events;
  }

  lemma {:induction false} LogStep(r: real, events: seq<Event>)
    requires IsBase(r)
    ensures events == [] ==> Play(r, events).log == []
    ensures events != [] ==>
              var before, last := Play(r, events[..|events| - 1]), events[|events| - 1];
              Play(r, events).log == before.log + if last.Fetch? then [FetchFrame(before.state, last.noise, r).1] else []
  {
  }

  lemma {:induction false} PlayAppend(r: real, events: seq<Event>, frame: Frame)
    requires IsBase(r)
    ensures Play(r, events + [Append(frame)]).state == AppendFrame(Play(r, events).state, frame)
  {
    PlaySnoc(r, events, Append(frame));
  }

  // ---------- What is heard ----------

  ghost predicate SlotsFollowLog(outcome: Outcome) {
    var log, n := outcome.log, |outcome.log|;
    && outcome.state.m1 == (if n == 0 then None else Some(log[n - 1].obtained))
    && outcome.state.m2 == (if n <= 1 then None else Some(log[n - 1].output))
  }

  lemma {:induction false} SlotsHoldLastFrames(r: real, events: seq<Event>)
    requires IsBase(r)
    ensures SlotsFollowLog(Play(r, events))
  {
    if events != [] {
      SlotsHoldLastFrames(r, events[..|events| - 1]);
    }
  }

  /** For every interleaving of appends and fetches, output n in terms of the log alone: silence first, then the frame
      obtained one fetch earlier, bit for bit unless fetch n found the queue empty, and then faded once. In particular no
      frame is faded twice before it is played. */
  lemma {:induction false} PlaybackClosedForm(r: real, events: seq<Event>, n: nat)
    requires IsBase(r) && n < |Play(r, events).log|
    ensures var log := Play(r, events).log;
      log[n].output == if n == 0 then Zeros()
                       else if 2 <= n && log[n].empty then Faded(log[n - 1].obtained, r, 0)
                       else log[n - 1].obtained
  {
    hide Play, Faded;
    LogStep(r, events);
    var prefix := events[..|events| - 1];
    SlotsHoldLastFrames(r, prefix);
    if n < |Play(r, prefix).log| {
      PlaybackClosedForm(r, prefix, n);
    }
  }

  // ---------- What a fetch obtains from an empty queue ----------

  function Fetches(events: seq<Event>): nat {
    if events == [] then 0 else Fetches(events[..|events| - 1]) + if events[|events| - 1].Fetch? then 1 else 0
  }

  lemma {:induction false} FetchesCounts(events: seq<Event>)
    ensures Fetches(events) == |set i | 0 <= i < |events| && events[i].Fetch?|
  {
    var all := set i | 0 <= i < |events| && events[i].Fetch?;
    if events == [] {
      assert all == {};
    } else {
      var n := |events| - 1;
      FetchesCounts(events[..n]);
      var before := set i | 0 <= i < n && events[..n][i].Fetch?;
      assert all == if events[n].Fetch? then before + {n} else before;
    }
  }

  lemma {:induction false} LogCountsFetches(r: real, events: seq<Event>)
    requires IsBase(r)
    ensures |Play(r, events).log| == Fetches(events)
  {
    if events != [] {
      LogCountsFetches(r, events[..|events| - 1]);
    }
  }

  lemma {:induction false} LogGrows(r: real, events: seq<Event>, i: nat)
    requires IsBase(r) && i <= |events|
    ensures Play(r, events[..i]).log <= Play(r, events).log
  {
    if i == |events| {
      assert events[..i] == events;
    } else {
      var n := |events| - 1;
      LogGrows(r, events[..n], i);
      assert events[..n][..i] == events[..i];
    }
  }

  /** The event i is the n-th fetch. It finds the queue empty exactly when the events before it leave it empty, and then
      obtains the comfort noise generated in that very fetch, or silence in the first two fetches; otherwise it obtains the
      first frame of the queue. */
  lemma {:induction false} FetchObtains(r: real, events: seq<Event>, i: nat, n: nat)
    requires IsBase(r) && i < |events| && events[i].Fetch? && n == Fetches(events[..i])
    ensures n < |Play(r, events).log|
    ensures var log, queue := Play(r, events).log, Play(r, events[..i]).state.queue;
      && (log[n].empty <==> queue == [])
      && log[n].obtained == if queue != [] then queue[0] else if 2 <= n then events[i].noise else Zeros()
  {
    hide Play, Faded, Fetches;
    LogCountsFetches(r, events[..i]);
    SlotsHoldLastFrames(r, events[..i]);
    LogGrows(r, events, i + 1);
    assert events[..i + 1][..i] == events[..i];
    LogStep(r, events[..i + 1]);
    assert Play(r, events[..i + 1]).log[n] == Play(r, events).log[n];
  }

  lemma FadedSilence(r: real, offset: nat)
    requires IsBase(r)
    ensures Faded(Zeros(), r, offset) == Zeros()
  {
    forall i | 0 <= i < BLOCK_SIZE ensures Faded(Zeros(), r, offset)[i] == Zeros()[i] {
      FadedIsQuieter(Zeros(), r, offset, i);
    }
  }

  /** So what is heard one fetch after an empty queue is that comfort noise, faded once if the queue is still empty; after
      an empty queue in the first two fetches it is silence. */
  lemma {:induction false} ConcealedOutput(r: real, events: seq<Event>, i: nat, n: nat)
    requires IsBase(r) && i < |events| && events[i].Fetch? && n == Fetches(events[..i])
    requires Play(r, events[..i]).state.queue == [] && n + 1 < |Play(r, events).log|
    ensures var next := Play(r, events).log[n + 1];
      next.output == if n < 2 then Zeros() else if next.empty then Faded(events[i].noise, r, 0) else events[i].noise
  {
    FetchObtains(r, events, i, n);
    PlaybackClosedForm(r, events, n + 1);
    FadedSilence(r, 0);
  }

  // ---------- Conservation ----------

  /** The frames that fetches took from the queue, in order. */
  function Popped(log: seq<Fetched>): seq<Frame> {
    if log == [] then []
    else
      var n := |log| - 1;
      Popped(log[..n]) + if log[n].empty then [] else [log[n].obtained]
  }

  predicate IsDropped(r: real, events: seq<Event>, i: nat)
    requires IsBase(r) && i < |events|
  {
    events[i].Append? && |Play(r, events[..i]).state.queue| == CAPACITY
  }

  /** The appended frames that were not dropped, in order, and how many were. */
  function Accepted(r: real, events: seq<Event>): seq<Frame>
    requires IsBase(r)
  {
    if events == [] then []
    else
      var n := |events| - 1;
      Accepted(r, events[..n]) + if events[n].Append? && !IsDropped(r, events, n) then [events[n].frame] else []
  }

  function Appends(events: seq<Event>): nat {
    if events == [] then 0 else Appends(events[..|events| - 1]) + if events[|events| - 1].Append? then 1 else 0
  }

  function Drops(r: real, events: seq<Event>): nat
    requires IsBase(r)
  {
    if events == [] then 0
    else Drops(r, events[..|events| - 1]) + if IsDropped(r, events, |events| - 1) then 1 else 0
  }

  /** An appended frame is dropped exactly when a hundred are queued, and otherwise joins the end of the queue. */
  lemma {:induction false} DroppedExactly(r: real, events: seq<Event>, frame: Frame)
    requires IsBase(r)
    ensures var before, after := Play(r, events), Play(r, events + [Append(frame)]);
      && after.log == before.log
      && after.state.queue == before.state.queue + (if |before.state.queue| < 100 then [frame] else [])
      && (IsDropped(r, events + [Append(frame)], |events|) <==> |before.state.queue| == 100)
  {
    PlaySnoc(r, events, Append(frame));
    assert (events + [Append(frame)])[..|events|] == events;
  }

  lemma PoppedSnoc(log: seq<Fetched>, f: Fetched)
    ensures Popped(log + [f]) == Popped(log) + if f.empty then [] else [f.obtained]
  {
    assert (log + [f])[..|log|] == log;
  }

  /** Nothing is lost but what is dropped, nothing is duplicated and nothing is reordered. */
  lemma {:induction false} FramesAreConserved(r: real, events: seq<Event>)
    requires IsBase(r)
    ensures Popped(Play(r, events).log) + Play(r, events).state.queue == Accepted(r, events)
    ensures |Play(r, events).state.queue| <= 100
  {
    if events != [] {
      var n := |events| - 1;
      var before := Play(r, events[..n]);
      FramesAreConserved(r, events[..n]);
      assert events[..n][..n] == events[..n];
      match events[n]
      case Append(frame) => Associative(Popped(before.log), before.state.queue, [frame]);
      case Fetch(noise) =>
        var (t, fetched) := FetchFrame(before.state, noise, r);
        PoppedSnoc(before.log, fetched);
        if before.state.queue != [] {
          Uncons(before.state.queue);
          Associative(Popped(before.log), [before.state.queue[0]], before.state.queue[1..]);
        }
    }
  }

  lemma {:induction false} AcceptedCount(r: real, events: seq<Event>)
    requires IsBase(r)
    ensures Appends(events) == |Accepted(r, events)| + Drops(r, events)
  {
    if events != [] {
      AcceptedCount(r, events[..|events| - 1]);
    }
  }

  /** Every appended frame has been popped, is queued, or was dropped. */
  lemma {:induction false} EveryFrameIsAccountedFor(r: real, events: seq<Event>)
    requires IsBase(r)
    ensures Appends(events) == |Popped(Play(r, events).log)| + |Play(r, events).state.queue| + Drops(r, events)
  {
    FramesAreConserved(r, events);
    AcceptedCount(r, events);
  }

  // ---------- Latency ----------

  /** A frame at some place of the queue moves up by one with every fetch, and is obtained when it is first. */
  lemma {:induction false} FrameMovesUp(r: real, events: seq<Event>, later: seq<Event>, place: nat)
    requires IsBase(r) && place < |Play(r, events).state.queue|
    ensures var frame, start, after := Play(r, events).state.queue[place], |Play(r, events).log|, Play(r, events + later);
      && |after.log| == start + Fetches(later)
      && if Fetches(later) <= place then
           place - Fetches(later) < |after.state.queue| && after.state.queue[place - Fetches(later)] == frame
         else after.log[start + place].obtained == frame && !after.log[start + place].empty
  {
    if later == [] {
      assert events + later == events;
    } else {
      var n := |later| - 1;
      FrameMovesUp(r, events, later[..n], place);
      assert (events + later)[..|events + later| - 1] == events + later[..n];
      assert (events + later)[|events + later| - 1] == later[n];
    }
  }

  /** A frame accepted behind q others is played at exactly the (q+2)-th later fetch: at most the 101st, hence within
      1.01 s at one fetch per 10 ms. It is bit-exact, or faded once when that fetch found the queue empty. */
  lemma {:induction false} AcceptedFrameIsPlayed(r: real, events: seq<Event>, frame: Frame, later: seq<Event>)
    requires IsBase(r)
    requires |Play(r, events).state.queue| < 100
    requires |Play(r, events).state.queue| + 2 <= Fetches(later)
    ensures var q, n := |Play(r, events).state.queue|, |Play(r, events).log| + |Play(r, events).state.queue|;
      var log := Play(r, events + [Append(frame)] + later).log;
      && q + 2 <= 101
      && n + 1 < |log|
      && log[n].obtained == frame && !log[n].empty
      && log[n + 1].output == if log[n + 1].empty && 1 <= n then Faded(frame, r, 0) else frame
  {
    hide Play, Faded;
    var before, appended := Play(r, events), events + [Append(frame)];
    var q := |before.state.queue|;
    PlaySnoc(r, events, Append(frame));
    assert Play(r, appended).state.queue[q] == frame && Play(r, appended).log == before.log;
    FrameMovesUp(r, appended, later, q);
    var n, log := |before.log| + q, Play(r, appended + later).log;
    assert n + 1 < |log| && log[n].obtained == frame && !log[n].empty;
    PlaybackClosedForm(r, appended + later, n + 1);
  }
}
