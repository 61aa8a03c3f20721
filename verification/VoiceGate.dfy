/** The gate of client_essential/Worker.cpp that sends voice as Opus and silence as comfort noise: an 8-bit counter of
    voiced frames, looked at and cleared about once a second. */
module VoiceGate {
  import opened Clock
  import opened Wire

  type U8 = n: int | 0 <= n < 0x100

  /** One microphone frame: when it is processed, whether the detector hears a voice, whether the user is muted, and what
      the two encoders make of it. */
  datatype Frame = Frame(time: int, voice: bool, mute: bool, opus: Payload, noise: Payload)

  datatype Sent = Sent(kind: U16, serial: U32, payload: Payload)

  /** The time stamp is set by the first unmuted frame. */
  datatype State = State(vadCounter: U8, sendOpus: bool, lastTimeStamp: Option<int>, serial: U32)

  const START: State := State(0, true, None, 0)

  function Reference(s: State, f: Frame): int {
    if s.lastTimeStamp.Some? then s.lastTimeStamp.value else f.time
  }

  /** The second is over: the counter is looked at and cleared in this frame. */
  predicate Expires(s: State, f: Frame) {
    !f.mute && f.time - Reference(s, f) > SECOND
  }

  function Listen(s: State, f: Frame): State {
    if f.mute then s
    else
      var heard := if f.voice then s.(vadCounter := (s.vadCounter + 1) % 0x100, sendOpus := true) else s;
      if Expires(s, f) then
        State(0, heard.sendOpus && heard.vadCounter != 0, Some(f.time), s.serial)
      else heard.(lastTimeStamp := Some(Reference(s, f)))
  }

  function Output(s: State, f: Frame): seq<Sent> {
    if f.mute then []
    else if Listen(s, f).sendOpus then [Sent(AUDIO_MESSAGE, Successor(s.serial), f.opus)]
    else if f.noise != [] then [Sent(AUDIO_MESSAGE_CN, Successor(s.serial), f.noise)]
    else []
  }

  function Step(s: State, f: Frame): State {
    if Output(s, f) == [] then Listen(s, f) else Listen(s, f).(serial := Successor(s.serial))
  }

  function Run(frames: seq<Frame>): State {
    if frames == [] then START else Step(Run(frames[..|frames| - 1]), frames[|frames| - 1])
  }

  function Outputs(frames: seq<Frame>): seq<Sent> {
    if frames == [] then []
    else Outputs(frames[..|frames| - 1]) + Output(Run(frames[..|frames| - 1]), frames[|frames| - 1])
  }

  // ---------- One frame ----------

  lemma SuccessorModulo256(n: nat)
    ensures (n % 0x100 + 1) % 0x100 == (n + 1) % 0x100
  {
  }

  lemma StepSerial(s: State, f: Frame)
    ensures |Output(s, f)| <= 1
    ensures Output(s, f) == [] ==> Step(s, f).serial == s.serial
    ensures Output(s, f) != [] ==> Output(s, f)[0].serial == Step(s, f).serial == Successor(s.serial)
    ensures !f.mute && Step(s, f).sendOpus ==> Output(s, f) == [Sent(AUDIO_MESSAGE, Successor(s.serial), f.opus)]
  {
  }

  lemma StepCounter(s: State, f: Frame)
    ensures var t := Step(s, f);
      && t.vadCounter == (if Expires(s, f) then 0 else if IsVoiced(f) then (s.vadCounter + 1) % 0x100 else s.vadCounter)
      && t.lastTimeStamp
         == if f.mute then s.lastTimeStamp else if Expires(s, f) then Some(f.time) else Some(Reference(s, f))
  {
  }

  lemma StepOpus(s: State, f: Frame)
    requires !f.mute
    ensures Step(s, f).sendOpus <==>
            (f.voice || s.sendOpus)
            && !(Expires(s, f) && (if f.voice then (s.vadCounter + 1) % 0x100 else s.vadCounter) == 0)
  {
  }

  // ---------- Serial numbers ----------

  /** Across mutes, mode switches and empty comfort-noise frames, the packets sent carry consecutive serials mod 2^32. */
  lemma {:induction false} SerialsAreConsecutive(frames: seq<Frame>, i: nat)
    ensures Run(frames).serial == |Outputs(frames)| % 0x1_0000_0000
    ensures i < |Outputs(frames)| ==> Outputs(frames)[i].serial == (i + 1) % 0x1_0000_0000
  {
    if frames != [] {
      var n := |frames| - 1;
      SerialsAreConsecutive(frames[..n], i);
      StepSerial(Run(frames[..n]), frames[n]);
      SuccessorOfModulo(|Outputs(frames[..n])|);
    }
  }

  // ---------- What the counter counts ----------

  /** The frames up to the last expiry; the counter is about the frames after them. */
  function Cleared(frames: seq<Frame>): (n: nat)
    ensures n <= |frames|
  {
    if frames == [] then 0
    else
      var n := |frames| - 1;
      if Expires(Run(frames[..n]), frames[n]) then n + 1 else Cleared(frames[..n])
  }

  predicate IsVoiced(f: Frame) {
    f.voice && !f.mute
  }

  function Voiced(frames: seq<Frame>): (n: nat)
    ensures n <= |frames|
  {
    if frames == [] then 0
    else Voiced(frames[..|frames| - 1]) + if IsVoiced(frames[|frames| - 1]) then 1 else 0
  }

  /** The voiced frames of the second that the last frame belongs to, before it may clear the counter. */
  function VoicedInWindow(frames: seq<Frame>): nat
    requires frames != []
  {
    Voiced(frames[Cleared(frames[..|frames| - 1])..])
  }

  lemma {:induction false} VoicedSnoc(frames: seq<Frame>, from: nat)
    requires frames != [] && from < |frames|
    ensures var n := |frames| - 1;
      Voiced(frames[from..]) == Voiced(frames[..n][from..]) + if IsVoiced(frames[n]) then 1 else 0
  {
    var n := |frames| - 1;
    assert frames[from..][..n - from] == frames[..n][from..];
  }

  lemma {:induction false} CounterCountsModulo(frames: seq<Frame>)
    ensures Run(frames).vadCounter == Voiced(frames[Cleared(frames)..]) % 0x100
  {
    if frames != [] {
      var n := |frames| - 1;
      var s, from := Run(frames[..n]), Cleared(frames[..n]);
      CounterCountsModulo(frames[..n]);
      StepCounter(s, frames[n]);
      assert Run(frames) == Step(s, frames[n]) && Cleared(frames) == if Expires(s, frames[n]) then n + 1 else from;
      hide Run, Step, Cleared, Expires;
      if Expires(s, frames[n]) {
        assert frames[Cleared(frames)..] == [];
      } else {
        VoicedSnoc(frames, from);
        SuccessorModulo256(Voiced(frames[..n][from..]));
      }
    }
  }

  /** Exactly when an unmuted frame goes out as Opus: a voiced one does, unless the second is over in that very frame and
      the voiced frames of the second are a multiple of 256; an unvoiced one does if the gate was open, unless the same
      holds. */
  lemma {:induction false} OpusExactly(frames: seq<Frame>)
    requires frames != [] && !frames[|frames| - 1].mute
    ensures Run(frames).sendOpus <==>
            (frames[|frames| - 1].voice || Run(frames[..|frames| - 1]).sendOpus)
            && !(Expires(Run(frames[..|frames| - 1]), frames[|frames| - 1]) && VoicedInWindow(frames) % 0x100 == 0)
  {
    var n := |frames| - 1;
    assert (if frames[n].voice then (Run(frames[..n]).vadCounter + 1) % 0x100 else Run(frames[..n]).vadCounter)
        == VoicedInWindow(frames) % 0x100 by { CounterBeforeExpiry(frames); }
    StepOpus(Run(frames[..n]), frames[n]);
  }

  lemma {:induction false} CounterBeforeExpiry(frames: seq<Frame>)
    requires frames != []
    ensures VoicedInWindow(frames) % 0x100
         == if IsVoiced(frames[|frames| - 1]) then (Run(frames[..|frames| - 1]).vadCounter + 1) % 0x100
            else Run(frames[..|frames| - 1]).vadCounter
  {
    var before := frames[..|frames| - 1];
    CounterCountsModulo(before);
    VoicedSnoc(frames, Cleared(before));
    SuccessorModulo256(Voiced(before[Cleared(before)..]));
  }

  // ---------- What goes out ----------

  lemma {:induction false} VoicedCounts(frames: seq<Frame>)
    ensures Voiced(frames) == |set i | 0 <= i < |frames| && frames[i].voice && !frames[i].mute|
  {
    var all := set i | 0 <= i < |frames| && frames[i].voice && !frames[i].mute;
    if frames == [] {
      assert all == {};
    } else {
      var n := |frames| - 1;
      VoicedCounts(frames[..n]);
      var before := set i | 0 <= i < n && frames[..n][i].voice && !frames[..n][i].mute;
      assert all == if IsVoiced(frames[n]) then before + {n} else before;
    }
  }

  lemma {:induction false} AllMuted(frames: seq<Frame>)
    requires forall i :: 0 <= i < |frames| ==> frames[i].mute
    ensures Run(frames).lastTimeStamp.None?
  {
    if frames != [] {
      AllMuted(frames[..|frames| - 1]);
    }
  }

  /** b is the frame from which the running second is measured: the last one that found a second over, or else the first
      unmuted one. */
  ghost predicate IsBase(frames: seq<Frame>, b: nat) {
    && b < |frames| && !frames[b].mute
    && if Cleared(frames) > 0 then b == Cleared(frames) - 1 else forall i :: 0 <= i < b ==> frames[i].mute
  }

  lemma {:induction false} StampIsBase(frames: seq<Frame>, b: nat)
    requires IsBase(frames, b)
    ensures Run(frames).lastTimeStamp == Some(frames[b].time)
  {
    var n := |frames| - 1;
    StepCounter(Run(frames[..n]), frames[n]);
    if b < n {
      assert !Expires(Run(frames[..n]), frames[n]);
      StampIsBase(frames[..n], b);
    } else if !Expires(Run(frames[..n]), frames[n]) {
      AllMuted(frames[..n]);
    }
  }

  /** An unmuted frame finds the second over exactly when it comes more than a second after the frame from which the second
      is measured; a muted one never does. */
  lemma {:induction false} SecondIsOverExactly(frames: seq<Frame>, b: nat)
    requires frames != [] && b < |frames| - 1 && !frames[b].mute
    requires var c := Cleared(frames[..|frames| - 1]);
      if c > 0 then b == c - 1 else forall i :: 0 <= i < b ==> frames[i].mute
    ensures Cleared(frames) == |frames| <==>
            !frames[|frames| - 1].mute && frames[|frames| - 1].time - frames[b].time > 1_000_000_000
    ensures Cleared(frames) < |frames| ==> Cleared(frames) == Cleared(frames[..|frames| - 1])
  {
    var n := |frames| - 1;
    forall i | 0 <= i < b ensures frames[..n][i] == frames[i] {}
    StampIsBase(frames[..n], b);
  }

  /** The first unmuted frame only starts the clock. */
  lemma {:induction false} FirstFrameStarts(frames: seq<Frame>)
    requires forall i :: 0 <= i < |frames| - 1 ==> frames[i].mute
    ensures Cleared(frames) == 0
  {
    if frames != [] {
      AllMuted(frames[..|frames| - 1]);
      FirstFrameStarts(frames[..|frames| - 1]);
    }
  }

  /** The gate closes with the m-th frame: it ends a second that held a multiple of 256 voiced frames. */
  ghost predicate ClosesAt(frames: seq<Frame>, m: int) {
    1 <= m <= |frames| && Cleared(frames[..m]) == m && VoicedInWindow(frames[..m]) % 0x100 == 0
  }

  ghost predicate Reopened(frames: seq<Frame>) {
    forall m :: ClosesAt(frames, m) ==> exists j :: m <= j < |frames| && IsVoiced(frames[j])
  }

  lemma {:induction false} ReopenedSnoc(frames: seq<Frame>)
    requires frames != []
    ensures Reopened(frames) <==>
            !ClosesAt(frames, |frames|) && (IsVoiced(frames[|frames| - 1]) || Reopened(frames[..|frames| - 1]))
  {
    hide Cleared, VoicedInWindow;
    var n := |frames| - 1;
    forall m | m <= n ensures ClosesAt(frames, m) <==> ClosesAt(frames[..n], m) {
      if 1 <= m {
        assert frames[..n][..m] == frames[..m];
      }
    }
    forall j | 0 <= j < n ensures frames[..n][j] == frames[j] {}
  }

  lemma {:induction false} ClosesNow(frames: seq<Frame>)
    requires frames != []
    ensures ClosesAt(frames, |frames|) <==>
            Expires(Run(frames[..|frames| - 1]), frames[|frames| - 1]) && VoicedInWindow(frames) % 0x100 == 0
  {
    hide VoicedInWindow;
    assert frames[..|frames|] == frames;
  }

  /** Over a whole run the gate is open exactly when every frame that closed it has a voiced one after it. */
  lemma {:induction false} OpenExactly(frames: seq<Frame>)
    ensures Run(frames).sendOpus <==> Reopened(frames)
  {
    if frames != [] {
      hide Cleared, VoicedInWindow, ClosesAt, Reopened;
      OpenExactly(frames[..|frames| - 1]);
      ReopenedSnoc(frames);
      ClosesNow(frames);
      if !frames[|frames| - 1].mute {
        OpusExactly(frames);
      }
    }
  }

  lemma ReopenedMeans(frames: seq<Frame>)
    ensures Reopened(frames) <==>
            forall m :: 1 <= m <= |frames| && Cleared(frames[..m]) == m && VoicedInWindow(frames[..m]) % 0x100 == 0
              ==> exists j :: m <= j < |frames| && frames[j].voice && !frames[j].mute
  {
    hide Cleared, VoicedInWindow;
    if Reopened(frames) {
      forall m | 1 <= m <= |frames| && Cleared(frames[..m]) == m && VoicedInWindow(frames[..m]) % 0x100 == 0
        ensures exists j :: m <= j < |frames| && frames[j].voice && !frames[j].mute
      {
        assert ClosesAt(frames, m);
        var j :| m <= j < |frames| && IsVoiced(frames[j]);
      }
    } else {
      var m :| ClosesAt(frames, m) && forall j :: m <= j < |frames| ==> !IsVoiced(frames[j]);
      assert forall j :: m <= j < |frames| && frames[j].voice ==> frames[j].mute;
      assert |frames[..m]| == m;
    }
  }

  /** Exactly what an unmuted frame sends, over every run: its Opus packet if every frame that closed the gate was followed
      by a voiced one, and otherwise its comfort noise, if there is any; under the next serial. */
  lemma {:induction false} PacketExactly(frames: seq<Frame>)
    requires frames != [] && !frames[|frames| - 1].mute
    ensures var f, before := frames[|frames| - 1], Outputs(frames[..|frames| - 1]);
      var serial := (|before| + 1) % 0x1_0000_0000;
      Outputs(frames) == before
        + if forall m :: 1 <= m <= |frames| && Cleared(frames[..m]) == m && VoicedInWindow(frames[..m]) % 0x100 == 0
               ==> exists j :: m <= j < |frames| && frames[j].voice && !frames[j].mute
          then [Sent(AUDIO_MESSAGE, serial, f.opus)]
          else if f.noise != [] then [Sent(AUDIO_MESSAGE_CN, serial, f.noise)]
          else []
  {
    hide Cleared, VoicedInWindow, Reopened, Run, Outputs;
    FlagDecides(frames);
    OpenExactly(frames);
    ReopenedMeans(frames);
  }

  /** With the gate open the last frame is sent as Opus, with the gate closed as comfort noise or not at all. */
  lemma {:induction false} FlagDecides(frames: seq<Frame>)
    requires frames != [] && !frames[|frames| - 1].mute
    ensures var n := |frames| - 1;
      var f, before, serial := frames[n], Outputs(frames[..n]), (|Outputs(frames[..n])| + 1) % 0x1_0000_0000;
      && (Run(frames).sendOpus ==> Outputs(frames) == before + [Sent(AUDIO_MESSAGE, serial, f.opus)])
      && (!Run(frames).sendOpus ==>
            Outputs(frames) == before + if f.noise != [] then [Sent(AUDIO_MESSAGE_CN, serial, f.noise)] else [])
  {
    hide Run, Outputs, Successor;
    var n := |frames| - 1;
    SerialsAreConsecutive(frames[..n], 0);
    SuccessorOfModulo(|Outputs(frames[..n])|);
    LastPacket(frames);
  }

  lemma {:induction false} LastPacket(frames: seq<Frame>)
    requires frames != [] && !frames[|frames| - 1].mute
    ensures var n := |frames| - 1;
      var f, serial := frames[n], Successor(Run(frames[..n]).serial);
      Outputs(frames) == Outputs(frames[..n])
        + if Run(frames).sendOpus then [Sent(AUDIO_MESSAGE, serial, f.opus)]
          else if f.noise != [] then [Sent(AUDIO_MESSAGE_CN, serial, f.noise)]
          else []
  {
    hide Successor;
  }

  // ---------- The counter can wrap ----------

  function Burst(n: nat): seq<Frame> {
    seq(n, i => Frame(i * MILLISECOND, true, false, [0], []))
  }

  lemma {:induction false} BurstRun(n: nat)
    requires n <= 255
    ensures Run(Burst(n)) == State(n, true, if n == 0 then None else Some(0), n)
  {
    if n > 0 {
      hide Step;
      BurstRun(n - 1);
      assert Burst(n)[..n - 1] == Burst(n - 1);
      BurstStep(n, Run(Burst(n - 1)), Burst(n)[n - 1]);
    }
  }

  lemma BurstStep(n: nat, s: State, f: Frame)
    requires 1 <= n <= 255 && f == Frame((n - 1) * MILLISECOND, true, false, [0], [])
    requires s == State(n - 1, true, if n == 1 then None else Some(0), n - 1)
    ensures Step(s, f) == State(n, true, Some(0), n)
  {
  }

  /** With frames a millisecond apart, 256 voiced frames in one second close the gate on the last of them: a voiced,
      unmuted frame is not sent as Opus, and the gate reports silence in the middle of speech. */
  lemma {:induction false} WrappedCounterClosesGate() returns (frames: seq<Frame>)
    ensures frames != [] && IsVoiced(frames[|frames| - 1])
    ensures Run(frames[..|frames| - 1]).sendOpus && !Run(frames).sendOpus
    ensures VoicedInWindow(frames) == 256
  {
    var last := Frame(SECOND + 1, true, false, [0], []);
    frames := Burst(255) + [last];
    assert frames[..255] == Burst(255);
    BurstRun(255);
    assert Expires(Run(frames[..255]), last);
    BurstVoiced(255);
    assert Cleared(frames[..255]) == 0;
    assert frames[0..] == frames;
  }

  lemma {:induction false} BurstVoiced(n: nat)
    requires n <= 255
    ensures Voiced(Burst(n)) == n && Cleared(Burst(n)) == 0
  {
    if n > 0 {
      BurstVoiced(n - 1);
      BurstRun(n - 1);
      assert Burst(n)[..n - 1] == Burst(n - 1);
    }
  }

  // ---------- The window ----------

  ghost predicate Ordered(frames: seq<Frame>) {
    forall i, j :: 0 <= i <= j < |frames| ==> frames[i].time <= frames[j].time
  }

  /** stamp is the time of the last expiry, or of the first unmuted frame; no later unmuted frame is more than a second
      away from it. */
  ghost predicate IsWindow(frames: seq<Frame>, from: nat, stamp: Option<int>) {
    && from <= |frames|
    && (from > 0 ==> stamp == Some(frames[from - 1].time))
    && (stamp.None? ==> forall i :: 0 <= i < |frames| ==> frames[i].mute)
    && (stamp.Some? ==> frames != [] && stamp.value <= frames[|frames| - 1].time)
    && (stamp.Some? ==>
          forall i :: from <= i < |frames| && !frames[i].mute ==> stamp.value <= frames[i].time <= stamp.value + SECOND)
  }

  lemma {:induction false} WindowHolds(frames: seq<Frame>)
    requires Ordered(frames)
    ensures IsWindow(frames, Cleared(frames), Run(frames).lastTimeStamp)
  {
    if frames != [] {
      var n := |frames| - 1;
      WindowHolds(frames[..n]);
      var s, f := Run(frames[..n]), frames[n];
      StepCounter(s, f);
      WindowGrows(frames, Cleared(frames[..n]), s.lastTimeStamp, Expires(s, f), Run(frames).lastTimeStamp);
    }
  }

  lemma {:induction false} WindowGrows(frames: seq<Frame>, from: nat, stamp: Option<int>, expires: bool, stamp': Option<int>)
    requires frames != [] && Ordered(frames) && IsWindow(frames[..|frames| - 1], from, stamp)
    requires var f := frames[|frames| - 1];
      var reference := if stamp.Some? then stamp.value else f.time;
      && (expires <==> !f.mute && f.time - reference > SECOND)
      && stamp' == if f.mute then stamp else if expires then Some(f.time) else Some(reference)
    ensures IsWindow(frames, if expires then |frames| else from, stamp')
  {
    var n := |frames| - 1;
    assert forall i :: 0 <= i < n ==> frames[..n][i] == frames[i];
  }

  lemma {:induction false} NoneVoiced(frames: seq<Frame>, i: nat)
    requires Voiced(frames) == 0 && i < |frames|
    ensures !IsVoiced(frames[i])
  {
    if i < |frames| - 1 {
      NoneVoiced(frames[..|frames| - 1], i);
    }
  }

  /** When the gate switches from Opus to comfort noise at time u, and the second held fewer than 256 voiced frames, no
      voiced unmuted frame was processed in (u - 1 s, u]. */
  lemma {:induction false} SilenceBeforeNoise(frames: seq<Frame>, i: nat)
    requires Ordered(frames) && i < |frames|
    requires Run(frames[..|frames| - 1]).sendOpus && !Run(frames).sendOpus
    requires VoicedInWindow(frames) < 256
    requires frames[|frames| - 1].time - SECOND < frames[i].time
    ensures !IsVoiced(frames[i])
  {
    ClosingExpires(frames);
    RecentIsInWindow(frames, i);
    QuietWindow(frames, Cleared(frames[..|frames| - 1]), i);
  }

  lemma {:induction false} QuietWindow(frames: seq<Frame>, from: nat, i: nat)
    requires from <= i < |frames| && Voiced(frames[from..]) == 0
    ensures !IsVoiced(frames[i])
  {
    NoneVoiced(frames[from..], i - from);
  }

  lemma {:induction false} RecentIsInWindow(frames: seq<Frame>, i: nat)
    requires Ordered(frames) && i < |frames|
    requires var stamp := Run(frames[..|frames| - 1]).lastTimeStamp;
      stamp.Some? && frames[|frames| - 1].time - stamp.value > SECOND
    requires frames[|frames| - 1].time - SECOND < frames[i].time
    ensures Cleared(frames[..|frames| - 1]) <= i
  {
    var before := frames[..|frames| - 1];
    WindowHolds(before);
    InsideWindow(frames, Cleared(before), Run(before).lastTimeStamp, i);
  }

  lemma {:induction false} ClosingExpires(frames: seq<Frame>)
    requires frames != [] && Run(frames[..|frames| - 1]).sendOpus && !Run(frames).sendOpus
    ensures VoicedInWindow(frames) < 256 ==> VoicedInWindow(frames) == 0
    ensures var stamp := Run(frames[..|frames| - 1]).lastTimeStamp;
      stamp.Some? && frames[|frames| - 1].time - stamp.value > SECOND
  {
    assert !frames[|frames| - 1].mute;
    OpusExactly(frames);
  }

  /** Exactly when the gate closes in silence: of the second that ends with the switch, no frame was voiced if and only if
      fewer than 256 were. */
  lemma {:induction false} SwitchIsSilentExactly(frames: seq<Frame>)
    requires frames != []
    requires Run(frames[..|frames| - 1]).sendOpus && !Run(frames).sendOpus
    ensures VoicedInWindow(frames) < 256 <==>
            forall i :: Cleared(frames[..|frames| - 1]) <= i < |frames| ==> !IsVoiced(frames[i])
  {
    var from := Cleared(frames[..|frames| - 1]);
    var inside := frames[from..];
    ClosingExpires(frames);
    if VoicedInWindow(frames) < 256 {
      forall i | from <= i < |frames| ensures !IsVoiced(frames[i]) { QuietWindow(frames, from, i); }
    } else {
      var i := SomeVoiced(inside);
      assert frames[from + i] == inside[i];
    }
  }

  lemma {:induction false} SomeVoiced(frames: seq<Frame>) returns (i: nat)
    requires Voiced(frames) > 0
    ensures i < |frames| && IsVoiced(frames[i])
  {
    i := |frames| - 1;
    if !IsVoiced(frames[i]) {
      i := SomeVoiced(frames[..i]);
    }
  }

  /** The frames of the last second before an expiry all lie behind the previous one. */
  lemma {:induction false} InsideWindow(frames: seq<Frame>, from: nat, stamp: Option<int>, i: nat)
    requires Ordered(frames) && i < |frames| && IsWindow(frames[..|frames| - 1], from, stamp)
    requires stamp.Some? && frames[|frames| - 1].time - stamp.value > SECOND
    requires frames[|frames| - 1].time - SECOND < frames[i].time
    ensures from <= i
  {
  }

  // ---------- Frames that do not come too fast ----------

  ghost predicate Spaced(frames: seq<Frame>, d: int) {
    forall i, j :: 0 <= i < j < |frames| ==> frames[j].time - frames[i].time >= d * (j - i)
  }

  /** The last voiced frame is at least d after the start for every voiced frame before it. */
  lemma {:induction false} LastVoiced(frames: seq<Frame>, d: int, from: int) returns (last: nat)
    requires Spaced(frames, d) && d > 0 && Voiced(frames) > 0
    requires forall i :: 0 <= i < |frames| && IsVoiced(frames[i]) ==> from <= frames[i].time
    ensures last < |frames| && IsVoiced(frames[last]) && frames[last].time - from >= d * (Voiced(frames) - 1)
  {
    var n := |frames| - 1;
    var before := Voiced(frames[..n]);
    last := n;
    if before > 0 {
      var l := LastVoiced(frames[..n], d, from);
      if IsVoiced(frames[n]) {
        Further(d, before, n - l, frames[l].time - from, frames[n].time - frames[l].time);
      } else {
        last := l;
      }
    }
  }

  lemma Further(d: int, n: int, k: int, a: int, b: int)
    requires d > 0 && k >= 1 && a >= d * (n - 1) && b >= d * k
    ensures a + b >= d * n
  {
    Product(d, 1, k);
    assert d * n == d * (n - 1) + d;
  }

  lemma {:induction false} Product(d: int, a: int, b: int)
    requires d > 0
    ensures a <= b ==> d * a <= d * b
  {
    if a < b {
      assert d * (b - a) > 0;
    }
  }

  lemma {:induction false} Quotient(d: int, k: int)
    requires d > 0 && d * k <= SECOND
    ensures k <= SECOND / d
  {
    Product(d, SECOND / d + 1, k);
  }

  lemma {:induction false} VoicedIsFew(frames: seq<Frame>, d: int, from: int)
    requires d > 0 && Spaced(frames, d)
    requires forall i :: 0 <= i < |frames| && IsVoiced(frames[i]) ==> from <= frames[i].time <= from + SECOND
    ensures Voiced(frames) <= SECOND / d + 1
  {
    if Voiced(frames) > 0 {
      var last := LastVoiced(frames, d, from);
      Quotient(d, Voiced(frames) - 1);
    }
  }

  /** With frames at least d apart, one second holds at most floor(1 s / d) + 2 voiced frames. */
  lemma {:induction false} WindowIsShort(frames: seq<Frame>, d: int)
    requires frames != [] && d > 0 && Ordered(frames) && Spaced(frames, d)
    ensures VoicedInWindow(frames) <= SECOND / d + 2
  {
    var n := |frames| - 1;
    var from, stamp := Cleared(frames[..n]), Run(frames[..n]).lastTimeStamp;
    WindowHolds(frames[..n]);
    VoicedSnoc(frames, from);
    SpacedSlice(frames, d, from, n);
    VoicedIsFew(frames[..n][from..], d, if stamp.Some? then stamp.value else 0);
  }

  lemma {:induction false} SpacedSlice(frames: seq<Frame>, d: int, from: nat, to: nat)
    requires Spaced(frames, d) && from <= to <= |frames|
    ensures Spaced(frames[..to][from..], d)
  {
    var inside := frames[..to][from..];
    forall i, j | 0 <= i < j < |inside| ensures inside[j].time - inside[i].time >= d * (j - i) {
      assert inside[i] == frames[from + i] && inside[j] == frames[from + j];
    }
  }

  /** From 4 ms between frames on, the counter cannot wrap: it counts the voiced frames of the second, and a voiced unmuted
      frame always goes out as Opus. */
  lemma {:induction false} VoiceIsAlwaysOpus(frames: seq<Frame>, d: int)
    requires frames != [] && d >= 4 * MILLISECOND && Ordered(frames) && Spaced(frames, d)
    requires IsVoiced(frames[|frames| - 1])
    ensures VoicedInWindow(frames) <= 252
    ensures Output(Run(frames[..|frames| - 1]), frames[|frames| - 1])
         == [Sent(AUDIO_MESSAGE, Successor(Run(frames[..|frames| - 1]).serial), frames[|frames| - 1].opus)]
  {
    var n := |frames| - 1;
    FewPerSecond(frames, d);
    FewVoicedAreOpus(frames);
    StepSerial(Run(frames[..n]), frames[n]);
  }

  lemma {:induction false} FewVoicedAreOpus(frames: seq<Frame>)
    requires frames != [] && IsVoiced(frames[|frames| - 1]) && VoicedInWindow(frames) < 256
    ensures Run(frames).sendOpus
  {
    var from := Cleared(frames[..|frames| - 1]);
    OpusExactly(frames);
    VoicedSnoc(frames, from);
  }

  lemma {:induction false} FewPerSecond(frames: seq<Frame>, d: int)
    requires frames != [] && d >= 4 * MILLISECOND && Ordered(frames) && Spaced(frames, d)
    ensures VoicedInWindow(frames) <= 252
  {
    WindowIsShort(frames, d);
    var q := SECOND / d;
    Product(d, 251, q);
  }

  /** From 4 ms between frames on: the gate closes only after a second without voice. */
  lemma {:induction false} GateClosesInSilence(frames: seq<Frame>, d: int, i: nat)
    requires d >= 4 * MILLISECOND && Ordered(frames) && Spaced(frames, d) && i < |frames|
    requires Run(frames[..|frames| - 1]).sendOpus && !Run(frames).sendOpus
    requires frames[|frames| - 1].time - SECOND < frames[i].time
    ensures !IsVoiced(frames[i])
  {
    FewPerSecond(frames, d);
    SilenceBeforeNoise(frames, i);
  }

  // ---------- Silence does close the gate ----------

  /** Muted frames might as well not have come. */
  function Unmuted(frames: seq<Frame>): seq<Frame> {
    if frames == [] then []
    else
      var n := |frames| - 1;
      Unmuted(frames[..n]) + if frames[n].mute then [] else [frames[n]]
  }

  lemma {:induction false} RunSnoc(frames: seq<Frame>, f: Frame)
    ensures Run(frames + [f]) == Step(Run(frames), f)
    ensures Outputs(frames + [f]) == Outputs(frames) + Output(Run(frames), f)
  {
    assert (frames + [f])[..|frames|] == frames;
  }

  lemma {:induction false} MutedFramesAreSkipped(frames: seq<Frame>)
    ensures Run(Unmuted(frames)) == Run(frames) && Outputs(Unmuted(frames)) == Outputs(frames)
  {
    if frames != [] {
      var n := |frames| - 1;
      MutedFramesAreSkipped(frames[..n]);
      var before := Unmuted(frames[..n]);
      if frames[n].mute {
        assert before + [] == before && Outputs(before) + [] == Outputs(before);
      } else {
        RunSnoc(before, frames[n]);
      }
    }
  }

  lemma {:induction false} UnmutedSkips(before: seq<Frame>, f: Frame, after: seq<Frame>)
    requires f.mute
    ensures Unmuted(before + [f] + after) == Unmuted(before + after)
  {
    if after == [] {
      assert before + [f] + after == before + [f] && before + after == before;
      assert (before + [f])[..|before|] == before && Unmuted(before) + [] == Unmuted(before);
    } else {
      var n := |after| - 1;
      UnmutedSkips(before, f, after[..n]);
      assert (before + [f] + after)[..|before| + 1 + n] == before + [f] + after[..n];
      assert (before + after)[..|before| + n] == before + after[..n];
    }
  }

  /** A muted frame anywhere in a run might as well not have come. */
  lemma {:induction false} MutedFrameIsSkipped(before: seq<Frame>, f: Frame, after: seq<Frame>)
    requires f.mute
    ensures Run(before + [f] + after) == Run(before + after)
    ensures Outputs(before + [f] + after) == Outputs(before + after)
  {
    UnmutedSkips(before, f, after);
    MutedFramesAreSkipped(before + [f] + after);
    MutedFramesAreSkipped(before + after);
  }

  /** Frame k is the last voiced one, no frame from k on is muted, and they come at gaps of at most gap. */
  ghost predicate SilentAfter(frames: seq<Frame>, k: nat, gap: int) {
    && k < |frames| && !frames[k].mute && gap > 0 && Ordered(frames)
    && (forall i :: k < i < |frames| ==> !frames[i].mute && !frames[i].voice)
    && (forall i :: k < i < |frames| ==> frames[i].time - frames[i - 1].time <= gap)
  }

  /** After the last voice the gate first waits for the running second to end, then for one more, then it is closed. */
  ghost predicate Closing(s: State, voiceEnd: int, now: int, gap: int) {
    || (s.lastTimeStamp.Some? && s.lastTimeStamp.value <= voiceEnd && now <= s.lastTimeStamp.value + SECOND)
    || (s.lastTimeStamp.Some? && s.lastTimeStamp.value <= voiceEnd + SECOND + gap
        && now <= s.lastTimeStamp.value + SECOND && s.vadCounter == 0)
    || !s.sendOpus
  }

  lemma {:induction false} GateIsClosing(frames: seq<Frame>, k: nat, gap: int, j: nat)
    requires SilentAfter(frames, k, gap) && k <= j < |frames|
    ensures Closing(Run(frames[..j + 1]), frames[k].time, frames[j].time, gap)
    decreases j
  {
    hide Output, Successor;
    assert frames[..j + 1][..j] == frames[..j];
    if j == k {
      WindowHolds(frames[..j]);
      WindowHolds(frames[..j + 1]);
      StampIsPast(frames[..j + 1]);
    } else {
      GateIsClosing(frames, k, gap, j - 1);
    }
  }

  lemma {:induction false} StampIsPast(frames: seq<Frame>)
    requires frames != [] && Ordered(frames) && !frames[|frames| - 1].mute
    ensures var s, now := Run(frames), frames[|frames| - 1].time;
      s.lastTimeStamp.Some? && s.lastTimeStamp.value <= now <= s.lastTimeStamp.value + SECOND
  {
    var n := |frames| - 1;
    WindowHolds(frames);
    if Cleared(frames) <= n {
      assert !frames[n].mute;
    }
  }

  lemma {:induction false} ClosedAfter(frames: seq<Frame>, k: nat, gap: int, j: nat)
    requires SilentAfter(frames, k, gap) && k <= j < |frames|
    requires frames[j].time >= frames[k].time + 2 * (SECOND + gap)
    ensures !Run(frames[..j + 1]).sendOpus
  {
    hide Run;
    GateIsClosing(frames, k, gap, j);
  }

  /** Once no voice comes any more, comfort noise is in force 2 (1 s + gap) after the last one, for as long as it stays
      quiet. */
  lemma {:induction false} SilenceClosesGate(frames: seq<Frame>, k: nat, gap: int, j: nat)
    requires SilentAfter(frames, k, gap) && k <= j < |frames|
    requires frames[j].time >= frames[k].time + 2 * (SECOND + gap)
    ensures !Run(frames[..j + 1]).sendOpus
    ensures Outputs(frames[..j + 1])
         == Outputs(frames[..j])
            + if frames[j].noise == [] then []
              else [Sent(AUDIO_MESSAGE_CN, (|Outputs(frames[..j])| + 1) % 0x1_0000_0000, frames[j].noise)]
  {
    ClosedAfter(frames, k, gap, j);
    hide Run, Outputs;
    FlagDecides(frames[..j + 1]);
    assert frames[..j + 1][..j] == frames[..j];
  }

  // ---------- The gate object ----------

  class Gate {
    var vadCounter: U8
    var sendOpus: bool
    var lastTimeStamp: Option<int>
    var serial: U32
    var sent: seq<Sent>

    constructor ()
      ensures Abs() == START && sent == []
    {
      vadCounter, sendOpus, lastTimeStamp, serial, sent := 0, true, None, 0, [];
    }

    function Abs(): State
      reads this
    {
      State(vadCounter, sendOpus, lastTimeStamp, serial)
    }

    /** From the voice decision onward. */
    method VadSend(f: Frame)
      modifies this
      ensures Abs() == Step(old(Abs()), f)
      ensures sent == old(sent) + Output(old(Abs()), f)
    {
      if f.mute {
        return;
      }
      if f.voice {
        vadCounter := (vadCounter + 1) % 0x100;
        sendOpus := true;
      }
      if lastTimeStamp.None? {
        lastTimeStamp := Some(f.time);
      }
      var elapsed := f.time - lastTimeStamp.value;
      if elapsed > SECOND {
        if vadCounter == 0 {
          sendOpus := false;
        }
        lastTimeStamp := Some(f.time);
        vadCounter := 0;
      }
      if sendOpus {
        serial := Successor(serial);
        sent := sent + [Sent(AUDIO_MESSAGE, serial, f.opus)];
      } else if |f.noise| > 0 {
        serial := Successor(serial);
        sent := sent + [Sent(AUDIO_MESSAGE_CN, serial, f.noise)];
      }
    }
  }
}
