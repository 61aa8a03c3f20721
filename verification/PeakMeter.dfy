/** The volume meter of client_essential/audio_engine/AudioVolumeMeter_Peak.hpp: the peak of a block on a scale of ten,
    and the highest recent one, held for a second. */
module PeakMeter {
  import opened Clock
  import opened Fade

  const MAX_VOLUME_LEVEL: int := 10

  type Level = n: int | 0 <= n < MAX_VOLUME_LEVEL

  function Abs(x: int): nat {
    if x < 0 then -x else x
  }

  /** floor(10 peak / 2^15), capped at 9. */
  function LevelOf(peak: nat): Level {
    var level := peak * MAX_VOLUME_LEVEL / 0x8000;
    if level > MAX_VOLUME_LEVEL - 1 then MAX_VOLUME_LEVEL - 1 else level
  }

  /** A level is reached exactly from its tenth of full scale on; full scale itself does not leave the scale. */
  lemma LevelIsReached(peak: nat, level: Level)
    ensures LevelOf(peak) >= level <==> 10 * peak >= 0x8000 * level
  {
    var q := peak * MAX_VOLUME_LEVEL / 0x8000;
    assert 0x8000 * q <= peak * MAX_VOLUME_LEVEL < 0x8000 * (q + 1);
  }

  datatype State = State(recentMaxLevel: Level, lastTimeStamp: int)

  datatype Call = Call(level: Level, time: int)

  predicate Expires(s: State, c: Call) {
    c.time - s.lastTimeStamp > SECOND
  }

  function Step(s: State, c: Call): State {
    var held := if Expires(s, c) then State(0, c.time) else s;
    if c.level > held.recentMaxLevel then State(c.level, c.time) else held
  }

  /** The state after the calls of a meter made at time start; its level is what the last call reported as recent. */
  function Run(start: int, calls: seq<Call>): State {
    if calls == [] then State(0, start) else Step(Run(start, calls[..|calls| - 1]), calls[|calls| - 1])
  }

  // ---------- The recent maximum ----------

  function Highest(calls: seq<Call>): Level {
    if calls == [] then 0
    else
      var before, last := Highest(calls[..|calls| - 1]), calls[|calls| - 1].level;
      if last > before then last else before
  }

  /** The first call of the running window: the last one that found the second over. */
  function WindowStart(start: int, calls: seq<Call>): (n: nat)
    ensures n <= |calls|
  {
    if calls == [] then 0
    else
      var n := |calls| - 1;
      if Expires(Run(start, calls[..n]), calls[n]) then n else WindowStart(start, calls[..n])
  }

  lemma HighestSnoc(calls: seq<Call>, from: nat)
    requires from < |calls|
    ensures Highest(calls[from..])
         == if calls[|calls| - 1].level > Highest(calls[..|calls| - 1][from..]) then calls[|calls| - 1].level
            else Highest(calls[..|calls| - 1][from..])
  {
    var n := |calls| - 1;
    assert calls[from..][..n - from] == calls[..n][from..];
  }

  /** What is reported as recent is the highest level since the last expiry, the expiring call included; so it is never
      below the current level. */
  lemma {:induction false} RecentIsHighest(start: int, calls: seq<Call>)
    ensures Run(start, calls).recentMaxLevel == Highest(calls[WindowStart(start, calls)..])
    ensures calls != [] ==> calls[|calls| - 1].level <= Run(start, calls).recentMaxLevel
  {
    if calls != [] {
      var n := |calls| - 1;
      RecentIsHighest(start, calls[..n]);
      HighestSnoc(calls, WindowStart(start, calls));
      assert calls[..n][n..] == [];
    }
  }

  // ---------- The hold ----------

  ghost predicate Ordered(calls: seq<Call>) {
    forall i, j :: 0 <= i <= j < |calls| ==> calls[i].time <= calls[j].time
  }

  /** A call that raises the recent maximum, or sets it anew when the second is over, keeps every later report within a
      second at its level or above. */
  lemma {:induction false} RaisedLevelIsHeld(start: int, calls: seq<Call>, k: nat, j: nat)
    requires Ordered(calls) && k <= j < |calls|
    requires calls[k].level > Run(start, calls[..k]).recentMaxLevel
             || Run(start, calls[..k + 1]) == State(calls[k].level, calls[k].time)
    requires calls[j].time <= calls[k].time + 1_000_000_000
    ensures Run(start, calls[..j + 1]).recentMaxLevel >= calls[k].level
    ensures calls[k].time <= Run(start, calls[..j + 1]).lastTimeStamp <= calls[j].time
    decreases j
  {
    assert calls[..j + 1][..j] == calls[..j];
    if k < j {
      RaisedLevelIsHeld(start, calls, k, j - 1);
    }
  }

  /** The hold ends: a positive recent maximum is the level of a call that is at most a second old. */
  lemma {:induction false} RecentIsRecent(start: int, calls: seq<Call>) returns (k: nat)
    requires calls != [] && Run(start, calls).recentMaxLevel > 0
    ensures k < |calls| && Run(start, calls) == State(calls[k].level, calls[k].time)
    ensures calls[|calls| - 1].time <= calls[k].time + 1_000_000_000
  {
    var n := |calls| - 1;
    k := n;
    if Run(start, calls) == Run(start, calls[..n]) && Run(start, calls) != State(calls[n].level, calls[n].time) {
      k := RecentIsRecent(start, calls[..n]);
    }
  }

  /** So a call more than a second after all earlier ones reports its own level as the recent maximum. */
  lemma {:induction false} HoldIsOver(start: int, calls: seq<Call>)
    requires calls != []
    requires forall i :: 0 <= i < |calls| - 1 ==> calls[|calls| - 1].time > calls[i].time + 1_000_000_000
    ensures Run(start, calls).recentMaxLevel == calls[|calls| - 1].level
  {
    RecentIsHighest(start, calls);
    if Run(start, calls).recentMaxLevel > 0 {
      var k := RecentIsRecent(start, calls);
    }
  }

  // ---------- The meter object ----------

  class AudioVolumeMeterPeak {
    var recentMaxLevel: Level
    var lastTimeStamp: int

    constructor (now: int)
      ensures Abstract() == State(0, now)
    {
      recentMaxLevel, lastTimeStamp := 0, now;
    }

    function Abstract(): State
      reads this
    {
      State(recentMaxLevel, lastTimeStamp)
    }

    /** The largest absolute value; a block of -32768 has the peak 32768, and one of silence 0. */
    static method Peak(buffer: Frame) returns (peak: int)
      ensures 0 <= peak && forall i :: 0 <= i < |buffer| ==> -peak <= buffer[i] <= peak
      ensures exists i :: 0 <= i < |buffer| && (buffer[i] == peak || buffer[i] == -peak)
    {
      peak := 0;
      for i := 0 to |buffer|
        invariant 0 <= peak && forall j :: 0 <= j < i ==> -peak <= buffer[j] <= peak
        invariant peak == 0 || exists j :: 0 <= j < i && (buffer[j] == peak || buffer[j] == -peak)
      {
        var absB := Abs(buffer[i]);
        if absB > peak {
          peak := absB;
        }
      }
      assert peak == 0 ==> buffer[0] == 0;
    }

    /** Reports the level of the block and the recent maximum. */
    method Calculate(buffer: Frame, now: int) returns (level: Level, recent: Level)
      modifies this
      ensures exists peak: int ::
                && 0 <= peak && level == LevelOf(peak)
                && (forall i :: 0 <= i < |buffer| ==> -peak <= buffer[i] <= peak)
                && (exists i :: 0 <= i < |buffer| && (buffer[i] == peak || buffer[i] == -peak))
      ensures Abstract() == Step(old(Abstract()), Call(level, now)) && recent == recentMaxLevel
    {
      var peak := Peak(buffer);
      var currentLevel := peak * MAX_VOLUME_LEVEL / 0x8000;
      if currentLevel > MAX_VOLUME_LEVEL - 1 {
        currentLevel := MAX_VOLUME_LEVEL - 1;
      }
      assert currentLevel == LevelOf(peak);
      if now - lastTimeStamp > SECOND {
        recentMaxLevel, lastTimeStamp := 0, now;
      }
      if currentLevel > recentMaxLevel {
        recentMaxLevel, lastTimeStamp := currentLevel, now;
      }
      level, recent := currentLevel, recentMaxLevel;
    }
  }
}
