/** The playback objects of JitterBuffer.hpp and DownstreamProcessor.cpp. Frames are arrays on the heap, shared between
    the queue, the two lookahead slots and the concealment that fades them in place. */
module Downstream {
  import opened Wire
  import opened Fade
  import opened Playback

  datatype Entry = Entry(timestamp: U32, segment: array<Sample>)

  class JitterBuffer {
    var decodedBuffer: seq<Entry>

    constructor ()
      ensures decodedBuffer == []
    {
      decodedBuffer := [];
    }

    /** The bounded queue refuses an entry when it is full, and nobody looks whether it did. */
    method Append(pcm: Entry)
      modifies this
      ensures decodedBuffer == old(decodedBuffer) + if |old(decodedBuffer)| < 100 then [pcm] else []
    {
      if |decodedBuffer| < CAPACITY {
        decodedBuffer := decodedBuffer + [pcm];
      }
    }

    method Fetch() returns (out: Option<Entry>)
      modifies this
      ensures old(decodedBuffer) == [] ==> out == None && decodedBuffer == []
      ensures old(decodedBuffer) != [] ==> out == Some(old(decodedBuffer)[0]) && decodedBuffer == old(decodedBuffer)[1..]
    {
      if decodedBuffer == [] {
        return None;
      }
      out := Some(decodedBuffer[0]);
      decodedBuffer := decodedBuffer[1..];
    }
  }

  function SegmentsOf(entries: seq<Entry>): set<array<Sample>> {
    set e | e in entries :: e.segment
  }

  function SegmentOf(slot: Option<Entry>): set<array<Sample>> {
    if slot.Some? then {slot.value.segment} else {}
  }

  /** The second slot fills after the first, every segment is a block, and no two entries share one: fading a frame never
      touches another. */
  ghost predicate Apart(q: seq<Entry>, m1: Option<Entry>, m2: Option<Entry>) {
    && (m2.Some? ==> m1.Some?)
    && (forall i :: 0 <= i < |q| ==> q[i].segment.Length == BLOCK_SIZE)
    && (m1.Some? ==> m1.value.segment.Length == BLOCK_SIZE)
    && (m2.Some? ==> m2.value.segment.Length == BLOCK_SIZE)
    && (forall i, j :: 0 <= i < j < |q| ==> q[i].segment != q[j].segment)
    && (m1.Some? ==> forall i :: 0 <= i < |q| ==> q[i].segment != m1.value.segment)
    && (m2.Some? ==> forall i :: 0 <= i < |q| ==> q[i].segment != m2.value.segment)
    && (m1.Some? && m2.Some? ==> m1.value.segment != m2.value.segment)
  }

  ghost function FrameAt(q: seq<Entry>, i: nat): Frame
    requires i < |q| && q[i].segment.Length == BLOCK_SIZE
    reads SegmentsOf(q)
  {
    q[i].segment[..]
  }

  /** The frames that the heap holds at this moment. */
  ghost function FramesOf(q: seq<Entry>): (frames: seq<Frame>)
    requires forall i :: 0 <= i < |q| ==> q[i].segment.Length == BLOCK_SIZE
    reads SegmentsOf(q)
    ensures |frames| == |q| && forall i :: 0 <= i < |q| ==> frames[i] == q[i].segment[..]
  {
    seq(|q|, i requires 0 <= i < |q| && q[i].segment.Length == BLOCK_SIZE reads SegmentsOf(q) => FrameAt(q, i))
  }

  ghost function FrameIn(slot: Option<Entry>): Option<Frame>
    requires slot.Some? ==> slot.value.segment.Length == BLOCK_SIZE
    reads SegmentOf(slot)
  {
    if slot.Some? then Some(slot.value.segment[..]) else None
  }

  class DownstreamProcessor {
    const jitterBuffer: JitterBuffer
    var m1: Option<Entry>
    var m2: Option<Entry>
    var lastIsCnPacket: bool
    var largestReceivedMediaDataTimestamp: U32
    var lastReceivedAudioSn: U32
    const base: real
    ghost var events: seq<Event>

    /** base is the base of the fade's gains. */
    constructor (base: real)
      requires IsBase(base)
      ensures Valid() && Faithful() && events == [] && fresh(jitterBuffer) && this.base == base
    {
      jitterBuffer := new JitterBuffer();
      m1, m2, lastIsCnPacket := None, None, false;
      largestReceivedMediaDataTimestamp, lastReceivedAudioSn := 0, 0;
      this.base := base;
      events := [];
    }

    ghost predicate Valid()
      reads this, jitterBuffer
    {
      Apart(jitterBuffer.decodedBuffer, m1, m2) && IsBase(base)
    }

    ghost function Segments(): set<array<Sample>>
      reads this, jitterBuffer
    {
      SegmentsOf(jitterBuffer.decodedBuffer) + SegmentOf(m1) + SegmentOf(m2)
    }

    ghost function Abs(): State
      requires Valid()
      reads this, jitterBuffer, Segments()
    {
      State(FramesOf(jitterBuffer.decodedBuffer), FrameIn(m1), FrameIn(m2))
    }

    /** The heap holds what playing the events so far leaves behind, and the log of Play(base, events) is what was
        played: every call below says so for its own output. */
    ghost predicate Faithful()
      requires Valid()
      reads this, jitterBuffer, Segments()
    {
      Abs() == Play(base, events).state
    }

    /** A received packet: decoded is what the decoder of its kind makes of it. The timestamp kept is a running maximum. */
    method Append(packet: Bytes, decoded: Frame)
      requires Valid() && Faithful() && WellFormed(packet)
      modifies jitterBuffer, this`events, this`lastIsCnPacket
      modifies this`largestReceivedMediaDataTimestamp, this`lastReceivedAudioSn
      ensures Valid() && Faithful()
      ensures events == old(events) + [Event.Append(if KindOf(packet) in {AUDIO_MESSAGE, AUDIO_MESSAGE_CN} then decoded
                                                    else Zeros())]
      ensures largestReceivedMediaDataTimestamp
           == if TimestampOf(packet) < old(largestReceivedMediaDataTimestamp)
              then old(largestReceivedMediaDataTimestamp) else TimestampOf(packet)
      ensures lastReceivedAudioSn == SerialOf(packet)
      ensures lastIsCnPacket == (KindOf(packet) == AUDIO_MESSAGE_CN
                                 || (KindOf(packet) != AUDIO_MESSAGE && old(lastIsCnPacket)))
    {
      hide Play, AppendFrame;
      ghost var before := Abs();
      var pcm := Decode(packet, decoded);
      assert Valid() && Abs() == before;
      Store(TimestampOf(packet), pcm);
      assert Abs() == AppendFrame(before, pcm);
      PlayAppend(base, events, pcm);
      events := events + [Event.Append(pcm)];
    }

    /** Copies the samples into a segment of their own and queues it. */
    method Store(timestamp: U32, pcm: Frame)
      requires Valid()
      modifies jitterBuffer
      ensures Valid() && Abs() == AppendFrame(old(Abs()), pcm)
    {
      var segment := NewSegment(pcm);
      assert Abs() == old(Abs());
      Enqueue(Entry(timestamp, segment));
    }

    method Enqueue(entry: Entry)
      requires Valid() && entry.segment.Length == BLOCK_SIZE && entry.segment !in Segments()
      modifies jitterBuffer
      ensures Valid() && Abs() == AppendFrame(old(Abs()), entry.segment[..])
    {
      ghost var q := jitterBuffer.decodedBuffer;
      jitterBuffer.Append(entry);
      ApartSnoc(q, m1, m2, entry);
      FramesSnoc(q, entry);
      assert q + [] == q;
      assert Abs() == AppendFrame(old(Abs()), entry.segment[..]) by { assert FramesOf(q) == old(FramesOf(q)); }
    }

    static lemma ApartSnoc(q: seq<Entry>, m1: Option<Entry>, m2: Option<Entry>, e: Entry)
      requires Apart(q, m1, m2) && e.segment.Length == BLOCK_SIZE
      requires e.segment !in SegmentsOf(q) + SegmentOf(m1) + SegmentOf(m2)
      ensures Apart(q + [e], m1, m2)
    {
      assert forall i :: 0 <= i < |q| ==> q[i].segment in SegmentsOf(q);
    }

    static method NewSegment(pcm: Frame) returns (segment: array<Sample>)
      ensures fresh(segment) && segment.Length == BLOCK_SIZE && segment[..] == pcm
    {
      segment := new Sample[BLOCK_SIZE];
      CopyFrame(pcm, segment);
    }

    static lemma FramesSnoc(q: seq<Entry>, e: Entry)
      requires forall i :: 0 <= i < |q| ==> q[i].segment.Length == BLOCK_SIZE
      requires e.segment.Length == BLOCK_SIZE
      ensures FramesOf(q + [e]) == FramesOf(q) + [e.segment[..]] && FramesOf(q + []) == FramesOf(q)
    {
      assert (q + [e])[..|q|] == q && q + [] == q;
    }

    method Decode(packet: Bytes, decoded: Frame) returns (pcm: Frame)
      requires WellFormed(packet)
      modifies this`lastIsCnPacket, this`largestReceivedMediaDataTimestamp, this`lastReceivedAudioSn
      ensures pcm == if KindOf(packet) in {AUDIO_MESSAGE, AUDIO_MESSAGE_CN} then decoded else Zeros()
      ensures largestReceivedMediaDataTimestamp
           == if TimestampOf(packet) < old(largestReceivedMediaDataTimestamp)
              then old(largestReceivedMediaDataTimestamp) else TimestampOf(packet)
      ensures lastReceivedAudioSn == SerialOf(packet)
      ensures lastIsCnPacket == (KindOf(packet) == AUDIO_MESSAGE_CN
                                 || (KindOf(packet) != AUDIO_MESSAGE && old(lastIsCnPacket)))
    {
      pcm := Zeros();
      if KindOf(packet) == AUDIO_MESSAGE {
        pcm := decoded;
        lastIsCnPacket := false;
      } else if KindOf(packet) == AUDIO_MESSAGE_CN {
        pcm := decoded;
        lastIsCnPacket := true;
      }
      if TimestampOf(packet) >= largestReceivedMediaDataTimestamp {
        largestReceivedMediaDataTimestamp := TimestampOf(packet);
      }
      lastReceivedAudioSn := SerialOf(packet);
    }

    /** Takes the next entry, or makes one up: when both slots are filled their frames are faded where they are. */
    method Obtain(noise: Frame) returns (data: Entry)
      requires Valid()
      modifies jitterBuffer, SegmentOf(m1), SegmentOf(m2), this`lastIsCnPacket
      ensures Apart(jitterBuffer.decodedBuffer, Some(data), m1) && Apart(jitterBuffer.decodedBuffer, m1, None)
      ensures lastIsCnPacket
           == (old(lastIsCnPacket) || (old(jitterBuffer.decodedBuffer) == [] && old(m1).Some? && old(m2).Some?))
      ensures fresh(data.segment) || data.segment in old(SegmentsOf(jitterBuffer.decodedBuffer))
      ensures old(jitterBuffer.decodedBuffer) == [] ==> jitterBuffer.decodedBuffer == []
      ensures old(jitterBuffer.decodedBuffer) != [] ==> jitterBuffer.decodedBuffer == old(jitterBuffer.decodedBuffer)[1..]
      ensures var (t, _) := FetchFrame(old(Abs()), noise, base);
        FramesOf(jitterBuffer.decodedBuffer) == t.queue && Some(data.segment[..]) == t.m1 && FrameIn(m1) == t.m2
    {
      ghost var abs := Abs();
      var out := jitterBuffer.Fetch();
      if out.Some? {
        return out.value;
      }
      var predicted := new Sample[BLOCK_SIZE](_ => 0);
      if m1.Some? && m2.Some? {
        Predict([m1.value.segment, m2.value.segment], predicted, base);
        CopyFrame(noise, predicted);
        lastIsCnPacket := true;
      } else {
        assert predicted[..] == Zeros();
      }
      data := Entry(0, predicted);
    }

    /** One fetch by the audio device; noise is what the comfort-noise decoder generates if it is asked. */
    method Fetch(outData: array<Sample>, noise: Frame)
      requires Valid() && Faithful()
      requires outData.Length == BLOCK_SIZE && outData !in Segments()
      modifies this`m1, this`m2, this`lastIsCnPacket, this`events, jitterBuffer, outData, SegmentOf(m1), SegmentOf(m2)
      ensures Valid() && Faithful()
      ensures lastIsCnPacket
           == (old(lastIsCnPacket) || (old(jitterBuffer.decodedBuffer) == [] && old(m1).Some? && old(m2).Some?))
      ensures events == old(events) + [Event.Fetch(noise)]
      ensures var before, after := Play(base, old(events)).log, Play(base, events).log;
        |after| == |before| + 1 && before <= after && outData[..] == after[|before|].output
    {
      hide FetchFrame;
      Advance(outData, noise);
      PlaySnoc(base, events, Event.Fetch(noise));
      events := events + [Event.Fetch(noise)];
    }

    /** The fetch proper, against one step of the frame values. */
    method Advance(outData: array<Sample>, noise: Frame)
      requires Valid()
      requires outData.Length == BLOCK_SIZE && outData !in Segments()
      modifies this`m1, this`m2, this`lastIsCnPacket, jitterBuffer, outData, SegmentOf(m1), SegmentOf(m2)
      ensures Valid()
      ensures lastIsCnPacket
           == (old(lastIsCnPacket) || (old(jitterBuffer.decodedBuffer) == [] && old(m1).Some? && old(m2).Some?))
      ensures Abs() == FetchFrame(old(Abs()), noise, base).0
      ensures outData[..] == FetchFrame(old(Abs()), noise, base).1.output
    {
      var data := Obtain(noise);
      m2 := m1;
      m1 := Some(data);
      if m2.Some? {
        CopyFrame(m2.value.segment[..], outData);
      } else {
        CopyFrame(Zeros(), outData);
      }
      assert Abs().queue == FetchFrame(old(Abs()), noise, base).0.queue;
    }

    static method CopyFrame(source: Frame, target: array<Sample>)
      requires target.Length == BLOCK_SIZE
      modifies target
      ensures target[..] == source
    {
      forall i | 0 <= i < BLOCK_SIZE {
        target[i] := source[i];
      }
    }
  }
}
