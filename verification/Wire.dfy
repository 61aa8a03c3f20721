/** The packet layout of include/NetPacket.hpp: a 20-byte little-endian header followed by the payload. */
module Wire {

  datatype Option<+T> = None | Some(value: T)

  type Byte = b: int | 0 <= b < 0x100
  type Bytes = seq<Byte>
  type U16 = n: int | 0 <= n < 0x1_0000
  type U32 = n: int | 0 <= n < 0x1_0000_0000
  type Tag = t: Bytes | |t| == 4 witness [0, 0, 0, 0]
  type Payload = p: Bytes | |p| < 0x1_0000 witness []

  const HEADER_LENGTH: int := 20
  const RECEIVE_BUFFER: int := 1024
  const MARKER: Tag := [101, 118, 99, 32]

  // The payload types. The field is 16 bits wide, so a packet may carry a value that is none of these.
  const UNDEFINED: U16 := 0
  const HEARTBEAT_REQUEST: U16 := 1
  const HEARTBEAT_RESPONSE: U16 := 2
  const LOGIN_REQUEST: U16 := 3
  const LOGIN_RESPONSE: U16 := 4
  const USER_INFO: U16 := 5
  const TEXT_MESSAGE: U16 := 6
  const AUDIO_MESSAGE: U16 := 7
  const AUDIO_MESSAGE_CN: U16 := 8
  const LOGOUT_REQUEST: U16 := 9
  const LOGOUT_RESPONSE: U16 := 10

  /** The codes on the wire, in the order of the names above. */
  lemma KindCodes()
    ensures [UNDEFINED, HEARTBEAT_REQUEST, HEARTBEAT_RESPONSE, LOGIN_REQUEST, LOGIN_RESPONSE, USER_INFO, TEXT_MESSAGE,
             AUDIO_MESSAGE, AUDIO_MESSAGE_CN, LOGOUT_REQUEST, LOGOUT_RESPONSE] == [0, 1, 2, 3, 4, 5, 6, 7, 8, 9, 10]
  {
  }

  predicate IsMedia(kind: U16) {
    kind == TEXT_MESSAGE || kind == AUDIO_MESSAGE || kind == AUDIO_MESSAGE_CN
  }

  // ---------- Little-endian fields ----------

  function EncodeU16(n: U16): (b: Bytes)
    ensures |b| == 2
  {
    [n % 0x100, n / 0x100]
  }

  function DecodeU16(b: Bytes): U16
    requires |b| == 2
  {
    b[0] as int + 0x100 * (b[1] as int)
  }

  function EncodeU32(n: U32): (b: Bytes)
    ensures |b| == 4
  {
    EncodeU16(n % 0x1_0000) + EncodeU16(n / 0x1_0000)
  }

  function DecodeU32(b: Bytes): U32
    requires |b| == 4
  {
    DecodeU16(b[..2]) + 0x1_0000 * DecodeU16(b[2..])
  }

  lemma U16RoundTrip(n: U16)
    ensures DecodeU16(EncodeU16(n)) == n
  {
  }

  lemma U16Reencode(b: Bytes)
    requires |b| == 2
    ensures EncodeU16(DecodeU16(b)) == b
  {
  }

  lemma U32RoundTrip(n: U32)
    ensures DecodeU32(EncodeU32(n)) == n
  {
    var b := EncodeU32(n);
    assert b[..2] == EncodeU16(n % 0x1_0000) && b[2..] == EncodeU16(n / 0x1_0000);
  }

  lemma U32Reencode(b: Bytes)
    requires |b| == 4
    ensures EncodeU32(DecodeU32(b)) == b
  {
    var low, high := DecodeU16(b[..2]), DecodeU16(b[2..]);
    SplitU32(low, high);
    U16Reencode(b[..2]);
    U16Reencode(b[2..]);
  }

  lemma SplitU32(low: U16, high: U16)
    ensures (low + 0x1_0000 * high) % 0x1_0000 == low && (low + 0x1_0000 * high) / 0x1_0000 == high
  {
  }

  /** The next serial number: an unsigned 32-bit counter wraps around. */
  function Successor(serial: U32): U32 {
    (serial + 1) % 0x1_0000_0000
  }

  /** The serial number k places after the given one. */
  function SerialAfter(serial: U32, k: nat): U32 {
    if k == 0 then serial else Successor(SerialAfter(serial, k - 1))
  }

  lemma {:induction false} SerialAfterIsSum(serial: U32, k: nat)
    ensures SerialAfter(serial, k) == (serial + k) % 0x1_0000_0000
  {
    if k > 0 {
      SerialAfterIsSum(serial, k - 1);
      SuccessorOfModulo(serial + k - 1);
    }
  }

  lemma SuccessorOfModulo(n: nat)
    ensures Successor(n % 0x1_0000_0000) == (n + 1) % 0x1_0000_0000
  {
  }

  // ---------- Packets as byte strings ----------

  /** The payload length that the header of b announces. */
  function PayloadSize(b: Bytes): U16
    requires HEADER_LENGTH <= |b|
  {
    DecodeU16(b[18..20])
  }

  function KindOf(b: Bytes): U16
    requires HEADER_LENGTH <= |b|
  {
    DecodeU16(b[12..14])
  }

  function SerialOf(b: Bytes): U32
    requires HEADER_LENGTH <= |b|
  {
    DecodeU32(b[14..18])
  }

  function TimestampOf(b: Bytes): U32
    requires HEADER_LENGTH <= |b|
  {
    DecodeU32(b[8..12])
  }

  /** b is exactly one packet: a header and the payload that the header announces. */
  predicate WellFormed(b: Bytes) {
    HEADER_LENGTH <= |b| && |b| == HEADER_LENGTH + PayloadSize(b)
  }

  predicate AllWellFormed(packets: seq<Bytes>) {
    forall p :: p in packets ==> WellFormed(p)
  }

  /** What the two makePacket functions build from a received buffer. */
  function Accept(b: Bytes): Option<Bytes> {
    if |b| < HEADER_LENGTH then None
    else if |b| < HEADER_LENGTH + PayloadSize(b) then None
    else Some(b[..HEADER_LENGTH + PayloadSize(b)])
  }

  /** A datagram read into a receive buffer of RECEIVE_BUFFER bytes loses what does not fit. */
  function Truncate(b: Bytes): (t: Bytes)
    ensures t <= b && |t| == if |b| < 1024 then |b| else 1024
  {
    if |b| <= RECEIVE_BUFFER then b else b[..RECEIVE_BUFFER]
  }

  lemma AcceptedIsWellFormed(b: Bytes)
    requires Accept(b).Some?
    ensures WellFormed(Accept(b).value) && Accept(b).value <= b
    ensures KindOf(Accept(b).value) == KindOf(b)
  {
    var p := Accept(b).value;
    assert p[18..20] == b[18..20] && p[12..14] == b[12..14];
  }

  /** Only the packet itself decides what is accepted: bytes after it are dropped. */
  lemma AcceptIgnoresTrailingBytes(p: Bytes, trailing: Bytes)
    requires WellFormed(p)
    ensures Accept(p + trailing) == Some(p)
  {
    assert (p + trailing)[18..20] == p[18..20];
  }

  lemma AcceptWellFormed(p: Bytes)
    requires WellFormed(p)
    ensures Accept(p) == Some(p)
  {
    assert p[..|p|] == p;
  }

  // ---------- Packets as records ----------

  datatype Packet = Packet(marker: Tag, version: Tag, timestamp: U32, kind: U16, serial: U32, payload: Payload)

  function Header(marker: Tag, version: Tag, timestamp: U32, kind: U16, serial: U32, size: U16): (b: Bytes)
    ensures |b| == HEADER_LENGTH
  {
    marker + version + EncodeU32(timestamp) + EncodeU16(kind) + EncodeU32(serial) + EncodeU16(size)
  }

  function Encode(p: Packet): Bytes {
    Header(p.marker, p.version, p.timestamp, p.kind, p.serial, |p.payload|) + p.payload
  }

  function Decode(b: Bytes): Packet
    requires WellFormed(b)
  {
    Packet(b[..4], b[4..8], TimestampOf(b), KindOf(b), SerialOf(b), b[20..])
  }

  lemma EncodeFields(p: Packet)
    ensures var b := Encode(p);
      && |b| == HEADER_LENGTH + |p.payload|
      && b[..4] == p.marker && b[4..8] == p.version && b[8..12] == EncodeU32(p.timestamp)
      && b[12..14] == EncodeU16(p.kind) && b[14..18] == EncodeU32(p.serial)
      && b[18..20] == EncodeU16(|p.payload|) && b[20..] == p.payload
  {
  }

  /** The header byte by byte: every number is stored with its lowest byte first. */
  lemma HeaderBytes(p: Packet)
    ensures var b := Encode(p);
      && |b| == 20 + |p.payload|
      && b[..4] == p.marker && b[4..8] == p.version && b[20..] == p.payload
      && b[8] + 0x100 * b[9] as int + 0x1_0000 * b[10] as int + 0x100_0000 * b[11] as int == p.timestamp
      && b[12] + 0x100 * b[13] as int == p.kind
      && b[14] + 0x100 * b[15] as int + 0x1_0000 * b[16] as int + 0x100_0000 * b[17] as int == p.serial
      && b[18] + 0x100 * b[19] as int == |p.payload|
  {
    EncodeFields(p);
    U32Bytes(p.timestamp);
    U32Bytes(p.serial);
    var b := Encode(p);
    assert b[8] == b[8..12][0] && b[9] == b[8..12][1] && b[10] == b[8..12][2] && b[11] == b[8..12][3];
    assert b[12] == b[12..14][0] && b[13] == b[12..14][1];
    assert b[14] == b[14..18][0] && b[15] == b[14..18][1] && b[16] == b[14..18][2] && b[17] == b[14..18][3];
    assert b[18] == b[18..20][0] && b[19] == b[18..20][1];
  }

  lemma U32Bytes(n: U32)
    ensures var e := EncodeU32(n);
      e[0] + 0x100 * e[1] as int + 0x1_0000 * e[2] as int + 0x100_0000 * e[3] as int == n
  {
    U32RoundTrip(n);
    var e := EncodeU32(n);
    assert e[..2] == [e[0], e[1]] && e[2..] == [e[2], e[3]];
  }

  /** Reading back a packet, alone or followed by anything, recovers every field. */
  lemma RoundTrip(p: Packet, trailing: Bytes)
    ensures WellFormed(Encode(p)) && Decode(Encode(p)) == p
    ensures Accept(Encode(p) + trailing) == Some(Encode(p))
  {
    EncodeFields(p);
    U16RoundTrip(p.kind);
    U16RoundTrip(|p.payload|);
    U32RoundTrip(p.timestamp);
    U32RoundTrip(p.serial);
    AcceptIgnoresTrailingBytes(Encode(p), trailing);
  }

  /** Any accepted buffer re-serialises to its own first 20 + length bytes. */
  lemma {:induction false} Reserialise(b: Bytes)
    requires Accept(b).Some?
    ensures WellFormed(Accept(b).value)
    ensures Encode(Decode(Accept(b).value)) == b[..HEADER_LENGTH + PayloadSize(b)]
  {
    AcceptedIsWellFormed(b);
    var w := Accept(b).value;
    U32Reencode(w[8..12]);
    U16Reencode(w[12..14]);
    U32Reencode(w[14..18]);
    U16Reencode(w[18..20]);
    assert w == w[..4] + w[4..8] + w[8..12] + w[12..14] + w[14..18] + w[18..20] + w[20..];
  }

  /** Through the 1024-byte receive buffer a packet comes back whole exactly when its payload has at most
      1004 bytes; a longer one is rejected, never cut short. */
  lemma TruncatedPacket(p: Packet)
    ensures Accept(Truncate(Encode(p))) == if |p.payload| <= 1004 then Some(Encode(p)) else None
  {
    RoundTrip(p, []);
    var w := Encode(p);
    AcceptWellFormed(w);
    if |p.payload| > 1004 {
      assert Truncate(w)[18..20] == w[18..20];
    }
  }

  lemma TruncatedWellFormed(w: Bytes)
    requires WellFormed(w)
    ensures Accept(Truncate(w)) == if |w| <= RECEIVE_BUFFER then Some(w) else None
  {
    AcceptWellFormed(w);
    if |w| > RECEIVE_BUFFER {
      assert Truncate(w)[18..20] == w[18..20];
    }
  }

  // ---------- Packets without payload ----------

  /** What a packet carries besides its kind, serial and payload: the version tag and the sender's uptime. */
  datatype Stamp = Stamp(version: Tag, uptime: U32)

  function Control(kind: U16, serial: U32, stamp: Stamp): (b: Bytes)
    ensures WellFormed(b) && |b| == HEADER_LENGTH && KindOf(b) == kind && SerialOf(b) == serial
    ensures Accept(Truncate(b)) == Some(b)
  {
    var p := Packet(MARKER, stamp.version, stamp.uptime, kind, serial, []);
    RoundTrip(p, []);
    EncodeFields(p);
    TruncatedPacket(p);
    Encode(p)
  }

  lemma ControlFields(kind: U16, serial: U32, stamp: Stamp)
    ensures Decode(Control(kind, serial, stamp))
         == Packet([101, 118, 99, 32], stamp.version, stamp.uptime, kind, serial, [])
  {
    RoundTrip(Packet(MARKER, stamp.version, stamp.uptime, kind, serial, []), []);
  }
}
