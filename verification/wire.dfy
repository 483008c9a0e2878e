/**
 * The wire format spoken with the board: a 9-byte write frame, a 5-byte read
 * frame and a 4-byte answer, all little-endian, and the firmware's
 * "unknown command" answer.
 */
module Wire {
  import opened Status

  /** One byte as an `unsigned char`. */
  type Byte = x: int | 0 <= x < 256

  /** First byte of a frame: the top bit says write (1 << 7) or read (0 << 7). */
  const WRITE_FLAG: Byte := 0x80
  const READ_FLAG: Byte := 0x00

  const WRITE_FRAME_LENGTH: nat := 9
  const READ_FRAME_LENGTH: nat := 5
  const ANSWER_LENGTH: nat := 4

  const TWO_31: int := 0x8000_0000
  const TWO_32: int := 0x1_0000_0000

  predicate IsInt32(x: int) {
    -TWO_31 <= x < TWO_31
  }

  /** What a 32-bit two's-complement `int` holds once x is stored into it. */
  function ToInt32(x: int): (r: int)
    ensures IsInt32(r)
    ensures r % TWO_32 == x % TWO_32
    ensures IsInt32(x) ==> r == x
  {
    var m := x % TWO_32;
    if m < TWO_31 then m else m - TWO_32
  }

  /**
   * `static_cast<char>(x >> (8 * k))` stored into an `unsigned char`: an
   * arithmetic shift (floor division) and truncation to the low byte.
   */
  function LowByte(x: int): Byte {
    x % 256
  }

  /** The four bytes of x, least significant first, as both encoders lay out a 32-bit field. */
  function LittleEndian(x: int): (bytes: seq<Byte>)
    ensures |bytes| == ANSWER_LENGTH
    ensures bytes[0] as int == x % 0x100
  {
    [LowByte(x), LowByte(x / 0x100), LowByte(x / 0x1_0000), LowByte(x / 0x100_0000)]
  }

  /** The unsigned value of four little-endian bytes. */
  function Unsigned(b: seq<Byte>): int
    requires |b| == 4
  {
    b[0] as int + 0x100 * (b[1] as int) + 0x1_0000 * (b[2] as int) + 0x100_0000 * (b[3] as int)
  }

  /** The value of four answer bytes, read as a 32-bit two's-complement `int`. */
  function Decode(b: seq<Byte>): (v: int)
    requires |b| == 4
    ensures IsInt32(v)
    ensures v % TWO_32 == Unsigned(b) % TWO_32
    ensures Unsigned(b) < TWO_31 <==> 0 <= v
    ensures 0 <= v ==> v == Unsigned(b)
  {
    ToInt32(Unsigned(b))
  }

  /** The write frame for storing value at address. */
  function EncodeWrite(address: int, value: int): (frame: seq<Byte>)
    ensures |frame| == WRITE_FRAME_LENGTH
    ensures frame[0] == WRITE_FLAG
    ensures Unsigned(frame[1..5]) == address % TWO_32
    ensures Unsigned(frame[5..9]) == value % TWO_32
  {
    UnsignedLittleEndian(address);
    UnsignedLittleEndian(value);
    var frame := [WRITE_FLAG] + LittleEndian(address) + LittleEndian(value);
    assert frame[1..5] == LittleEndian(address);
    assert frame[5..9] == LittleEndian(value);
    frame
  }

  /** The read frame asking for the value at address. */
  function EncodeRead(address: int): (frame: seq<Byte>)
    ensures |frame| == READ_FRAME_LENGTH
    ensures frame[0] == READ_FLAG
    ensures Unsigned(frame[1..5]) == address % TWO_32
  {
    UnsignedLittleEndian(address);
    var frame := [READ_FLAG] + LittleEndian(address);
    assert frame[1..5] == LittleEndian(address);
    frame
  }

  /** The return code that goes with a decoded answer: the firmware's sentinel is an error. */
  function AnswerCode(answer: int): (code: int)
    ensures code == DEVICE_OK || code == ERR_COMMAND_UNKNOWN
    ensures code == DEVICE_OK <==> answer != ERR_COMMAND_UNKNOWN
  {
    if answer == ERR_COMMAND_UNKNOWN then ERR_COMMAND_UNKNOWN else DEVICE_OK
  }

  /** The encoder's four bytes carry x modulo 2^32. */
  lemma UnsignedLittleEndian(x: int)
    ensures Unsigned(LittleEndian(x)) == x % TWO_32
  {
    var q1, q2, q3, q4 := x / 0x100, x / 0x1_0000, x / 0x100_0000, x / TWO_32;
    assert q2 == q1 / 0x100;
    assert q3 == q2 / 0x100;
    assert q4 == q3 / 0x100;
    assert x == LowByte(x) + 0x100 * q1;
    assert q1 == LowByte(q1) + 0x100 * q2;
    assert q2 == LowByte(q2) + 0x100 * q3;
    assert q3 == LowByte(q3) + 0x100 * q4;
  }

  /** The encoder's bytes depend on x only modulo 2^32. */
  lemma LittleEndianModulo(x: int, y: int)
    requires x % TWO_32 == y % TWO_32
    ensures LittleEndian(x) == LittleEndian(y)
  {
    UnsignedLittleEndian(x);
    UnsignedLittleEndian(y);
    UnsignedInjective(LittleEndian(x), LittleEndian(y));
  }

  /** Four bytes are determined by their unsigned value. */
  lemma UnsignedInjective(a: seq<Byte>, b: seq<Byte>)
    requires |a| == 4 && |b| == 4
    requires Unsigned(a) == Unsigned(b)
    ensures a == b
  {
    var u := Unsigned(a);
    var qa: int := a[1] as int + 0x100 * (a[2] as int) + 0x1_0000 * (a[3] as int);
    var qb: int := b[1] as int + 0x100 * (b[2] as int) + 0x1_0000 * (b[3] as int);
    SplitLowByte(u, qa, a[0]);
    SplitLowByte(u, qb, b[0]);
    var ra: int := a[2] as int + 0x100 * (a[3] as int);
    var rb: int := b[2] as int + 0x100 * (b[3] as int);
    SplitLowByte(qa, ra, a[1]);
    SplitLowByte(qb, rb, b[1]);
    SplitLowByte(ra, a[3], a[2]);
    SplitLowByte(rb, b[3], b[2]);
  }

  /** Division by 256 has one quotient and one remainder. */
  lemma SplitLowByte(u: int, q: int, r: int)
    requires u == r + 0x100 * q && 0 <= r < 0x100
    ensures q == u / 0x100 && r == u % 0x100
  {
  }

  /** Decoding the encoder's four bytes gives back x as a 32-bit `int`. */
  lemma DecodeLittleEndian(x: int)
    ensures Decode(LittleEndian(x)) == ToInt32(x)
    ensures IsInt32(x) ==> Decode(LittleEndian(x)) == x
  {
    UnsignedLittleEndian(x);
  }

  /** Encoding a decoded answer gives back the answer's bytes. */
  lemma LittleEndianDecode(b: seq<Byte>)
    requires |b| == 4
    ensures LittleEndian(Decode(b)) == b
  {
    UnsignedRange(b);
    var d := Decode(b);
    UnsignedLittleEndian(d);
    assert d % TWO_32 == Unsigned(b) % TWO_32 == Unsigned(b);
    UnsignedInjective(LittleEndian(d), b);
  }

  /** Four bytes hold an unsigned 32-bit value. */
  lemma UnsignedRange(b: seq<Byte>)
    requires |b| == 4
    ensures 0 <= Unsigned(b) < TWO_32
  {
    var lo: int := b[0] as int + 0x100 * (b[1] as int);
    var hi: int := b[2] as int + 0x100 * (b[3] as int);
    assert 0 <= lo < 0x1_0000 && 0 <= hi < 0x1_0000;
    assert Unsigned(b) == lo + 0x1_0000 * hi;
  }

  /** The value field of a write frame decodes, as an answer would, to the value written. */
  lemma WriteValueRoundTrip(address: int, value: int)
    ensures Decode(EncodeWrite(address, value)[5..9]) == ToInt32(value)
    ensures IsInt32(value) ==> Decode(EncodeWrite(address, value)[5..9]) == value
  {
    var field := EncodeWrite(address, value)[5..9];
    UnsignedLittleEndian(value);
    UnsignedInjective(field, LittleEndian(value));
    DecodeLittleEndian(value);
  }

  /** A read frame and a write frame to one address carry the same address bytes and differ in the first byte. */
  lemma FramesShareAddressField(address: int, value: int)
    ensures EncodeRead(address)[1..5] == EncodeWrite(address, value)[1..5]
    ensures EncodeRead(address)[0] != EncodeWrite(address, value)[0]
  {
    UnsignedInjective(EncodeRead(address)[1..5], EncodeWrite(address, value)[1..5]);
  }

  /** A field holding a value below 256 is that byte followed by three zeros. */
  lemma LittleEndianOfByte(x: int)
    requires 0 <= x < 0x100
    ensures LittleEndian(x) == [x, 0, 0, 0]
  {
  }

  /** Frames whose address and value fit in one byte, written out. */
  lemma SmallFrames(address: int, value: int)
    requires 0 <= address < 0x100 && 0 <= value < 0x100
    ensures EncodeRead(address) == [READ_FLAG, address, 0, 0, 0]
    ensures EncodeWrite(address, value) == [WRITE_FLAG, address, 0, 0, 0, value, 0, 0, 0]
  {
    LittleEndianOfByte(address);
    LittleEndianOfByte(value);
  }

  /** An answer is reported as an unknown command exactly when its bytes are those of 65535. */
  lemma SentinelAnswer(b: seq<Byte>)
    requires |b| == 4
    ensures AnswerCode(Decode(b)) == ERR_COMMAND_UNKNOWN <==> b == [0xFF, 0xFF, 0x00, 0x00]
    ensures AnswerCode(Decode(b)) != ERR_COMMAND_UNKNOWN <==> AnswerCode(Decode(b)) == DEVICE_OK
  {
    if Decode(b) == ERR_COMMAND_UNKNOWN {
      LittleEndianDecode(b);
    }
  }

  /** Running value of the bytes answer[k..4], read little-endian. */
  function Suffix(s: seq<Byte>, k: nat): int
    requires |s| == 4 && k <= 4
    decreases 4 - k
  {
    if k == 4 then 0 else s[k] as int + 0x100 * Suffix(s, k + 1)
  }

  /** 256^i for the partial values the reassembly loop goes through. */
  function BytePower(i: nat): int
    requires i <= 4
  {
    if i == 0 then 1 else if i == 1 then 0x100 else if i == 2 then 0x1_0000
    else if i == 3 then 0x100_0000 else TWO_32
  }

  /**
   * `(tmp << 8) | b` on a 32-bit `int`: the shift clears the low byte, so
   * the or adds b, and the result wraps to 32 bits.
   */
  function ShiftInByte(tmp: int, b: Byte): (r: int)
    ensures IsInt32(r)
    ensures r % TWO_32 == (tmp * 0x100 + b) % TWO_32
    ensures r % 0x100 == b as int
    ensures 0 <= tmp < 0x80_0000 ==> r == tmp * 0x100 + b
  {
    ToInt32(tmp * 0x100 + b)
  }

  /**
   * The reassembly loop of the answer reader: start from the most
   * significant byte and shift in the others one by one.
   */
  method Reassemble(answer: array<Byte>) returns (tmp: int)
    requires answer.Length == ANSWER_LENGTH
    ensures tmp == Decode(answer[..])
  {
    tmp := answer[3];
    for i := 1 to 4
      invariant i < 4 ==> 0 <= tmp < BytePower(i) && tmp == Suffix(answer[..], 4 - i)
      invariant i == 4 ==> tmp == ToInt32(Suffix(answer[..], 0))
    {
      tmp := ShiftInByte(tmp, answer[3 - i]);
    }
    assert Suffix(answer[..], 0) == Unsigned(answer[..]);
  }
}
