/**
 * Whole exchanges between the adapter and a scripted board: what a
 * channel read, a channel write and the start-up handshake put on the
 * wire and what they report.
 */
module Scenarios {
  import opened Status
  import opened Wrappers
  import opened Wire
  import opened AddressMap
  import opened Transport
  import opened Hub
  import opened Peripherals

  /** A line with nothing waiting whose board answers the next frame with `reply` in one piece. */
  function FreshLine(reply: seq<Byte>): (l: Line)
    ensures l.rx == [] && l.trace == [] && l.writeCodes == []
  {
    Line([], [reply], [], [Ready(ANSWER_LENGTH)], [])
  }

  /** A read transaction whose frame is accepted and whose four-byte reply arrives in the first poll. */
  lemma ReadOfReply(lines: map<string, Line>, port: string, missing: ErrorCode, address: int, budget: nat,
                    reply: seq<Byte>, ret: int, ans: Option<int>, lines': map<string, Line>)
    requires port in lines && lines[port] == FreshLine(reply) && |reply| == ANSWER_LENGTH && 1 <= budget
    requires ReadTransactionOn(lines, port, missing, address, budget, ret, ans, lines')
    ensures ans == Some(Decode(reply)) && ret == AnswerCode(Decode(reply))
    ensures port in lines' && lines'[port].rx == []
    ensures lines'[port].trace == [Sent(EncodeRead(address)), Received(reply)]
  {
    var w := WriteOn(lines, port, missing, EncodeRead(address));
    var l := w.lines[port];
    assert l == Line(reply, [], [], [Ready(ANSWER_LENGTH)], [Sent(EncodeRead(address))]);
    var r := ReadLine(l, ANSWER_LENGTH);
    assert r.data == reply;
    assert Collect(l, [], budget) == Gathered(reply, r.line);
  }

  /** Reading TTL channel 3 asks register 33; the board's 1 comes back as the channel's state. */
  lemma TtlChannelReadBack(lines: map<string, Line>, port: string, missing: ErrorCode, budget: nat,
                           ret: int, ans: Option<int>, lines': map<string, Line>)
    requires port in lines && lines[port] == FreshLine([1, 0, 0, 0]) && 1 <= budget
    requires ReadTransactionOn(lines, port, missing, ChannelAddress(TtlOut, 0, 3), budget, ret, ans, lines')
    ensures ChannelAddress(TtlOut, 0, 3) == 33
    ensures ret == DEVICE_OK && ans == Some(1)
    ensures port in lines' && lines'[port].trace == [Sent([READ_FLAG, 33, 0, 0, 0]), Received([1, 0, 0, 0])]
  {
    var address := ChannelAddress(TtlOut, 0, 3);
    assert address == 33;
    ReadOfReply(lines, port, missing, address, budget, [1, 0, 0, 0], ret, ans, lines');
    SmallFrames(33, 0);
    assert Decode([1, 0, 0, 0]) == 1;
  }

  /**
   * A laser sequence of 65535 (the property's default and upper limit)
   * cannot be read back: the reader reports an unknown command, so the
   * shadow slot keeps its old value.
   */
  lemma SequenceSentinel(lines: map<string, Line>, port: string, missing: ErrorCode, laser: nat, budget: nat,
                         ret: int, ans: Option<int>, lines': map<string, Line>)
    requires laser < MaxCount(LaserTrig) && 1 <= budget
    requires port in lines && lines[port] == FreshLine(LittleEndian(65535))
    requires ReadTransactionOn(lines, port, missing, ChannelAddress(LaserTrig, 2, laser), budget, ret, ans, lines')
    ensures ret == ERR_COMMAND_UNKNOWN && ans == Some(65535)
  {
    DecodeLittleEndian(65535);
    ReadOfReply(lines, port, missing, ChannelAddress(LaserTrig, 2, laser), budget, LittleEndian(65535),
                ret, ans, lines');
  }

  /**
   * The handshake purges first, so bytes left over on the line do not
   * disturb it: the version read is the board's reply, whatever was waiting.
   */
  lemma HandshakeIgnoresStaleBytes(lines: map<string, Line>, port: string, missing: ErrorCode, stale: seq<Byte>,
                                   v: int, budget: nat, readCode: int, answer: Option<int>, lines': map<string, Line>)
    requires port in lines && lines[port] == Line(stale, [LittleEndian(v)], [], [Ready(ANSWER_LENGTH)], [])
    requires 1 <= budget
    requires ReadTransactionOn(PurgeOn(lines, port), port, missing, VERSION_ADDRESS, budget, readCode, answer, lines')
    ensures answer == Some(ToInt32(v)) && readCode == AnswerCode(ToInt32(v))
    ensures answer == Some(FIRMWARE_VERSION) <==> ToInt32(v) == 1
  {
    var purged := PurgeOn(lines, port);
    assert purged[port] == FreshLine(LittleEndian(v)).(trace := [Purged]);
    var w := WriteOn(purged, port, missing, EncodeRead(VERSION_ADDRESS));
    var l := w.lines[port];
    assert l.rx == LittleEndian(v) && l.polls == [Ready(ANSWER_LENGTH)];
    var r := ReadLine(l, ANSWER_LENGTH);
    assert r.data == LittleEndian(v);
    assert Collect(l, [], budget) == Gathered(LittleEndian(v), r.line);
    DecodeLittleEndian(v);
  }

  /**
   * Detection probes the version register after a purge and can
   * communicate exactly when the board's answer is not the firmware's
   * sentinel: a board that reports 65535 is taken for one that did not
   * understand the request.
   */
  lemma DetectionRefusesSentinelVersion(lines: map<string, Line>, port: string, missing: ErrorCode, stale: seq<Byte>,
                                        v: int, budget: nat, readCode: int, answer: Option<int>,
                                        lines': map<string, Line>)
    requires port in lines && lines[port] == Line(stale, [LittleEndian(v)], [], [Ready(ANSWER_LENGTH)], [])
    requires 1 <= budget
    requires ReadTransactionOn(PurgeOn(lines, port), port, missing, VERSION_ADDRESS, budget, readCode, answer, lines')
    ensures readCode == DEVICE_OK <==> ToInt32(v) != ERR_COMMAND_UNKNOWN
    ensures ToInt32(v) == ERR_COMMAND_UNKNOWN ==>
      (if readCode == DEVICE_OK then CanCommunicate else CanNotCommunicate) == CanNotCommunicate
  {
    HandshakeIgnoresStaleBytes(lines, port, missing, stale, v, budget, readCode, answer, lines');
  }

  /**
   * A channel read sends its frame without purging: four bytes already
   * waiting on the line are taken as the answer, and the board's real
   * reply stays behind.
   */
  lemma ReadWithoutPurgeTakesStaleBytes(lines: map<string, Line>, port: string, missing: ErrorCode, address: int,
                                        stale: seq<Byte>, reply: seq<Byte>, budget: nat,
                                        ret: int, ans: Option<int>, lines': map<string, Line>)
    requires |stale| == ANSWER_LENGTH && 1 <= budget
    requires port in lines && lines[port] == Line(stale, [reply], [], [Ready(ANSWER_LENGTH)], [])
    requires ReadTransactionOn(lines, port, missing, address, budget, ret, ans, lines')
    ensures ans == Some(Decode(stale))
    ensures port in lines' && lines'[port].rx == reply
  {
    var w := WriteOn(lines, port, missing, EncodeRead(address));
    var l := w.lines[port];
    assert l.rx == stale + reply && l.polls == [Ready(ANSWER_LENGTH)];
    var r := ReadLine(l, ANSWER_LENGTH);
    assert r.data == stale;
    assert Collect(l, [], budget) == Gathered(stale, r.line);
  }

  /** An answer split over two polls is reassembled as if it had come at once. */
  lemma SplitAnswer(l: Line, b: seq<Byte>, budget: nat, ret: int, ans: Option<int>, after: Line)
    requires |b| == ANSWER_LENGTH && l.rx == b && l.polls == [Ready(2), Ready(2)] && 2 <= budget
    requires AnswerOutcome(l, budget, ret, ans, after)
    ensures ans == Some(Decode(b)) && ret == AnswerCode(Decode(b))
    ensures after.rx == [] && after.trace == l.trace + [Received(b[..2]), Received(b[2..])]
  {
    var r1 := ReadLine(l, ANSWER_LENGTH);
    assert r1.data == b[..2];
    var r2 := ReadLine(r1.line, 2);
    assert r2.data == b[2..];
    assert b[..2] + b[2..] == b;
    CollectStep(l, [], budget, r1);
    assert [] + r1.data == b[..2];
    assert Collect(r1.line, b[..2], budget - 1) == Gathered(b, r2.line);
  }

  /** Two bytes offered by the only poll are all the loop ever collects. */
  lemma TwoBytesGathered(l: Line, budget: nat)
    requires 1 <= budget && l.rx == [7, 0] && l.polls == [Ready(2)]
    ensures Collect(l, [], budget).Gathered? && Collect(l, [], budget).got == [7, 0]
  {
    var r1 := ReadLine(l, ANSWER_LENGTH);
    assert r1.data == [7, 0] && r1.line.rx == [] && r1.line.polls == [];
    CollectStep(l, [], budget, r1);
    assert [] + r1.data == [7, 0];
    CollectTakesNextBytes(r1.line, [7, 0], budget - 1);
    CollectBounded(r1.line, [7, 0], budget - 1);
    CollectFailsOnlyOnFault(r1.line, [7, 0], budget - 1);
    var g := Collect(r1.line, [7, 0], budget - 1);
    assert |g.got| == 2 && g.got == g.got[..2];
  }

  /**
   * An answer cut short by the deadline is not an error of its own: the
   * reader still returns a value, built from the bytes that came and
   * whatever the buffer held.
   */
  lemma ShortAnswerIsNotTimeout(l: Line, budget: nat, ret: int, ans: Option<int>, after: Line)
    requires 1 <= budget && l.rx == [7, 0] && l.polls == [Ready(2)]
    requires AnswerOutcome(l, budget, ret, ans, after)
    ensures ans.Some? && ret == AnswerCode(ans.value)
    ensures exists junk: seq<Byte> :: |junk| == 2 && ans.value == Decode([7, 0] + junk)
  {
    TwoBytesGathered(l, budget);
    var junk :| 2 + |junk| == ANSWER_LENGTH && ans.value == Decode([7, 0] + junk);
  }

  /** Setting PWM channel c to 300 writes 0 to register 50 + c, after a purge. */
  lemma PwmOutOfRangeWrite(lines: map<string, Line>, port: string, missing: ErrorCode, c: nat)
    requires c < MaxCount(PwmOut) && port in lines && lines[port].writeCodes == []
    ensures var w := WriteTransactionOn(lines, port, missing, ChannelAddress(PwmOut, 0, c),
                                        WireValue(PwmOut, Stored(PwmOut, 300)));
      && w.code == DEVICE_OK
      && w.lines[port].trace == lines[port].trace + [Purged, Sent([WRITE_FLAG, 50 + c, 0, 0, 0, 0, 0, 0, 0])]
  {
    var address, value := ChannelAddress(PwmOut, 0, c), WireValue(PwmOut, Stored(PwmOut, 300));
    assert address == 50 + c && value == 0;
    SmallFrames(address, value);
  }

  /** Setting a TTL channel to 2 sends 0, though the controller keeps 2 as the channel's state. */
  lemma TtlWriteOfTwo(lines: map<string, Line>, port: string, missing: ErrorCode, c: nat)
    requires c < MaxCount(TtlOut) && port in lines && lines[port].writeCodes == []
    ensures Stored(TtlOut, 2) == 2
    ensures var w := WriteTransactionOn(lines, port, missing, ChannelAddress(TtlOut, 0, c),
                                        WireValue(TtlOut, Stored(TtlOut, 2)));
      && w.code == DEVICE_OK
      && w.lines[port].trace == lines[port].trace + [Purged, Sent([WRITE_FLAG, 30 + c, 0, 0, 0, 0, 0, 0, 0])]
  {
    var address, value := ChannelAddress(TtlOut, 0, c), WireValue(TtlOut, Stored(TtlOut, 2));
    assert address == 30 + c && value == 0;
    SmallFrames(address, value);
  }
}
