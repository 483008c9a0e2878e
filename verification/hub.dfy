/**
 * The hub: the one device that owns the serial port. It builds and sends
 * the frames, collects the 4-byte answer within the read deadline, checks
 * the firmware version at start-up and probes the port during detection.
 */
module Hub {
  import opened Status
  import opened Wrappers
  import opened Wire
  import opened AddressMap
  import opened Transport
  import opened PortName

  /** What the answer-collection loop ends with. */
  datatype Gather =
    | Gathered(got: seq<Byte>, rest: Line)  // stopped with these bytes, full or at the deadline
    | Failed(code: int, rest: Line)         // a read call failed with this code

  /**
   * The answer-collection loop, as a function of the line: with `budget`
   * polls left before the deadline and `got` collected so far, ask for the
   * missing 4 - |got| bytes until all four are in, the deadline passes or
   * a read fails.
   */
  function Collect(l: Line, got: seq<Byte>, budget: nat): Gather
    decreases budget
  {
    if |got| >= ANSWER_LENGTH || budget == 0 then Gathered(got, l)
    else
      var r := ReadLine(l, ANSWER_LENGTH - |got|);
      if r.code != DEVICE_OK then Failed(r.code, r.line)
      else Collect(r.line, got + r.data, budget - 1)
  }

  /** The loop never holds more than four bytes and never drops one it holds. */
  lemma {:induction false} CollectBounded(l: Line, got: seq<Byte>, budget: nat)
    requires |got| <= ANSWER_LENGTH
    ensures var g := Collect(l, got, budget);
      g.Gathered? ==> |got| <= |g.got| <= ANSWER_LENGTH && g.got[..|got|] == got
    decreases budget
  {
    if |got| < ANSWER_LENGTH && budget > 0 {
      var r := ReadLine(l, ANSWER_LENGTH - |got|);
      CollectStep(l, got, budget, r);
      if r.code == DEVICE_OK {
        var next := got + r.data;
        CollectBounded(r.line, next, budget - 1);
        var g := Collect(r.line, next, budget - 1);
        if g.Gathered? {
          assert g.got[..|got|] == next[..|got|];
        }
      }
    }
  }

  /**
   * No byte is lost or reordered: what the loop holds followed by what is
   * left on the line is what it started with followed by the line's bytes.
   */
  lemma {:induction false} CollectTakesNextBytes(l: Line, got: seq<Byte>, budget: nat)
    ensures var g := Collect(l, got, budget);
      g.Gathered? ==> g.got + g.rest.rx == got + l.rx
    decreases budget
  {
    if |got| < ANSWER_LENGTH && budget > 0 {
      var r := ReadLine(l, ANSWER_LENGTH - |got|);
      CollectStep(l, got, budget, r);
      if r.code == DEVICE_OK {
        CollectTakesNextBytes(r.line, got + r.data, budget - 1);
        ReadKeepsOrder(got, l, ANSWER_LENGTH - |got|);
      }
    }
  }

  /**
   * Every poll is one read call on the line; the loop stops early only when
   * the four bytes are in or a read fails, so a short answer means every
   * poll before the deadline was made.
   */
  lemma {:induction false} CollectPollsUntilDeadline(l: Line, got: seq<Byte>, budget: nat)
    ensures var g := Collect(l, got, budget);
      l.trace <= g.rest.trace && |g.rest.trace| <= |l.trace| + budget
      && (g.Gathered? && |g.got| < ANSWER_LENGTH ==> |g.rest.trace| == |l.trace| + budget)
    decreases budget
  {
    if |got| < ANSWER_LENGTH && budget > 0 {
      var r := ReadLine(l, ANSWER_LENGTH - |got|);
      ReadTakesFront(l, ANSWER_LENGTH - |got|);
      if r.code == DEVICE_OK {
        CollectPollsUntilDeadline(r.line, got + r.data, budget - 1);
      }
    }
  }

  /** The loop fails only with the code of a failing read call, never with a timeout of its own. */
  lemma {:induction false} CollectFailsOnlyOnFault(l: Line, got: seq<Byte>, budget: nat)
    ensures var g := Collect(l, got, budget);
      g.Failed? ==> g.code != DEVICE_OK && Fault(g.code) in l.polls
    decreases budget
  {
    if |got| < ANSWER_LENGTH && budget > 0 {
      var r := ReadLine(l, ANSWER_LENGTH - |got|);
      ReadTakesFront(l, ANSWER_LENGTH - |got|);
      if r.code == DEVICE_OK {
        CollectFailsOnlyOnFault(r.line, got + r.data, budget - 1);
        assert forall p :: p in r.line.polls ==> p in l.polls;
      }
    }
  }

  /** One pass of the collection loop: a failing read ends it, a successful one hands over its bytes. */
  lemma CollectStep(l: Line, got: seq<Byte>, budget: nat, r: ReadResult)
    requires |got| < ANSWER_LENGTH && 0 < budget && r == ReadLine(l, ANSWER_LENGTH - |got|)
    ensures r.code != DEVICE_OK ==> Collect(l, got, budget) == Failed(r.code, r.line)
    ensures r.code == DEVICE_OK ==> Collect(l, got, budget) == Collect(r.line, got + r.data, budget - 1)
  {
  }

  /** Once the loop has stopped, the buffer's value, whatever its unfilled bytes hold, is what is reported. */
  lemma GatheredAnswer(got: seq<Byte>, rest: Line, buf: seq<Byte>)
    requires |buf| == ANSWER_LENGTH && |got| <= ANSWER_LENGTH && got == buf[..|got|]
    ensures Reports(Gathered(got, rest), AnswerCode(Decode(buf)), Some(Decode(buf)))
  {
    var junk := buf[|got|..];
    assert got + junk == buf;
  }

  /**
   * What the answer reader reports once the loop has ended: a failing read
   * call's code, or the value of the buffer, whose first bytes are those
   * collected and whose remaining bytes are whatever the fresh buffer held.
   */
  ghost predicate Reports(g: Gather, ret: int, ans: Option<int>) {
    match g
    case Failed(code, _) => ret == code && ans == None
    case Gathered(got, _) =>
      && ans.Some? && ret == AnswerCode(ans.value)
      && (|got| == ANSWER_LENGTH ==> ans.value == Decode(got))
      && exists junk: seq<Byte> :: |got| + |junk| == ANSWER_LENGTH && ans.value == Decode(got + junk)
  }

  /** The answer reader on a line: what it reports and the line it leaves behind. */
  ghost predicate AnswerOutcome(l: Line, budget: nat, ret: int, ans: Option<int>, after: Line) {
    var g := Collect(l, [], budget);
    Reports(g, ret, ans) && after == g.rest
  }

  /** The answer reader on the named port. */
  ghost predicate AnswerOn(lines: map<string, Line>, name: string, missing: ErrorCode, budget: nat,
                           ret: int, ans: Option<int>, lines': map<string, Line>)
  {
    var g := Collect(LineOf(lines, name, missing), [], budget);
    Reports(g, ret, ans) && lines' == Replace(lines, name, g.rest)
  }

  /** The answer reader's outcome on a port, from the loop's outcome on the port's line. */
  lemma AnswerOnReported(lines: map<string, Line>, name: string, missing: ErrorCode, budget: nat,
                         g: Gather, ret: int, ans: Option<int>)
    requires Collect(LineOf(lines, name, missing), [], budget) == g && Reports(g, ret, ans)
    ensures AnswerOn(lines, name, missing, budget, ret, ans, Replace(lines, name, g.rest))
  {
  }

  /**
   * One pass of the reader's loop on a port: the host's read is the line's
   * read; a failure ends the reader with that code, a success advances the
   * loop on the port's new line (which a port the host does not know never
   * reaches).
   */
  lemma PollOn(lines: map<string, Line>, name: string, missing: ErrorCode, budget: nat,
               cur: Line, got: seq<Byte>, rest: nat)
    requires |got| < ANSWER_LENGTH && 0 < rest
    requires name in lines || cur == LineOf(lines, name, missing)
    requires Collect(LineOf(lines, name, missing), [], budget) == Collect(cur, got, rest)
    ensures var r := ReadLine(cur, ANSWER_LENGTH - |got|);
      && ReadOn(Replace(lines, name, cur), name, missing, ANSWER_LENGTH - |got|)
         == HostRead(r.code, r.data, Replace(lines, name, r.line))
      && (r.code != DEVICE_OK ==>
            AnswerOn(lines, name, missing, budget, r.code, None, Replace(lines, name, r.line)))
      && (r.code == DEVICE_OK ==>
            && name in lines
            && Collect(LineOf(lines, name, missing), [], budget) == Collect(r.line, got + r.data, rest - 1))
  {
    var r := ReadLine(cur, ANSWER_LENGTH - |got|);
    ReadOnReplaced(lines, name, missing, cur, ANSWER_LENGTH - |got|);
    CollectStep(cur, got, rest, r);
    if r.code != DEVICE_OK {
      AnswerOnReported(lines, name, missing, budget, Failed(r.code, r.line), r.code, None);
    }
  }

  /**
   * The reader's loop on a port has stopped with the four bytes in or the
   * deadline reached: the reader reports the buffer's value, whose first
   * bytes are those collected.
   */
  lemma StoppedOn(lines: map<string, Line>, name: string, missing: ErrorCode, budget: nat,
                  cur: Line, got: seq<Byte>, rest: nat, buf: seq<Byte>)
    requires |got| == ANSWER_LENGTH || rest == 0
    requires |buf| == ANSWER_LENGTH && |got| <= ANSWER_LENGTH && got == buf[..|got|]
    requires Collect(LineOf(lines, name, missing), [], budget) == Collect(cur, got, rest)
    ensures AnswerOn(lines, name, missing, budget, AnswerCode(Decode(buf)), Some(Decode(buf)),
                     Replace(lines, name, cur))
  {
    GatheredAnswer(got, cur, buf);
    AnswerOnReported(lines, name, missing, budget, Gathered(got, cur), AnswerCode(Decode(buf)), Some(Decode(buf)));
  }

  /** On a port the host does not know, the first poll fails with the host's code and nothing changes. */
  lemma AnswerOnUnknownPort(lines: map<string, Line>, name: string, missing: ErrorCode, budget: nat,
                            ret: int, ans: Option<int>, lines': map<string, Line>)
    requires name !in lines && AnswerOn(lines, name, missing, budget, ret, ans, lines')
    ensures lines' == lines
    ensures budget > 0 ==> ret == missing && ans == None
  {
  }

  /** On a known port the answer reader works on that port's line and leaves every other port alone. */
  lemma AnswerOnKnownPort(lines: map<string, Line>, name: string, missing: ErrorCode, budget: nat,
                          ret: int, ans: Option<int>, lines': map<string, Line>)
    requires name in lines && AnswerOn(lines, name, missing, budget, ret, ans, lines')
    ensures name in lines' && lines' == lines[name := lines'[name]]
    ensures AnswerOutcome(lines[name], budget, ret, ans, lines'[name])
  {
  }

  /** A read transaction: send the read frame for address, then collect the answer if the send succeeded. */
  ghost predicate ReadTransactionOn(lines: map<string, Line>, name: string, missing: ErrorCode, address: int,
                                    budget: nat, ret: int, ans: Option<int>, lines': map<string, Line>)
  {
    var w := WriteOn(lines, name, missing, EncodeRead(address));
    if w.code != DEVICE_OK then ret == w.code && ans == None && lines' == w.lines
    else AnswerOn(w.lines, name, missing, budget, ret, ans, lines')
  }

  /** A write transaction: purge the port, then send the write frame. */
  function WriteTransactionOn(lines: map<string, Line>, name: string, missing: ErrorCode,
                              address: int, value: int): (r: WriteResult)
    ensures r.lines.Keys == lines.Keys
    ensures forall p :: p in lines && p != name ==> r.lines[p] == lines[p]
    ensures name in lines && r.code == DEVICE_OK ==>
      r.lines[name].trace == lines[name].trace + [Purged, Sent(EncodeWrite(address, value))]
  {
    WriteOn(PurgeOn(lines, name), name, missing, EncodeWrite(address, value))
  }

  /** A hub answers a read with a code of success exactly when it holds a decoded value other than the sentinel. */
  lemma AnswerSucceedsWithValue(l: Line, budget: nat, ret: int, ans: Option<int>, after: Line)
    requires AnswerOutcome(l, budget, ret, ans, after)
    ensures ret == DEVICE_OK <==> ans.Some? && ans.value != ERR_COMMAND_UNKNOWN
  {
    CollectFailsOnlyOnFault(l, [], budget);
  }

  /**
   * Once four bytes are waiting and the first poll hands them over, the
   * reader returns their value after that one poll.
   */
  lemma TimelyAnswer(l: Line, budget: nat, ret: int, ans: Option<int>, after: Line)
    requires 1 <= budget && ANSWER_LENGTH <= |l.rx|
    requires l.polls != [] && l.polls[0].Ready? && ANSWER_LENGTH <= l.polls[0].available
    requires AnswerOutcome(l, budget, ret, ans, after)
    ensures ans == Some(Decode(l.rx[..4])) && ret == AnswerCode(Decode(l.rx[..4]))
    ensures after.rx == l.rx[4..] && after.trace == l.trace + [Received(l.rx[..4])]
  {
    var r := ReadLine(l, ANSWER_LENGTH);
    assert r.data == l.rx[..4];
    assert Collect(l, [], budget) == Gathered(l.rx[..4], r.line);
  }

  /** The answer reader's result code on a line whose answer bytes b all arrive in time. */
  lemma AnswerOfBytes(b: seq<Byte>, l: Line, budget: nat, ret: int, ans: Option<int>, after: Line)
    requires |b| == 4 && 1 <= budget && l.rx == b
    requires l.polls != [] && l.polls[0].Ready? && ANSWER_LENGTH <= l.polls[0].available
    requires AnswerOutcome(l, budget, ret, ans, after)
    ensures ret == ERR_COMMAND_UNKNOWN <==> b == [0xFF, 0xFF, 0x00, 0x00]
    ensures ret == DEVICE_OK <==> b != [0xFF, 0xFF, 0x00, 0x00]
  {
    TimelyAnswer(l, budget, ret, ans, after);
    assert l.rx[..4] == b;
    SentinelAnswer(b);
  }

  /** The hub: owner of the serial port and of the firmware handshake. */
  class MojoHub {
    const host: SerialHost
    var port: string
    var portAvailable: bool
    var initialized: bool
    var version: int

    constructor (host: SerialHost)
      ensures this.host == host && port == "" && !portAvailable && !initialized
    {
      this.host := host;
      port := "";
      portAvailable := false;
      initialized := false;
    }

    /** The port property being set by the host. */
    method SetPort(name: string)
      modifies this
      ensures port == name && portAvailable
      ensures initialized == old(initialized) && version == old(version)
    {
      port := name;
      portAvailable := true;
    }

    method PurgeComPortH()
      modifies host
      ensures host.lines == PurgeOn(old(host.lines), port)
    {
      host.Purge(port);
    }

    method WriteToComPortH(frame: seq<Byte>) returns (ret: int)
      modifies host
      ensures WriteResult(ret, host.lines) == WriteOn(old(host.lines), port, host.missingPortCode, frame)
    {
      ret := host.Write(port, frame);
    }

    method ReadFromComPortH(buf: array<Byte>, offset: nat, maxLen: nat) returns (ret: int, count: nat)
      requires offset + maxLen <= buf.Length
      modifies host, buf
      ensures var r := ReadOn(old(host.lines), port, host.missingPortCode, maxLen);
        ret == r.code && count == |r.data| && host.lines == r.lines
        && buf[..] == old(buf[..offset]) + r.data + old(buf[offset + |r.data|..])
    {
      ret, count := host.Read(port, buf, offset, maxLen);
    }

    method SendWriteRequest(address: int, value: int) returns (ret: int)
      modifies host
      ensures WriteResult(ret, host.lines)
           == WriteOn(old(host.lines), port, host.missingPortCode, EncodeWrite(address, value))
    {
      var command := EncodeWrite(address, value);
      ret := WriteToComPortH(command);
    }

    method SendReadRequest(address: int) returns (ret: int)
      modifies host
      ensures WriteResult(ret, host.lines)
           == WriteOn(old(host.lines), port, host.missingPortCode, EncodeRead(address))
    {
      var command := EncodeRead(address);
      ret := WriteToComPortH(command);
    }

    /**
     * Collects the 4-byte answer: poll for the missing bytes while fewer
     * than four are in and the deadline (`budget` polls) has not passed,
     * then decode the buffer; a decoded 65535 is reported as an unknown
     * command.
     */
    method ReadAnswer(budget: nat) returns (ret: int, ans: Option<int>)
      modifies host
      ensures AnswerOn(old(host.lines), port, host.missingPortCode, budget, ret, ans, host.lines)
      ensures ret == DEVICE_OK ==> ans.Some?
    {
      var answer := new Byte[ANSWER_LENGTH];
      var bytesRead: nat := 0;
      var polls: nat := 0;
      ghost var lines0, missing := host.lines, host.missingPortCode;
      ghost var l0 := LineOf(lines0, port, missing);
      ghost var cur, got, rest: nat := l0, [], budget;
      assert host.lines == Replace(lines0, port, l0);
      while bytesRead < ANSWER_LENGTH && polls < budget
        invariant bytesRead <= ANSWER_LENGTH && polls <= budget && rest == budget - polls
        invariant port in lines0 || cur == l0
        invariant host.lines == Replace(lines0, port, cur)
        invariant got == answer[..bytesRead]
        invariant Collect(l0, [], budget) == Collect(cur, got, rest)
      {
        ghost var r := ReadLine(cur, ANSWER_LENGTH - bytesRead);
        PollOn(lines0, port, missing, budget, cur, got, rest);
        var count;
        ret, count := ReadFromComPortH(answer, bytesRead, ANSWER_LENGTH - bytesRead);
        if ret != DEVICE_OK {
          return ret, None;
        }
        got, cur, rest := got + r.data, r.line, rest - 1;
        bytesRead := bytesRead + count;
        polls := polls + 1;
      }
      var tmp := Reassemble(answer);
      ans := Some(tmp);
      ret := AnswerCode(tmp);
      StoppedOn(lines0, port, missing, budget, cur, got, rest, answer[..]);
    }

    /** Sends a read request for the version register and collects the answer. */
    method GetControllerVersion(budget: nat) returns (ret: int, v: Option<int>)
      modifies host
      ensures ReadTransactionOn(old(host.lines), port, host.missingPortCode, VERSION_ADDRESS, budget, ret, v, host.lines)
      ensures ret == DEVICE_OK ==> v.Some?
    {
      ret := SendReadRequest(VERSION_ADDRESS);
      if ret != DEVICE_OK {
        return ret, None;
      }
      ret, v := ReadAnswer(budget);
    }

    /**
     * The start-up handshake: purge the port, read the firmware version
     * and accept it only if it is the adapter's version.
     */
    method Initialize(budget: nat) returns (ret: int, ghost readCode: int, ghost answer: Option<int>)
      modifies this, host
      ensures ReadTransactionOn(PurgeOn(old(host.lines), old(port)), old(port), host.missingPortCode,
                                VERSION_ADDRESS, budget, readCode, answer, host.lines)
      ensures port == old(port) && portAvailable == old(portAvailable)
      ensures version == if answer.Some? then answer.value else old(version)
      ensures ret == if readCode != DEVICE_OK then readCode
                     else if version != FIRMWARE_VERSION then ERR_VERSION_MISMATCH
                     else DEVICE_OK
      ensures ret == DEVICE_OK <==> answer == Some(FIRMWARE_VERSION)
      ensures initialized == (old(initialized) || ret == DEVICE_OK)
    {
      PurgeComPortH();
      var r, v := GetControllerVersion(budget);
      readCode, answer := r, v;
      if v.Some? {
        version := v.value;
      }
      if r != DEVICE_OK {
        return r, readCode, answer;
      }
      if FIRMWARE_VERSION != version {
        return ERR_VERSION_MISMATCH, readCode, answer;
      }
      initialized := true;
      ret := DEVICE_OK;
    }

    method Shutdown() returns (ret: int)
      modifies this
      ensures !initialized && ret == DEVICE_OK
      ensures port == old(port) && portAvailable == old(portAvailable) && version == old(version)
    {
      initialized := false;
      ret := DEVICE_OK;
    }

    /**
     * Detection: an initialised hub can communicate; otherwise a usable
     * port name is probed by purging it and reading the version, which
     * succeeds for any version other than 65535, which the reader reports
     * as an unknown command.
     */
    method DetectDevice(budget: nat) returns (status: Detection, ghost readCode: int, ghost answer: Option<int>)
      modifies host
      ensures initialized ==> status == CanCommunicate && host.lines == old(host.lines)
      ensures !initialized && !IsUsablePortName(Lower(port)) ==>
        status == Misconfigured && host.lines == old(host.lines)
      ensures !initialized && IsUsablePortName(Lower(port)) ==>
        && ReadTransactionOn(PurgeOn(old(host.lines), port), port, host.missingPortCode,
                             VERSION_ADDRESS, budget, readCode, answer, host.lines)
        && status == (if readCode == DEVICE_OK then CanCommunicate else CanNotCommunicate)
    {
      if initialized {
        return CanCommunicate, DEVICE_OK, None;
      }
      status := Misconfigured;
      readCode, answer := DEVICE_OK, None;
      var portLowerCase := ToLowerCase(port);
      if IsUsablePortName(portLowerCase) {
        status := CanNotCommunicate;
        host.Purge(port);
        var r, v := GetControllerVersion(budget);
        readCode, answer := r, v;
        if r == DEVICE_OK {
          status := CanCommunicate;
        }
      }
    }
  }

  datatype Detection = Misconfigured | CanNotCommunicate | CanCommunicate
}
