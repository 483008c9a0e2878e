/**
 * The host framework's serial-port layer, as the adapter sees it: ports
 * are looked up by name, and each port is a line to the board whose
 * behaviour is given as a script (what the board sends back for each
 * frame, what each write and each read call returns).
 */
module Transport {
  import opened Status
  import opened Wire

  /** What one read call finds on the line. */
  datatype Poll =
    | Ready(available: nat)  // up to this many received bytes are handed over
    | Fault(code: int)       // the read call fails with this code

  /** What the adapter did to a line, in order. */
  datatype Event =
    | Purged
    | Sent(frame: seq<Byte>)
    | Received(data: seq<Byte>)

  datatype Line = Line(
    rx: seq<Byte>,               // bytes received from the board and not read yet
    replies: seq<seq<Byte>>,     // the board's reply to each frame it receives, in order
    writeCodes: seq<int>,        // codes of successive write calls; DEVICE_OK once used up
    polls: seq<Poll>,            // successive read calls; nothing arrives once used up
    trace: seq<Event>)

  datatype ReadResult = ReadResult(code: int, data: seq<Byte>, line: Line)
  datatype WriteLineResult = WriteLineResult(code: int, line: Line)
  datatype WriteResult = WriteResult(code: int, lines: map<string, Line>)
  datatype HostRead = HostRead(code: int, data: seq<Byte>, lines: map<string, Line>)

  function Tail<T>(s: seq<T>): seq<T> {
    if s == [] then [] else s[1..]
  }

  /** Purging discards every byte waiting to be read. */
  function PurgeLine(l: Line): (r: Line)
    ensures r.rx == [] && r.trace == l.trace + [Purged]
  {
    l.(rx := [], trace := l.trace + [Purged])
  }

  /** Writing a frame: if the write succeeds the board receives it and queues its reply. */
  function WriteLine(l: Line, frame: seq<Byte>): (r: WriteLineResult)
    ensures r.code == DEVICE_OK ==> r.line.trace == l.trace + [Sent(frame)] && l.rx <= r.line.rx
    ensures r.code != DEVICE_OK ==> r.line.trace == l.trace && r.line.rx == l.rx
  {
    var code := if l.writeCodes == [] then DEVICE_OK else l.writeCodes[0];
    if code != DEVICE_OK then
      WriteLineResult(code, l.(writeCodes := Tail(l.writeCodes)))
    else
      var reply := if l.replies == [] then [] else l.replies[0];
      WriteLineResult(DEVICE_OK, l.(writeCodes := Tail(l.writeCodes), replies := Tail(l.replies),
                                    rx := l.rx + reply, trace := l.trace + [Sent(frame)]))
  }

  /** Reading at most maxLen bytes: the next bytes of the stream, as many as the poll offers. */
  function ReadLine(l: Line, maxLen: nat): (r: ReadResult)
    ensures |r.data| <= maxLen
    ensures r.code != DEVICE_OK ==> r.data == []
  {
    if l.polls == [] then
      ReadResult(DEVICE_OK, [], l.(trace := l.trace + [Received([])]))
    else
      match l.polls[0]
      case Fault(code) =>
        ReadResult(code, [], l.(polls := l.polls[1..], trace := l.trace + [Received([])]))
      case Ready(n) =>
        var k := Min(Min(n, maxLen), |l.rx|);
        ReadResult(DEVICE_OK, l.rx[..k],
                   l.(rx := l.rx[k..], polls := l.polls[1..], trace := l.trace + [Received(l.rx[..k])]))
  }

  /**
   * A read takes the front of the received stream and nothing else: the
   * bytes handed over followed by the bytes left are the bytes that were
   * waiting; the call is recorded and one poll is used up; a failing call
   * is the poll's fault and hands over nothing.
   */
  lemma ReadTakesFront(l: Line, maxLen: nat)
    ensures var r := ReadLine(l, maxLen);
      && |r.data| <= |l.rx| && r.data == l.rx[..|r.data|] && r.line.rx == l.rx[|r.data|..]
      && r.data + r.line.rx == l.rx
      && r.line.trace == l.trace + [Received(r.data)]
      && r.line.polls == Tail(l.polls)
      && (r.code != DEVICE_OK ==> l.polls != [] && l.polls[0] == Fault(r.code))
  {
    var r := ReadLine(l, maxLen);
    assert r.data + r.line.rx == l.rx[..|r.data|] + l.rx[|r.data|..];
  }

  /** Bytes already held, followed by a read's bytes and what it leaves, are those held followed by the line. */
  lemma ReadKeepsOrder(held: seq<Byte>, l: Line, maxLen: nat)
    ensures var r := ReadLine(l, maxLen); (held + r.data) + r.line.rx == held + l.rx
  {
    ReadTakesFront(l, maxLen);
    var r := ReadLine(l, maxLen);
    assert (held + r.data) + r.line.rx == held + (r.data + r.line.rx);
  }

  function Min(a: nat, b: nat): nat {
    if a <= b then a else b
  }

  /** The port table after purging the named port; an unknown name changes nothing. */
  function PurgeOn(lines: map<string, Line>, name: string): (r: map<string, Line>)
    ensures r.Keys == lines.Keys
    ensures forall p :: p in lines && p != name ==> r[p] == lines[p]
  {
    if name in lines then lines[name := PurgeLine(lines[name])] else lines
  }

  /** Writing a frame to the named port; an unknown name fails with the host's code. */
  function WriteOn(lines: map<string, Line>, name: string, missing: ErrorCode, frame: seq<Byte>): (r: WriteResult)
    ensures r.lines.Keys == lines.Keys
    ensures forall p :: p in lines && p != name ==> r.lines[p] == lines[p]
    ensures name !in lines ==> r.code == missing && r.lines == lines
  {
    if name in lines then
      var w := WriteLine(lines[name], frame);
      WriteResult(w.code, lines[name := w.line])
    else
      WriteResult(missing, lines)
  }

  /**
   * The line behind a port name. The host refuses every read on a name it
   * does not know, which is a line whose first read call fails with the
   * host's code.
   */
  function LineOf(lines: map<string, Line>, name: string, missing: ErrorCode): (l: Line)
    ensures name in lines ==> l == lines[name]
    ensures name !in lines ==> l.rx == [] && l.polls == [Fault(missing)]
  {
    if name in lines then lines[name] else Line([], [], [], [Fault(missing)], [])
  }

  /** The port table once the named port's line has become l; an unknown name changes nothing. */
  function Replace(lines: map<string, Line>, name: string, l: Line): (r: map<string, Line>)
    ensures r.Keys == lines.Keys
    ensures forall p :: p in lines && p != name ==> r[p] == lines[p]
    ensures name in lines ==> r[name] == l
  {
    if name in lines then lines[name := l] else lines
  }

  /** Reading from the named port; an unknown name fails with the host's code. */
  function ReadOn(lines: map<string, Line>, name: string, missing: ErrorCode, maxLen: nat): (r: HostRead)
    ensures |r.data| <= maxLen
    ensures r.code != DEVICE_OK ==> r.data == []
    ensures r.lines.Keys == lines.Keys
    ensures forall p :: p in lines && p != name ==> r.lines[p] == lines[p]
    ensures name !in lines ==> r.code == missing && r.lines == lines
  {
    var rd := ReadLine(LineOf(lines, name, missing), maxLen);
    HostRead(rd.code, rd.data, Replace(lines, name, rd.line))
  }

  /** Reading from a port whose line has become l reads from l. */
  lemma ReadOnReplaced(lines: map<string, Line>, name: string, missing: ErrorCode, l: Line, maxLen: nat)
    requires name in lines || l == LineOf(lines, name, missing)
    ensures var rd := ReadLine(l, maxLen);
      ReadOn(Replace(lines, name, l), name, missing, maxLen) == HostRead(rd.code, rd.data, Replace(lines, name, rd.line))
  {
    if name in lines {
      assert lines[name := l][name := ReadLine(l, maxLen).line] == lines[name := ReadLine(l, maxLen).line];
    }
  }

  /** The host's serial ports, reached by name. */
  class SerialHost {
    var lines: map<string, Line>
    /** What the host returns for a port name it does not know. */
    const missingPortCode: ErrorCode

    constructor (lines: map<string, Line>, missingPortCode: ErrorCode)
      ensures this.lines == lines && this.missingPortCode == missingPortCode
    {
      this.lines := lines;
      this.missingPortCode := missingPortCode;
    }

    method Purge(name: string)
      modifies this
      ensures lines == PurgeOn(old(lines), name)
    {
      lines := PurgeOn(lines, name);
    }

    method Write(name: string, frame: seq<Byte>) returns (ret: int)
      modifies this
      ensures WriteResult(ret, lines) == WriteOn(old(lines), name, missingPortCode, frame)
    {
      var w := WriteOn(lines, name, missingPortCode, frame);
      ret, lines := w.code, w.lines;
    }

    /** Reads into buf[offset..], at most maxLen bytes, and says how many arrived. */
    method Read(name: string, buf: array<Byte>, offset: nat, maxLen: nat) returns (ret: int, count: nat)
      requires offset + maxLen <= buf.Length
      modifies this, buf
      ensures var r := ReadOn(old(lines), name, missingPortCode, maxLen);
        ret == r.code && count == |r.data| && lines == r.lines
        && buf[..] == old(buf[..offset]) + r.data + old(buf[offset + |r.data|..])
    {
      var r := ReadOn(lines, name, missingPortCode, maxLen);
      forall j | 0 <= j < |r.data| {
        buf[offset + j] := r.data[j];
      }
      ret, count, lines := r.code, |r.data|, r.lines;
      assert buf[..] == old(buf[..offset]) + r.data + old(buf[offset + |r.data|..]);
    }
  }
}
