/**
 * The five peripheral controllers (laser triggering, TTL outputs, servos,
 * PWM outputs and analog inputs) as one controller parameterised by its
 * kind. Each keeps a channel count, a shadow copy of the last value read
 * or written for every channel, and reaches the board only through the
 * hub's transactions.
 */
module Peripherals {
  import opened Status
  import opened Wrappers
  import opened Wire
  import opened AddressMap
  import opened Transport
  import opened Hub

  datatype Kind = LaserTrig | TtlOut | ServoOut | PwmOut | AnalogIn

  /**
   * The register blocks a controller owns, one per shadow array: the laser
   * controller has mode, duration and sequence, every other controller one.
   */
  function Banks(k: Kind): (units: seq<Unit>)
    ensures |units| == if k == LaserTrig then 3 else 1
    ensures forall i :: 0 <= i < |units| ==> MaxChannels(units[i]) == MaxCount(k)
    ensures forall i, j :: 0 <= i < j < |units| ==> units[i] != units[j]
  {
    match k
    case LaserTrig => [LaserMode, LaserDuration, LaserSequence]
    case TtlOut => [Ttl]
    case ServoOut => [Servo]
    case PwmOut => [Pwm]
    case AnalogIn => [AnalogInput]
  }

  /** The upper limit of the channel-count property. */
  function MaxCount(k: Kind): (n: nat)
    ensures 6 <= n <= 8
    ensures n == 8 <==> k == AnalogIn
  {
    match k
    case LaserTrig | TtlOut | ServoOut | PwmOut => 6
    case AnalogIn => 8
  }

  /** The channel-count property's default value. */
  function DefaultCount(k: Kind): (n: nat)
    ensures 1 <= n <= MaxCount(k)
  {
    match k
    case LaserTrig | TtlOut | ServoOut => 4
    case PwmOut => 1
    case AnalogIn => 3
  }

  /** The value a set handler keeps and passes on: PWM replaces anything outside 0..255 by 0. */
  function Stored(k: Kind, v: int): (r: int)
    ensures k == PwmOut ==> 0 <= r <= 255
    ensures k == PwmOut ==> (r == v <==> 0 <= v <= 255)
    ensures k != PwmOut ==> r == v
  {
    if k == PwmOut && (v < 0 || v > 255) then 0 else v
  }

  /** The value the write path puts on the wire: a TTL output sends 1 for exactly 1 and 0 for anything else. */
  function WireValue(k: Kind, v: int): (r: int)
    ensures k == TtlOut ==> (r == 0 || r == 1) && (r == 1 <==> v == 1)
    ensures k != TtlOut ==> r == v
  {
    if k == TtlOut then (if v == 1 then 1 else 0) else v
  }

  /** The register of one channel of one bank. */
  function ChannelAddress(k: Kind, bank: nat, channel: nat): (a: nat)
    requires bank < |Banks(k)| && channel < MaxCount(k)
    ensures a == Base(Banks(k)[bank]) + channel
    ensures a < VERSION_ADDRESS
  {
    Address(Banks(k)[bank], channel)
  }

  /** A PWM value is kept as given exactly when it lies in 0..255, and is 0 otherwise. */
  lemma PwmPolicy(v: int)
    ensures 0 <= Stored(PwmOut, v) <= 255
    ensures Stored(PwmOut, v) == v <==> 0 <= v <= 255
    ensures Stored(PwmOut, v) != v ==> Stored(PwmOut, v) == 0
    ensures WireValue(PwmOut, Stored(PwmOut, v)) == Stored(PwmOut, v)
  {
  }

  /** A TTL output keeps the raw value but sends 1 only for exactly 1. */
  lemma TtlPolicy(v: int)
    ensures Stored(TtlOut, v) == v
    ensures WireValue(TtlOut, v) == 1 <==> v == 1
    ensures WireValue(TtlOut, v) == 0 <==> v != 1
  {
  }

  /** Laser, servo and analog-input values pass through unchanged. */
  lemma PassThroughPolicy(k: Kind, v: int)
    requires k == LaserTrig || k == ServoOut || k == AnalogIn
    ensures Stored(k, v) == v && WireValue(k, v) == v
  {
  }

  /** No two channels of any controllers share a register. */
  lemma ChannelAddressesDisjoint(k: Kind, b: nat, i: nat, k': Kind, b': nat, i': nat)
    requires b < |Banks(k)| && i < MaxCount(k) && b' < |Banks(k')| && i' < MaxCount(k')
    requires ChannelAddress(k, b, i) == ChannelAddress(k', b', i')
    ensures k == k' && b == b' && i == i'
  {
    AddressesDisjoint(Banks(k)[b], i, Banks(k')[b'], i');
  }

  /** One peripheral controller attached (or not) to the hub. */
  class Peripheral {
    const kind: Kind
    /** The parent hub; null when the configuration has none. */
    const hub: MojoHub?
    var count: int
    /** One row per bank, one column per channel; allocated by Initialize. */
    var shadow: array2?<int>
    var initialized: bool

    ghost predicate Valid()
      reads this
    {
      && 1 <= count <= MaxCount(kind)
      && (shadow != null ==> shadow.Length0 == |Banks(kind)| && shadow.Length1 == count)
    }

    /** What the controller's operations may change on the board side: the hub's serial host. */
    function HostFrame(): set<object>
    {
      if hub == null then {} else {hub.host}
    }

    /** A new controller, with the channel-count property at its default. */
    constructor (kind: Kind, hub: MojoHub?)
      ensures this.kind == kind && this.hub == hub
      ensures count == DefaultCount(kind) && shadow == null && !initialized
      ensures Valid()
    {
      this.kind := kind;
      this.hub := hub;
      count := DefaultCount(kind);
      shadow := null;
      initialized := false;
    }

    /** The host sets the pre-initialisation channel-count property within its limits. */
    method SetNumberOfChannels(n: int)
      requires Valid() && shadow == null
      requires 1 <= n <= MaxCount(kind)
      modifies this
      ensures Valid() && count == n
      ensures shadow == old(shadow) && initialized == old(initialized)
    {
      count := n;
    }

    /** The count getter: the number of channels, which is the length of every shadow row. */
    function NumberOfChannels(): (n: int)
      requires Valid()
      reads this
      ensures 1 <= n <= MaxCount(kind)
      ensures shadow != null ==> n == shadow.Length1
    {
      count
    }

    /**
     * Needs the hub; allocates the shadow arrays for the configured count
     * and sets every slot to 0.
     */
    method Initialize() returns (ret: int)
      requires Valid()
      modifies this
      ensures Valid() && count == old(count)
      ensures hub == null ==> ret == ERR_NO_PORT_SET && shadow == old(shadow) && initialized == old(initialized)
      ensures hub != null ==> ret == DEVICE_OK && initialized && shadow != null && fresh(shadow)
      ensures hub != null ==>
        forall b, j :: 0 <= b < shadow.Length0 && 0 <= j < shadow.Length1 ==> shadow[b, j] == 0
    {
      if hub == null {
        return ERR_NO_PORT_SET;
      }
      var a := new int[|Banks(kind)|, NumberOfChannels()];
      for i := 0 to a.Length1
        modifies a
        invariant forall b, j :: 0 <= b < a.Length0 && 0 <= j < i ==> a[b, j] == 0
      {
        for b := 0 to a.Length0
          modifies a
          invariant forall b', j :: 0 <= b' < a.Length0 && 0 <= j < i ==> a[b', j] == 0
          invariant forall b' :: 0 <= b' < b ==> a[b', i] == 0
        {
          a[b, i] := 0;
        }
      }
      shadow := a;
      initialized := true;
      ret := DEVICE_OK;
    }

    method Shutdown() returns (ret: int)
      modifies this
      ensures !initialized && ret == DEVICE_OK
      ensures count == old(count) && shadow == old(shadow)
    {
      initialized := false;
      ret := DEVICE_OK;
    }

    /**
     * The write path of the output controllers: purge the hub's port, then
     * send the write frame with the value the wire carries.
     */
    method WriteToPort(address: int, value: int) returns (ret: int)
      requires kind != AnalogIn
      modifies HostFrame()
      ensures hub == null ==> ret == ERR_NO_PORT_SET
      ensures hub != null ==>
        WriteResult(ret, hub.host.lines)
        == WriteTransactionOn(old(hub.host.lines), hub.port, hub.host.missingPortCode, address, WireValue(kind, value))
    {
      if hub == null {
        return ERR_NO_PORT_SET;
      }
      hub.PurgeComPortH();
      ret := hub.SendWriteRequest(address, WireValue(kind, value));
    }

    /** The analog-input controller's only write path: purge the port, then send a read frame. */
    method RequestRead(address: int) returns (ret: int)
      requires kind == AnalogIn
      modifies HostFrame()
      ensures hub == null ==> ret == ERR_NO_PORT_SET
      ensures hub != null ==>
        WriteResult(ret, hub.host.lines)
        == WriteOn(PurgeOn(old(hub.host.lines), hub.port), hub.port, hub.host.missingPortCode, EncodeRead(address))
    {
      if hub == null {
        return ERR_NO_PORT_SET;
      }
      hub.PurgeComPortH();
      ret := hub.SendReadRequest(address);
    }

    /** Collects the hub's answer to a read request already sent. */
    method ReadFromPort(budget: nat) returns (ret: int, ans: Option<int>)
      modifies HostFrame()
      ensures hub == null ==> ret == ERR_NO_PORT_SET && ans == None
      ensures hub != null ==>
        AnswerOn(old(hub.host.lines), hub.port, hub.host.missingPortCode, budget, ret, ans, hub.host.lines)
      ensures ret == DEVICE_OK ==> ans.Some?
    {
      if hub == null {
        return ERR_NO_PORT_SET, None;
      }
      ret, ans := hub.ReadAnswer(budget);
    }

    /**
     * A property read of one channel: send the read frame for the channel's
     * register (without purging), collect the answer, and keep it in the
     * shadow slot only if the whole exchange succeeded. `ans` is the value
     * the hub decoded; the property takes it only when `ret` is DEVICE_OK.
     */
    method OnGet(bank: nat, channel: nat, budget: nat) returns (ret: int, ans: Option<int>)
      requires Valid() && shadow != null
      requires bank < |Banks(kind)| && channel < count
      modifies shadow, HostFrame()
      ensures Valid()
      ensures hub == null ==> ret == ERR_NO_PORT_SET && ans == None
      ensures hub != null ==>
        ReadTransactionOn(old(hub.host.lines), hub.port, hub.host.missingPortCode,
                          ChannelAddress(kind, bank, channel), budget, ret, ans, hub.host.lines)
      ensures ret == DEVICE_OK ==> ans.Some? && shadow[bank, channel] == ans.value
      ensures forall b, j :: 0 <= b < shadow.Length0 && 0 <= j < shadow.Length1 ==>
        shadow[b, j] == if ret == DEVICE_OK && b == bank && j == channel then ans.value else old(shadow[b, j])
    {
      if hub == null {
        return ERR_NO_PORT_SET, None;
      }
      ret := hub.SendReadRequest(ChannelAddress(kind, bank, channel));
      if ret != DEVICE_OK {
        return ret, None;
      }
      ret, ans := ReadFromPort(budget);
      if ret != DEVICE_OK {
        return;
      }
      shadow[bank, channel] := ans.value;
    }

    /**
     * A property write of one channel. The analog inputs are read-only and
     * accept the write without doing anything; the other controllers apply
     * their policy, write the value through the hub and keep it in the
     * shadow slot only if the write succeeded.
     */
    method OnSet(bank: nat, channel: nat, v: int) returns (ret: int)
      requires Valid() && shadow != null
      requires bank < |Banks(kind)| && channel < count
      modifies shadow, HostFrame()
      ensures Valid()
      ensures kind == AnalogIn ==> ret == DEVICE_OK && unchanged(HostFrame())
      ensures kind != AnalogIn && hub == null ==> ret == ERR_NO_PORT_SET
      ensures kind != AnalogIn && hub != null ==>
        WriteResult(ret, hub.host.lines)
        == WriteTransactionOn(old(hub.host.lines), hub.port, hub.host.missingPortCode,
                              ChannelAddress(kind, bank, channel), WireValue(kind, Stored(kind, v)))
      ensures forall b, j :: 0 <= b < shadow.Length0 && 0 <= j < shadow.Length1 ==>
        shadow[b, j] == if kind != AnalogIn && ret == DEVICE_OK && b == bank && j == channel
                        then Stored(kind, v) else old(shadow[b, j])
    {
      if kind == AnalogIn {
        return DEVICE_OK;
      }
      var value := Stored(kind, v);
      ret := WriteToPort(ChannelAddress(kind, bank, channel), value);
      if ret != DEVICE_OK {
        return;
      }
      shadow[bank, channel] := value;
    }
  }
}
