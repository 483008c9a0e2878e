/**
 * The board's register map: each functional unit owns a block of
 * addresses starting at a fixed base, one address per channel, and the
 * firmware version sits apart at address 100.
 */
module AddressMap {

  /** The adapter's compiled-in firmware version. */
  const FIRMWARE_VERSION: int := 1

  const VERSION_ADDRESS: int := 100

  /** One block of channel registers. */
  datatype Unit =
    | LaserMode
    | LaserDuration
    | LaserSequence
    | Ttl
    | Servo
    | Pwm
    | AnalogInput

  /** First address of a unit's block. */
  function Base(u: Unit): (b: nat)
    ensures b % 10 == 0 && b + 10 <= VERSION_ADDRESS
    ensures u == LaserMode <==> b == 0
  {
    match u
    case LaserMode => 0
    case LaserDuration => 10
    case LaserSequence => 20
    case Ttl => 30
    case Servo => 40
    case Pwm => 50
    case AnalogInput => 60
  }

  /** The most channels a unit can be configured with. */
  function MaxChannels(u: Unit): (n: nat)
    ensures 6 <= n <= 10
    ensures n == 8 <==> u == AnalogInput
  {
    match u
    case LaserMode | LaserDuration | LaserSequence => 6
    case Ttl | Servo | Pwm => 6
    case AnalogInput => 8
  }

  /** The register of one channel of a unit: base plus channel index. */
  function Address(u: Unit, channel: nat): (a: nat)
    requires channel < MaxChannels(u)
    ensures Base(u) <= a < Base(u) + MaxChannels(u)
    ensures a < VERSION_ADDRESS
  {
    Base(u) + channel
  }

  /** Each unit's block of addresses fits below the next unit's base. */
  lemma BlocksFitBetweenBases(u: Unit, v: Unit)
    requires Base(u) < Base(v)
    ensures Base(u) + MaxChannels(u) <= Base(v)
  {
  }

  /** No two distinct (unit, channel) pairs share a register. */
  lemma AddressesDisjoint(u: Unit, i: nat, v: Unit, j: nat)
    requires i < MaxChannels(u) && j < MaxChannels(v)
    requires Address(u, i) == Address(v, j)
    ensures u == v && i == j
  {
    if Base(u) < Base(v) {
      BlocksFitBetweenBases(u, v);
    } else if Base(v) < Base(u) {
      BlocksFitBetweenBases(v, u);
    }
  }

  /** No channel register is the version register. */
  lemma VersionAddressIsApart(u: Unit, i: nat)
    requires i < MaxChannels(u)
    ensures Address(u, i) != VERSION_ADDRESS
  {
  }
}
