# MicroMojo device adapter — a verified model

This project models the core of the MicroMojo device adapter for Micro-Manager. The adapter drives a Mojo FPGA board over a serial port. It has two parts:

- a **hub** device, which owns the port;
- five **peripheral** controllers that reach the board through the hub: laser triggering, TTL outputs, servos, PWM outputs and analog inputs.

The board is driven by register frames:

- A write frame is `0x80`, then the 32-bit address, then the 32-bit value, both least significant byte first.
- A read frame is `0x00`, then the address.
- The board answers a read with four bytes. The adapter reassembles them into a 32-bit value.
- An answer of 65535 means that the board did not know the register.

The model is split into modules:

| module | file | what it holds |
|---|---|---|
| `Status` | status.dfy | the host's success code and the adapter's error codes |
| `Wire` | wire.dfy | frame encoding, answer decoding (`Reassemble` is the byte-shifting loop), sentinel rule, round trips |
| `AddressMap` | addresses.dfy | firmware version, version register, base address and channel limit of each register block, disjointness |
| `Transport` | transport.dfy | the host's serial layer: named ports, each a scripted line (replies, write codes, read polls, a trace of purges, frames and reads) |
| `PortName` | port_name.dfy | the port-name rule applied by device detection |
| `Hub` | hub.dfy | the `MojoHub` class: frames, the answer-collection loop, version handshake, shutdown, detection |
| `Peripherals` | peripherals.dfy | one `Peripheral` class parameterised by its kind, standing for the five controllers |
| `Scenarios` | scenarios.dfy | whole exchanges with a scripted board |

The answer-collection loop is specified by the function `Hub.Collect`. The method `Hub.MojoHub.ReadAnswer` is proved against it:

- The 500 ms deadline is a number of polls, `budget`. The method polls while fewer than four bytes are in and the budget is not spent.
- The answer buffer is freshly allocated and not initialised, as in the source.
- A short answer therefore decodes the bytes that came, followed by whatever the buffer held. `Hub.Reports` states this with an existential.

A port name the host does not know fails every transport call with a host code. This code is a parameter, `SerialHost.missingPortCode`.

The five controllers differ only in:

- their register blocks (the laser controller has three: mode, duration and sequence);
- their count limits and defaults;
- their write policy (`Peripherals.Stored` and `Peripherals.WireValue`).

Each controller keeps a shadow copy of every channel in an `array2`, with one row per register block.

The model follows the code as written; in particular:

- A TTL output sends 1 only for a value of exactly 1, and it keeps the raw value it was given.
- The collection loop has no timeout error: at the deadline it decodes whatever the buffer holds.
- A channel read sends its frame without purging the port first. A channel write, the analog-input request, the handshake and detection all purge first.
- Peripherals never check whether the hub is initialised.
- Detection accepts any version other than 65535, which the reader reports as an unknown command.
- A failed second `Initialize` leaves the hub's `initialized` flag as it was. `version` is updated whenever a value was decoded, the sentinel included.

## Model

| member | source | states |
|---|---|---|
| Status.AdapterErrors | Micro-manager/DeviceAdapter/MicroMojo.h:23-27 | the five adapter error codes are pairwise distinct, none is DEVICE_OK, and the unknown-command code is among them |
| Wire.LittleEndian | Micro-manager/DeviceAdapter/MicroMojo.cpp:276-283 | the four bytes a frame carries for a value, least significant first; the first is the value modulo 256, and `UnsignedLittleEndian` proves that they read back as the value modulo 2^32 |
| Wire.Decode | Micro-manager/DeviceAdapter/MicroMojo.cpp:318-324 | the answer's value is a signed 32-bit int congruent to the bytes' unsigned value modulo 2^32; it is non-negative exactly when that unsigned value is below 2^31, and then equals it |
| Wire.AnswerCode | Micro-manager/DeviceAdapter/MicroMojo.cpp:326-331 | the reader's code is success or the unknown-command error, and success exactly when the value is not the sentinel 65535 |
| Wire.ShiftInByte | Micro-manager/DeviceAdapter/MicroMojo.cpp:320-321 | one shift-and-or step keeps a signed 32-bit value congruent to tmp * 256 + b modulo 2^32, with b as its low byte, and exactly tmp * 256 + b while tmp is below 2^23 |
| Wire.EncodeWrite | Micro-manager/DeviceAdapter/MicroMojo.cpp:272-288 | the write frame has 9 bytes, starts with 0x80, and bytes 1-4 and 5-8 read back (least significant first) as the address and the value modulo 2^32 |
| Wire.EncodeRead | Micro-manager/DeviceAdapter/MicroMojo.cpp:289-300 | the read frame has 5 bytes, starts with 0x00, and bytes 1-4 read back as the address modulo 2^32 |
| Wire.ToInt32 | Micro-manager/DeviceAdapter/MicroMojo.cpp:318-324 | the signed 32-bit value congruent to x modulo 2^32; x itself when x already fits |
| Wire.UnsignedLittleEndian | Micro-manager/DeviceAdapter/MicroMojo.cpp:280-283 | the four bytes of a value, least significant first, read back as the value modulo 2^32 |
| Wire.LittleEndianModulo | Micro-manager/DeviceAdapter/MicroMojo.cpp:276-279 | values congruent modulo 2^32 are sent as the same four bytes |
| Wire.UnsignedInjective | Micro-manager/DeviceAdapter/MicroMojo.cpp:318-322 | two 4-byte answers with the same unsigned value are the same bytes |
| Wire.UnsignedRange | Micro-manager/DeviceAdapter/MicroMojo.cpp:318-322 | the unsigned value of four bytes lies in 0..2^32-1 |
| Wire.DecodeLittleEndian | Micro-manager/DeviceAdapter/MicroMojo.cpp:318-324 | decoding the bytes of x gives x as a signed 32-bit value, and x itself when it fits |
| Wire.LittleEndianDecode | Micro-manager/DeviceAdapter/MicroMojo.cpp:318-324 | encoding a decoded answer gives back the same four bytes |
| Wire.WriteValueRoundTrip | Micro-manager/DeviceAdapter/MicroMojo.cpp:280-283 | the value field of a write frame decodes to the value written, as a 32-bit int |
| Wire.FramesShareAddressField | Micro-manager/DeviceAdapter/MicroMojo.cpp:272-299 | read and write frames for an address carry the same address bytes and differ in the first byte |
| Wire.SplitLowByte | Micro-manager/DeviceAdapter/MicroMojo.cpp:276-277 | splitting off the low byte of a value is division and remainder by 256 |
| Wire.LittleEndianOfByte | Micro-manager/DeviceAdapter/MicroMojo.cpp:276-279 | a value below 256 is sent as itself followed by three zero bytes |
| Wire.SmallFrames | Micro-manager/DeviceAdapter/MicroMojo.cpp:272-299 | for an address and value below 256 the frames are the flag, the address and zeros, then the value and zeros |
| Wire.SentinelAnswer | Micro-manager/DeviceAdapter/MicroMojo.cpp:326-331 | an answer is reported as an unknown command exactly when its bytes are FF FF 00 00; every other answer is success |
| Wire.Reassemble | Micro-manager/DeviceAdapter/MicroMojo.cpp:318-324 | the shift-and-or loop over the answer buffer computes its little-endian signed 32-bit value |
| AddressMap.Base | Micro-manager/DeviceAdapter/MicroMojo.cpp:40-46 | each register block starts at a multiple of 10, and its ten registers lie below the version register; only the laser-mode block starts at 0 |
| AddressMap.MaxChannels | Micro-manager/DeviceAdapter/MicroMojo.cpp:34-38 | every unit allows between 6 and 10 channels, and 8 exactly for the analog inputs |
| AddressMap.Address | Micro-manager/DeviceAdapter/MicroMojo.cpp:40-48 | a channel's register lies in its unit's block, below the version register |
| AddressMap.BlocksFitBetweenBases | Micro-manager/DeviceAdapter/MicroMojo.cpp:34-46 | a unit's block of maximum size ends before the next unit's base |
| AddressMap.AddressesDisjoint | Micro-manager/DeviceAdapter/MicroMojo.cpp:34-46 | two (unit, channel) pairs within the limits share a register only when they are the same pair |
| AddressMap.VersionAddressIsApart | Micro-manager/DeviceAdapter/MicroMojo.cpp:48 | no channel register is the version register |
| Transport.PurgeLine | Micro-manager/DeviceAdapter/MicroMojo.h:48 | a purge discards every waiting byte and is recorded |
| Transport.WriteLine | Micro-manager/DeviceAdapter/MicroMojo.h:52 | a successful write is recorded and only adds received bytes; a failed write changes neither trace nor bytes |
| Transport.ReadTakesFront | Micro-manager/DeviceAdapter/MicroMojo.h:53-55 | a read hands over a prefix of the waiting bytes and leaves the rest in order, is recorded, uses one poll, and fails only with the poll's fault code |
| Transport.ReadKeepsOrder | Micro-manager/DeviceAdapter/MicroMojo.h:53-55 | bytes already held, then the read's bytes, then the bytes left equal the bytes held followed by the line |
| Transport.ReadLine | Micro-manager/DeviceAdapter/MicroMojo.h:53-55 | a read hands over at most maxLen bytes, and none when it fails |
| Transport.PurgeOn | Micro-manager/DeviceAdapter/MicroMojo.h:48 | purging one port leaves every other port as it was |
| Transport.WriteOn | Micro-manager/DeviceAdapter/MicroMojo.h:52 | writing to one port leaves every other port alone; an unknown port fails with the host's code and changes nothing |
| Transport.ReadOn | Micro-manager/DeviceAdapter/MicroMojo.h:53-55 | reading one port leaves the others alone, hands over at most maxLen bytes, and fails on an unknown port with the host's code |
| Transport.LineOf | Micro-manager/DeviceAdapter/MicroMojo.h:53-55 | a known port's line, or a line whose first read fails with the host's code |
| Transport.Replace | Micro-manager/DeviceAdapter/MicroMojo.h:53-55 | only the named port's line changes, and only if the port is known |
| Transport.ReadOnReplaced | Micro-manager/DeviceAdapter/MicroMojo.h:53-55 | reading a port whose line has been replaced reads from the new line |
| Transport.SerialHost.Purge | Micro-manager/DeviceAdapter/MicroMojo.h:48 | the port table after the purge |
| Transport.SerialHost.Write | Micro-manager/DeviceAdapter/MicroMojo.h:52 | the code and port table after writing the frame |
| Transport.SerialHost.Read | Micro-manager/DeviceAdapter/MicroMojo.h:53-55 | the bytes read land at buf[offset..] and the rest of the buffer is unchanged; the count, code and port table are those of the read |
| PortName.IsUsablePortName | Micro-manager/DeviceAdapter/MicroMojo.cpp:154 | the detection rule on a lower-cased name: non-empty and neither "undefined" nor "unknown"; `RuleIgnoresCase` and `PlaceholderNamesRefused` state its properties |
| PortName.Lower | Micro-manager/DeviceAdapter/MicroMojo.cpp:149-153 | the lower-cased name has the same length, and each character is the C-locale lower case of the original |
| PortName.ToLowerCase | Micro-manager/DeviceAdapter/MicroMojo.cpp:149-153 | the in-place loop over a copy of the name produces its lower-cased form |
| PortName.LowerIdempotent | Micro-manager/DeviceAdapter/MicroMojo.cpp:149-153 | lower-casing twice gives the same as once |
| PortName.RuleIgnoresCase | Micro-manager/DeviceAdapter/MicroMojo.cpp:154 | names equal up to case are accepted or refused together |
| PortName.LowerMatches | Micro-manager/DeviceAdapter/MicroMojo.cpp:149-153 | a name whose characters lower-case one by one to t lower-cases to t |
| PortName.DefaultPortRefused | Micro-manager/DeviceAdapter/MicroMojo.cpp:121 | the hub's default port value "Undefined" is refused |
| PortName.PlaceholderNamesRefused | Micro-manager/DeviceAdapter/MicroMojo.cpp:154 | "UNKNOWN" and the empty name are refused; an ordinary name such as "COM3" is accepted |
| Hub.Collect | Micro-manager/DeviceAdapter/MicroMojo.cpp:309-315 | the collection loop as a function of the line, the bytes held and the polls left; `CollectBounded`, `CollectTakesNextBytes`, `CollectPollsUntilDeadline` and `CollectFailsOnlyOnFault` state what it guarantees |
| Hub.Reports | Micro-manager/DeviceAdapter/MicroMojo.cpp:317-331 | what the reader returns once the loop ends: a failing read's code and no value, or a value that decodes the collected bytes followed by the buffer's other bytes, with the unknown-command rule applied |
| Hub.ReadTransactionOn | Micro-manager/DeviceAdapter/MicroMojo.cpp:259-270 | a read transaction: a failed send of the read frame returns its code with no value and no read; otherwise the answer reader's outcome on the port |
| Hub.CollectBounded | Micro-manager/DeviceAdapter/MicroMojo.cpp:309-315 | the collection loop never holds more than four bytes and never drops a byte it holds |
| Hub.CollectTakesNextBytes | Micro-manager/DeviceAdapter/MicroMojo.cpp:309-315 | no byte is lost or reordered: bytes held, then bytes left on the line, are the starting bytes, then the line |
| Hub.CollectPollsUntilDeadline | Micro-manager/DeviceAdapter/MicroMojo.cpp:309-315 | each pass is one read call, at most budget calls are made, and a short answer means that every poll before the deadline was made |
| Hub.CollectFailsOnlyOnFault | Micro-manager/DeviceAdapter/MicroMojo.cpp:311-313 | the loop fails only with the code of a failing read call, never with a timeout of its own |
| Hub.CollectStep | Micro-manager/DeviceAdapter/MicroMojo.cpp:309-315 | one pass: a failing read ends the loop with its code, a successful one appends its bytes and uses one poll |
| Hub.GatheredAnswer | Micro-manager/DeviceAdapter/MicroMojo.cpp:317-331 | once the loop stops, the buffer's value, whose first bytes are those collected, is what is reported |
| Hub.AnswerOnReported | Micro-manager/DeviceAdapter/MicroMojo.cpp:302-332 | the reader's outcome on a port follows from the loop's outcome on the port's line |
| Hub.PollOn | Micro-manager/DeviceAdapter/MicroMojo.cpp:309-315 | one pass on a port: the host's read is the line's read; a failure ends the reader with its code; a success (only on a known port) advances the loop |
| Hub.StoppedOn | Micro-manager/DeviceAdapter/MicroMojo.cpp:317-331 | a stopped loop makes the reader report the buffer's value and leave the port's remaining line |
| Hub.AnswerOnUnknownPort | Micro-manager/DeviceAdapter/MicroMojo.cpp:311-313 | on a port the host does not know the reader fails with the host's code at the first poll and changes nothing |
| Hub.AnswerOnKnownPort | Micro-manager/DeviceAdapter/MicroMojo.cpp:302-332 | on a known port the reader works on that port's line alone |
| Hub.WriteTransactionOn | Micro-manager/DeviceAdapter/MicroMojo.cpp:469-477 | a write transaction touches only its port and, when it succeeds, records a purge followed by the write frame |
| Hub.AnswerSucceedsWithValue | Micro-manager/DeviceAdapter/MicroMojo.cpp:324-331 | the reader succeeds exactly when it holds a decoded value other than the sentinel |
| Hub.TimelyAnswer | Micro-manager/DeviceAdapter/MicroMojo.cpp:309-324 | four bytes offered by the first poll are the answer after one read, and the rest of the line stays |
| Hub.AnswerOfBytes | Micro-manager/DeviceAdapter/MicroMojo.cpp:326-331 | with the whole answer in time, the reader reports an unknown command exactly for FF FF 00 00, and success otherwise |
| Hub.MojoHub.constructor | Micro-manager/DeviceAdapter/MicroMojo.cpp:108-122 | a new hub has no port, no port available and is not initialised |
| Hub.MojoHub.SetPort | Micro-manager/DeviceAdapter/MicroMojo.cpp:340-344 | setting the port property stores the name and marks the port available |
| Hub.MojoHub.PurgeComPortH | Micro-manager/DeviceAdapter/MicroMojo.h:48 | purges the hub's own port |
| Hub.MojoHub.WriteToComPortH | Micro-manager/DeviceAdapter/MicroMojo.h:52 | writes to the hub's own port |
| Hub.MojoHub.ReadFromComPortH | Micro-manager/DeviceAdapter/MicroMojo.h:53-55 | reads from the hub's own port into buf[offset..] |
| Hub.MojoHub.SendWriteRequest | Micro-manager/DeviceAdapter/MicroMojo.cpp:272-288 | sends exactly the write frame for address and value and returns the write's code |
| Hub.MojoHub.SendReadRequest | Micro-manager/DeviceAdapter/MicroMojo.cpp:289-300 | sends exactly the read frame for the address and returns the write's code |
| Hub.MojoHub.ReadAnswer | Micro-manager/DeviceAdapter/MicroMojo.cpp:302-332 | the poll loop and decoding produce what the collection loop specifies: the failing read's code, or the decoded buffer with the unknown-command rule, and the port's line after it; success always carries a value |
| Hub.MojoHub.GetControllerVersion | Micro-manager/DeviceAdapter/MicroMojo.cpp:259-270 | a read transaction on the version register: a failed send returns its code without reading |
| Hub.MojoHub.Initialize | Micro-manager/DeviceAdapter/MicroMojo.cpp:205-226 | purge, then read the version; a failed read returns its code, a version other than 1 returns the mismatch code, and success sets initialized; success happens exactly when the board answers 1 |
| Hub.MojoHub.Shutdown | Micro-manager/DeviceAdapter/MicroMojo.cpp:253-257 | clears initialized and returns success, leaving port and version alone |
| Hub.MojoHub.DetectDevice | Micro-manager/DeviceAdapter/MicroMojo.cpp:139-193 | an initialised hub can communicate; a placeholder port name is misconfigured and touches nothing; otherwise purge and read the version, and the outcome is "can communicate" exactly when the read succeeded |
| Peripherals.MaxCount | Micro-manager/DeviceAdapter/MicroMojo.cpp:34-38 | the channel limit: 8 for the analog inputs, 6 for every other controller |
| Peripherals.Stored | Micro-manager/DeviceAdapter/MicroMojo.cpp:1121-1123 | a PWM value is kept within 0..255, unchanged exactly when it already lay there; every other controller keeps the value unchanged |
| Peripherals.WireValue | Micro-manager/DeviceAdapter/MicroMojo.cpp:719-722 | a TTL output sends 0 or 1, and 1 exactly for the value 1; every other controller sends the value unchanged |
| Peripherals.Banks | Micro-manager/DeviceAdapter/MicroMojo.h:100-102 | the laser controller owns three distinct register blocks, every other controller one, each as large as the controller's count limit |
| Peripherals.DefaultCount | Micro-manager/DeviceAdapter/MicroMojo.cpp:643-644 | each controller's default count lies within its limits |
| Peripherals.ChannelAddress | Micro-manager/DeviceAdapter/MicroMojo.cpp:766 | a channel's register is its block's base plus the channel, below the version register |
| Peripherals.PwmPolicy | Micro-manager/DeviceAdapter/MicroMojo.cpp:1121-1129 | a PWM value is kept exactly when it lies in 0..255, is 0 otherwise, and is sent as stored |
| Peripherals.TtlPolicy | Micro-manager/DeviceAdapter/MicroMojo.cpp:719-723 | a TTL value is stored raw, but 1 is sent exactly for 1 and 0 for everything else |
| Peripherals.PassThroughPolicy | Micro-manager/DeviceAdapter/MicroMojo.cpp:954-958 | laser, servo and analog-input values are stored and sent unchanged |
| Peripherals.ChannelAddressesDisjoint | Micro-manager/DeviceAdapter/MicroMojo.cpp:34-46 | no two channels of any controllers share a register |
| Peripherals.Peripheral.constructor | Micro-manager/DeviceAdapter/MicroMojo.cpp:641-644 | a new controller has its default count, no shadow arrays and is not initialised |
| Peripherals.Peripheral.SetNumberOfChannels | Micro-manager/DeviceAdapter/MicroMojo.cpp:745-753 | the pre-initialisation count property stores a count within the limits |
| Peripherals.Peripheral.NumberOfChannels | Micro-manager/DeviceAdapter/MicroMojo.h:157 | the count getter returns the count, which is the length of every shadow row |
| Peripherals.Peripheral.Initialize | Micro-manager/DeviceAdapter/MicroMojo.cpp:396-419 | without a hub, returns the no-port code and changes nothing; otherwise allocates fresh shadow arrays, one row per block and one column per channel, all zero, and marks the controller initialised |
| Peripherals.Peripheral.Shutdown | Micro-manager/DeviceAdapter/MicroMojo.cpp:702-706 | clears initialized and returns success, keeping count and shadow |
| Peripherals.Peripheral.WriteToPort | Micro-manager/DeviceAdapter/MicroMojo.cpp:708-728 | without a hub returns the no-port code; otherwise purges the hub's port and sends the write frame with the value the policy puts on the wire |
| Peripherals.Peripheral.RequestRead | Micro-manager/DeviceAdapter/MicroMojo.cpp:1223-1239 | the analog-input write path: without a hub the no-port code, otherwise purge and send a read frame |
| Peripherals.Peripheral.ReadFromPort | Micro-manager/DeviceAdapter/MicroMojo.cpp:730-741 | without a hub the no-port code and no value, otherwise the hub's answer reader |
| Peripherals.Peripheral.OnGet | Micro-manager/DeviceAdapter/MicroMojo.cpp:757-777 | without a hub the no-port code; otherwise a read transaction on the channel's register (no purge), and only a successful one updates that one shadow slot |
| Peripherals.Peripheral.OnSet | Micro-manager/DeviceAdapter/MicroMojo.cpp:1116-1130 | the analog inputs accept and do nothing; the others apply their policy and send through a write transaction, and only a successful one stores the policy's value in that one shadow slot |
| Scenarios.ReadOfReply | Micro-manager/DeviceAdapter/MicroMojo.cpp:757-777 | with a four-byte reply arriving in one poll, a read transaction reports the reply's value and records the frame and the reply |
| Scenarios.TtlChannelReadBack | Micro-manager/DeviceAdapter/MicroMojo.cpp:766-776 | reading TTL channel 3 asks register 33, and the board's 1 comes back as the channel's state |
| Scenarios.SequenceSentinel | Micro-manager/DeviceAdapter/MicroMojo.cpp:441-444 | a laser sequence of 65535, the property's default and upper limit, reads back as an unknown-command error |
| Scenarios.HandshakeIgnoresStaleBytes | Micro-manager/DeviceAdapter/MicroMojo.cpp:205-217 | the handshake purges first, so stale bytes do not disturb the version read, which succeeds exactly for a board answering 1 |
| Scenarios.DetectionRefusesSentinelVersion | Micro-manager/DeviceAdapter/MicroMojo.cpp:169-180 | after the purge, the version read succeeds, and detection can communicate, exactly when the board's version is not 65535; a board answering 65535 cannot communicate |
| Scenarios.ReadWithoutPurgeTakesStaleBytes | Micro-manager/DeviceAdapter/MicroMojo.cpp:766-771 | a channel read does not purge, so four stale bytes are taken as the answer and the real reply stays on the line |
| Scenarios.SplitAnswer | Micro-manager/DeviceAdapter/MicroMojo.cpp:309-315 | an answer split over two polls is reassembled as if it had come at once |
| Scenarios.TwoBytesGathered | Micro-manager/DeviceAdapter/MicroMojo.cpp:309-315 | two bytes offered by the only poll are all the loop ever collects |
| Scenarios.ShortAnswerIsNotTimeout | Micro-manager/DeviceAdapter/MicroMojo.cpp:317-331 | an answer cut short by the deadline still yields a value, built from the bytes that came and the buffer's other bytes |
| Scenarios.PwmOutOfRangeWrite | Micro-manager/DeviceAdapter/MicroMojo.cpp:1121-1125 | setting PWM channel c to 300 purges and writes 0 to register 50 + c |
| Scenarios.TtlWriteOfTwo | Micro-manager/DeviceAdapter/MicroMojo.cpp:719-787 | setting a TTL channel to 2 stores 2 but purges and writes 0 to register 30 + c |

## Left out

- Locking: the hub's static lock and the guards around each transaction exist only for concurrency. The model is sequential, so no other transaction runs between a send and its answer.
- Host framework: property creation, limits and allowed values, property get and set, parent IDs, `UpdateStatus`, error texts, and device registration, creation, deletion and installed-device detection are calls into Micro-Manager. They are not modelled. The numeric limits of the properties (servo 0..131071, mode 0..4, duration and sequence 0..65535) are enforced by the host, not by this code.
- Hub.MojoHub.OnVersion: the version property's getter is a host property read and is left out. `version` is kept as a field.
- Wall-clock time: the 500 ms check on the host clock is a budget of polls (`budget`). Elapsed time per poll is not modelled.
- Memory management: shadow arrays and the answer buffer are Dafny arrays. That the source never frees them is not modelled.
- Hub.MojoHub.DetectDevice: the reconfiguration of the port device (baud rate, handshaking, answer timeout, its initialise and shutdown), the 100 ms sleep and the exception handler are not modelled.
- Hub.MojoHub.Initialize: the name-property creation that precedes the handshake, and the version property created after it, are host calls and cannot fail in the model.
- Peripherals.Peripheral.Initialize: creating a property for each channel and the final `UpdateStatus` can fail in the source and return early with the host's code. In the model they always succeed.
- Peripherals.Peripheral.constructor: the count starts at the property's default. The host may set it through the pre-initialisation property (`SetNumberOfChannels`) before `Initialize`; setting it afterwards is not modelled.
- Peripherals.Peripheral.OnGet: the value handed to the host property is `ans` when `ret` is DEVICE_OK. The property object itself is not modelled.
- PortName.Lower: port names are Dafny strings of Unicode characters, and `LowerChar` is the C locale's `tolower` on 'A'..'Z'. The source lower-cases a byte string under whatever locale is active, which the model does not capture.
- Transport.SerialHost: the host's serial device is a script of replies, write codes and read polls per port. Its real timing and byte loss are represented only through that script.
