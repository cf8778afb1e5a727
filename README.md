# PlayStation controller reader: the joystick protocol

This project models the joystick half of `remote_controller/main.c`. That file is the firmware of an
AVR board that polls a first-generation PlayStation controller and shows the button and stick state
on a 16x2 character LCD. The project proves properties of that model.

The model covers:

- the pin helpers `joy_clk`, `joy_sel`, `joy_com`, `joy_dat` and `joy_ack`;
- the byte exchange `joy_send_byte`: an eight-bit shift loop, then a bounded poll of the acknowledge
  line;
- the frame transaction `joy_scan`: SEL pulled low around nine exchanges of the fixed command
  `01 42 FF FF FF FF FF FF FF`, then the decoding of the nine answers into the global `struct _psx`;
- the cursor command of `lcd_curs`;
- the choice at main.c:257-258 between showing the four directions (digital mode, `ver == 0x41`) and
  the four stick values.

## How the hardware is represented

- **PORTB** is a `bv8` latch. `set_true` and `set_false` become `Pins.Drive`. COM, SEL, ACK, DATA
  and CLK are bits 0 to 4, as in main.c:74-78.
- **The attached controller** is a peer that supplies the successive levels of DATA and ACK, as two
  `seq<bool>` fields. Each `joy_dat` or `joy_ack` call consumes one reading. `main` turns on the
  pull-ups of both inputs (main.c:220-221), so once a sequence is used up the line reads 1. No
  controller at all is the pair of empty sequences. `Pins.Reading` gives that 1 without looking
  at PORTB: the model relies on the pull-up bits staying set. They do in every reachable state:
  the constructor sets them, and no exchange or transaction changes a bit other than COM, SEL
  and CLK (`Protocol.ExchangeKeeps`, `Protocol.TransactionFraming`).
- **Observation**: every PORTB write and every input sample is appended to a ghost `trace` of
  `Pins.Event`s. The protocol properties are stated about that trace: the falling edges of CLK and
  the levels of COM and SEL at each edge.
- **Timing**: `_delay_us` changes no state and is left out. The poll loop is counted in readings,
  not in microseconds.
- **C integers**: a result of `joy_send_byte` is a C `int`, which can hold -1. A test such as
  `(1 << k) & d` is `Bits.BitSet`, bit k in two's complement. It is computed by Euclidean halving,
  so every bit of -1 is set. The stores into `uint8_t` fields are `Bits.Truncate8`, which reduces
  modulo 256.

## Structure

- `Controller.Joystick` is a class holding PORTB, the peer's readings, the `psx` record and the
  trace. The `joy_*` functions are its methods.
- `joy_send_byte` is split at its two loops:
  - `ShiftBit` is one iteration of the shift loop;
  - `ShiftByte` is the shift loop;
  - `AwaitAck` is the poll loop;
  - `SendByte` is the whole function.
- `joy_scan` is split along its commented blocks: `Prepare`, `ScanBytes`, `Release`, then `Transact`
  around them, and `Scan` for the transaction plus the decoding.
  - The local array `data[9]` is the sequence of the nine results.
- Every method is proved against a function of module `Pins`, `Protocol` or `Decoder`:
  - the pin helpers follow `Pins.Drive`, `Pins.Reading` and `Pins.Drop`;
  - the exchange follows `Protocol.Exchange`, the frame `Protocol.Exchanges` and
    `Protocol.Transaction`;
  - `Scan` follows `Protocol.Transaction` and then `Decoder.Decode`.

  The lemmas of those modules say what the functions mean on the wires and in the record.
- `Decoder` holds the assignments of main.c:186-213 as `Decode`, plus an `Encode` that shows what a
  controller in a given state answers. `Display` holds `lcd_curs` and the row choice.

## Findings

The model of `joy_send_byte` and `joy_scan` follows the code as written. Beside it, module
`Protocol` and module `Decoder` each hold the evidently intended behaviour, with the property it
was meant to have and a lemma that shows where the two part.

- **The timeout test is off by one.** The poll is
  `for (i = 0; (i <= 50) && joy_ack(); i++)` followed by `if (i != 50)`:
  - -1 is returned only when ACK read high 50 times and then low at the 51st reading
    (`Protocol.TimeoutExactly`);
  - a controller that never releases ACK makes the loop read ACK 51 times and stop at i = 51, and
    the assembled byte is returned as if it had been acknowledged (`Protocol.NeverReleasedIsNoTimeout`).

  Evidently meant: -1 once ACK has stayed high for 50 polls (`Protocol.IntendedExchangeValue`).
  `Protocol.TimeoutDiffers` shows the two disagree exactly when ACK is high at all 51 readings.
- **A timeout does not abort the transaction.** `joy_scan` stores -1 in `data[k]` like any value and
  decodes it: all of its bits are set, so its flags read "released" and a copied byte reads 255
  (`Decoder.TimeoutDecoded`). Evidently meant: a frame with a timed-out exchange is not decoded and
  the previous record stays (`Decoder.DecodeOrKeep`), which agrees with the code on every frame of
  bytes (`Decoder.DecodeOrKeepAgrees`).
- **The mode and marker bytes are not checked.** The checks at main.c:168-169 are commented out:
  byte 1 was to be 0x41 (digital) or 0x73 (analog), and byte 2 was to be 0x5A. Byte 0 has no
  check at all. So any byte 1 is stored in `ver`: with no controller attached it is 0xFF, and a
  timed-out one is -1, stored as 255. Either way it selects the stick row
  (`Display.DisconnectedShowsAxes`, `Display.TimedOutModeShowsAxes`). Bytes 0 and 2 have no effect
  on the record (`Decoder.MarkersIgnored`). Evidently meant: a frame that fails either check is
  not decoded and the previous record stays (`Decoder.DecodeIfValid`, with `Decoder.DecodeIfValidSpec`).

| source | as written | input that shows it | evidently intended | confidence | as-written member | corrected member |
|---|---|---|---|---|---|---|
| remote_controller/main.c:144-150 | -1 only when the poll stops at i = 50 | ACK high at all 51 readings: the byte is returned | -1 once ACK has stayed high for 50 polls | not executed | Protocol.NeverReleasedIsNoTimeout | Protocol.IntendedTimeout |
| remote_controller/main.c:168-169 | the mode byte and the marker byte are not checked | no controller attached, all nine bytes 0xFF, from the zeroed record: `ver` becomes 0xFF | only a frame with mode 0x41 or 0x73 and marker 0x5A is decoded | not executed | Decoder.UnvalidatedMode | Decoder.DecodeIfValidSpec |
| remote_controller/main.c:164-213 | every result is decoded, -1 included | a timed-out mode byte from the zeroed record: `ver` becomes 255 | a timed-out frame leaves the record unchanged | not executed | Decoder.TimeoutOverwrites | Decoder.DecodeOrKeepTimeout |

## Model

| member | source | states |
|---|---|---|
| Bits.BitSet | remote_controller/main.c:188-208 | the test `(1 << k) & d` on a C `int`: bit k of d in two's complement, computed by halving; `Bits.BitSetDigit` relates it to the digit of d / 2^k |
| Bits.BitSetDigit | remote_controller/main.c:188-208 | bit k of d is set exactly when d / 2^k is odd |
| Bits.OrIsAdd | remote_controller/main.c:139 | for d below 2^i, d + 2^i has exactly the bits of d and bit i, so setting bit i of `data` at line 139 is the addition the loop uses |
| Bits.FromBitsBit | remote_controller/main.c:139 | bit k of the number assembled from the samples is sample k: the update of `data` at line 139 places sample i at bit i |
| Bits.FromBitsPrefix | remote_controller/main.c:139 | setting bit i of the value of the first i samples gives the value of the first i + 1 |
| Bits.FromBitsOfBits | remote_controller/main.c:188-213 | the eight low bits of a byte read back as the byte, so decoding a byte loses nothing |
| Bits.MinusOneAllBits | remote_controller/main.c:149-150 | every bit of the error value -1 is set in the two's-complement test `(1 << k) & d` |
| Bits.Truncate8 | remote_controller/main.c:186 | a store of an `int` into a `uint8_t` keeps values 0..255 unchanged and is congruent to the value modulo 256 |
| Pins.Drive | remote_controller/main.c:11-12 | `set_true` / `set_false` leave the addressed bit at the requested level |
| Pins.DriveKeeps | remote_controller/main.c:11-12 | driving one pin leaves every other bit of the port as it was |
| Pins.Reading | remote_controller/main.c:115-123 | reading k of an input: reading k of the peer's sequence, or 1 once the sequence is used up, since the pull-ups of main.c:220-221 hold the line high; `Pins.DropReading` relates it to consumption |
| Pins.DropReading | remote_controller/main.c:115-123 | after n readings of an input, reading k is reading n + k of the peer's sequence |
| Controller.Joystick.constructor | remote_controller/main.c:219-221 | DATA and ACK pull-ups on and no other PORTB bit set, `psx` zeroed as a static global, empty trace |
| Controller.Joystick.Clk | remote_controller/main.c:97-101 | PORTB becomes `Drive(PORTB, CLK, status)`, so CLK is at status and the other bits are kept (`Pins.DriveKeeps`); one write is observed |
| Controller.Joystick.Sel | remote_controller/main.c:103-107 | PORTB becomes `Drive(PORTB, SEL, status)`, so SEL is at status and the other bits are kept (`Pins.DriveKeeps`); one write is observed |
| Controller.Joystick.Com | remote_controller/main.c:109-113 | PORTB becomes `Drive(PORTB, COM, status)`, so COM is at status and the other bits are kept (`Pins.DriveKeeps`); one write is observed |
| Controller.Joystick.Dat | remote_controller/main.c:115-118 | returns the next DATA reading (1 once the peer is silent) and consumes it |
| Controller.Joystick.Ack | remote_controller/main.c:120-123 | returns the next ACK reading (1 once the peer is silent) and consumes it |
| Controller.Joystick.ShiftBit | remote_controller/main.c:133-140 | one loop iteration: COM := bit i of byte, CLK low, one DATA sample, CLK high |
| Controller.Joystick.ShiftByte | remote_controller/main.c:127-141 | the result is the eight DATA samples assembled least significant bit first; PORTB, readings and trace follow eight iterations |
| Controller.Joystick.AwaitAck | remote_controller/main.c:143-147 | the loop stops at the first low ACK reading or at i = 51, having read ACK exactly AckReads times |
| Controller.Joystick.SendByte | remote_controller/main.c:125-151 | the whole exchange follows `Protocol.Exchange`: the byte read, or -1 exactly when the poll stopped at i = 50 |
| Controller.Joystick.Prepare | remote_controller/main.c:157-160 | COM high, CLK high, SEL low, in that order |
| Controller.Joystick.ScanBytes | remote_controller/main.c:163-176 | nine exchanges of the fixed command, their results stored in order, nothing checked |
| Controller.Joystick.Release | remote_controller/main.c:178-183 | SEL high, COM high, CLK high, in that order |
| Controller.Joystick.Transact | remote_controller/main.c:155-183 | preparation, the nine exchanges and the ending follow `Protocol.Transaction` |
| Controller.Joystick.Scan | remote_controller/main.c:153-214 | `Controller.Scanned`: the wires and the trace follow `Protocol.Transaction`, and then `psx` becomes `Decode` of the previous record and the nine results, with none checked |
| Protocol.AckExitFrom | remote_controller/main.c:144-147 | the value of i at which the poll loop stops: the first i with ACK read low, or 51 when `i <= 50` fails first; bounds in `Protocol.AckExitFromBounds` and `Protocol.AckPolls` |
| Protocol.AckExitFromBounds | remote_controller/main.c:144-147 | the loop stops at an i between its start and 51, every ACK reading before it was high, and the reading at i was low when i is at most 50 |
| Protocol.AckReads | remote_controller/main.c:144-147 | ACK is read once more than the exit value, except at i = 51, where the `&&` skips the read; bounds in `Protocol.AckPolls` |
| Protocol.ExchangeValue | remote_controller/main.c:149-150 | the result of `joy_send_byte`: -1 or a byte, -1 exactly when the poll stopped at i = 50 (`Protocol.TimeoutExactly`) |
| Protocol.Exchange | remote_controller/main.c:125-151 | one call of `joy_send_byte`: its result, the wires after it (eight DATA and AckReads ACK readings consumed), and its events; described by `Protocol.ExchangeEdges`, `Protocol.ExchangeSamples`, `Protocol.ExchangeKeeps` and `Protocol.ReceivedLsbFirst` |
| Protocol.Exchanges | remote_controller/main.c:164-176 | the exchanges of a list of bytes one after the other, one result per byte in order; with the fixed `Protocol.Command` (0x01, 0x42, then 0xFF seven times) it is the scanning block |
| Protocol.ExchangesValues | remote_controller/main.c:164-176 | every result of a run of exchanges is -1 or a byte |
| Protocol.TransactionValues | remote_controller/main.c:155-176 | every value of the frame `joy_scan` collects is -1 or a byte, so the byte-valued decoder lemmas cover every frame without a timeout |
| Protocol.Prepared | remote_controller/main.c:158-160 | PORTB after `joy_com(1)`, `joy_clk(1)`, `joy_sel(0)`; described by `Protocol.PreparedPins` |
| Protocol.Released | remote_controller/main.c:181-183 | PORTB after `joy_sel(1)`, `joy_com(1)`, `joy_clk(1)`; described by `Protocol.ReleasedPins` |
| Protocol.Transaction | remote_controller/main.c:157-183 | preparation, the nine exchanges of the command, and the ending, with a frame of exactly nine values; described by `Protocol.TransactionSendsCommand` and `Protocol.TransactionFraming` |
| Protocol.IntendedExchangeValue | remote_controller/main.c:143-150 | the evidently intended result: -1 once ACK has stayed high for 50 polls, the byte otherwise; described by `Protocol.IntendedTimeout` |
| Protocol.AckPolls | remote_controller/main.c:144-147 | ACK is read between 1 and 51 times; every reading but the last was high, and the last was low unless all 51 were taken |
| Protocol.TimeoutExactly | remote_controller/main.c:144-150 | an exchange returns -1 if and only if ACK read high 50 times and then low |
| Protocol.NeverReleasedIsNoTimeout | remote_controller/main.c:144-150 | a controller that holds ACK high is read 51 times and the byte is returned, not -1 |
| Protocol.IntendedTimeout | remote_controller/main.c:143-150 | the intended result is -1 exactly when 50 polls pass without ACK going low |
| Protocol.TimeoutDiffers | remote_controller/main.c:144-150 | the code's result differs from the intended one exactly when ACK is high at all 51 readings the loop takes |
| Protocol.ReceivedLsbFirst | remote_controller/main.c:131-141 | a result other than -1 is a byte whose bit i is DATA sample i |
| Protocol.ExchangeEdges | remote_controller/main.c:131-141 | an exchange entered with CLK high makes exactly eight falling edges of CLK, COM carries bit i of the byte at edge i, and CLK is high afterwards |
| Protocol.ExchangeSamples | remote_controller/main.c:135-139 | in iteration i DATA is sampled right after the write that drops CLK with bit i on COM |
| Protocol.ExchangeKeeps | remote_controller/main.c:131-147 | an exchange writes only COM and CLK: SEL and the other bits keep their level in every write |
| Protocol.BitKeeps | remote_controller/main.c:135-140 | one iteration of the shift loop keeps every bit other than COM and CLK |
| Protocol.ShiftHolds | remote_controller/main.c:131-141 | the whole shift loop keeps every bit other than COM and CLK in each of its writes |
| Protocol.ShiftEdges | remote_controller/main.c:131-141 | n iterations make n falling edges of CLK, edge i with bit i of the byte on COM |
| Protocol.ExchangesEdges | remote_controller/main.c:164-176 | a run of exchanges makes 8 edges per byte, edge 8k+i carrying bit i of byte k |
| Protocol.PreparedPins | remote_controller/main.c:158-160 | after the preparation COM and CLK are high, SEL low, and every other bit is as it was |
| Protocol.ReleasedPins | remote_controller/main.c:181-183 | after the ending SEL, COM and CLK are high and every other bit is as it was |
| Protocol.NineSteps | remote_controller/main.c:164-176 | nine exchanges made one after the other are the run of the fixed command |
| Protocol.Transacted | remote_controller/main.c:157-183 | preparation, exchanges and ending one after the other are the transaction |
| Protocol.TransactionSendsCommand | remote_controller/main.c:157-183 | the controller sees 72 falling edges of CLK, all with SEL low, edge 8k+i carrying bit i of command byte k |
| Protocol.TransactionFraming | remote_controller/main.c:157-183 | SEL goes low after COM and CLK are high, stays low through every write of the nine exchanges, and then SEL, COM and CLK end high with every other bit as before |
| Protocol.Floating | remote_controller/main.c:144-150 | with both inputs floating the byte read is 0xFF and the poll runs all 51 readings |
| Protocol.Disconnected | remote_controller/main.c:164-176 | with no controller attached all nine results are 0xFF and none is -1 |
| Decoder.Flag | remote_controller/main.c:188-208 | the test `(1 << k) & d ? 0 : 1`: 1 exactly when bit k of d is clear, and 0 otherwise |
| Decoder.Decode | remote_controller/main.c:186-213 | the data handling block: every field but `data` overwritten from the frame; described by `Decoder.ActiveLowDecoding`, `Decoder.VerbatimCopies`, `Decoder.DecodeEncode` and `Decoder.EncodeDecode` |
| Decoder.DecodeOrKeep | remote_controller/main.c:164-213 | the evidently intended decoding when an exchange timed out: the previous record is kept; described by `Decoder.DecodeOrKeepTimeout` and `Decoder.DecodeOrKeepAgrees` |
| Decoder.DecodeIfValid | remote_controller/main.c:168-169 | the evidently intended decoding with the commented-out checks: only a frame with mode 0x41 or 0x73 and marker 0x5A is decoded |
| Decoder.DecodeIfValidSpec | remote_controller/main.c:168-169 | a frame with a known mode and the 0x5A marker is decoded as the code decodes it; a frame failing either check leaves the record unchanged |
| Decoder.ValidatedMode | remote_controller/main.c:168-169 | with the checks the decoded record holds mode 0x41 or 0x73, or is the previous record unchanged, so the row choice of line 257 sees only a validated mode or the old one |
| Decoder.UnvalidatedMode | remote_controller/main.c:168-169 | with all nine bytes 0xFF, as with no controller attached, the code stores 0xFF in `ver`, where the checks would keep the zeroed record |
| Decoder.ActiveLowDecoding | remote_controller/main.c:188-208 | each flag is 1 exactly when its bit of byte 3 or 4 is clear, and `data` is untouched |
| Decoder.DecodeEncode | remote_controller/main.c:186-213 | decoding the frame a controller in state p sends gives back p, except `data`, which the decoder never writes |
| Decoder.EncodeDecode | remote_controller/main.c:186-213 | bytes 1 and 3 to 8 of a frame of bytes are recovered from the decoded record |
| Decoder.MarkersIgnored | remote_controller/main.c:166-169 | frames that differ only in bytes 0 and 2 decode to the same record |
| Decoder.AllReleased | remote_controller/main.c:188-208 | bytes 3 and 4 equal to 0xFF mean no button is pressed |
| Decoder.UpOnly | remote_controller/main.c:188-194 | byte 3 equal to 0xEF means up is pressed and nothing else of byte 3 |
| Decoder.VerbatimCopies | remote_controller/main.c:186-213 | the mode byte and the four stick bytes are copied without inversion, for any frame: byte 1 to ver, 7 to ljx, 8 to ljy, 5 to rjx, 6 to rjy, each reduced to a `uint8_t`, so a byte arrives unchanged and a -1 reads 255 |
| Decoder.DecodeOrKeepTimeout | remote_controller/main.c:164-213 | the intended decode leaves the record unchanged when any of the nine results is -1 |
| Decoder.DecodeOrKeepAgrees | remote_controller/main.c:186-213 | on a frame of nine bytes the intended decode is the code's decode |
| Decoder.TimeoutOverwrites | remote_controller/main.c:164-213 | a frame with a timed-out mode byte overwrites `ver` of the zeroed record with 255, where the intended decode keeps it |
| Decoder.TimeoutDecoded | remote_controller/main.c:186-213 | a -1 in the frame is decoded as all bits set: released flags, 255 in a copied byte |
| Display.CursorCommand | remote_controller/main.c:66-72 | a command is sent exactly for row 0 or 1 and column 0 to 15 |
| Display.CursorRoundTrip | remote_controller/main.c:70 | the command sent is `0x80 + 0x40 * line + index`, which selects that row and column |
| Display.CursorPositionInverse | remote_controller/main.c:70 | every byte naming a position is the command sent for that position |
| Display.SecondRow | remote_controller/main.c:257-258 | the second row shows the four directions exactly when `ver` is 0x41, and the four stick values otherwise |
| Display.DisconnectedShowsAxes | remote_controller/main.c:257-258 | a frame of all 0xFF bytes, as with no controller attached, selects the stick row, and each stick value shows 255 |
| Display.DigitalShowsDirections | remote_controller/main.c:257 | in digital mode the second row shows the up, left, down and right flags of byte 3 (bits 4, 7, 6 and 5) |
| Display.DigitalHidesAxes | remote_controller/main.c:257 | in digital mode (byte 1 is 0x41) the second row shows the directions and does not depend on the stick bytes |
| Display.AnalogShowsAxes | remote_controller/main.c:257-258 | for any frame whose mode byte does not reduce to 0x41, a timed-out one included, the second row shows bytes 7, 8, 5 and 6 reduced to `uint8_t` |
| Display.AnalogShowsBytes | remote_controller/main.c:258 | in any mode byte but 0x41 the second row shows ljx, ljy, rjx and rjy as they arrived in bytes 7, 8, 5 and 6 |
| Display.TimedOutModeShowsAxes | remote_controller/main.c:257-258 | a timed-out mode byte (-1, read as 255) selects the stick values |
| Display.AnalogExample | remote_controller/main.c:258 | a concrete analog frame shows its four stick values |

## Left out

- The LCD driver (`lcd_com`, `lcd_dat`, `lcd_write`, `lcd_init`, `lcd_clr`, main.c:20-63): it is
  output plumbing toward the display, with no protocol logic. `lcd_curs` is modelled only up to
  the command byte it passes to `lcd_com`.
- `_delay_us` and `_delay_ms`: time is not modelled; their only effect is timing, and the poll loop is
  counted in readings.
- The register set-up and the endless loop of `main` (main.c:216-269): the DDRB, DDRA, PORTA, DDRC
  and PORTC writes are not modelled, and neither is the repetition of the scan. The DATA and ACK
  pull-ups are the constructor's starting state.
- `sprintf` and the text of the two display rows: the model stops at which four values the second
  row shows (`Display.SecondRow`).
- The AVR headers, interrupts and the electrical behaviour of the lines: a reading is a boolean
  supplied by the peer, and the controller's own timing and reaction to the edges are not modelled.
- The local `int data[9]` array of `joy_scan` is modelled as the sequence of the
  nine results, not as an array written in place.
