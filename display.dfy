/** The two pieces of display logic with a rule in them: the command `lcd_curs` sends to move
    the cursor (main.c:66-72), and the choice of what the second row shows (main.c:257-258).
    The text itself is produced by `sprintf` and is not part of this model.
 */
module Display {
  import opened Bits
  import opened Decoder

  datatype Option<T> = None | Some(value: T)

  /** The command byte `lcd_curs(line, index)` hands to `lcd_com`, or None when it sends nothing. */
  function CursorCommand(line: uint8, index: uint8): (cmd: Option<uint8>)
    ensures cmd.Some? <==> line <= 1 && index <= 15
  {
    if (line == 0 || line == 1) && (0 <= index && index <= 15)
    then Some((128 + 64 * line as int + index as int) as uint8)  // (1 << 7) + (line << 6) + index
    else None
  }

  /** The cursor position a command byte selects: bit 7 marks a cursor move, bit 6 the row,
      the low bits the column; None for any byte `lcd_curs` never sends. */
  function CursorPosition(cmd: uint8): Option<(uint8, uint8)>
  {
    if cmd < 0x80 then None
    else
      var line := (cmd as int - 0x80) / 0x40;
      var index := (cmd as int - 0x80) % 0x40;
      if index <= 15 then Some((line as uint8, index as uint8)) else None
  }

  /** A command is sent for exactly the two rows and sixteen columns, and it selects that position. */
  lemma CursorRoundTrip(line: uint8, index: uint8)
    ensures CursorCommand(line, index).Some? ==> CursorPosition(CursorCommand(line, index).value) == Some((line, index))
    ensures CursorCommand(line, index).Some? ==>
              (line == 0 ==> 0x80 <= CursorCommand(line, index).value <= 0x8F) &&
              (line == 1 ==> 0xC0 <= CursorCommand(line, index).value <= 0xCF)
  {
  }

  /** Every byte naming a position is the command `lcd_curs` sends for that position. */
  lemma CursorPositionInverse(cmd: uint8)
    ensures CursorPosition(cmd).Some? ==> CursorCommand(CursorPosition(cmd).value.0, CursorPosition(cmd).value.1) == Some(cmd)
  {
  }

  /** What the second display row shows. */
  datatype Row = Directions(up: uint8, lf: uint8, dn: uint8, rt: uint8)
               | Axes(ljx: uint8, ljy: uint8, rjx: uint8, rjy: uint8)

  /** `psx.ver == 0x41` (digital mode) shows the four directions, any other mode the four stick values. */
  function SecondRow(p: Psx): (r: Row)
    ensures r.Directions? <==> p.ver == 0x41
  {
    if p.ver == 0x41 then Directions(p.up, p.lf, p.dn, p.rt) else Axes(p.ljx, p.ljy, p.rjx, p.rjy)
  }

  /** In digital mode the stick bytes are never shown, whatever the frame holds there. */
  lemma DigitalHidesAxes(prev: Psx, f: seq<int>, g: seq<int>)
    requires |f| == 9 && |g| == 9 && f[1] == 0x41
    requires forall k :: 0 <= k < 5 ==> f[k] == g[k]
    ensures SecondRow(Decode(prev, f)).Directions?
    ensures SecondRow(Decode(prev, f)) == SecondRow(Decode(prev, g))
  {
  }

  /** In digital mode the row shows the four direction flags of byte 3: up (bit 4), left (bit 7),
      down (bit 6) and right (bit 5). */
  lemma DigitalShowsDirections(prev: Psx, f: seq<int>)
    requires |f| == 9 && Truncate8(f[1]) == 0x41
    ensures SecondRow(Decode(prev, f)) == Directions(Flag(f[3], 4), Flag(f[3], 7), Flag(f[3], 6), Flag(f[3], 5))
  {
  }

  /** In any other mode the stick values are shown, each its frame value as a `uint8_t`: the
      byte as it arrived, or 255 for a timed-out exchange.  A timed-out mode byte reads 255, which
      is not 0x41, so the axes are shown then too. */
  lemma AnalogShowsAxes(prev: Psx, f: seq<int>)
    requires |f| == 9 && Truncate8(f[1]) != 0x41
    ensures SecondRow(Decode(prev, f)) == Axes(Truncate8(f[7]), Truncate8(f[8]), Truncate8(f[5]), Truncate8(f[6]))
  {
  }

  /** For a frame of bytes with any mode byte but 0x41, the stick bytes are shown as they arrived. */
  lemma AnalogShowsBytes(prev: Psx, f: seq<int>)
    requires |f| == 9 && 0 <= f[1] < 256 && f[1] != 0x41
    requires forall k :: 5 <= k < 9 ==> 0 <= f[k] < 256
    ensures SecondRow(Decode(prev, f)) == Axes(f[7] as uint8, f[8] as uint8, f[5] as uint8, f[6] as uint8)
  {
    AnalogShowsAxes(prev, f);
  }

  /** A timed-out mode byte selects the axes. */
  lemma TimedOutModeShowsAxes(prev: Psx, f: seq<int>)
    requires |f| == 9 && f[1] == -1
    ensures SecondRow(Decode(prev, f)).Axes?
  {
    AnalogShowsAxes(prev, f);
  }

  /** With no controller attached the unchecked mode byte 0xFF selects the stick values, which
      show 255 each. */
  lemma DisconnectedShowsAxes(prev: Psx)
    ensures SecondRow(Decode(prev, [0xFF, 0xFF, 0xFF, 0xFF, 0xFF, 0xFF, 0xFF, 0xFF, 0xFF])) == Axes(255, 255, 255, 255)
  {
  }

  /** The example of an analog frame whose stick bytes 7, 8, 5, 6 are 10, 20, 30, 40. */
  lemma AnalogExample(prev: Psx)
    ensures SecondRow(Decode(prev, [0xFF, 0x73, 0x5A, 0xFF, 0xFF, 30, 40, 10, 20])) == Axes(10, 20, 30, 40)
  {
  }
}
