/** The controller's wires on port B of the microcontroller, and what can be
    observed on them.

    PORTB is the output latch: the firmware drives COM, SEL and CLK by setting and
    clearing single bits of it (the `set_true` / `set_false` macros).  DATA and ACK
    are inputs; `main` enables their pull-up resistors, so a line that nothing
    drives reads 1.  The attached controller is modelled as a peer that supplies
    the successive readings of DATA and of ACK; once a sequence of readings is
    used up the line floats and reads 1.
 */
module Pins {

  /** Bit positions in PORTB / PINB. */
  const COM: nat := 0
  const SEL: nat := 1
  const ACK: nat := 2
  const DATA: nat := 3
  const CLK: nat := 4

  /** Bit pos of a port register is 1. */
  predicate High(port: bv8, pos: nat)
    requires pos < 8
  {
    port & (1 << pos) != 0
  }

  /** `set_true(port, pos)` when status holds, `set_false(port, pos)` otherwise. */
  function Drive(port: bv8, pos: nat, status: bool): (r: bv8)
    requires pos < 8
    ensures High(r, pos) == status
  {
    if status then port | (1 << pos) else port & !(1 << pos)
  }

  /** Driving one pin leaves every other pin as it was. */
  lemma DriveKeeps(port: bv8, pos: nat, status: bool, q: nat)
    requires pos < 8 && q < 8 && q != pos
    ensures High(Drive(port, pos, status), q) == High(port, q)
  {
    var m: bv8 := 1 << q;
    assert (1 << pos) & m == 0;
  }

  /** One observable step on the wires: PORTB after a pin write, or a sample of an input line. */
  datatype Event = Wrote(port: bv8) | SampledData(level: bool) | SampledAck(level: bool)

  /** Reading k of an input line whose successive levels are s (pulled up once s is used up). */
  function Reading(s: seq<bool>, k: int): bool
  {
    if 0 <= k < |s| then s[k] else true
  }

  /** The readings left after n have been taken. */
  function Drop(s: seq<bool>, n: nat): seq<bool>
  {
    if n <= |s| then s[n..] else []
  }

  /** Reading k of what is left after n readings is reading n + k of the whole. */
  lemma DropReading(s: seq<bool>, n: nat, k: nat)
    ensures Reading(Drop(s, n), k) == Reading(s, n + k)
  {
  }
}
