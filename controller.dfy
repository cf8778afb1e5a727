/** The joystick half of main.c as a class: the PORTB latch, the attached controller (the
    readings it will give on DATA and ACK) and the global `psx` record are its fields, and the
    pin helpers, `joy_send_byte` and `joy_scan` are its methods.  Each method is proved to
    follow functions of modules Pins, Protocol and Decoder, whose lemmas say what that means on
    the wires and in the record.
    The `_delay_us` calls are left out: they change no state.
 */
module Controller {
  import opened Bits
  import opened Pins
  import opened Protocol
  import opened Decoder

  class Joystick {
    /** PORTB, the output latch of COM, SEL and CLK (and of the DATA and ACK pull-ups). */
    var portb: bv8
    /** The levels the controller will put on DATA at the coming samples. */
    var dataIn: seq<bool>
    /** The levels the controller will put on ACK at the coming samples. */
    var ackIn: seq<bool>
    /** The global `struct _psx psx`. */
    var psx: Psx
    /** Everything observable so far: every PORTB write and every input sample, in order. */
    ghost var trace: seq<Event>

    function Wires(): Line
      reads this`portb, this`dataIn, this`ackIn
    {
      Line(portb, dataIn, ackIn)
    }

    /** The state `main` sets up before polling: DATA and ACK pull-ups on, `psx` zeroed. */
    constructor (dataIn: seq<bool>, ackIn: seq<bool>)
      ensures portb == Drive(Drive(0, DATA, true), ACK, true)
      ensures this.dataIn == dataIn && this.ackIn == ackIn && psx == Zero && trace == []
    {
      portb := Drive(Drive(0, DATA, true), ACK, true);
      this.dataIn := dataIn;
      this.ackIn := ackIn;
      psx := Zero;
      trace := [];
    }

    /** `joy_clk` */
    method Clk(status: bool)
      modifies this`portb, this`trace
      ensures portb == Drive(old(portb), CLK, status)
      ensures trace == old(trace) + [Wrote(portb)]
    {
      portb := Drive(portb, CLK, status);
      trace := trace + [Wrote(portb)];
    }

    /** `joy_sel` */
    method Sel(status: bool)
      modifies this`portb, this`trace
      ensures portb == Drive(old(portb), SEL, status)
      ensures trace == old(trace) + [Wrote(portb)]
    {
      portb := Drive(portb, SEL, status);
      trace := trace + [Wrote(portb)];
    }

    /** `joy_com` */
    method Com(status: bool)
      modifies this`portb, this`trace
      ensures portb == Drive(old(portb), COM, status)
      ensures trace == old(trace) + [Wrote(portb)]
    {
      portb := Drive(portb, COM, status);
      trace := trace + [Wrote(portb)];
    }

    /** `joy_dat`: one sample of DATA. */
    method Dat() returns (level: bool)
      modifies this`dataIn, this`trace
      ensures level == Reading(old(dataIn), 0)
      ensures dataIn == Drop(old(dataIn), 1)
      ensures trace == old(trace) + [SampledData(level)]
    {
      if dataIn == [] {
        level := true;
      } else {
        level := dataIn[0];
        dataIn := dataIn[1..];
      }
      trace := trace + [SampledData(level)];
    }

    /** `joy_ack`: one sample of ACK. */
    method Ack() returns (level: bool)
      modifies this`ackIn, this`trace
      ensures level == Reading(old(ackIn), 0)
      ensures ackIn == Drop(old(ackIn), 1)
      ensures trace == old(trace) + [SampledAck(level)]
    {
      if ackIn == [] {
        level := true;
      } else {
        level := ackIn[0];
        ackIn := ackIn[1..];
      }
      trace := trace + [SampledAck(level)];
    }

    /** One iteration of the shift loop of `joy_send_byte`: bit i of byte on COM, CLK low, one
        sample of DATA, CLK high. */
    method ShiftBit(byte: uint8, i: nat) returns (d: bool)
      modifies this`portb, this`dataIn, this`trace
      ensures d == Reading(old(dataIn), 0) && dataIn == Drop(old(dataIn), 1)
      ensures portb == AfterBit(old(portb), byte, i)
      ensures trace == old(trace) + BitEvents(old(portb), byte, i, d)
    {
      ghost var before := trace;
      Com(BitSet(byte as int, i));
      ghost var w1 := portb;
      Clk(false);
      ghost var w2 := portb;
      d := Dat();
      Clk(true);
      FourEvents(before, Wrote(w1), Wrote(w2), SampledData(d), Wrote(portb));
    }

    /** The shift loop of `joy_send_byte`: eight CLK pulses, each with bit i of byte put on COM
        before the falling edge and DATA sampled after it; the samples are assembled LSB first. */
    method ShiftByte(byte: uint8) returns (data: int)
      modifies this`portb, this`dataIn, this`trace
      ensures data == FromBits(Samples(old(dataIn)))
      ensures portb == PortAfterBits(old(portb), byte, 8) && dataIn == Drop(old(dataIn), 8)
      ensures trace == old(trace) + ShiftEvents(old(portb), byte, Samples(old(dataIn)), 8)
    {
      ghost var p0, d0, t0 := portb, dataIn, trace;
      ghost var samples := Samples(d0);
      var i: nat := 0;
      data := 0;
      while i < 8
        invariant i <= 8
        invariant portb == PortAfterBits(p0, byte, i)
        invariant dataIn == Drop(d0, i)
        invariant data == FromBits(samples[..i])
        invariant trace == t0 + ShiftEvents(p0, byte, samples, i)
      {
        var d := ShiftBit(byte, i);
        // `data |= d ? 1 << i : 0` is an addition, since data < 2^i (Bits.OrIsAdd)
        DropReading(d0, i, 0);
        assert d == samples[i];
        FromBitsPrefix(samples, i);
        data := data + (if d then Pow2(i) else 0);
        DropStep(d0, i);
        ShiftEventsStep(p0, byte, samples, i, t0);
        i := i + 1;
      }
      assert samples[..8] == samples;
    }

    /** The poll loop of `joy_send_byte`: `for (i = 0; i <= 50 && joy_ack(); i++)`; the final i
        is returned. */
    method AwaitAck() returns (i: nat)
      modifies this`ackIn, this`trace
      ensures i == AckExit(old(ackIn))
      ensures ackIn == Drop(old(ackIn), AckReads(old(ackIn)))
      ensures trace == old(trace) + AckEvents(old(ackIn))
    {
      ghost var a0, t0 := ackIn, trace;
      i := 0;
      while i <= 50
        invariant i <= 51
        invariant ackIn == Drop(a0, i)
        invariant AckExitFrom(a0, i) == AckExit(a0)
        invariant trace == t0 + AckSamples(a0, i)
      {
        var a := Ack();
        DropReading(a0, i, 0);
        assert a == Reading(a0, i);
        DropStep(a0, i);
        AckSamplesStep(a0, i, t0);
        if !a {
          break;
        }
        i := i + 1;
      }
    }

    /** `joy_send_byte`: shift byte out while shifting a byte in, then wait for ACK.  The result
        is -1 only when the poll loop stops with i == 50. */
    method SendByte(byte: uint8) returns (r: int)
      modifies this`portb, this`dataIn, this`ackIn, this`trace
      ensures Step(old(Wires()), byte, r, Wires(), old(trace), trace)
    {
      ghost var s0, t0 := Wires(), trace;
      var data := ShiftByte(byte);
      ghost var t1 := trace;
      var i := AwaitAck();
      if i != 50 {
        r := data;
      } else {
        r := -1;
      }
      assert trace == t0 + (ShiftEvents(s0.port, byte, Samples(s0.dataIn), 8) + AckEvents(s0.ackIn));
    }

    /** The scanning block of `joy_scan` (SEL already low): the nine exchanges of Command,
        their results in order. */
    method ScanBytes() returns (data: seq<int>)
      modifies this`portb, this`dataIn, this`ackIn, this`trace
      ensures var r := Exchanges(old(Wires()), Command);
              data == r.values && Wires() == r.final && trace == old(trace) + r.events
    {
      ghost var s0, t0 := Wires(), trace;
      var d0 := SendByte(0x01);  // start byte
      ghost var s1, t1 := Wires(), trace;
      var d1 := SendByte(0x42);  // the controller answers with its mode
      ghost var s2, t2 := Wires(), trace;
      var d2 := SendByte(0xFF);  // the controller answers with 0x5A
      ghost var s3, t3 := Wires(), trace;
      var d3 := SendByte(0xFF);  // buttons, byte 3
      ghost var s4, t4 := Wires(), trace;
      var d4 := SendByte(0xFF);  // buttons, byte 4
      ghost var s5, t5 := Wires(), trace;
      var d5 := SendByte(0xFF);  // right stick x
      ghost var s6, t6 := Wires(), trace;
      var d6 := SendByte(0xFF);  // right stick y
      ghost var s7, t7 := Wires(), trace;
      var d7 := SendByte(0xFF);  // left stick x
      ghost var s8, t8 := Wires(), trace;
      var d8 := SendByte(0xFF);  // left stick y
      ghost var s9, t9 := Wires(), trace;
      NineSteps(s0, s1, s2, s3, s4, s5, s6, s7, s8, s9, d0, d1, d2, d3, d4, d5, d6, d7, d8,
                t0, t1, t2, t3, t4, t5, t6, t7, t8, t9);
      data := [d0, d1, d2, d3, d4, d5, d6, d7, d8];
    }

    /** The preparing block of `joy_scan`: COM and CLK high, then SEL low. */
    method Prepare()
      modifies this`portb, this`trace
      ensures Wires() == Line(Prepared(old(portb)), old(dataIn), old(ackIn))
      ensures trace == old(trace) + PrepareEvents(old(portb))
    {
      Com(true);
      Clk(true);
      Sel(false);
    }

    /** The ending block of `joy_scan`: SEL high, then COM and CLK high. */
    method Release()
      modifies this`portb, this`trace
      ensures Wires() == Line(Released(old(portb)), old(dataIn), old(ackIn))
      ensures trace == old(trace) + ReleaseEvents(old(portb))
    {
      Sel(true);
      Com(true);
      Clk(true);
    }

    /** The transaction part of `joy_scan`: SEL low around the nine exchanges of Command; the
        frame is their results in order. */
    method Transact() returns (data: seq<int>)
      modifies this`portb, this`dataIn, this`ackIn, this`trace
      ensures var t := Transaction(old(Wires()));
              data == t.values && Wires() == t.final && trace == old(trace) + t.events
    {
      ghost var s0, t0 := Wires(), trace;
      Prepare();
      ghost var s1, t1 := Wires(), trace;
      data := ScanBytes();
      ghost var s2, t2 := Wires(), trace;
      Release();
      Transacted(s0, s1, s2, Wires(), data, t0, t1, t2, trace);
    }

    /** `joy_scan`: the transaction, then the decoding into `psx`.  No result is checked: a -1
        is decoded like any byte. */
    method Scan()
      modifies this`portb, this`dataIn, this`ackIn, this`trace, this`psx
      ensures Scanned(old(Wires()), old(psx), old(trace), Wires(), psx, trace)
    {
      var data := Transact();
      psx := Decode(psx, data);
    }
  }

  /** One `joy_scan` from wire state s, record p and trace t: the wires, the trace and the record
      become s', t' and p'.  The wires and the trace follow the transaction, and the record is its
      frame decoded over p. */
  predicate Scanned(s: Line, p: Psx, t: seq<Event>, s': Line, p': Psx, t': seq<Event>)
  {
    var r := Transaction(s);
    s' == r.final && t' == t + r.events && p' == Decode(p, r.values)
  }

  /** Four events appended one at a time. */
  lemma FourEvents(before: seq<Event>, a: Event, b: Event, c: Event, e: Event)
    ensures before + [a] + [b] + [c] + [e] == before + [a, b, c, e]
  {
  }
}
