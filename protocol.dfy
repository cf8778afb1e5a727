/** What the byte exchange `joy_send_byte` and the frame transaction of `joy_scan`
    do on the wires, as functions of the wire state before them.  The methods of
    class `Controller.Joystick` are proved to follow these functions step by step;
    the lemmas here state what the functions mean for the protocol.
 */
module Protocol {
  import opened Bits
  import opened Pins

  /** The wire state between steps: the PORTB latch and the readings the peer has yet to give. */
  datatype Line = Line(port: bv8, dataIn: seq<bool>, ackIn: seq<bool>)

  /** Outcome of one or more exchanges: the values returned, the wire state after, the events seen. */
  datatype Run = Run(values: seq<int>, final: Line, events: seq<Event>)

  // ---------------------------------------------------------------------------
  // One bit of the shift loop (main.c:131-141).

  /** PORTB with COM driven to bit i of byte and then CLK pulled low. */
  function ClockLow(p: bv8, byte: uint8, i: nat): bv8
  {
    Drive(Drive(p, COM, BitSet(byte as int, i)), CLK, false)
  }

  /** PORTB after iteration i of the shift loop: the CLK pulse is complete. */
  function AfterBit(p: bv8, byte: uint8, i: nat): bv8
  {
    Drive(ClockLow(p, byte, i), CLK, true)
  }

  /** The events of iteration i, entered with PORTB = p: write COM, drop CLK, sample DATA, raise CLK. */
  function BitEvents(p: bv8, byte: uint8, i: nat, sample: bool): seq<Event>
  {
    [Wrote(Drive(p, COM, BitSet(byte as int, i))), Wrote(ClockLow(p, byte, i)),
     SampledData(sample), Wrote(AfterBit(p, byte, i))]
  }

  /** PORTB after the first n iterations of the shift loop, started from p. */
  function PortAfterBits(p: bv8, byte: uint8, n: nat): bv8
  {
    if n == 0 then p else AfterBit(PortAfterBits(p, byte, n - 1), byte, n - 1)
  }

  /** The events of the first n iterations of the shift loop, given the DATA samples. */
  function ShiftEvents(p: bv8, byte: uint8, samples: seq<bool>, n: nat): (ev: seq<Event>)
    requires n <= |samples|
    ensures |ev| == 4 * n
  {
    if n == 0 then []
    else ShiftEvents(p, byte, samples, n - 1) + BitEvents(PortAfterBits(p, byte, n - 1), byte, n - 1, samples[n - 1])
  }

  /** The eight DATA samples of one exchange. */
  function Samples(dataIn: seq<bool>): seq<bool>
  {
    seq(8, k => Reading(dataIn, k))
  }

  // ---------------------------------------------------------------------------
  // The acknowledgement poll (main.c:143-150): `for (i = 0; i <= 50 && joy_ack(); i++)`.

  /** The value of i when the poll loop stops, if it has reached i without stopping. */
  function AckExitFrom(ackIn: seq<bool>, i: nat): nat
    decreases 51 - i
  {
    if i > 50 || !Reading(ackIn, i) then i else AckExitFrom(ackIn, i + 1)
  }

  /** The value of i when the poll loop stops. */
  function AckExit(ackIn: seq<bool>): nat
  {
    AckExitFrom(ackIn, 0)
  }

  /** How many times the loop reads ACK: the condition `i <= 50` short-circuits the read at i = 51. */
  function AckReads(ackIn: seq<bool>): nat
  {
    if AckExit(ackIn) <= 50 then AckExit(ackIn) + 1 else 51
  }

  /** The first n samples of ACK. */
  function AckSamples(ackIn: seq<bool>, n: nat): (ev: seq<Event>)
    ensures |ev| == n
  {
    seq(n, j => SampledAck(Reading(ackIn, j)))
  }

  /** The samples the poll loop takes. */
  function AckEvents(ackIn: seq<bool>): seq<Event>
  {
    AckSamples(ackIn, AckReads(ackIn))
  }

  /** The value `joy_send_byte` returns: -1 exactly when the poll loop stops with i == 50. */
  function ExchangeValue(dataIn: seq<bool>, ackIn: seq<bool>): (v: int)
    ensures v == -1 || 0 <= v < 256
  {
    if AckExit(ackIn) != 50 then FromBits(Samples(dataIn)) else -1
  }

  /** `joy_send_byte(byte)` started in wire state s. */
  function Exchange(s: Line, byte: uint8): Run
  {
    Run([ExchangeValue(s.dataIn, s.ackIn)],
        Line(PortAfterBits(s.port, byte, 8), Drop(s.dataIn, 8), Drop(s.ackIn, AckReads(s.ackIn))),
        ShiftEvents(s.port, byte, Samples(s.dataIn), 8) + AckEvents(s.ackIn))
  }

  // ---------------------------------------------------------------------------
  // The frame transaction (main.c:157-183).

  /** The fixed outgoing bytes: start, poll command, then seven placeholders. */
  const Command: seq<uint8> := [0x01, 0x42, 0xFF, 0xFF, 0xFF, 0xFF, 0xFF, 0xFF, 0xFF]

  /** Exchanges of cmds, one after the other, each result stored in order. */
  function Exchanges(s: Line, cmds: seq<uint8>): (r: Run)
    ensures |r.values| == |cmds|
    decreases |cmds|
  {
    if cmds == [] then Run([], s, [])
    else
      var e := Exchange(s, cmds[0]);
      var rest := Exchanges(e.final, cmds[1..]);
      Run(e.values + rest.values, rest.final, e.events + rest.events)
  }

  /** PORTB after the preparation of `joy_scan`: COM high, CLK high, SEL low. */
  function Prepared(p: bv8): bv8
  {
    Drive(Drive(Drive(p, COM, true), CLK, true), SEL, false)
  }

  /** PORTB after the ending of `joy_scan`: SEL high, COM high, CLK high. */
  function Released(p: bv8): bv8
  {
    Drive(Drive(Drive(p, SEL, true), COM, true), CLK, true)
  }

  /** The preparation leaves COM and CLK high and SEL low, and every other pin as it was. */
  lemma PreparedPins(p: bv8, q: nat)
    requires q < 8
    ensures High(Prepared(p), COM) && High(Prepared(p), CLK) && !High(Prepared(p), SEL)
    ensures q != COM && q != SEL && q != CLK ==> High(Prepared(p), q) == High(p, q)
  {
    var p1 := Drive(p, COM, true);
    var p2 := Drive(p1, CLK, true);
    DriveKeeps(p1, CLK, true, COM);
    DriveKeeps(p2, SEL, false, COM);
    DriveKeeps(p2, SEL, false, CLK);
    if q != COM && q != SEL && q != CLK {
      DriveKeeps(p, COM, true, q);
      DriveKeeps(p1, CLK, true, q);
      DriveKeeps(p2, SEL, false, q);
    }
  }

  /** The ending leaves SEL, COM and CLK high, and every other pin as it was. */
  lemma ReleasedPins(p: bv8, q: nat)
    requires q < 8
    ensures High(Released(p), SEL) && High(Released(p), COM) && High(Released(p), CLK)
    ensures q != COM && q != SEL && q != CLK ==> High(Released(p), q) == High(p, q)
  {
    var p1 := Drive(p, SEL, true);
    var p2 := Drive(p1, COM, true);
    DriveKeeps(p1, COM, true, SEL);
    DriveKeeps(p2, CLK, true, SEL);
    DriveKeeps(p2, CLK, true, COM);
    if q != COM && q != SEL && q != CLK {
      DriveKeeps(p, SEL, true, q);
      DriveKeeps(p1, COM, true, q);
      DriveKeeps(p2, CLK, true, q);
    }
  }

  /** The three writes of the preparation of `joy_scan` from PORTB p. */
  function PrepareEvents(p: bv8): seq<Event>
  {
    [Wrote(Drive(p, COM, true)), Wrote(Drive(Drive(p, COM, true), CLK, true)), Wrote(Prepared(p))]
  }

  /** The three writes of the ending of `joy_scan` from PORTB p. */
  function ReleaseEvents(p: bv8): seq<Event>
  {
    [Wrote(Drive(p, SEL, true)), Wrote(Drive(Drive(p, SEL, true), COM, true)), Wrote(Released(p))]
  }

  /** The transaction part of `joy_scan`, started in wire state s: its values are the raw frame. */
  function Transaction(s: Line): (t: Run)
    ensures |t.values| == 9
  {
    var r := Exchanges(Line(Prepared(s.port), s.dataIn, s.ackIn), Command);
    Run(r.values, Line(Released(r.final.port), r.final.dataIn, r.final.ackIn),
        PrepareEvents(s.port) + r.events + ReleaseEvents(r.final.port))
  }

  /** One exchange of byte from wire state s returned v, left the wires in s' and took the
      trace from t to t'. */
  predicate Step(s: Line, byte: uint8, v: int, s': Line, t: seq<Event>, t': seq<Event>)
  {
    var e := Exchange(s, byte);
    [v] == e.values && s' == e.final && t' == t + e.events
  }

  /** The preparing writes, the exchanges of Command and the ending writes, made one after the
      other from wire state s, are the transaction from s. */
  lemma Transacted(s: Line, s1: Line, s2: Line, s3: Line, values: seq<int>,
                   t: seq<Event>, t1: seq<Event>, t2: seq<Event>, t3: seq<Event>)
    requires s1 == Line(Prepared(s.port), s.dataIn, s.ackIn) && t1 == t + PrepareEvents(s.port)
    requires var r := Exchanges(s1, Command);
             values == r.values && s2 == r.final && t2 == t1 + r.events
    requires s3 == Line(Released(s2.port), s2.dataIn, s2.ackIn) && t3 == t2 + ReleaseEvents(s2.port)
    ensures var tr := Transaction(s);
            values == tr.values && s3 == tr.final && t3 == t + tr.events
  {
    Regrouped(t, PrepareEvents(s.port), Exchanges(s1, Command).events, ReleaseEvents(s2.port));
  }

  /** Appending three pieces one at a time is appending their concatenation. */
  lemma Regrouped(before: seq<Event>, a: seq<Event>, b: seq<Event>, c: seq<Event>)
    ensures before + a + b + c == before + (a + b + c)
  {
  }

  /** An exchange of the first byte followed by the exchanges of the rest is the run of all. */
  lemma ConsStep(s: Line, c: uint8, cs: seq<uint8>, v: int, s': Line, t: seq<Event>, t': seq<Event>,
                 vs: seq<int>, sn: Line, tn: seq<Event>)
    requires Step(s, c, v, s', t, t')
    requires var rest := Exchanges(s', cs);
             rest.values == vs && rest.final == sn && tn == t' + rest.events
    ensures var r := Exchanges(s, [c] + cs);
            r.values == [v] + vs && r.final == sn && tn == t + r.events
  {
    var e, rest := Exchange(s, c), Exchanges(s', cs);
    assert ([c] + cs)[0] == c && ([c] + cs)[1..] == cs;
    assert Exchanges(s, [c] + cs) == Run(e.values + rest.values, rest.final, e.events + rest.events);
    JoinSteps(e, rest, [v] + vs, t, t', tn);
  }

  /** The bookkeeping of one step followed by the rest, over any two runs. */
  lemma JoinSteps(e: Run, rest: Run, values: seq<int>, t0: seq<Event>, t1: seq<Event>, tn: seq<Event>)
    requires |values| >= 1 && e.values == [values[0]] && rest.values == values[1..]
    requires t1 == t0 + e.events && tn == t1 + rest.events
    ensures e.values + rest.values == values && tn == t0 + (e.events + rest.events)
  {
  }

  /** Nine exchanges of the command bytes, made one after the other, are the run of Command. */
  lemma NineSteps(s0: Line, s1: Line, s2: Line, s3: Line, s4: Line, s5: Line, s6: Line, s7: Line, s8: Line, s9: Line,
                  v0: int, v1: int, v2: int, v3: int, v4: int, v5: int, v6: int, v7: int, v8: int,
                  t0: seq<Event>, t1: seq<Event>, t2: seq<Event>, t3: seq<Event>, t4: seq<Event>,
                  t5: seq<Event>, t6: seq<Event>, t7: seq<Event>, t8: seq<Event>, t9: seq<Event>)
    requires Step(s0, 0x01, v0, s1, t0, t1)
    requires Step(s1, 0x42, v1, s2, t1, t2)
    requires Step(s2, 0xFF, v2, s3, t2, t3)
    requires Step(s3, 0xFF, v3, s4, t3, t4)
    requires Step(s4, 0xFF, v4, s5, t4, t5)
    requires Step(s5, 0xFF, v5, s6, t5, t6)
    requires Step(s6, 0xFF, v6, s7, t6, t7)
    requires Step(s7, 0xFF, v7, s8, t7, t8)
    requires Step(s8, 0xFF, v8, s9, t8, t9)
    ensures var r := Exchanges(s0, Command);
            r.values == [v0, v1, v2, v3, v4, v5, v6, v7, v8] && r.final == s9 && t9 == t0 + r.events
  {
    assert Exchanges(s9, []) == Run([], s9, []);
    var c8: seq<uint8>, w8: seq<int> := [0xFF] + [], [v8] + [];
    ConsStep(s8, 0xFF, [], v8, s9, t8, t9, [], s9, t9);
    var c7: seq<uint8>, w7: seq<int> := [0xFF] + c8, [v7] + w8;
    ConsStep(s7, 0xFF, c8, v7, s8, t7, t8, w8, s9, t9);
    var c6: seq<uint8>, w6: seq<int> := [0xFF] + c7, [v6] + w7;
    ConsStep(s6, 0xFF, c7, v6, s7, t6, t7, w7, s9, t9);
    var c5: seq<uint8>, w5: seq<int> := [0xFF] + c6, [v5] + w6;
    ConsStep(s5, 0xFF, c6, v5, s6, t5, t6, w6, s9, t9);
    var c4: seq<uint8>, w4: seq<int> := [0xFF] + c5, [v4] + w5;
    ConsStep(s4, 0xFF, c5, v4, s5, t4, t5, w5, s9, t9);
    var c3: seq<uint8>, w3: seq<int> := [0xFF] + c4, [v3] + w4;
    ConsStep(s3, 0xFF, c4, v3, s4, t3, t4, w4, s9, t9);
    var c2: seq<uint8>, w2: seq<int> := [0xFF] + c3, [v2] + w3;
    ConsStep(s2, 0xFF, c3, v2, s3, t2, t3, w3, s9, t9);
    var c1: seq<uint8>, w1: seq<int> := [0x42] + c2, [v1] + w2;
    ConsStep(s1, 0x42, c2, v1, s2, t1, t2, w2, s9, t9);
    var c0: seq<uint8>, w0: seq<int> := [0x01] + c1, [v0] + w1;
    ConsStep(s0, 0x01, c1, v0, s1, t0, t1, w1, s9, t9);
    CommandSpelled();
    NineValues(v0, v1, v2, v3, v4, v5, v6, v7, v8);
  }

  /** Command, one byte at a time. */
  lemma CommandSpelled()
    ensures [0x01] + ([0x42] + ([0xFF] + ([0xFF] + ([0xFF] + ([0xFF] + ([0xFF] + ([0xFF] + ([0xFF] + [])))))))) == Command
  {
  }

  /** Nine values, one at a time. */
  lemma NineValues(v0: int, v1: int, v2: int, v3: int, v4: int, v5: int, v6: int, v7: int, v8: int)
    ensures [v0] + ([v1] + ([v2] + ([v3] + ([v4] + ([v5] + ([v6] + ([v7] + ([v8] + [])))))))) == [v0, v1, v2, v3, v4, v5, v6, v7, v8]
  {
  }

  /** Taking one more reading after n. */
  lemma DropStep(s: seq<bool>, n: nat)
    ensures Drop(Drop(s, n), 1) == Drop(s, n + 1)
  {
    if n < |s| {
      assert s[n..][1..] == s[n + 1..];
    }
  }

  /** One more iteration of the shift loop appends its four events. */
  lemma ShiftEventsStep(p: bv8, byte: uint8, samples: seq<bool>, i: nat, before: seq<Event>)
    requires i < |samples|
    ensures before + ShiftEvents(p, byte, samples, i + 1)
            == (before + ShiftEvents(p, byte, samples, i)) + BitEvents(PortAfterBits(p, byte, i), byte, i, samples[i])
  {
  }

  /** One more sample of the poll loop appends one event. */
  lemma AckSamplesStep(ackIn: seq<bool>, n: nat, before: seq<Event>)
    ensures before + AckSamples(ackIn, n + 1) == (before + AckSamples(ackIn, n)) + [SampledAck(Reading(ackIn, n))]
  {
  }

  // ---------------------------------------------------------------------------
  // What the controller sees: PORTB at every falling edge of CLK.

  /** PORTB at every write that takes CLK from high to low, with prev the latch before ev. */
  function Edges(prev: bv8, ev: seq<Event>): seq<bv8>
    decreases |ev|
  {
    if ev == [] then []
    else
      var here := if ev[0].Wrote? && High(prev, CLK) && !High(ev[0].port, CLK) then [ev[0].port] else [];
      here + Edges(if ev[0].Wrote? then ev[0].port else prev, ev[1..])
  }

  /** The latch after the events ev, with prev the latch before them. */
  function LastPort(prev: bv8, ev: seq<Event>): bv8
    decreases |ev|
  {
    if ev == [] then prev else LastPort(if ev[0].Wrote? then ev[0].port else prev, ev[1..])
  }

  /** Every pin write in ev leaves bit pos at level. */
  predicate Holds(ev: seq<Event>, pos: nat, level: bool)
    requires pos < 8
  {
    forall n :: 0 <= n < |ev| && ev[n].Wrote? ==> High(ev[n].port, pos) == level
  }

  // ---------------------------------------------------------------------------
  // Lemmas about one exchange.

  lemma {:induction false} AckExitFromBounds(ackIn: seq<bool>, i: nat)
    requires i <= 51
    ensures i <= AckExitFrom(ackIn, i) <= 51
    ensures forall j :: i <= j < AckExitFrom(ackIn, i) ==> Reading(ackIn, j)
    ensures AckExitFrom(ackIn, i) <= 50 ==> !Reading(ackIn, AckExitFrom(ackIn, i))
    decreases 51 - i
  {
    if i <= 50 && Reading(ackIn, i) {
      AckExitFromBounds(ackIn, i + 1);
    }
  }

  /** The poll reads ACK between 1 and 51 times; every reading but the last was high, and
      the last was low unless all 51 were taken. */
  lemma AckPolls(ackIn: seq<bool>)
    ensures 1 <= AckReads(ackIn) <= 51
    ensures forall j :: 0 <= j < AckReads(ackIn) - 1 ==> Reading(ackIn, j)
    ensures AckReads(ackIn) < 51 ==> !Reading(ackIn, AckReads(ackIn) - 1)
  {
    AckExitFromBounds(ackIn, 0);
  }

  /** The exchange returns -1 exactly when ACK read high 50 times and then low. */
  lemma TimeoutExactly(s: Line, byte: uint8)
    ensures Exchange(s, byte).values[0] == -1 <==>
            (forall j :: 0 <= j < 50 ==> Reading(s.ackIn, j)) && !Reading(s.ackIn, 50)
  {
    AckExitFromBounds(s.ackIn, 0);
  }

  /** A peer that never releases ACK is not reported: 51 readings, and the byte comes back. */
  lemma NeverReleasedIsNoTimeout(s: Line, byte: uint8)
    requires forall j :: 0 <= j <= 50 ==> Reading(s.ackIn, j)
    ensures AckReads(s.ackIn) == 51
    ensures Exchange(s, byte).values[0] == FromBits(Samples(s.dataIn)) != -1
  {
    AckExitFromBounds(s.ackIn, 0);
  }

  /** The evidently intended result of the exchange: -1 once ACK has been polled 50 times
      without going low, the assembled byte otherwise. */
  function IntendedExchangeValue(dataIn: seq<bool>, ackIn: seq<bool>): int
  {
    if forall j :: 0 <= j < 50 ==> Reading(ackIn, j) then -1 else FromBits(Samples(dataIn))
  }

  /** The intended result is -1 exactly when the poll loop runs past its 50th reading without
      seeing ACK low. */
  lemma IntendedTimeout(dataIn: seq<bool>, ackIn: seq<bool>)
    ensures IntendedExchangeValue(dataIn, ackIn) == -1 <==> AckExit(ackIn) >= 50
  {
    AckExitFromBounds(ackIn, 0);
    if AckExit(ackIn) < 50 {
      assert !Reading(ackIn, AckExit(ackIn));
    }
  }

  /** The code and the intended result differ exactly for a controller that holds ACK high for
      all 51 readings the loop takes: the code returns the byte, the intention is -1. */
  lemma TimeoutDiffers(dataIn: seq<bool>, ackIn: seq<bool>)
    ensures ExchangeValue(dataIn, ackIn) != IntendedExchangeValue(dataIn, ackIn) <==>
            forall j :: 0 <= j <= 50 ==> Reading(ackIn, j)
  {
    AckExitFromBounds(ackIn, 0);
    IntendedTimeout(dataIn, ackIn);
  }

  /** A value other than -1 is the byte whose bit i is DATA sample i: received LSB first. */
  lemma ReceivedLsbFirst(s: Line, byte: uint8)
    ensures var v := Exchange(s, byte).values[0];
            v != -1 ==> 0 <= v < 256 && forall i :: 0 <= i < 8 ==> BitSet(v, i) == Reading(s.dataIn, i)
  {
    var bs := Samples(s.dataIn);
    forall i | 0 <= i < 8
      ensures BitSet(FromBits(bs), i) == Reading(s.dataIn, i)
    {
      FromBitsBit(bs, i);
    }
  }

  /** Every result of a run of exchanges is -1 or a byte. */
  lemma {:induction false} ExchangesValues(s: Line, cmds: seq<uint8>)
    ensures forall k :: 0 <= k < |cmds| ==>
              Exchanges(s, cmds).values[k] == -1 || 0 <= Exchanges(s, cmds).values[k] < 256
    decreases |cmds|
  {
    if cmds != [] {
      var e := Exchange(s, cmds[0]);
      ExchangesValues(e.final, cmds[1..]);
      var rest := Exchanges(e.final, cmds[1..]).values;
      assert Exchanges(s, cmds).values == e.values + rest;
    }
  }

  /** Every value of the frame `joy_scan` collects is -1 or a byte. */
  lemma TransactionValues(s: Line)
    ensures forall k :: 0 <= k < 9 ==> Transaction(s).values[k] == -1 || 0 <= Transaction(s).values[k] < 256
  {
    ExchangesValues(Line(Prepared(s.port), s.dataIn, s.ackIn), Command);
  }

  /** One iteration of the shift loop touches only COM and CLK. */
  lemma BitKeeps(p: bv8, byte: uint8, i: nat, sample: bool, q: nat)
    requires q < 8 && q != COM && q != CLK
    ensures Holds(BitEvents(p, byte, i, sample), q, High(p, q))
    ensures High(AfterBit(p, byte, i), q) == High(p, q)
  {
    var p1 := Drive(p, COM, BitSet(byte as int, i));
    DriveKeeps(p, COM, BitSet(byte as int, i), q);
    DriveKeeps(p1, CLK, false, q);
    DriveKeeps(ClockLow(p, byte, i), CLK, true, q);
  }

  lemma {:induction false} PortAfterBitsKeeps(p: bv8, byte: uint8, n: nat, q: nat)
    requires q < 8 && q != COM && q != CLK
    ensures High(PortAfterBits(p, byte, n), q) == High(p, q)
  {
    if n > 0 {
      PortAfterBitsKeeps(p, byte, n - 1, q);
      BitKeeps(PortAfterBits(p, byte, n - 1), byte, n - 1, true, q);
    }
  }

  lemma PortAfterBitsClk(p: bv8, byte: uint8, n: nat)
    requires High(p, CLK)
    ensures High(PortAfterBits(p, byte, n), CLK)
  {
  }

  lemma {:induction false} EdgesAppend(prev: bv8, a: seq<Event>, b: seq<Event>)
    ensures Edges(prev, a + b) == Edges(prev, a) + Edges(LastPort(prev, a), b)
    ensures LastPort(prev, a + b) == LastPort(LastPort(prev, a), b)
    decreases |a|
  {
    if a != [] {
      assert (a + b)[1..] == a[1..] + b;
      EdgesAppend(if a[0].Wrote? then a[0].port else prev, a[1..], b);
    } else {
      assert a + b == b;
    }
  }

  lemma {:induction false} NoWrites(prev: bv8, ev: seq<Event>)
    requires forall n :: 0 <= n < |ev| ==> !ev[n].Wrote?
    ensures Edges(prev, ev) == [] && LastPort(prev, ev) == prev
    decreases |ev|
  {
    if ev != [] {
      NoWrites(prev, ev[1..]);
    }
  }

  lemma OneEvent(prev: bv8, e: Event)
    ensures Edges(prev, [e]) == if e.Wrote? && High(prev, CLK) && !High(e.port, CLK) then [e.port] else []
    ensures LastPort(prev, [e]) == if e.Wrote? then e.port else prev
  {
    assert [e][1..] == [];
  }

  /** Write, write, sample, write: a falling edge exactly at the second write when CLK is
      high, low, high after the three writes. */
  lemma PulseEdges(p: bv8, p1: bv8, p2: bv8, sample: bool, p3: bv8)
    requires High(p1, CLK) && !High(p2, CLK) && High(p3, CLK)
    ensures Edges(p, [Wrote(p1), Wrote(p2), SampledData(sample), Wrote(p3)]) == [p2]
    ensures LastPort(p, [Wrote(p1), Wrote(p2), SampledData(sample), Wrote(p3)]) == p3
  {
    var a, b, c, d := [Wrote(p1)], [Wrote(p2)], [SampledData(sample)], [Wrote(p3)];
    assert [Wrote(p1), Wrote(p2), SampledData(sample), Wrote(p3)] == a + (b + (c + d));
    OneEvent(p, Wrote(p1));
    OneEvent(p1, Wrote(p2));
    OneEvent(p2, SampledData(sample));
    OneEvent(p2, Wrote(p3));
    EdgesAppend(p2, c, d);
    EdgesAppend(p1, b, c + d);
    EdgesAppend(p, a, b + (c + d));
  }

  /** One iteration of the shift loop, entered with CLK high, makes exactly one falling edge. */
  lemma BitEdges(p: bv8, byte: uint8, i: nat, sample: bool)
    requires High(p, CLK)
    ensures Edges(p, BitEvents(p, byte, i, sample)) == [ClockLow(p, byte, i)]
    ensures LastPort(p, BitEvents(p, byte, i, sample)) == AfterBit(p, byte, i)
  {
    var p1 := Drive(p, COM, BitSet(byte as int, i));
    assert High(p1, CLK);
    PulseEdges(p, p1, ClockLow(p, byte, i), sample, AfterBit(p, byte, i));
  }

  lemma {:induction false} ShiftEdges(p: bv8, byte: uint8, samples: seq<bool>, n: nat)
    requires n <= |samples| && High(p, CLK)
    ensures |Edges(p, ShiftEvents(p, byte, samples, n))| == n
    ensures forall i :: 0 <= i < n ==> Edges(p, ShiftEvents(p, byte, samples, n))[i] == ClockLow(PortAfterBits(p, byte, i), byte, i)
    ensures LastPort(p, ShiftEvents(p, byte, samples, n)) == PortAfterBits(p, byte, n)
  {
    if n > 0 {
      ShiftEdges(p, byte, samples, n - 1);
      PortAfterBitsClk(p, byte, n - 1);
      ShiftEdgesStep(p, byte, samples, n, Edges(p, ShiftEvents(p, byte, samples, n - 1)));
    }
  }

  /** Iteration n - 1 of the shift loop adds one falling edge to those before it. */
  lemma ShiftEdgesStep(p: bv8, byte: uint8, samples: seq<bool>, n: nat, before: seq<bv8>)
    requires 0 < n <= |samples| && High(PortAfterBits(p, byte, n - 1), CLK)
    requires before == Edges(p, ShiftEvents(p, byte, samples, n - 1))
    requires LastPort(p, ShiftEvents(p, byte, samples, n - 1)) == PortAfterBits(p, byte, n - 1)
    ensures Edges(p, ShiftEvents(p, byte, samples, n)) == before + [ClockLow(PortAfterBits(p, byte, n - 1), byte, n - 1)]
    ensures LastPort(p, ShiftEvents(p, byte, samples, n)) == PortAfterBits(p, byte, n)
  {
    var q := PortAfterBits(p, byte, n - 1);
    BitEdges(q, byte, n - 1, samples[n - 1]);
    EdgesAppend(p, ShiftEvents(p, byte, samples, n - 1), BitEvents(q, byte, n - 1, samples[n - 1]));
  }

  /** Event 4i + j of the shift loop is event j of iteration i. */
  lemma {:induction false} ShiftAt(p: bv8, byte: uint8, samples: seq<bool>, n: nat, i: nat, j: nat)
    requires i < n <= |samples| && j < 4
    ensures ShiftEvents(p, byte, samples, n)[4 * i + j] == BitEvents(PortAfterBits(p, byte, i), byte, i, samples[i])[j]
  {
    var last := BitEvents(PortAfterBits(p, byte, n - 1), byte, n - 1, samples[n - 1]);
    assert ShiftEvents(p, byte, samples, n) == ShiftEvents(p, byte, samples, n - 1) + last;
    if i < n - 1 {
      ShiftAt(p, byte, samples, n - 1, i, j);
    }
  }

  lemma ShiftHolds(p: bv8, byte: uint8, samples: seq<bool>, n: nat, q: nat)
    requires n <= |samples| && q < 8 && q != COM && q != CLK
    ensures Holds(ShiftEvents(p, byte, samples, n), q, High(p, q))
  {
    var ev := ShiftEvents(p, byte, samples, n);
    forall m | 0 <= m < |ev| && ev[m].Wrote?
      ensures High(ev[m].port, q) == High(p, q)
    {
      var i, j := m / 4, m % 4;
      ShiftAt(p, byte, samples, n, i, j);
      PortAfterBitsKeeps(p, byte, i, q);
      BitKeeps(PortAfterBits(p, byte, i), byte, i, samples[i], q);
    }
  }

  /** One exchange entered with CLK high makes eight falling edges of CLK; at edge i COM carries
      bit i of the byte, so the byte goes out least significant bit first; CLK is high afterwards. */
  lemma ExchangeEdges(s: Line, byte: uint8)
    requires High(s.port, CLK)
    ensures var e := Exchange(s, byte);
            var edges := Edges(s.port, e.events);
            |edges| == 8 &&
            (forall i :: 0 <= i < 8 ==> !High(edges[i], CLK) && High(edges[i], COM) == BitSet(byte as int, i)) &&
            LastPort(s.port, e.events) == e.final.port && High(e.final.port, CLK)
  {
    var samples := Samples(s.dataIn);
    var shift := ShiftEvents(s.port, byte, samples, 8);
    var acks := AckEvents(s.ackIn);
    ShiftEdges(s.port, byte, samples, 8);
    NoWrites(PortAfterBits(s.port, byte, 8), acks);
    EdgesAppend(s.port, shift, acks);
    PortAfterBitsClk(s.port, byte, 8);
  }

  /** In iteration i, DATA is sampled right after the write that drops CLK with bit i on COM. */
  lemma ExchangeSamples(s: Line, byte: uint8, i: nat)
    requires i < 8
    ensures var e := Exchange(s, byte);
            e.events[4 * i + 1] == Wrote(ClockLow(PortAfterBits(s.port, byte, i), byte, i)) &&
            !High(ClockLow(PortAfterBits(s.port, byte, i), byte, i), CLK) &&
            High(ClockLow(PortAfterBits(s.port, byte, i), byte, i), COM) == BitSet(byte as int, i) &&
            e.events[4 * i + 2] == SampledData(Reading(s.dataIn, i))
  {
    ShiftLayout(s.port, byte, Samples(s.dataIn), 8);
  }

  /** An exchange touches only COM and CLK: every write leaves the other PORTB bits, SEL among
      them, as they were. */
  lemma ExchangeKeeps(s: Line, byte: uint8, q: nat)
    requires q < 8 && q != COM && q != CLK
    ensures var e := Exchange(s, byte);
            Holds(e.events, q, High(s.port, q)) && High(e.final.port, q) == High(s.port, q)
  {
    ShiftHolds(s.port, byte, Samples(s.dataIn), 8, q);
    PortAfterBitsKeeps(s.port, byte, 8, q);
  }

  lemma {:induction false} ShiftLayout(p: bv8, byte: uint8, samples: seq<bool>, n: nat)
    requires n <= |samples|
    ensures |ShiftEvents(p, byte, samples, n)| == 4 * n
    ensures forall i :: 0 <= i < n ==>
              ShiftEvents(p, byte, samples, n)[4 * i + 1] == Wrote(ClockLow(PortAfterBits(p, byte, i), byte, i)) &&
              ShiftEvents(p, byte, samples, n)[4 * i + 2] == SampledData(samples[i])
  {
    if n > 0 {
      ShiftLayout(p, byte, samples, n - 1);
    }
  }

  // ---------------------------------------------------------------------------
  // Lemmas about the transaction.

  lemma HoldsAppend(a: seq<Event>, b: seq<Event>, pos: nat, level: bool)
    requires pos < 8 && Holds(a, pos, level) && Holds(b, pos, level)
    ensures Holds(a + b, pos, level)
  {
    forall n | 0 <= n < |a + b| && (a + b)[n].Wrote?
      ensures High((a + b)[n].port, pos) == level
    {
      if n >= |a| {
        assert (a + b)[n] == b[n - |a|];
      }
    }
  }

  lemma DivModStep(n: int)
    requires n >= 8
    ensures (n - 8) / 8 == n / 8 - 1 && (n - 8) % 8 == n % 8
  {
  }

  lemma {:induction false} ExchangesEdges(s: Line, cmds: seq<uint8>)
    requires High(s.port, CLK)
    ensures var r := Exchanges(s, cmds);
            var edges := Edges(s.port, r.events);
            |edges| == 8 * |cmds| &&
            (forall n :: 0 <= n < |edges| ==> !High(edges[n], CLK) && High(edges[n], COM) == BitSet(cmds[n / 8] as int, n % 8)) &&
            LastPort(s.port, r.events) == r.final.port && High(r.final.port, CLK)
    decreases |cmds|
  {
    if cmds == [] {
      assert Edges(s.port, []) == [];
    } else {
      var e := Exchange(s, cmds[0]);
      var rest := Exchanges(e.final, cmds[1..]);
      ExchangeEdges(s, cmds[0]);
      ExchangesEdges(e.final, cmds[1..]);
      EdgesAppend(s.port, e.events, rest.events);
      assert Exchanges(s, cmds) == Run(e.values + rest.values, rest.final, e.events + rest.events);
      CommandBits(Edges(s.port, e.events), Edges(e.final.port, rest.events), cmds);
    }
  }

  /** Edges of the first byte followed by the edges of the rest carry the bits of all bytes. */
  lemma CommandBits(first: seq<bv8>, later: seq<bv8>, cmds: seq<uint8>)
    requires cmds != [] && |first| == 8 && |later| == 8 * (|cmds| - 1)
    requires forall i :: 0 <= i < 8 ==> !High(first[i], CLK) && High(first[i], COM) == BitSet(cmds[0] as int, i)
    requires forall n :: 0 <= n < |later| ==> !High(later[n], CLK) && High(later[n], COM) == BitSet(cmds[1..][n / 8] as int, n % 8)
    ensures forall n :: 0 <= n < |first + later| ==>
              !High((first + later)[n], CLK) && High((first + later)[n], COM) == BitSet(cmds[n / 8] as int, n % 8)
  {
    forall n | 0 <= n < |first + later|
      ensures !High((first + later)[n], CLK) && High((first + later)[n], COM) == BitSet(cmds[n / 8] as int, n % 8)
    {
      if n >= 8 {
        assert (first + later)[n] == later[n - 8];
        DivModStep(n);
      } else {
        assert (first + later)[n] == first[n] && n / 8 == 0 && n % 8 == n;
      }
    }
  }

  lemma {:induction false} ExchangesKeep(s: Line, cmds: seq<uint8>, q: nat)
    requires q < 8 && q != COM && q != CLK
    ensures var r := Exchanges(s, cmds);
            Holds(r.events, q, High(s.port, q)) && High(r.final.port, q) == High(s.port, q)
    decreases |cmds|
  {
    if cmds != [] {
      var e := Exchange(s, cmds[0]);
      ExchangeKeeps(s, cmds[0], q);
      ExchangesKeep(e.final, cmds[1..], q);
      HoldsAppend(e.events, Exchanges(e.final, cmds[1..]).events, q, High(s.port, q));
    }
  }

  /** Three writes that leave CLK high and never take it from high to low. */
  lemma ThreeWrites(prev: bv8, w1: bv8, w2: bv8, w3: bv8)
    requires High(w1, CLK) || !High(prev, CLK)
    requires High(w2, CLK) && High(w3, CLK)
    ensures Edges(prev, [Wrote(w1), Wrote(w2), Wrote(w3)]) == []
    ensures LastPort(prev, [Wrote(w1), Wrote(w2), Wrote(w3)]) == w3
  {
    var a, b, c := [Wrote(w1)], [Wrote(w2)], [Wrote(w3)];
    assert [Wrote(w1), Wrote(w2), Wrote(w3)] == a + (b + c);
    OneEvent(prev, Wrote(w1));
    OneEvent(w1, Wrote(w2));
    OneEvent(w2, Wrote(w3));
    EdgesAppend(w1, b, c);
    EdgesAppend(prev, a, b + c);
  }

  /** Three writes before and after ev that keep CLK high add no falling edge. */
  lemma Bracketed(prev: bv8, p1: bv8, p2: bv8, p3: bv8, ev: seq<Event>, q1: bv8, q2: bv8, q3: bv8)
    requires High(p1, CLK) || !High(prev, CLK)
    requires High(p2, CLK) && High(p3, CLK) && High(q1, CLK) && High(q2, CLK) && High(q3, CLK)
    ensures Edges(prev, [Wrote(p1), Wrote(p2), Wrote(p3)] + ev + [Wrote(q1), Wrote(q2), Wrote(q3)]) == Edges(p3, ev)
  {
    var prep, fin := [Wrote(p1), Wrote(p2), Wrote(p3)], [Wrote(q1), Wrote(q2), Wrote(q3)];
    ThreeWrites(prev, p1, p2, p3);
    ThreeWrites(LastPort(p3, ev), q1, q2, q3);
    EdgesAppend(prev, prep, ev);
    EdgesAppend(prev, prep + ev, fin);
    EdgesAppend(p3, ev, fin);
    assert Edges(prev, prep + ev + fin) == [] + Edges(p3, ev) + [];
  }

  /** The preparation and ending writes of the transaction make no falling edge of CLK. */
  lemma TransactionEdges(s: Line)
    ensures var r := Exchanges(Line(Prepared(s.port), s.dataIn, s.ackIn), Command);
            Edges(s.port, Transaction(s).events) == Edges(Prepared(s.port), r.events)
  {
    var p1 := Drive(s.port, COM, true);
    var p2 := Drive(p1, CLK, true);
    var p3 := Prepared(s.port);
    var r := Exchanges(Line(p3, s.dataIn, s.ackIn), Command);
    var q1 := Drive(r.final.port, SEL, true);
    var q2 := Drive(q1, COM, true);
    ExchangesEdges(Line(p3, s.dataIn, s.ackIn), Command);
    Bracketed(s.port, p1, p2, p3, r.events, q1, q2, Released(r.final.port));
  }

  /** Every falling edge of a run of exchanges has SEL as it was before the run. */
  lemma ExchangesSel(s: Line, cmds: seq<uint8>)
    ensures var edges := Edges(s.port, Exchanges(s, cmds).events);
            forall n :: 0 <= n < |edges| ==> High(edges[n], SEL) == High(s.port, SEL)
  {
    var r := Exchanges(s, cmds);
    ExchangesKeep(s, cmds, SEL);
    forall n | 0 <= n < |Edges(s.port, r.events)|
      ensures High(Edges(s.port, r.events)[n], SEL) == High(s.port, SEL)
    {
      EdgesAreWrites(s.port, r.events, n);
    }
  }

  /** The controller sees the fixed command: 72 falling edges of CLK, all with SEL low, and at
      edge 8k+i COM carries bit i of command byte k. */
  lemma TransactionSendsCommand(s: Line)
    ensures var edges := Edges(s.port, Transaction(s).events);
            |edges| == 72 &&
            forall n :: 0 <= n < 72 ==>
              !High(edges[n], CLK) && !High(edges[n], SEL) && High(edges[n], COM) == BitSet(Command[n / 8] as int, n % 8)
  {
    var s3 := Line(Prepared(s.port), s.dataIn, s.ackIn);
    TransactionEdges(s);
    ExchangesEdges(s3, Command);
    ExchangesSel(s3, Command);
  }

  /** Every falling edge is one of the writes. */
  lemma {:induction false} EdgesAreWrites(prev: bv8, ev: seq<Event>, n: nat)
    requires n < |Edges(prev, ev)|
    ensures exists m :: 0 <= m < |ev| && ev[m] == Wrote(Edges(prev, ev)[n])
    decreases |ev|
  {
    var here := if ev[0].Wrote? && High(prev, CLK) && !High(ev[0].port, CLK) then [ev[0].port] else [];
    var next := if ev[0].Wrote? then ev[0].port else prev;
    if n < |here| {
      assert ev[0] == Wrote(Edges(prev, ev)[n]);
    } else {
      EdgesAreWrites(next, ev[1..], n - |here|);
      var m :| 0 <= m < |ev[1..]| && ev[1..][m] == Wrote(Edges(next, ev[1..])[n - |here|]);
      assert ev[m + 1] == Wrote(Edges(prev, ev)[n]);
    }
  }

  /** Framing of the transaction: before the first exchange COM and CLK are high and SEL low;
      SEL stays low in every write of the nine exchanges; afterwards SEL, COM and CLK are high
      and every other PORTB bit is as it was. */
  lemma TransactionFraming(s: Line)
    ensures var t := Transaction(s);
            var ev := t.events;
            |ev| >= 6 &&
            ev[2] == Wrote(Prepared(s.port)) &&
            High(Prepared(s.port), COM) && High(Prepared(s.port), CLK) && !High(Prepared(s.port), SEL) &&
            Holds(ev[3..|ev| - 3], SEL, false) &&
            ev[|ev| - 1] == Wrote(t.final.port) &&
            High(t.final.port, SEL) && High(t.final.port, COM) && High(t.final.port, CLK) &&
            (forall q :: 0 <= q < 8 && q != COM && q != SEL && q != CLK ==> High(t.final.port, q) == High(s.port, q))
  {
    var p3 := Prepared(s.port);
    var r := Exchanges(Line(p3, s.dataIn, s.ackIn), Command);
    var ev := Transaction(s).events;
    assert ev[3..|ev| - 3] == r.events;
    ExchangesKeep(Line(p3, s.dataIn, s.ackIn), Command, SEL);
    PreparedPins(s.port, SEL);
    ReleasedPins(r.final.port, SEL);
    forall q | 0 <= q < 8 && q != COM && q != SEL && q != CLK
      ensures High(Released(r.final.port), q) == High(s.port, q)
    {
      ExchangesKeep(Line(p3, s.dataIn, s.ackIn), Command, q);
      PreparedPins(s.port, q);
      ReleasedPins(r.final.port, q);
    }
  }

  /** Both inputs floating: the byte read is 0xFF and the poll runs all 51 readings.  A used-up
      peer reads 1 whatever PORTB holds: the pull-ups that make this so are set by `main`
      (main.c:220-221, the constructor of `Controller.Joystick`) and no exchange clears them
      (`ExchangeKeeps`, `TransactionFraming`). */
  lemma Floating()
    ensures ExchangeValue([], []) == 255 && AckReads([]) == 51
  {
    AckExitFromBounds([], 0);
    assert Samples([]) == BitsOf(255, 8);
    FromBitsOfBits(255, 8);
  }

  lemma ExchangeDisconnected(s: Line, byte: uint8)
    requires s.dataIn == [] && s.ackIn == []
    ensures var e := Exchange(s, byte);
            e.values == [255] && e.final.dataIn == [] && e.final.ackIn == []
  {
    Floating();
  }

  lemma {:induction false} ExchangesDisconnected(s: Line, cmds: seq<uint8>)
    requires s.dataIn == [] && s.ackIn == []
    ensures var r := Exchanges(s, cmds);
            r.final.dataIn == [] && r.final.ackIn == [] && forall k :: 0 <= k < |r.values| ==> r.values[k] == 255
    decreases |cmds|
  {
    if cmds != [] {
      var e := Exchange(s, cmds[0]);
      ExchangeDisconnected(s, cmds[0]);
      ExchangesDisconnected(e.final, cmds[1..]);
      AllFloating(e.values, Exchanges(e.final, cmds[1..]).values);
    }
  }

  lemma AllFloating(a: seq<int>, b: seq<int>)
    requires forall k :: 0 <= k < |a| ==> a[k] == 255
    requires forall k :: 0 <= k < |b| ==> b[k] == 255
    ensures forall k :: 0 <= k < |a + b| ==> (a + b)[k] == 255
  {
  }

  /** With no controller attached both inputs float high: every exchange returns 0xFF and none
      reports a timeout.  This holds for any p because the pull-ups are part of the peer model
      (see `Floating`); in reachable states p has them set. */
  lemma Disconnected(p: bv8)
    ensures forall k :: 0 <= k < 9 ==> Transaction(Line(p, [], [])).values[k] == 0xFF
  {
    ExchangesDisconnected(Line(Prepared(p), [], []), Command);
  }
}
