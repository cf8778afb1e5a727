/** The decoding half of `joy_scan` (main.c:185-213): the nine raw bytes of a frame become
    the fields of the global `struct _psx` record.

    Bytes 3 and 4 are active low: a cleared bit means the control is pressed.  Byte 1 (the
    controller's mode) and the four stick bytes are copied as they are.  The frame holds C
    `int` values, so an exchange that reported -1 is decoded like any other value.
 */
module Decoder {
  import opened Bits

  /** The global `struct _psx`. Every field is a `uint8_t`; a flag holds 1 when its control is pressed. */
  datatype Psx = Psx(ver: uint8, data: uint8,
                     up: uint8, lf: uint8, dn: uint8, rt: uint8,
                     start: uint8, select: uint8,
                     triangle: uint8, square: uint8, cross: uint8, circle: uint8,
                     l1: uint8, l2: uint8, r1: uint8, r2: uint8,
                     lj: uint8, rj: uint8,
                     ljx: uint8, ljy: uint8, rjx: uint8, rjy: uint8)

  /** The record before the first scan: a global in static storage starts zeroed. */
  const Zero: Psx := Psx(0, 0, 0, 0, 0, 0, 0, 0, 0, 0, 0, 0, 0, 0, 0, 0, 0, 0, 0, 0, 0, 0)

  /** `(1 << k) & d ? 0 : 1` */
  function Flag(d: int, k: nat): (f: uint8)
    ensures f <= 1 && (f == 1 <==> !BitSet(d, k))
  {
    if BitSet(d, k) then 0 else 1
  }

  /** The flags carried by frame byte 3, listed by bit position 0 to 7. */
  function Byte3Flags(p: Psx): seq<uint8>
  {
    [p.select, p.lj, p.rj, p.start, p.up, p.rt, p.dn, p.lf]
  }

  /** The flags carried by frame byte 4, listed by bit position 0 to 7. */
  function Byte4Flags(p: Psx): seq<uint8>
  {
    [p.l2, p.r2, p.l1, p.r1, p.triangle, p.circle, p.cross, p.square]
  }

  /** Every flag of p is 0 or 1. */
  predicate FlagsAreBits(p: Psx)
  {
    forall k :: 0 <= k < 8 ==> Byte3Flags(p)[k] <= 1 && Byte4Flags(p)[k] <= 1
  }

  /** The assignments of main.c:186-213 on the record prev: every field but `data` is overwritten. */
  function Decode(prev: Psx, frame: seq<int>): Psx
    requires |frame| == 9
  {
    prev.(ver := Truncate8(frame[1]),
          up := Flag(frame[3], 4), lf := Flag(frame[3], 7), dn := Flag(frame[3], 6), rt := Flag(frame[3], 5),
          start := Flag(frame[3], 3), select := Flag(frame[3], 0),
          triangle := Flag(frame[4], 4), square := Flag(frame[4], 7), cross := Flag(frame[4], 6), circle := Flag(frame[4], 5),
          l1 := Flag(frame[4], 2), l2 := Flag(frame[4], 0), r1 := Flag(frame[4], 3), r2 := Flag(frame[4], 1),
          lj := Flag(frame[3], 1), rj := Flag(frame[3], 2),
          ljx := Truncate8(frame[7]), ljy := Truncate8(frame[8]), rjx := Truncate8(frame[5]), rjy := Truncate8(frame[6]))
  }

  /** A payload byte as the controller sends it: bit k set exactly when flag k is 0 (released). */
  function ActiveLow(flags: seq<uint8>): uint8
    requires |flags| == 8
  {
    FromBits(seq(8, k requires 0 <= k < 8 => flags[k] == 0)) as uint8
  }

  /** The frame a controller in state p answers with; bytes 0 and 2 are the usual 0xFF and 0x5A. */
  function Encode(p: Psx): seq<int>
  {
    [0xFF, p.ver as int, 0x5A, ActiveLow(Byte3Flags(p)) as int, ActiveLow(Byte4Flags(p)) as int,
     p.rjx as int, p.rjy as int, p.ljx as int, p.ljy as int]
  }

  /** The flags of byte 3 of a decoded record, by bit position. */
  lemma Byte3Decoded(prev: Psx, frame: seq<int>)
    requires |frame| == 9
    ensures forall k :: 0 <= k < 8 ==> Byte3Flags(Decode(prev, frame))[k] == Flag(frame[3], k)
  {
    var d := Decode(prev, frame);
    assert Byte3Flags(d) == [Flag(frame[3], 0), Flag(frame[3], 1), Flag(frame[3], 2), Flag(frame[3], 3),
                             Flag(frame[3], 4), Flag(frame[3], 5), Flag(frame[3], 6), Flag(frame[3], 7)];
  }

  /** The flags of byte 4 of a decoded record, by bit position. */
  lemma Byte4Decoded(prev: Psx, frame: seq<int>)
    requires |frame| == 9
    ensures forall k :: 0 <= k < 8 ==> Byte4Flags(Decode(prev, frame))[k] == Flag(frame[4], k)
  {
    var d := Decode(prev, frame);
    assert Byte4Flags(d) == [Flag(frame[4], 0), Flag(frame[4], 1), Flag(frame[4], 2), Flag(frame[4], 3),
                             Flag(frame[4], 4), Flag(frame[4], 5), Flag(frame[4], 6), Flag(frame[4], 7)];
  }

  /** Each decoded flag is 1 exactly when its bit of byte 3 or byte 4 is 0, and 0 otherwise;
      `data` is left as it was. */
  lemma ActiveLowDecoding(prev: Psx, frame: seq<int>)
    requires |frame| == 9
    ensures var d := Decode(prev, frame);
            FlagsAreBits(d) && d.data == prev.data &&
            (forall k :: 0 <= k < 8 ==> (Byte3Flags(d)[k] == 1 <==> !BitSet(frame[3], k))) &&
            (forall k :: 0 <= k < 8 ==> (Byte4Flags(d)[k] == 1 <==> !BitSet(frame[4], k)))
  {
    Byte3Decoded(prev, frame);
    Byte4Decoded(prev, frame);
  }

  /** Decoding recovers every field of the controller state from the frame it sends. */
  lemma DecodeEncode(prev: Psx, p: Psx)
    requires FlagsAreBits(p)
    ensures Decode(prev, Encode(p)) == p.(data := prev.data)
  {
    var b3 := seq(8, k requires 0 <= k < 8 => Byte3Flags(p)[k] == 0);
    var b4 := seq(8, k requires 0 <= k < 8 => Byte4Flags(p)[k] == 0);
    var d := Decode(prev, Encode(p));
    Byte3Decoded(prev, Encode(p));
    Byte4Decoded(prev, Encode(p));
    forall k | 0 <= k < 8
      ensures Byte3Flags(d)[k] == Byte3Flags(p)[k] && Byte4Flags(d)[k] == Byte4Flags(p)[k]
    {
      FromBitsBit(b3, k);
      FromBitsBit(b4, k);
    }
    assert Byte3Flags(d) == Byte3Flags(p) && Byte4Flags(d) == Byte4Flags(p);
  }

  /** Decoding loses nothing of bytes 1 and 3 to 8 when they are bytes: encoding the decoded
      state gives them back. */
  lemma EncodeDecode(prev: Psx, frame: seq<int>)
    requires |frame| == 9
    requires forall k :: 0 <= k < 9 ==> 0 <= frame[k] < 256
    ensures var e := Encode(Decode(prev, frame));
            forall k :: 0 <= k < 9 && k != 0 && k != 2 ==> e[k] == frame[k]
  {
    var d := Decode(prev, frame);
    Byte3Decoded(prev, frame);
    Byte4Decoded(prev, frame);
    assert seq(8, k requires 0 <= k < 8 => Byte3Flags(d)[k] == 0) == BitsOf(frame[3], 8);
    assert seq(8, k requires 0 <= k < 8 => Byte4Flags(d)[k] == 0) == BitsOf(frame[4], 8);
    FromBitsOfBits(frame[3], 8);
    FromBitsOfBits(frame[4], 8);
  }

  /** Bytes 0 and 2 are never validated: frames that differ only there decode the same. */
  lemma MarkersIgnored(prev: Psx, f: seq<int>, g: seq<int>)
    requires |f| == 9 && |g| == 9
    requires forall k :: 0 <= k < 9 && k != 0 && k != 2 ==> f[k] == g[k]
    ensures Decode(prev, f) == Decode(prev, g)
  {
  }

  /** What the commented-out checks of byte 1 and byte 2 evidently meant: only a frame in digital
      (0x41) or analog (0x73) mode whose byte 2 is 0x5A is decoded; any other leaves the record. */
  function DecodeIfValid(prev: Psx, frame: seq<int>): Psx
    requires |frame| == 9
  {
    if (frame[1] == 0x41 || frame[1] == 0x73) && frame[2] == 0x5A then Decode(prev, frame) else prev
  }

  /** A frame with a known mode and the 0x5A marker is decoded as the code decodes it; every other
      frame leaves the record unchanged. */
  lemma DecodeIfValidSpec(prev: Psx, frame: seq<int>)
    requires |frame| == 9
    ensures (frame[1] == 0x41 || frame[1] == 0x73) && frame[2] == 0x5A ==> DecodeIfValid(prev, frame) == Decode(prev, frame)
    ensures frame[1] != 0x41 && frame[1] != 0x73 ==> DecodeIfValid(prev, frame) == prev
    ensures frame[2] != 0x5A ==> DecodeIfValid(prev, frame) == prev
  {
  }

  /** With the checks, the record only ever holds a validated mode or is the record it was: the
      row choice never sees the 0xFF of a disconnected controller or the 255 of a timeout unless
      it was there before. */
  lemma ValidatedMode(prev: Psx, frame: seq<int>)
    requires |frame| == 9
    ensures var d := DecodeIfValid(prev, frame); d.ver == 0x41 || d.ver == 0x73 || d == prev
  {
  }

  /** With no controller attached every byte reads 0xFF; the code stores 0xFF as the mode, where the
      checks would have kept the zeroed record. */
  lemma UnvalidatedMode()
    ensures Decode(Zero, [0xFF, 0xFF, 0xFF, 0xFF, 0xFF, 0xFF, 0xFF, 0xFF, 0xFF]).ver == 0xFF
    ensures DecodeIfValid(Zero, [0xFF, 0xFF, 0xFF, 0xFF, 0xFF, 0xFF, 0xFF, 0xFF, 0xFF]) == Zero
  {
  }

  /** Byte 3 and byte 4 equal to 0xFF mean nothing is pressed. */
  lemma AllReleased(prev: Psx, frame: seq<int>)
    requires |frame| == 9 && frame[3] == 0xFF && frame[4] == 0xFF
    ensures var d := Decode(prev, frame);
            forall k :: 0 <= k < 8 ==> Byte3Flags(d)[k] == 0 && Byte4Flags(d)[k] == 0
  {
    var bs := BitsOf(0xFF, 8);
    assert bs == [true, true, true, true, true, true, true, true];
  }

  /** Byte 3 equal to 0xEF (only bit 4 clear) means up and nothing else of byte 3 is pressed. */
  lemma UpOnly(prev: Psx, frame: seq<int>)
    requires |frame| == 9 && frame[3] == 0xEF
    ensures var d := Decode(prev, frame);
            d.up == 1 && d.lf == 0 && d.dn == 0 && d.rt == 0 && d.start == 0 && d.select == 0 && d.lj == 0 && d.rj == 0
  {
    var bs := BitsOf(0xEF, 8);
    assert bs == [true, true, true, true, false, true, true, true];
  }

  /** The mode byte and the four stick bytes are copied without inversion: each field is its
      frame value reduced to a `uint8_t`, which is the value itself whenever it is a byte and 255
      when it is the -1 of a timed-out exchange. */
  lemma VerbatimCopies(prev: Psx, frame: seq<int>)
    requires |frame| == 9
    ensures var d := Decode(prev, frame);
            d.ver == Truncate8(frame[1]) && d.ljx == Truncate8(frame[7]) && d.ljy == Truncate8(frame[8]) &&
            d.rjx == Truncate8(frame[5]) && d.rjy == Truncate8(frame[6])
    ensures var d := Decode(prev, frame);
            (0 <= frame[1] < 256 ==> d.ver as int == frame[1]) &&
            (0 <= frame[7] < 256 ==> d.ljx as int == frame[7]) && (0 <= frame[8] < 256 ==> d.ljy as int == frame[8]) &&
            (0 <= frame[5] < 256 ==> d.rjx as int == frame[5]) && (0 <= frame[6] < 256 ==> d.rjy as int == frame[6])
  {
  }

  /** What `joy_scan` evidently means to do with a timed-out exchange: no partial frame is decoded,
      and the previous record stays; a frame of results that all arrived decodes as usual. */
  function DecodeOrKeep(prev: Psx, frame: seq<int>): Psx
    requires |frame| == 9
  {
    if -1 in frame then prev else Decode(prev, frame)
  }

  /** A frame with a timed-out exchange anywhere leaves the record as it was. */
  lemma DecodeOrKeepTimeout(prev: Psx, frame: seq<int>, k: nat)
    requires |frame| == 9 && k < 9 && frame[k] == -1
    ensures DecodeOrKeep(prev, frame) == prev
  {
  }

  /** Any other frame is decoded as the code decodes it, so the two differ only on frames
      holding a -1. */
  lemma DecodeOrKeepAgrees(prev: Psx, frame: seq<int>)
    requires |frame| == 9
    requires forall k :: 0 <= k < 9 ==> 0 <= frame[k] < 256
    ensures DecodeOrKeep(prev, frame) == Decode(prev, frame)
  {
  }

  /** The code overwrites the record with a frame whose mode byte timed out: starting from the
      zeroed record, `ver` becomes 255, where the abort would have kept 0. */
  lemma TimeoutOverwrites()
    ensures Decode(Zero, [0xFF, -1, 0x5A, 0xFF, 0xFF, 0, 0, 0, 0]).ver == 255
    ensures DecodeOrKeep(Zero, [0xFF, -1, 0x5A, 0xFF, 0xFF, 0, 0, 0, 0]) == Zero
  {
    DecodeOrKeepTimeout(Zero, [0xFF, -1, 0x5A, 0xFF, 0xFF, 0, 0, 0, 0], 1);
  }

  /** A timed-out exchange (-1) is decoded anyway: as all bits set, so its flags read released
      and a copied byte reads 255. */
  lemma TimeoutDecoded(prev: Psx, frame: seq<int>, k: nat)
    requires |frame| == 9 && k < 9 && frame[k] == -1
    ensures var d := Decode(prev, frame);
            (k == 3 ==> forall j :: 0 <= j < 8 ==> Byte3Flags(d)[j] == 0) &&
            (k == 4 ==> forall j :: 0 <= j < 8 ==> Byte4Flags(d)[j] == 0) &&
            (k == 1 ==> d.ver == 255) &&
            (k == 5 ==> d.rjx == 255) && (k == 6 ==> d.rjy == 255) &&
            (k == 7 ==> d.ljx == 255) && (k == 8 ==> d.ljy == 255)
  {
    forall j | 0 <= j < 8
      ensures BitSet(-1, j)
    {
      MinusOneAllBits(j);
    }
  }
}
