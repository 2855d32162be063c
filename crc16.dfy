/**
 * The CSI-2 payload checksum (section 9.6 of MIPI CSI-2 v1.01): a 16-bit CRC with
 * generator polynomial x^16 + x^12 + x^5 + 1, computed bit-serially with the
 * least significant bit of every 16-bit payload word first and seeded with 0xFFFF.
 * The formatter's `crc_gen` submodule is one application of `Step` per payload word:
 * `crc_o = Step(crc_i, data_i)`.
 */
module Crc16 {

  /** Value the running checksum is re-initialised to before every long-packet payload. */
  const Seed: bv16 := 0xFFFF

  /** x^16 + x^12 + x^5 + 1 in bit-reversed (least significant bit first) form. */
  const Polynomial: bv16 := 0x8408

  /** Shifts one data bit (0 or 1 in the low bit of `bit`) into the register. */
  function BitStep(crc: bv16, bit: bv16): bv16
  {
    if (crc ^ bit) & 1 == 1 then (crc >> 1) ^ Polynomial else crc >> 1
  }

  /**
   * One payload word: the `crc_o` output of the checksum generator, i.e. the sixteen
   * bits of `w`, lowest first, shifted through `BitStep` as one combinational chain.
   */
  function Step(crc: bv16, w: bv16): bv16
  {
    var c0 := BitStep(crc, w & 1);
    var c1 := BitStep(c0, (w >> 1) & 1);
    var c2 := BitStep(c1, (w >> 2) & 1);
    var c3 := BitStep(c2, (w >> 3) & 1);
    var c4 := BitStep(c3, (w >> 4) & 1);
    var c5 := BitStep(c4, (w >> 5) & 1);
    var c6 := BitStep(c5, (w >> 6) & 1);
    var c7 := BitStep(c6, (w >> 7) & 1);
    var c8 := BitStep(c7, (w >> 8) & 1);
    var c9 := BitStep(c8, (w >> 9) & 1);
    var c10 := BitStep(c9, (w >> 10) & 1);
    var c11 := BitStep(c10, (w >> 11) & 1);
    var c12 := BitStep(c11, (w >> 12) & 1);
    var c13 := BitStep(c12, (w >> 13) & 1);
    var c14 := BitStep(c13, (w >> 14) & 1);
    var c15 := BitStep(c14, (w >> 15) & 1);
    c15
  }

  /** The running checksum after the payload words `ws`, in transmission order. */
  function Words(crc: bv16, ws: seq<bv16>): bv16
    decreases |ws|
  {
    if ws == [] then crc else Words(Step(crc, ws[0]), ws[1..])
  }

  /** The checksum of a whole payload, as sent in a long packet's footer. */
  function Checksum(ws: seq<bv16>): bv16
  {
    Words(Seed, ws)
  }

  /** Processing a payload in two pieces gives the same checksum as processing it at once. */
  lemma {:induction false} WordsAppend(crc: bv16, a: seq<bv16>, b: seq<bv16>)
    ensures Words(crc, a + b) == Words(Words(crc, a), b)
    decreases |a|
  {
    if a == [] {
      assert a + b == b;
    } else {
      assert (a + b)[1..] == a[1..] + b;
      WordsAppend(Step(crc, a[0]), a[1..], b);
    }
  }

  /** Adding one word at the end is one more `Step`. */
  lemma WordsSnoc(crc: bv16, ws: seq<bv16>, w: bv16)
    ensures Words(crc, ws + [w]) == Step(Words(crc, ws), w)
  {
    WordsAppend(crc, ws, [w]);
  }

  /** The first twelve words of the reference line of the test bench. */
  const ReferenceLineStart: seq<bv16> :=
    [0x5380, 0x5376, 0x5380, 0x5376, 0x5380, 0x5376, 0x5380, 0x5376, 0x5580, 0x5576, 0x5580, 0x5576]

  /** The golden checksum of the test bench for those twelve words. */
  lemma ReferenceLineStartChecksum()
    ensures Checksum(ReferenceLineStart) == 0x730b
  {
  }
}
