/**
 * The words the packet formatter puts on its 16-bit output besides the payload:
 * the D-PHY sync sequence, the two header words with their error-correcting code
 * (section 9.5 of MIPI CSI-2 v1.01) and the trailer word of inverted last bits
 * (section 6.4.3 of MIPI D-PHY v1.1). A 16-bit word carries one byte per lane:
 * bits 0-7 go out on lane 0 and bits 8-15 on lane 1, least significant bit first.
 */
module PacketHeader {

  /**
   * Every signal is held in a 16-bit vector, the width of the output word; the narrower
   * signals are the values that fit their declared width.
   */
  type U2 = x: bv16 | x < 0x4
  type U6 = x: bv16 | x < 0x40
  type U8 = x: bv16 | x < 0x100

  /** `di = Cat(dt_i, vc_i)`: the data type in bits 0-5, the virtual channel in bits 6-7. */
  function DataId(dt: U6, vc: U2): (di: U8)
    ensures di & 0x3F == dt
    ensures di >> 6 == vc
  {
    dt | (vc << 6)
  }

  /** Bit `k` of the data identifier. */
  predicate DiBit(di: bv16, k: nat)
    requires k < 8
  {
    (di >> k) & 1 == 1
  }

  /** Bit `k` of the word count. */
  predicate WcBit(wc: bv16, k: nat)
    requires k < 16
  {
    (wc >> k) & 1 == 1
  }

  lemma DiBitXor(a: bv16, b: bv16, k: nat)
    requires k < 8
    ensures DiBit(a ^ b, k) == (DiBit(a, k) != DiBit(b, k))
  {
    var s := k as bv16;
    assert DiBit(a ^ b, k) == (((a ^ b) >> s) & 1 == 1);
  }

  lemma WcBitXor(a: bv16, b: bv16, k: nat)
    requires k < 16
    ensures WcBit(a ^ b, k) == (WcBit(a, k) != WcBit(b, k))
  {
    var s := k as bv16;
    assert WcBit(a ^ b, k) == (((a ^ b) >> s) & 1 == 1);
  }

  /** XOR of a list of bits. */
  function XorAll(bs: seq<bool>): bool
  {
    if bs == [] then false else bs[0] != XorAll(bs[1..])
  }

  lemma {:induction false} XorAllAppend(a: seq<bool>, b: seq<bool>)
    ensures XorAll(a + b) == (XorAll(a) != XorAll(b))
    decreases |a|
  {
    if a == [] {
      assert a + b == b;
    } else {
      assert (a + b)[1..] == a[1..] + b;
      XorAllAppend(a[1..], b);
    }
  }

  /** Bitwise XOR of two lists of bits. */
  function Pairwise(a: seq<bool>, b: seq<bool>): (r: seq<bool>)
    requires |a| == |b|
    ensures |r| == |a| && forall i :: 0 <= i < |r| ==> r[i] == (a[i] != b[i])
  {
    seq(|a|, i requires 0 <= i < |a| => a[i] != b[i])
  }

  /** The XOR of a bitwise XOR is the XOR of the two XORs. */
  lemma {:induction false} XorAllPairwise(a: seq<bool>, b: seq<bool>)
    requires |a| == |b|
    ensures XorAll(Pairwise(a, b)) == (XorAll(a) != XorAll(b))
    decreases |a|
  {
    if a != [] {
      assert Pairwise(a, b)[1..] == Pairwise(a[1..], b[1..]);
      XorAllPairwise(a[1..], b[1..]);
    }
  }

  predicate Below(ps: seq<nat>, n: nat)
  {
    forall i :: 0 <= i < |ps| ==> ps[i] < n
  }

  /** The data-identifier bits at the listed positions. */
  function DiTaps(di: bv16, ps: seq<nat>): (r: seq<bool>)
    requires Below(ps, 8)
    ensures |r| == |ps|
  {
    seq(|ps|, i requires 0 <= i < |ps| => DiBit(di, ps[i]))
  }

  /** The word-count bits at the listed positions. */
  function WcTaps(wc: bv16, ps: seq<nat>): (r: seq<bool>)
    requires Below(ps, 16)
    ensures |r| == |ps|
  {
    seq(|ps|, i requires 0 <= i < |ps| => WcBit(wc, ps[i]))
  }

  /** For each parity bit, the `di` bits the generator XORs, in the order written. */
  const EccDiTaps: seq<seq<nat>> := [[0, 1, 2, 4, 5, 7], [0, 1, 3, 4, 6], [0, 2, 3, 5, 6], [1, 2, 3, 7], [4, 5, 6, 7], []]

  /** For each parity bit, the `wc_i` bits the generator XORs after the `di` bits. */
  const EccWcTaps: seq<seq<nat>> := [
    [2, 3, 5, 8, 12, 13, 14, 15],
    [0, 2, 4, 6, 9, 12, 13, 14, 15],
    [1, 3, 4, 7, 10, 12, 13, 14],
    [0, 1, 5, 6, 7, 11, 12, 13, 15],
    [0, 1, 8, 9, 10, 11, 12, 14, 15],
    [2, 3, 4, 5, 6, 7, 8, 9, 10, 11, 13, 14, 15]]

  lemma TapsInRange(k: nat)
    requires k < 6
    ensures Below(EccDiTaps[k], 8) && Below(EccWcTaps[k], 16)
  {
  }

  /** `ecc[k]`: the XOR of the listed `di` bits followed by the listed `wc_i` bits. */
  function EccBit(di: bv16, wc: bv16, k: nat): bool
    requires k < 6
  {
    TapsInRange(k);
    XorAll(DiTaps(di, EccDiTaps[k]) + WcTaps(wc, EccWcTaps[k]))
  }

  /** Six bits side by side, bit `k` of the result from `b[k]`. */
  function Pack(b: seq<bool>): bv16
    requires |b| == 6
  {
    (if b[0] then 0x01 else 0) | (if b[1] then 0x02 else 0) | (if b[2] then 0x04 else 0)
    | (if b[3] then 0x08 else 0) | (if b[4] then 0x10 else 0) | (if b[5] then 0x20 else 0)
  }

  /** Bit `k` of a packed word is `b[k]`, and the top two bits of its byte are clear. */
  lemma PackBits(b: seq<bool>, k: nat)
    requires |b| == 6 && k < 8
    ensures DiBit(Pack(b), k) == (k < 6 && b[k])
  {
    var w := Pack(b);
    if k == 0 {
      assert DiBit(w, 0) == (w & 1 == 1);
    } else if k == 1 {
      assert DiBit(w, 1) == ((w >> 1) & 1 == 1);
    } else if k == 2 {
      assert DiBit(w, 2) == ((w >> 2) & 1 == 1);
    } else if k == 3 {
      assert DiBit(w, 3) == ((w >> 3) & 1 == 1);
    } else if k == 4 {
      assert DiBit(w, 4) == ((w >> 4) & 1 == 1);
    } else if k == 5 {
      assert DiBit(w, 5) == ((w >> 5) & 1 == 1);
    } else if k == 6 {
      assert DiBit(w, 6) == ((w >> 6) & 1 == 1);
    } else {
      assert DiBit(w, 7) == ((w >> 7) & 1 == 1);
    }
  }

  /** The `ecc` register's next value: parity bit `k` in bit `k`; bits 6 and 7 are never driven and stay 0. */
  function Ecc(di: U8, wc: bv16): bv16
  {
    Pack(seq(6, k requires 0 <= k < 6 => EccBit(di, wc, k)))
  }

  /** Bit `k` of the code is parity bit `k`; bits 6 and 7 are 0. */
  lemma EccBits(di: U8, wc: bv16, k: nat)
    requires k < 8
    ensures DiBit(Ecc(di, wc), k) == (k < 6 && EccBit(di, wc, k))
  {
    PackBits(seq(6, k requires 0 <= k < 6 => EccBit(di, wc, k)), k);
  }

  /** Every parity bit is linear: the bit for a XOR of two headers is the XOR of their bits. */
  lemma EccBitLinear(di1: bv16, wc1: bv16, di2: bv16, wc2: bv16, k: nat)
    requires k < 6
    ensures EccBit(di1 ^ di2, wc1 ^ wc2, k) == (EccBit(di1, wc1, k) != EccBit(di2, wc2, k))
  {
    TapsInRange(k);
    var dt, wt := EccDiTaps[k], EccWcTaps[k];
    forall i | 0 <= i < |dt|
      ensures DiTaps(di1 ^ di2, dt)[i] == (DiTaps(di1, dt)[i] != DiTaps(di2, dt)[i])
    {
      DiBitXor(di1, di2, dt[i]);
    }
    forall i | 0 <= i < |wt|
      ensures WcTaps(wc1 ^ wc2, wt)[i] == (WcTaps(wc1, wt)[i] != WcTaps(wc2, wt)[i])
    {
      WcBitXor(wc1, wc2, wt[i]);
    }
    assert DiTaps(di1 ^ di2, dt) == Pairwise(DiTaps(di1, dt), DiTaps(di2, dt));
    assert WcTaps(wc1 ^ wc2, wt) == Pairwise(WcTaps(wc1, wt), WcTaps(wc2, wt));
    XorAllAppend(DiTaps(di1 ^ di2, dt), WcTaps(wc1 ^ wc2, wt));
    XorAllAppend(DiTaps(di1, dt), WcTaps(wc1, wt));
    XorAllAppend(DiTaps(di2, dt), WcTaps(wc2, wt));
    XorAllPairwise(DiTaps(di1, dt), DiTaps(di2, dt));
    XorAllPairwise(WcTaps(wc1, wt), WcTaps(wc2, wt));
  }

  /**
   * The parity matrix of section 9.5 of CSI-2 v1.01, row by row: parity bit P[k] is the XOR
   * of the header bits D[j] listed in row k, where D[0..7] is the data identifier and
   * D[8..23] the word count.
   */
  const StandardRows: seq<seq<nat>> := [
    [0, 1, 2, 4, 5, 7, 10, 11, 13, 16, 20, 21, 22, 23],
    [0, 1, 3, 4, 6, 8, 10, 12, 14, 17, 20, 21, 22, 23],
    [0, 2, 3, 5, 6, 9, 11, 12, 15, 18, 20, 21, 22],
    [1, 2, 3, 7, 8, 9, 13, 14, 15, 19, 20, 21, 23],
    [4, 5, 6, 7, 8, 9, 16, 17, 18, 19, 20, 22, 23],
    [10, 11, 12, 13, 14, 15, 16, 17, 18, 19, 21, 22, 23]]

  /** Header bit D[j]. */
  predicate HeaderBit(di: bv16, wc: bv16, j: nat)
    requires j < 24
  {
    if j < 8 then DiBit(di, j) else WcBit(wc, j - 8)
  }

  /** The header bits at the listed positions. */
  function HeaderTaps(di: bv16, wc: bv16, ps: seq<nat>): (r: seq<bool>)
    requires Below(ps, 24)
    ensures |r| == |ps|
  {
    seq(|ps|, i requires 0 <= i < |ps| => HeaderBit(di, wc, ps[i]))
  }

  function Offset(ps: seq<nat>, n: nat): (r: seq<nat>)
    ensures |r| == |ps| && forall i :: 0 <= i < |ps| ==> r[i] == ps[i] + n
  {
    seq(|ps|, i requires 0 <= i < |ps| => ps[i] + n)
  }

  /** Row k of the matrix lists exactly the generator's `di` taps, then its `wc_i` taps moved up by 8. */
  lemma StandardRowsSplit(k: nat)
    requires k < 6
    ensures StandardRows[k] == EccDiTaps[k] + Offset(EccWcTaps[k], 8)
  {
    var r := EccDiTaps[k] + Offset(EccWcTaps[k], 8);
    assert |r| == |StandardRows[k]|;
    forall i | 0 <= i < |r|
      ensures r[i] == StandardRows[k][i]
    {
    }
  }

  /** Parity bit P[k] as the standard defines it. */
  function StandardParity(di: bv16, wc: bv16, k: nat): bool
    requires k < 6
  {
    assert Below(StandardRows[k], 24);
    XorAll(HeaderTaps(di, wc, StandardRows[k]))
  }

  /** Each generated parity bit is the standard's. */
  lemma EccBitIsStandard(di: bv16, wc: bv16, k: nat)
    requires k < 6
    ensures EccBit(di, wc, k) == StandardParity(di, wc, k)
  {
    TapsInRange(k);
    StandardRowsSplit(k);
    assert HeaderTaps(di, wc, StandardRows[k]) == DiTaps(di, EccDiTaps[k]) + WcTaps(wc, EccWcTaps[k]);
  }

  const DiUnits: seq<U8> := [0x01, 0x02, 0x04, 0x08, 0x10, 0x20, 0x40, 0x80]
  const WcUnits: seq<bv16> := [
    0x0001, 0x0002, 0x0004, 0x0008, 0x0010, 0x0020, 0x0040, 0x0080,
    0x0100, 0x0200, 0x0400, 0x0800, 0x1000, 0x2000, 0x4000, 0x8000]

  /** The data-identifier part of the header with only D[j] set. */
  function UnitDi(j: nat): U8
    requires j < 24
  {
    if j < 8 then DiUnits[j] else 0
  }

  /** The word-count part of the header with only D[j] set. */
  function UnitWc(j: nat): bv16
    requires j < 24
  {
    if j < 8 then 0 else WcUnits[j - 8]
  }

  lemma UnitBit(j: nat, i: nat)
    requires j < 24 && i < 24
    ensures HeaderBit(UnitDi(j), UnitWc(j), i) == (i == j)
  {
    if i < 8 {
      var s := i as bv16;
      assert HeaderBit(UnitDi(j), UnitWc(j), i) == ((UnitDi(j) >> s) & 1 == 1);
    } else {
      var s := (i - 8) as bv16;
      assert HeaderBit(UnitDi(j), UnitWc(j), i) == ((UnitWc(j) >> s) & 1 == 1);
    }
  }

  predicate Distinct(ps: seq<nat>)
  {
    forall a, b :: 0 <= a < b < |ps| ==> ps[a] != ps[b]
  }

  /** Over a list without repeats, the parity of the one-hot header at j is whether j is listed. */
  lemma {:induction false} XorAllOneHot(ps: seq<nat>, j: nat)
    requires Below(ps, 24) && Distinct(ps) && j < 24
    ensures XorAll(HeaderTaps(UnitDi(j), UnitWc(j), ps)) == (j in ps)
    decreases |ps|
  {
    if ps != [] {
      assert HeaderTaps(UnitDi(j), UnitWc(j), ps)[1..] == HeaderTaps(UnitDi(j), UnitWc(j), ps[1..]);
      XorAllOneHot(ps[1..], j);
      UnitBit(j, ps[0]);
      assert j in ps <==> j == ps[0] || j in ps[1..];
      assert ps[0] !in ps[1..];
    }
  }

  lemma RowsDistinct(k: nat)
    requires k < 6
    ensures Distinct(StandardRows[k])
  {
  }

  lemma OneHotParity(j: nat, k: nat)
    requires j < 24 && k < 6
    ensures EccBit(UnitDi(j), UnitWc(j), k) == (j in StandardRows[k])
  {
    var u, w := UnitDi(j), UnitWc(j);
    EccBitIsStandard(u, w, k);
    var row := StandardRows[k];
    RowsDistinct(k);
    assert Below(row, 24);
    XorAllOneHot(row, j);
    assert StandardParity(u, w, k) == XorAll(HeaderTaps(u, w, row));
  }

  /**
   * A single-bit error at header bit D[j] flips exactly the parity bits whose rows list j,
   * whatever the header: the syndrome a receiver computes is column j of the matrix.
   */
  lemma SingleBitErrorSyndrome(di: bv16, wc: bv16, j: nat, k: nat)
    requires j < 24 && k < 6
    ensures EccBit(di ^ UnitDi(j), wc ^ UnitWc(j), k) != EccBit(di, wc, k) <==> j in StandardRows[k]
  {
    OneHotParity(j, k);
    EccBitLinear(di, wc, UnitDi(j), UnitWc(j), k);
  }

  /**
   * First header word as generated, `Cat(dt_i, wc_i[:8])`: the data type in bits 0-5
   * and the low byte of the word count in bits 6-13, the virtual channel left out.
   */
  function HeaderWord0(dt: U6, wc: bv16): (w: bv16)
    ensures w & 0x3F == dt
    ensures (w >> 6) & 0xFF == wc & 0xFF
    ensures w >> 14 == 0
  {
    dt | ((wc & 0xFF) << 6)
  }

  /** First header word as section 9.1 of CSI-2 lays it out: data identifier on lane 0, word-count low byte on lane 1. */
  function StandardHeaderWord0(dt: U6, vc: U2, wc: bv16): (w: bv16)
    ensures w & 0xFF == DataId(dt, vc)
    ensures w >> 8 == wc & 0xFF
  {
    DataId(dt, vc) | ((wc & 0xFF) << 8)
  }

  /** The generated word is the standard one exactly when the virtual channel and the low byte of the word count are both zero. */
  lemma HeaderWord0StandardIff(dt: U6, vc: U2, wc: bv16)
    ensures HeaderWord0(dt, wc) == StandardHeaderWord0(dt, vc, wc) <==> vc == 0 && wc & 0xFF == 0
  {
    if HeaderWord0(dt, wc) == StandardHeaderWord0(dt, vc, wc) {
      assert (HeaderWord0(dt, wc) >> 14) == (StandardHeaderWord0(dt, vc, wc) >> 14);
      assert (HeaderWord0(dt, wc) >> 6) & 0xFF == (StandardHeaderWord0(dt, vc, wc) >> 6) & 0xFF;
    }
  }

  /** Second header word, `Cat(wc_i[8:], ecc)`: word-count high byte on lane 0, the code on lane 1. */
  function HeaderWord1(wc: bv16, ecc: bv16): (w: bv16)
    ensures w & 0xFF == wc >> 8
    ensures w >> 8 == ecc & 0xFF
  {
    (wc >> 8) | (ecc << 8)
  }

  /** Bit `k` of a word. */
  predicate Bit(w: bv16, k: nat)
    requires k < 16
  {
    (w >> k) & 1 == 1
  }

  /** Eight copies of a bit. */
  function Fill(b: bool): bv16
  {
    if b then 0xFF else 0
  }

  /**
   * `Cat(Replicate(~last[7], 8), Replicate(~last[15], 8))`: each lane's trailer byte
   * repeats the inverse of the last bit that lane sent.
   */
  function TrailerWord(last: bv16): bv16
  {
    Fill(!Bit(last, 7)) | (Fill(!Bit(last, 15)) << 8)
  }

  /** Every bit of the low trailer byte inverts bit 7 of the last word, every bit of the high byte bit 15. */
  lemma TrailerWordBits(last: bv16)
    ensures forall k :: 0 <= k < 8 ==> Bit(TrailerWord(last), k) == !Bit(last, 7)
    ensures forall k :: 8 <= k < 16 ==> Bit(TrailerWord(last), k) == !Bit(last, 15)
  {
  }

  /** `Replicate(byte, n)` as a number: `n` copies of an 8-bit value side by side. */
  function Replicate(byte: nat, n: nat): nat
    requires byte < 256
  {
    if n == 0 then 0 else byte + 256 * Replicate(byte, n - 1)
  }

  /** With two copies or more, the low 16 bits hold exactly two copies of the value. */
  lemma ReplicateTruncated(byte: nat, n: nat)
    requires byte < 256 && n >= 2
    ensures Replicate(byte, n) % 65536 == byte + 256 * byte
  {
    assert Replicate(byte, n) == byte + 256 * byte + 65536 * Replicate(byte, n - 2);
  }

  /** The sync byte of section 6.4.2 of D-PHY. */
  const HsInitByte: nat := 0xB8

  /** The lane count's copies of the sync byte, `Replicate(0xB8, lanes)`, before truncation. */
  function HsInitSeq(fourLanes: bool): nat
  {
    Replicate(HsInitByte, if fourLanes then 4 else 2)
  }

  /** The word `data_o` carries while the sync sequence is sent: 0xB8 on both byte lanes. */
  const SyncWord: bv16 := 0xB8B8

  /**
   * `hs_init_seq` is 16 or 32 bits wide and `data_o` 16, so the output keeps its low 16 bits:
   * the sync byte on each lane whatever the lane count.
   */
  lemma SyncWordIsTruncatedHsInitSeq(fourLanes: bool)
    ensures SyncWord as nat == HsInitSeq(fourLanes) % 65536
  {
    ReplicateTruncated(HsInitByte, if fourLanes then 4 else 2);
  }
}
