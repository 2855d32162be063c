// The colour-bar pattern generator (src/pattern_gen.py).
//
// A pixel counter runs 1..H_TOTAL and a line counter 0..V_TOTAL; frame-valid and
// line-valid are windows of V_ACTIVE lines and H_ACTIVE pixels. Within a line the active
// pixels are cut into six stripes of H_ACTIVE / 6 pixels, coloured white, yellow, cyan,
// red, blue and black, and each pixel is sent as a YUV 4:2:2 word: Y in the high byte and
// U (even pixel) or V (odd pixel) in the low byte.

module PatternGen {
  import opened Wrappers
  import Common

  /** One entry of `hv_timings`: VESA horizontal and vertical timings in pixels and lines. */
  datatype HvTimings = HvTimings(
    hActive: nat, hBackPorch: nat, hSync: nat, hFrontPorch: nat,
    vActive: nat, vBackPorch: nat, vSync: nat, vFrontPorch: nat)

  function HTotal(t: HvTimings): nat
  {
    t.hActive + t.hSync + t.hBackPorch + t.hFrontPorch
  }

  function VTotal(t: HvTimings): nat
  {
    t.vActive + t.vSync + t.vBackPorch + t.vFrontPorch
  }

  const Timings1080p60 := HvTimings(1920, 148, 44, 88, 1080, 36, 5, 4)
  const Timings1080p50 := HvTimings(1920, 148, 44, 528, 1080, 36, 5, 4)

  /** `hv_timings`, keyed by video format. */
  const HvTimingsTable: map<string, HvTimings> :=
    map["1080p60" := Timings1080p60, "1080p50" := Timings1080p50,
        "1080p30" := Timings1080p60, "1080p25" := Timings1080p50]

  /** `hv_timings[video_format]`; `None` stands for the `KeyError` of an unknown format. */
  function PatternTimings(videoFormat: string): (r: Option<HvTimings>)
    ensures r.Some? <==> videoFormat in {"1080p60", "1080p50", "1080p30", "1080p25"}
    ensures r.Some? ==> HTotal(r.value) == (if videoFormat in {"1080p60", "1080p30"} then 2200 else 2640)
    ensures r.Some? ==> VTotal(r.value) == 1125 && r.value.hActive == 1920 && r.value.vActive == 1080
  {
    if videoFormat in HvTimingsTable then Some(HvTimingsTable[videoFormat]) else None
  }

  // ---------------------------------------------------------------- colours

  /** `Y_VAL`, `U_VAL`, `V_VAL`: white, yellow, cyan, red, blue, black. */
  const YVal: seq<bv8> := [255, 219, 188, 76, 32, 0]
  const UVal: seq<bv8> := [128, 0, 154, 84, 255, 128]
  const VVal: seq<bv8> := [128, 138, 0, 255, 118, 128]
  const ColorsLen: nat := 6

  /** The colour iterator: `Y`, `U`, `V` of stripe `c`; no branch drives them past the sixth stripe. */
  function Y(c: nat): bv8
  {
    if c < ColorsLen then YVal[c] else 0
  }

  function U(c: nat): bv8
  {
    if c < ColorsLen then UVal[c] else 0
  }

  function V(c: nat): bv8
  {
    if c < ColorsLen then VVal[c] else 0
  }

  /** The width of a colour stripe, `H_ACTIVE // 6`. */
  function Segment(t: HvTimings): nat
  {
    t.hActive / ColorsLen
  }

  // ---------------------------------------------------------------- counters and windows

  /** The registers: both counters, `linecnt_d`, `fv_o`, `lv_o`, `color_cnt_r`, `color_r` and `data_o`. */
  datatype Regs = Regs(
    pixcnt: nat, linecnt: nat, linecntD: nat, fvO: bool, lvO: bool,
    colorCnt: nat, color: nat, data: bv16)

  const ResetRegs := Regs(0, 0, 0, false, false, 0, 0, 0)

  /** `pixcnt` and `linecnt` are 12-bit registers; `color_r` has the 3 bits of `max=6`. */
  const CounterModulus: nat := 4096
  const ColorModulus: nat := 8

  /** The first and one-past-last values of `pixcnt` in the line-valid window. */
  function HStart(t: HvTimings): nat
  {
    t.hSync + t.hBackPorch
  }

  function HEnd(t: HvTimings): nat
  {
    HTotal(t) - t.hFrontPorch
  }

  /** `fv`: the line counter is inside the active lines. */
  predicate Fv(t: HvTimings, linecnt: nat)
  {
    linecnt >= t.vSync + t.vBackPorch && linecnt < VTotal(t) - t.vFrontPorch
  }

  /** `lv`: `fv`, and the pixel counter is inside the active pixels. */
  predicate Lv(t: HvTimings, r: Regs)
  {
    Fv(t, r.linecnt) && r.pixcnt >= HStart(t) && r.pixcnt < HEnd(t)
  }

  function NextPixcnt(t: HvTimings, r: Regs): nat
  {
    if r.pixcnt == HTotal(t) then 1 else (r.pixcnt + 1) % CounterModulus
  }

  function NextLinecnt(t: HvTimings, r: Regs): nat
  {
    if r.linecnt == VTotal(t) then 0
    else if r.pixcnt == HTotal(t) then (r.linecnt + 1) % CounterModulus
    else r.linecnt
  }

  /** `data_o` after an edge: 0 outside line-valid, else `Cat(U, Y)` on even and `Cat(V, Y)` on odd counts. */
  function NextData(t: HvTimings, r: Regs): bv16
  {
    if !Lv(t, r) then 0
    else if r.pixcnt % 2 == 1 then Common.CatBytes(V(r.color), Y(r.color))
    else Common.CatBytes(U(r.color), Y(r.color))
  }

  /** One clock edge. */
  function Next(t: HvTimings, r: Regs): Regs
  {
    var lv := Lv(t, r);
    var wrap := r.colorCnt == Segment(t) - 1;
    Regs(NextPixcnt(t, r), NextLinecnt(t, r), r.linecnt, Fv(t, r.linecnt), lv,
         if !lv || wrap then 0 else r.colorCnt + 1,
         if !lv then 0 else if wrap then (r.color + 1) % ColorModulus else r.color,
         NextData(t, r))
  }

  /** The window lengths: `fv` holds for exactly V_ACTIVE line counts and `lv` for H_ACTIVE pixel counts. */
  lemma Windows(t: HvTimings, r: Regs)
    ensures Fv(t, r.linecnt) <==> t.vSync + t.vBackPorch <= r.linecnt < t.vSync + t.vBackPorch + t.vActive
    ensures Lv(t, r) <==> Fv(t, r.linecnt) && HStart(t) <= r.pixcnt < HStart(t) + t.hActive
    ensures Lv(t, r) ==> Fv(t, r.linecnt)
  {
  }

  // ---------------------------------------------------------------- invariant

  /**
   * Timings the generator works with: both counters fit in 12 bits, the active pixels do
   * not start at count 0 or 1, start on an even count, and hold six stripes with less than
   * one stripe left over; the active lines do not start at line 0.
   */
  predicate WellFormed(t: HvTimings)
  {
    && HTotal(t) < CounterModulus && VTotal(t) < CounterModulus
    && HStart(t) >= 2 && HStart(t) % 2 == 0
    && Segment(t) >= 1 && t.hActive < 7 * Segment(t)
    && t.vSync + t.vBackPorch >= 1
  }

  /** How many line-valid cycles of the current line have already passed the colour counters. */
  function Position(t: HvTimings, r: Regs): nat
  {
    if Fv(t, r.linecnt) && HStart(t) < r.pixcnt <= HEnd(t) then r.pixcnt - HStart(t) else 0
  }

  /**
   * The counters stay in range, and the colour registers are the stripe and the offset
   * in the stripe of the number of line-valid cycles so far in this line.
   */
  predicate Inv(t: HvTimings, r: Regs)
  {
    && Segment(t) >= 1
    && r.pixcnt <= HTotal(t) && r.linecnt <= VTotal(t)
    && r.colorCnt == Position(t, r) % Segment(t)
    && r.color == Position(t, r) / Segment(t)
  }

  lemma ResetSatisfiesInv(t: HvTimings)
    requires WellFormed(t)
    ensures Inv(t, ResetRegs)
  {
    DivModUnique(0, Segment(t), 0, 0);
  }

  /** Counting one more: the offset wraps at the stripe width and the stripe advances. */
  lemma {:induction false} DivModStep(q: nat, s: nat)
    requires s >= 1
    ensures q % s == s - 1 ==> (q + 1) % s == 0 && (q + 1) / s == q / s + 1
    ensures q % s != s - 1 ==> (q + 1) % s == q % s + 1 && (q + 1) / s == q / s
  {
    var d, m := q / s, q % s;
    assert q == d * s + m;
    if m == s - 1 {
      assert q + 1 == (d + 1) * s;
      DivModExact(d + 1, s);
    } else {
      assert q + 1 == d * s + (m + 1) && m + 1 < s;
      DivModUnique(q + 1, s, d, m + 1);
    }
  }

  lemma DivModExact(d: nat, s: nat)
    requires s >= 1
    ensures (d * s) % s == 0 && (d * s) / s == d
  {
    DivModUnique(d * s, s, d, 0);
  }

  lemma DivModUnique(q: nat, s: nat, d: nat, m: nat)
    requires s >= 1 && m < s && q == d * s + m
    ensures q / s == d && q % s == m
  {
    var d' := q / s;
    if d' > d {
      MulLe(d + 1, d', s);
    } else if d' < d {
      MulLe(d' + 1, d, s);
    }
  }

  lemma MulLe(a: nat, b: nat, s: nat)
    requires a <= b
    ensures a * s <= b * s
  {
    assert b * s == a * s + (b - a) * s;
  }

  /** A count below `k` stripes lies in one of the first `k` stripes. */
  lemma DivBelow(q: nat, s: nat, k: nat)
    requires s >= 1 && q < k * s
    ensures q / s < k
  {
    if q / s >= k {
      MulLe(k, q / s, s);
    }
  }

  /** Every edge preserves the invariant; no counter ever wraps. */
  lemma NextPreservesInv(t: HvTimings, r: Regs)
    requires WellFormed(t) && Inv(t, r)
    ensures Inv(t, Next(t, r))
    ensures 1 <= Next(t, r).pixcnt
    ensures Lv(t, r) ==> r.color < 8 - 1
  {
    var r' := Next(t, r);
    var s := Segment(t);
    var q := Position(t, r);
    if Lv(t, r) {
      assert r'.pixcnt == r.pixcnt + 1 && r'.linecnt == r.linecnt;
      assert Position(t, r') == q + 1;
      DivModStep(q, s);
      StripeBound(t, q + 1);
    } else {
      assert Position(t, r') == 0;
    }
  }

  /** A line-valid cycle count never reaches the eighth stripe. */
  lemma StripeBound(t: HvTimings, q: nat)
    requires WellFormed(t) && q <= t.hActive
    ensures q / Segment(t) <= 6
  {
    DivBelow(q, Segment(t), 7);
  }

  // ---------------------------------------------------------------- the picture

  /** The word of active pixel `i` of a line: stripe `i / segment`, U on even and V on odd pixels. */
  function PixelWord(t: HvTimings, i: nat): bv16
    requires Segment(t) >= 1
  {
    var c := i / Segment(t);
    if i % 2 == 0 then Common.CatBytes(U(c), Y(c)) else Common.CatBytes(V(c), Y(c))
  }

  /**
   * In a line-valid cycle the pixel counter stands for active pixel `i = pixcnt - HStart`,
   * `i < H_ACTIVE`; on the next edge `lv_o` rises and `data_o` takes that pixel's word, and
   * outside line-valid `data_o` becomes 0.
   */
  lemma PixelOutput(t: HvTimings, r: Regs)
    requires WellFormed(t) && Inv(t, r)
    ensures Lv(t, r) ==> r.pixcnt - HStart(t) < t.hActive
    ensures Lv(t, r) ==> Next(t, r).data == PixelWord(t, r.pixcnt - HStart(t))
    ensures Next(t, r).lvO == Lv(t, r) && Next(t, r).fvO == Fv(t, r.linecnt)
    ensures !Lv(t, r) ==> Next(t, r).data == 0
  {
    if Lv(t, r) {
      var i := r.pixcnt - HStart(t);
      assert r.pixcnt % 2 == i % 2 by {
        assert r.pixcnt == i + HStart(t);
      }
    }
  }

  /** When H_ACTIVE is a multiple of six, the stripe index is one of the six colours while line-valid is high. */
  lemma ColorInRange(t: HvTimings, r: Regs)
    requires WellFormed(t) && Inv(t, r) && Lv(t, r) && t.hActive % 6 == 0
    ensures r.color < 6
  {
    assert Position(t, r) < t.hActive;
    StripeOfActive(Position(t, r), t.hActive);
  }

  /** An active pixel lies in one of the six stripes. */
  lemma StripeOfActive(q: nat, hActive: nat)
    requires hActive / 6 >= 1 && hActive % 6 == 0 && q < hActive
    ensures q / (hActive / 6) < 6
  {
    var s := hActive / 6;
    assert 6 * s <= hActive;
    DivBelow(q, s, 6);
  }

  /**
   * The line the tests check, for 1080p60: pixel `i` carries `Y_VAL[i // 320]` in the high
   * byte and `U_VAL[i // 320]` or `V_VAL[i // 320]` in the low byte.
   */
  lemma Pattern1080p60(i: nat)
    requires i < 1920
    ensures var c := i / 320;
      PixelWord(Timings1080p60, i) ==
        ((YVal[c] as bv16) << 8) | (if i % 2 == 0 then UVal[c] else VVal[c]) as bv16
  {
  }

  /** All four formats meet the generator's assumptions. */
  lemma TableWellFormed(videoFormat: string)
    requires videoFormat in HvTimingsTable
    ensures WellFormed(HvTimingsTable[videoFormat])
  {
  }

  // ---------------------------------------------------------------- runs

  /** The registers after `n` edges from `r`. */
  function After(t: HvTimings, r: Regs, n: nat): Regs
  {
    if n == 0 then r else Next(t, After(t, r, n - 1))
  }

  /** The pixel counter runs 1, 2, ..., H_TOTAL, 1, ...: after `n` edges it has advanced by `n` modulo H_TOTAL. */
  lemma {:induction false} PixelCounterCycles(t: HvTimings, r: Regs, n: nat)
    requires WellFormed(t) && 1 <= r.pixcnt <= HTotal(t)
    ensures After(t, r, n).pixcnt == (r.pixcnt - 1 + n) % HTotal(t) + 1
  {
    if n > 0 {
      PixelCounterCycles(t, r, n - 1);
      var prev := After(t, r, n - 1);
      assert After(t, r, n).pixcnt == NextPixcnt(t, prev);
      CountModStep(prev.pixcnt, r.pixcnt - 1 + (n - 1), HTotal(t));
    } else {
      DivModUnique(r.pixcnt - 1, HTotal(t), 0, r.pixcnt - 1);
    }
  }

  /** A counter running 1..h inside a 12-bit register: from `m % h + 1` it steps to `(m + 1) % h + 1`. */
  lemma CountModStep(p: nat, m: nat, h: nat)
    requires 1 <= h < CounterModulus && p == m % h + 1
    ensures (if p == h then 1 else (p + 1) % CounterModulus) == (m + 1) % h + 1
  {
    DivModStep(m, h);
  }

  /**
   * The line counter advances once per line: at the edge that wraps the pixel counter it
   * counts up, and from V_TOTAL it falls back to 0 on the next edge.
   */
  lemma LineCounterSteps(t: HvTimings, r: Regs)
    requires WellFormed(t) && Inv(t, r)
    ensures var r' := Next(t, r);
      && (r.linecnt == VTotal(t) ==> r'.linecnt == 0)
      && (r.linecnt < VTotal(t) ==> (r'.linecnt == r.linecnt + 1 <==> r.pixcnt == HTotal(t)))
      && (r.linecnt < VTotal(t) && r.pixcnt != HTotal(t) ==> r'.linecnt == r.linecnt)
  {
  }

  /** One edge, computed the way the synchronous statements are written. */
  method Edge(t: HvTimings, r: Regs) returns (n: Regs)
    ensures n == Next(t, r)
  {
    var fv := r.linecnt >= t.vSync + t.vBackPorch && r.linecnt < VTotal(t) - t.vFrontPorch;
    var lv := fv && r.pixcnt >= t.hSync + t.hBackPorch && r.pixcnt < HTotal(t) - t.hFrontPorch;
    var linecnt := r.linecnt;
    if r.linecnt == VTotal(t) {
      linecnt := 0;
    } else if r.pixcnt == HTotal(t) {
      linecnt := (r.linecnt + 1) % CounterModulus;
    }
    var pixcnt := (r.pixcnt + 1) % CounterModulus;
    if r.pixcnt == HTotal(t) {
      pixcnt := 1;
    }
    var colorCnt, color := r.colorCnt, r.color;
    if !lv {
      colorCnt, color := 0, 0;
    } else {
      colorCnt := r.colorCnt + 1;
      if r.colorCnt == Segment(t) - 1 {
        color := (r.color + 1) % ColorModulus;
        colorCnt := 0;
      }
    }
    var data: bv16;
    if !lv {
      data := 0;
    } else if r.pixcnt % 2 == 1 {
      data := Common.CatBytes(V(r.color), Y(r.color));
    } else {
      data := Common.CatBytes(U(r.color), Y(r.color));
    }
    n := Regs(pixcnt, linecnt, r.linecnt, fv, lv, colorCnt, color, data);
  }

  /** The generator as a hardware object: its timings and one field per register. */
  class PatternGenerator {
    const timings: HvTimings
    var pixcnt: nat
    var linecnt: nat
    var linecntD: nat
    var fvO: bool
    var lvO: bool
    var colorCnt: nat
    var color: nat
    var data: bv16

    function Registers(): Regs
      reads this
    {
      Regs(pixcnt, linecnt, linecntD, fvO, lvO, colorCnt, color, data)
    }

    ghost predicate Valid()
      reads this
    {
      WellFormed(timings) && Inv(timings, Registers())
    }

    /** `PatternGenerator(video_format)`; the format must have an `hv_timings` entry. */
    constructor (videoFormat: string)
      requires videoFormat in HvTimingsTable
      ensures timings == HvTimingsTable[videoFormat] && Registers() == ResetRegs && Valid()
    {
      timings := HvTimingsTable[videoFormat];
      pixcnt, linecnt, linecntD, fvO, lvO := 0, 0, 0, false, false;
      colorCnt, color, data := 0, 0, 0;
      TableWellFormed(videoFormat);
      ResetSatisfiesInv(HvTimingsTable[videoFormat]);
    }

    /** One clock edge. */
    method Step()
      requires Valid()
      modifies this
      ensures Valid()
      ensures Registers() == Next(timings, old(Registers()))
    {
      var r := Registers();
      NextPreservesInv(timings, r);
      var n := Edge(timings, r);
      pixcnt := n.pixcnt;
      linecnt := n.linecnt;
      linecntD := n.linecntD;
      fvO := n.fvO;
      lvO := n.lvO;
      colorCnt := n.colorCnt;
      color := n.color;
      data := n.data;
    }
  }
}
