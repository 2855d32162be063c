// The video timing generators (src/timing_gen.py).
//
// A timing generator recovers frame-valid and line-valid from the hsync and vsync inputs
// of a CMOS video source. A free-running pixel counter runs 1..H_TOTAL and is re-aligned
// by every hsync leading edge; a line counter advances once per line and is re-aligned by
// every vsync leading edge. Line-valid is the first H_ACTIVE counts of a line; frame-valid
// is the first V_ACTIVE lines, with per-variant corrections at the end of the frame.

module TimingGen {
  import opened Wrappers
  import Common
  import PatternGen

  // ---------------------------------------------------------------- timing table

  const Timings720p60 := PatternGen.HvTimings(1280, 220, 40, 110, 720, 20, 5, 5)
  const Timings1080p := PatternGen.HvTimings(1920, 148, 44, 88, 1080, 36, 5, 4)

  /** The formats `get_timings` knows, in the order of its table. */
  const SupportedFormats: seq<string> := ["720p60", "1080p60", "1080p30"]

  const TimingsTable: map<string, PatternGen.HvTimings> :=
    map["720p60" := Timings720p60, "1080p60" := Timings1080p, "1080p30" := Timings1080p]

  /**
   * `get_timings(video_format)`: the format's timings (H_TOTAL and V_TOTAL follow from
   * them), or the message of the `UnsupportedVideoFormatException` it raises.
   */
  function GetTimings(videoFormat: string): (r: Result<PatternGen.HvTimings, string>)
    ensures r.Success? <==> videoFormat in SupportedFormats
    ensures r.Failure? ==> r.error == Common.UnsupportedVideoFormatMessage(SupportedFormats)
    ensures r.Success? && videoFormat == "720p60" ==>
      PatternGen.HTotal(r.value) == 1650 && PatternGen.VTotal(r.value) == 750
    ensures r.Success? && videoFormat != "720p60" ==>
      PatternGen.HTotal(r.value) == 2200 && PatternGen.VTotal(r.value) == 1125
  {
    if videoFormat in TimingsTable then Success(TimingsTable[videoFormat])
    else Failure(Common.UnsupportedVideoFormatMessage(SupportedFormats))
  }

  // ---------------------------------------------------------------- variants

  /** The four timing generator classes. */
  datatype Variant = P720p60TwoLanes | P720p60FourLanes | P1080p60 | P1080p30

  /** What `create_timing_generator` builds. */
  datatype Generator = Timing(variant: Variant) | Pattern(timings: PatternGen.HvTimings)

  /** Why `create_timing_generator` fails: the exception of `get_timings`, or its own `assert False`. */
  datatype CreateError = Unsupported(message: string) | AssertionFailed

  /**
   * `create_timing_generator(video_format, four_lanes, pattern_gen)`: the pattern generator
   * takes precedence, then 720p60 picks its variant by lane count, and 1080p30 and 1080p60
   * have one variant each.
   */
  function CreateTimingGenerator(videoFormat: string, fourLanes: bool, patternGen: bool): (r: Result<Generator, CreateError>)
    ensures patternGen ==> (r.Success? <==> videoFormat in SupportedFormats)
    ensures patternGen && r.Success? ==> r.value == Pattern(TimingsTable[videoFormat])
    ensures patternGen && r.Failure? ==> r.error == Unsupported(Common.UnsupportedVideoFormatMessage(SupportedFormats))
    ensures !patternGen ==> (r.Success? <==> videoFormat in SupportedFormats)
    ensures !patternGen && r.Failure? ==> r.error == AssertionFailed
    ensures !patternGen && r.Success? ==> r.value.Timing? && Format(r.value.variant) == videoFormat
    ensures !patternGen && videoFormat == "720p60" ==> r == Success(Timing(if fourLanes then P720p60FourLanes else P720p60TwoLanes))
  {
    if patternGen then
      match GetTimings(videoFormat)
      case Success(t) => Success(Pattern(t))
      case Failure(msg) => Failure(Unsupported(msg))
    else if videoFormat == "720p60" then
      Success(Timing(if fourLanes then P720p60FourLanes else P720p60TwoLanes))
    else if videoFormat == "1080p30" then Success(Timing(P1080p30))
    else if videoFormat == "1080p60" then Success(Timing(P1080p60))
    else Failure(AssertionFailed)
  }

  /** The video format a variant is built for. */
  function Format(v: Variant): string
  {
    match v
    case P720p60TwoLanes => "720p60"
    case P720p60FourLanes => "720p60"
    case P1080p60 => "1080p60"
    case P1080p30 => "1080p30"
  }

  /** The `get_timings` entry of the variant's format. */
  function TimingsOf(v: Variant): (t: PatternGen.HvTimings)
    ensures t == TimingsTable[Format(v)]
  {
    if v == P720p60TwoLanes || v == P720p60FourLanes then Timings720p60 else Timings1080p
  }

  function HActive(v: Variant): nat { TimingsOf(v).hActive }
  function VActive(v: Variant): nat { TimingsOf(v).vActive }
  function HTotal(v: Variant): nat { PatternGen.HTotal(TimingsOf(v)) }
  function VTotal(v: Variant): nat { PatternGen.VTotal(TimingsOf(v)) }

  /** `V_SYNC_DELAY`: one line for the 720p60 two-lane and the 1080p30 variants. */
  function VSyncDelay(v: Variant): nat
  {
    if v == P720p60TwoLanes || v == P1080p30 then 1 else 0
  }

  /** `V_SYNC_START`, the line count loaded at a vsync leading edge. */
  function VSyncStart(v: Variant): nat
  {
    VActive(v) + TimingsOf(v).vFrontPorch + VSyncDelay(v)
  }

  /** The 1080p60 variant's `H_SYNC_START`: three cycles lost to the input registers. */
  const HSyncStart1080p60: nat := 1920 + 88 + 3

  /** The pixel count loaded at an hsync leading edge. */
  function HSyncLoad(v: Variant): nat
  {
    match v
    case P720p60TwoLanes => HActive(v) + TimingsOf(v).hFrontPorch + 0 + 1
    case P720p60FourLanes => HActive(v) + TimingsOf(v).hFrontPorch + 5 + 1
    case P1080p60 => HSyncStart1080p60 + 4
    case P1080p30 => HActive(v) + TimingsOf(v).hFrontPorch + 1
  }

  /** The variants with the 10-bit `fv_extend_cnt` register: both 720p60 variants and 1080p30. */
  predicate HasFvExtend(v: Variant)
  {
    v != P1080p60
  }

  // ---------------------------------------------------------------- registers

  /**
   * The registers: the two-stage vsync and hsync input registers, `pixcnt_r`, `linecnt_r`,
   * `lv_r`, `fv_r` (four-lane 720p60 and 1080p60), `fv_o`, `lv_o` and `fv_extend_cnt_r`
   * (both 720p60 variants and 1080p30). A variant without a register leaves its field as it is.
   */
  datatype Regs = Regs(
    vsyncR: bool, vsyncRR: bool, hsyncR: bool, hsyncRR: bool,
    pixcnt: nat, linecnt: nat, lvR: bool, fvR: bool, fvO: bool, lvO: bool, fvExtend: nat)

  const ResetRegs := Regs(false, false, false, false, 0, 0, false, false, false, false, 0)

  datatype Inputs = Inputs(vsync: bool, hsync: bool)

  /** `pixcnt_r` and `linecnt_r` have 12 bits, `fv_extend_cnt_r` 10. */
  const CounterModulus: nat := 4096
  const ExtendModulus: nat := 1024

  /** `hsync_r & ~hsync_rr`: the registered hsync has just risen. */
  predicate HsyncEdge(r: Regs)
  {
    r.hsyncR && !r.hsyncRR
  }

  predicate VsyncEdge(r: Regs)
  {
    r.vsyncR && !r.vsyncRR
  }

  /** `lv_c`. */
  predicate LvC(v: Variant, r: Regs)
  {
    r.pixcnt > 0 && r.pixcnt <= HActive(v)
  }

  /** `pixcnt_c`. */
  function PixcntC(v: Variant, r: Regs): nat
  {
    if HsyncEdge(r) then HSyncLoad(v)
    else if r.pixcnt < HTotal(v) then (r.pixcnt + 1) % CounterModulus
    else 1
  }

  /** `linecnt_c`. */
  function LinecntC(v: Variant, r: Regs): nat
  {
    if VsyncEdge(r) then VSyncStart(v)
    else if r.linecnt < VTotal(v) && r.pixcnt == 1 then (r.linecnt + 1) % CounterModulus
    else if r.linecnt == VTotal(v) && r.pixcnt == 1 then 1
    else r.linecnt
  }

  /** `fv_extend_cnt_c`: counts while the last line's blanking runs, else cleared. */
  function FvExtendC(v: Variant, r: Regs): nat
  {
    if r.linecnt == VTotal(v) && r.pixcnt >= HActive(v) then (r.fvExtend + 1) % ExtendModulus else 0
  }

  /** The active-lines window shared by every variant's `fv_c`. */
  predicate ActiveLine(v: Variant, r: Regs)
  {
    r.linecnt > 0 && r.linecnt <= VActive(v)
  }

  /** `fv_c` of each variant. */
  predicate FvC(v: Variant, r: Regs)
  {
    match v
    case P720p60TwoLanes => ActiveLine(v, r) || r.fvExtend > 0
    case P1080p30 => ActiveLine(v, r) || r.fvExtend > 0
    case P720p60FourLanes =>
      (ActiveLine(v, r) && !(r.linecnt == VActive(v) && r.pixcnt == 1)) || r.fvExtend > 0
    case P1080p60 =>
      (&& ActiveLine(v, r)
       && !(r.linecnt == VActive(v) && r.pixcnt > HSyncStart1080p60)
       && !(r.linecnt == VActive(v) && r.pixcnt == 1))
      || (r.linecnt == VTotal(v) && (r.pixcnt > HSyncStart1080p60 || r.pixcnt == 1))
  }

  /** One pixel clock edge. */
  function Next(v: Variant, r: Regs, i: Inputs): Regs
  {
    var fvC := FvC(v, r);
    var common := r.(vsyncR := i.vsync, vsyncRR := r.vsyncR, hsyncR := i.hsync, hsyncRR := r.hsyncR,
                     pixcnt := PixcntC(v, r), linecnt := LinecntC(v, r), lvR := LvC(v, r));
    match v
    case P720p60TwoLanes => common.(fvO := fvC, lvO := r.lvR && r.fvO, fvExtend := FvExtendC(v, r))
    case P720p60FourLanes => common.(fvO := fvC, fvR := fvC, lvO := r.lvR && r.fvR, fvExtend := FvExtendC(v, r))
    case P1080p60 => common.(fvR := fvC, fvO := r.fvR, lvO := r.lvR && r.fvR)
    case P1080p30 => common.(fvO := fvC, lvO := r.lvR && r.fvO, fvExtend := FvExtendC(v, r))
  }

  /** Both counters in range: the pixel counter at most H_TOTAL and the line counter at most V_TOTAL. */
  predicate Inv(v: Variant, r: Regs)
  {
    r.pixcnt <= HTotal(v) && r.linecnt <= VTotal(v)
  }

  lemma ResetSatisfiesInv(v: Variant)
    ensures Inv(v, ResetRegs)
  {
  }

  /** The load values lie inside the counters' ranges, which fit in 12 bits. */
  lemma LoadsInRange(v: Variant)
    ensures 1 <= HSyncLoad(v) < HTotal(v) < CounterModulus
    ensures 1 <= VSyncStart(v) < VTotal(v) < CounterModulus
  {
  }

  /**
   * Every edge keeps both counters in range and the 12-bit increments never wrap; after an
   * edge the pixel counter is in [1, H_TOTAL].
   */
  lemma NextPreservesInv(v: Variant, r: Regs, i: Inputs)
    requires Inv(v, r)
    ensures Inv(v, Next(v, r, i))
    ensures 1 <= Next(v, r, i).pixcnt
    ensures r.pixcnt < HTotal(v) ==> (r.pixcnt + 1) % CounterModulus == r.pixcnt + 1
    ensures r.linecnt < VTotal(v) ==> (r.linecnt + 1) % CounterModulus == r.linecnt + 1
  {
    LoadsInRange(v);
  }

  /**
   * The line counter: a vsync leading edge loads V_SYNC_START; otherwise, at pixel count 1,
   * it advances, from V_TOTAL back to line 1; at any other count it holds.
   */
  lemma LineCounterSteps(v: Variant, r: Regs, i: Inputs)
    requires Inv(v, r)
    ensures VsyncEdge(r) ==> Next(v, r, i).linecnt == VSyncStart(v)
    ensures !VsyncEdge(r) && r.pixcnt == 1 ==>
      Next(v, r, i).linecnt == (if r.linecnt == VTotal(v) then 1 else r.linecnt + 1)
    ensures !VsyncEdge(r) && r.pixcnt != 1 ==> Next(v, r, i).linecnt == r.linecnt
  {
  }

  /** `fv_extend_cnt` is non-zero after an edge exactly when the last line's blanking is running (short of a 10-bit wrap). */
  lemma FvExtendWindow(v: Variant, r: Regs, i: Inputs)
    requires HasFvExtend(v) && r.fvExtend < ExtendModulus - 1
    ensures Next(v, r, i).fvExtend > 0 <==> r.linecnt == VTotal(v) && r.pixcnt >= HActive(v)
    ensures Next(v, r, i).fvExtend > 0 ==> Next(v, r, i).fvExtend == r.fvExtend + 1
  {
  }

  /** The combinational counter logic shared by every variant. */
  method Counters(v: Variant, r: Regs) returns (pixcntC: nat, linecntC: nat, lvC: bool)
    ensures pixcntC == PixcntC(v, r) && linecntC == LinecntC(v, r) && lvC == LvC(v, r)
  {
    lvC := r.pixcnt > 0 && r.pixcnt <= HActive(v);
    linecntC := r.linecnt;
    if r.vsyncR && !r.vsyncRR {
      linecntC := VSyncStart(v);
    } else if r.linecnt < VTotal(v) && r.pixcnt == 1 {
      linecntC := (r.linecnt + 1) % CounterModulus;
    } else if r.linecnt == VTotal(v) && r.pixcnt == 1 {
      linecntC := 1;
    }
    if r.hsyncR && !r.hsyncRR {
      pixcntC := HSyncLoad(v);
    } else if r.pixcnt < HTotal(v) {
      pixcntC := (r.pixcnt + 1) % CounterModulus;
    } else {
      pixcntC := 1;
    }
  }

  /** One pixel clock edge, computed the way the statements of each class are written. */
  method Edge(v: Variant, r: Regs, i: Inputs) returns (n: Regs)
    ensures n == Next(v, r, i)
  {
    var pixcntC, linecntC, lvC := Counters(v, r);
    var fvExtendC := 0;
    if r.linecnt == VTotal(v) && r.pixcnt >= HActive(v) {
      fvExtendC := (r.fvExtend + 1) % ExtendModulus;
    }
    var fvC := FvC(v, r);
    n := r.(vsyncR := i.vsync, vsyncRR := r.vsyncR, hsyncR := i.hsync, hsyncRR := r.hsyncR,
            pixcnt := pixcntC, linecnt := linecntC, lvR := lvC);
    match v {
      case P720p60TwoLanes =>
        n := n.(fvO := fvC, lvO := r.lvR && r.fvO, fvExtend := fvExtendC);
      case P720p60FourLanes =>
        n := n.(fvO := fvC, fvR := fvC, lvO := r.lvR && r.fvR, fvExtend := fvExtendC);
      case P1080p60 =>
        n := n.(fvR := fvC, fvO := r.fvR, lvO := r.lvR && r.fvR);
      case P1080p30 =>
        n := n.(fvO := fvC, lvO := r.lvR && r.fvO, fvExtend := fvExtendC);
    }
  }

  // ---------------------------------------------------------------- runs

  predicate StepAt(v: Variant, rs: seq<Regs>, ins: seq<Inputs>, k: nat)
    requires |rs| == |ins| + 1 && k < |ins|
  {
    rs[k + 1] == Next(v, rs[k], ins[k])
  }

  /** `rs` holds the registers of every cycle of the inputs `ins` and those after the last edge. */
  predicate IsRun(v: Variant, rs: seq<Regs>, ins: seq<Inputs>)
  {
    |rs| == |ins| + 1 && forall k :: 0 <= k < |ins| ==> StepAt(v, rs, ins, k)
  }

  /** The registers after the first `n` cycles of `ins`. */
  function After(v: Variant, r: Regs, ins: seq<Inputs>, n: nat): Regs
    requires n <= |ins|
  {
    if n == 0 then r else Next(v, After(v, r, ins, n - 1), ins[n - 1])
  }

  /** The registers of every cycle of `ins`, starting from `r`. */
  function Run(v: Variant, r: Regs, ins: seq<Inputs>): (rs: seq<Regs>)
    ensures IsRun(v, rs, ins) && rs[0] == r
  {
    seq(|ins| + 1, n requires 0 <= n <= |ins| => After(v, r, ins, n))
  }

  /** The number of edges between computing `fv_c` and showing it on `fv_o`. */
  function FvLatency(v: Variant): nat
  {
    if v == P1080p60 then 2 else 1
  }

  /**
   * The output pipeline: `fv_o` shows `fv_c` after `FvLatency` edges, and `lv_o` shows
   * `lv_c & fv_c` two edges late in every variant.
   */
  lemma OutputLatency(v: Variant, rs: seq<Regs>, ins: seq<Inputs>, k: nat)
    requires IsRun(v, rs, ins) && k + 2 <= |ins|
    ensures rs[k + FvLatency(v)].fvO == FvC(v, rs[k])
    ensures rs[k + 2].lvO == (LvC(v, rs[k]) && FvC(v, rs[k]))
  {
    assert StepAt(v, rs, ins, k);
    assert StepAt(v, rs, ins, k + 1);
  }

  /**
   * The line counter steps one edge after pixel count 1, so pixel 1 of the line after the
   * last active line still counts as line V_ACTIVE. The two-lane 720p60 and the 1080p30
   * variants therefore raise `lv_o` for that pixel two edges later, while `fv_o` has
   * already fallen; the four-lane 720p60 and the 1080p60 variants mask that pixel out of
   * `fv_c` and keep `lv_o` low.
   */
  lemma LineValidOutlastsFrame(v: Variant, r: Regs, i: Inputs, i': Inputs)
    requires r.pixcnt == 1 && r.linecnt == VActive(v) && r.fvExtend == 0 && !VsyncEdge(r)
    ensures var r2 := Next(v, Next(v, r, i), i');
      && (r2.lvO <==> v == P720p60TwoLanes || v == P1080p30)
      && (v == P720p60TwoLanes || v == P1080p30 ==> !r2.fvO)
  {
    var r1 := Next(v, r, i);
    assert LinecntC(v, r) == VActive(v) + 1 && LvC(v, r);
    assert r1.linecnt == VActive(v) + 1 && r1.lvR && r1.fvExtend == 0;
    assert !FvC(v, r1);
    match v {
      case P720p60TwoLanes =>
        assert FvC(v, r) && r1.fvO;
      case P1080p30 =>
        assert FvC(v, r) && r1.fvO;
      case P720p60FourLanes =>
        assert !FvC(v, r) && !r1.fvR;
      case P1080p60 =>
        assert !FvC(v, r) && !r1.fvR;
    }
  }

  /** An hsync leading edge at the inputs reaches `hsync_r & ~hsync_rr` two edges later and loads the pixel counter. */
  lemma HsyncLoadsPixelCounter(v: Variant, rs: seq<Regs>, ins: seq<Inputs>, k: nat)
    requires IsRun(v, rs, ins) && k + 3 <= |ins|
    requires ins[k + 1].hsync && !ins[k].hsync
    ensures HsyncEdge(rs[k + 2])
    ensures rs[k + 3].pixcnt == HSyncLoad(v)
  {
    assert StepAt(v, rs, ins, k);
    assert StepAt(v, rs, ins, k + 1);
    assert StepAt(v, rs, ins, k + 2);
  }

  /**
   * Without hsync leading edges the pixel counter runs 1, 2, ..., H_TOTAL, 1, ...: after
   * `n` edges it has advanced by `n` modulo H_TOTAL.
   */
  lemma {:induction false} PixelCounterCycles(v: Variant, rs: seq<Regs>, ins: seq<Inputs>, n: nat)
    requires IsRun(v, rs, ins) && n <= |ins| && 1 <= rs[0].pixcnt <= HTotal(v)
    requires forall j :: 0 <= j < n ==> !HsyncEdge(rs[j])
    ensures rs[n].pixcnt == (rs[0].pixcnt - 1 + n) % HTotal(v) + 1
  {
    if n == 0 {
      PatternGen.DivModUnique(rs[0].pixcnt - 1, HTotal(v), 0, rs[0].pixcnt - 1);
    } else {
      PixelCounterCycles(v, rs, ins, n - 1);
      assert StepAt(v, rs, ins, n - 1);
      assert !HsyncEdge(rs[n - 1]);
      PatternGen.CountModStep(rs[n - 1].pixcnt, rs[0].pixcnt - 1 + (n - 1), HTotal(v));
    }
  }

  /**
   * The edges from an hsync load until the line starts (pixel count 1), for each variant:
   * H_SYNC + H_BACK_PORCH for the two-lane 720p60 and the 1080p30 variants, five fewer for
   * the four-lane 720p60 variant and six fewer for 1080p60.
   */
  function LineStartDelay(v: Variant): nat
  {
    HTotal(v) - HSyncLoad(v) + 1
  }

  lemma LineStartDelays()
    ensures LineStartDelay(P720p60TwoLanes) == Timings720p60.hSync + Timings720p60.hBackPorch
    ensures LineStartDelay(P1080p30) == Timings1080p.hSync + Timings1080p.hBackPorch
    ensures LineStartDelay(P720p60FourLanes) == Timings720p60.hSync + Timings720p60.hBackPorch - 5
    ensures LineStartDelay(P1080p60) == Timings1080p.hSync + Timings1080p.hBackPorch - 6
  {
  }

  /**
   * After an hsync load, and without further hsync leading edges, line-valid is low for
   * the next `LineStartDelay - 1` edges and rises with the pixel count 1 after `LineStartDelay`.
   */
  lemma LineStartsAfterLoad(v: Variant, rs: seq<Regs>, ins: seq<Inputs>, n: nat)
    requires IsRun(v, rs, ins) && n <= |ins| && rs[0].pixcnt == HSyncLoad(v)
    requires forall j :: 0 <= j < n ==> !HsyncEdge(rs[j])
    ensures 0 < n < LineStartDelay(v) ==> !LvC(v, rs[n])
    ensures n == LineStartDelay(v) ==> rs[n].pixcnt == 1 && LvC(v, rs[n])
  {
    LoadsInRange(v);
    PixelCounterCycles(v, rs, ins, n);
    var h := HTotal(v);
    var m := HSyncLoad(v) - 1 + n;
    if n < LineStartDelay(v) {
      PatternGen.DivModUnique(m, h, 0, m);
    } else if n == LineStartDelay(v) {
      PatternGen.DivModUnique(m, h, 1, 0);
    }
  }

  /** Line-valid in a free run: high exactly while the pixel count is in the first H_ACTIVE of the line. */
  lemma LineValidInFreeRun(v: Variant, rs: seq<Regs>, ins: seq<Inputs>, n: nat)
    requires IsRun(v, rs, ins) && n <= |ins| && 1 <= rs[0].pixcnt <= HTotal(v)
    requires forall j :: 0 <= j < n ==> !HsyncEdge(rs[j])
    ensures LvC(v, rs[n]) <==> (rs[0].pixcnt - 1 + n) % HTotal(v) < HActive(v)
  {
    PixelCounterCycles(v, rs, ins, n);
  }

  // ---------------------------------------------------------------- the pattern generator copy

  /** Every `get_timings` entry meets the pattern generator's assumptions. */
  lemma TableWellFormed(videoFormat: string)
    requires videoFormat in TimingsTable
    ensures PatternGen.WellFormed(TimingsTable[videoFormat])
  {
  }

  /**
   * At 720p60 the 1280 active pixels hold six 213-pixel stripes and two pixels more; those
   * two fall in a seventh stripe with no colour and are sent as 0.
   */
  lemma Pattern720p60Tail(i: nat)
    requires 6 * 213 <= i < Timings720p60.hActive
    ensures PatternGen.Segment(Timings720p60) == 213
    ensures PatternGen.PixelWord(Timings720p60, i) == 0
  {
    assert i / 213 == 6;
  }

  // ---------------------------------------------------------------- the hardware object

  /**
   * A timing generator as a hardware object: its variant and its register file, changed
   * in place by every pixel clock edge.
   */
  class TimingGenerator {
    const variant: Variant
    var regs: Regs

    ghost predicate Valid()
      reads this
    {
      Inv(variant, regs)
    }

    constructor (v: Variant)
      ensures variant == v && regs == ResetRegs && Valid()
    {
      variant := v;
      regs := ResetRegs;
    }

    /** One pixel clock edge with the given vsync and hsync. */
    method Step(i: Inputs)
      requires Valid()
      modifies this
      ensures Valid()
      ensures regs == Next(variant, old(regs), i)
    {
      NextPreservesInv(variant, regs, i);
      regs := Edge(variant, regs, i);
    }
  }
}
