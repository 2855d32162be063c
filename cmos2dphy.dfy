/**
 * The orchestration block (`CMOS2DPHY`): it watches the frame-valid and line-valid
 * strobes of the parallel video input, asks the D-PHY packet engine for a frame-start
 * short packet, one long packet per line and a frame-end short packet, and moves the
 * pixel words through a FIFO into the packet engine's payload.
 *
 * The block has two clock domains: the pixel clock (edge detectors, FIFO write side) and
 * the byte clock (FSM, delay chains, FIFO read side). Each domain's edge is a separate
 * operation on the shared registers, so the model allows any interleaving of the two.
 * The packet engine itself is outside the block: its outputs `d_hs_rdy`, `c2d_ready`,
 * `phdr_xfr_done` and `ld_pyld` are free inputs of every byte-clock edge.
 */
module Cmos2Dphy {
  import Common

  datatype State =
    | WaitFvStart | FvStart | WaitFvStartDone | WaitLvStart | LvStart
    | WaitForPhdr | LpXfr | LvEnd | FvEnd | WaitFvEndDone

  /** Depth of the pixel FIFO. */
  const FifoDepth: nat := 128

  /** CSI-2 data types and the word count of one line of 1920 YUV422 pixels. */
  const DtFrameStart: bv8 := 0x00
  const DtFrameEnd: bv8 := 0x01
  const DtYuv422: bv8 := 0x1E
  const LineWordCount: bv16 := 3840

  /** Every register of the block, and the contents of the FIFO, oldest word first. */
  datatype Regs = Regs(
    // pixel-clock domain
    fvD: bool, lvD: bool,
    fvStart: bool, fvEnd: bool, lvStart: bool, lvEnd: bool,
    we: bool, din: bv16,
    // byte-clock domain
    state: State, spEn: bool, lpEn: bool,
    ldPyldD0: bool, ldPyldD1: bool, phdrXfrDoneD0: bool, phdrXfrDoneD1: bool,
    // the FIFO
    fifo: seq<bv16>)

  const ResetRegs := Regs(false, false, false, false, false, false, false, 0,
                          WaitFvStart, false, false, false, false, false, false, [])

  /** The inputs of a pixel-clock edge: `fv_i`, `lv_i` and the two pixel bytes. */
  datatype PixelInputs = PixelInputs(fv: bool, lv: bool, pixData0: bv8, pixData1: bv8)

  /**
   * The inputs of a byte-clock edge: the current `fv_i` and `lv_i`, and the outputs of the
   * packet engine.
   */
  datatype ByteInputs = ByteInputs(
    fv: bool, lv: bool, dHsRdy: bool, c2dReady: bool, phdrXfrDone: bool, ldPyld: bool)

  /** The combinational outputs of a byte-clock cycle. */
  datatype ByteOutputs = ByteOutputs(
    dt: bv8, wc: bv16, hsReq: bool, txfrReq: bool, fifoRe: bool, byteDataEn: bool, byteData: bv16)

  predicate Writable(r: Regs)
  {
    |r.fifo| < FifoDepth
  }

  predicate Readable(r: Regs)
  {
    |r.fifo| > 0
  }

  // ---------------------------------------------------------------- pixel clock

  /**
   * One pixel-clock edge: the edge detectors, the registered FIFO write strobe and word,
   * and the FIFO's write side, held in reset while `fv_i` is low.
   */
  function PixelNext(r: Regs, i: PixelInputs): Regs
  {
    var we := i.fv && i.lv && Writable(r);
    Regs(
      i.fv, i.lv,
      RiseFlag(r.fvD, i.fv, r.fvStart), FallFlag(r.fvD, i.fv, r.fvEnd),
      RiseFlag(r.lvD, i.lv, r.lvStart), FallFlag(r.lvD, i.lv, r.lvEnd),
      we, if we then Common.CatBytes(i.pixData0, i.pixData1) else 0,
      r.state, r.spEn, r.lpEn, r.ldPyldD0, r.ldPyldD1, r.phdrXfrDoneD0, r.phdrXfrDoneD1,
      FifoAfterWrite(r, i))
  }

  /** The FIFO's write side: the registered word enters if there is room; reset while `fv_i` is low. */
  function FifoAfterWrite(r: Regs, i: PixelInputs): seq<bv16>
  {
    if !i.fv then [] else if r.we && Writable(r) then r.fifo + [r.din] else r.fifo
  }

  /** An edge detector's start flag: set on a rising edge, held on a falling edge, cleared otherwise. */
  function RiseFlag(d: bool, x: bool, flag: bool): bool
  {
    if x && !d then true else if d && !x then flag else false
  }

  /** An edge detector's end flag: held on a rising edge, set on a falling edge, cleared otherwise. */
  function FallFlag(d: bool, x: bool, flag: bool): bool
  {
    if x && !d then flag else if d && !x then true else false
  }

  /**
   * `fv_start` is raised by a rising edge of `fv_i` and `fv_end` by a falling edge; with no
   * edge both are cleared, and an edge of one kind leaves the other flag as it was.
   */
  lemma FrameEdgeDetect(r: Regs, i: PixelInputs)
    ensures var r' := PixelNext(r, i);
      && r'.fvD == i.fv
      && (r'.fvStart <==> (i.fv && !r.fvD) || (r.fvD && !i.fv && r.fvStart))
      && (r'.fvEnd <==> (r.fvD && !i.fv) || (i.fv && !r.fvD && r.fvEnd))
      && (i.fv == r.fvD ==> !r'.fvStart && !r'.fvEnd)
  {
  }

  /** The same for `lv_start` and `lv_end`, on the edges of `lv_i`. */
  lemma LineEdgeDetect(r: Regs, i: PixelInputs)
    ensures var r' := PixelNext(r, i);
      && r'.lvD == i.lv
      && (r'.lvStart <==> (i.lv && !r.lvD) || (r.lvD && !i.lv && r.lvStart))
      && (r'.lvEnd <==> (r.lvD && !i.lv) || (i.lv && !r.lvD && r.lvEnd))
      && (i.lv == r.lvD ==> !r'.lvStart && !r'.lvEnd)
  {
  }

  /**
   * The FIFO write side: a word is registered for writing only while `fv_i & lv_i` and
   * the FIFO has room, it is the two pixel bytes, and it enters the FIFO on the next
   * pixel edge if the FIFO still has room; while `fv_i` is low the FIFO is emptied.
   */
  lemma FifoWrite(r: Regs, i: PixelInputs)
    ensures var r' := PixelNext(r, i);
      && (r'.we <==> i.fv && i.lv && |r.fifo| < FifoDepth)
      && (r'.we ==> r'.din == Common.CatBytes(i.pixData0, i.pixData1))
      && (!i.fv ==> r'.fifo == [])
      && (i.fv && r.we && |r.fifo| < FifoDepth ==> r'.fifo == r.fifo + [r.din])
      && (i.fv && !(r.we && |r.fifo| < FifoDepth) ==> r'.fifo == r.fifo)
  {
  }

  // ---------------------------------------------------------------- byte clock

  /** The one-cycle pulse `phdr_xfr_done_d[0] & ~phdr_xfr_done_d[1]`: a packet just finished. */
  predicate PacketDone(r: Regs)
  {
    r.phdrXfrDoneD0 && !r.phdrXfrDoneD1
  }

  /** `~ld_pyld & ~ld_pyld_d[0] & ld_pyld_d[1]`: the payload load strobe ended two cycles ago. */
  predicate PayloadLoaded(r: Regs, i: ByteInputs)
  {
    !i.ldPyld && !r.ldPyldD0 && r.ldPyldD1
  }

  /** The data type `dt` driven in a byte-clock cycle; 0 where no state drives it. */
  function RequestDt(r: Regs, i: ByteInputs): bv8
  {
    match r.state
    case WaitFvStartDone => if PacketDone(r) && !r.lvStart && i.lv then DtYuv422 else 0
    case LvStart => if i.dHsRdy then DtYuv422 else 0
    case WaitForPhdr => DtYuv422
    case LpXfr => DtYuv422
    case FvEnd => DtFrameEnd
    case WaitFvEndDone => DtFrameEnd
    case _ => DtFrameStart
  }

  /** The word count `wc` driven in a byte-clock cycle; 0 where no state drives it. */
  function RequestWc(r: Regs, i: ByteInputs): bv16
  {
    match r.state
    case WaitFvStartDone => if PacketDone(r) && !r.lvStart && i.lv then LineWordCount else 0
    case LvStart => if i.dHsRdy then LineWordCount else 0
    case WaitForPhdr => LineWordCount
    case LpXfr => LineWordCount
    case _ => 0
  }

  /** `hs_req`: the LV_END cycle that requests the frame end, once `fv_i` is low and the engine is ready. */
  predicate HsReq(r: Regs, i: ByteInputs)
  {
    r.state == LvEnd && !i.fv && i.c2dReady
  }

  /** `fifo.re`: LP_XFR reads a word whenever the FIFO holds one. */
  predicate ReadsFifo(r: Regs)
  {
    r.state == LpXfr && Readable(r)
  }

  /** The combinational outputs of a byte-clock cycle. */
  function ByteOutput(r: Regs, i: ByteInputs): ByteOutputs
  {
    ByteOutputs(
      RequestDt(r, i), RequestWc(r, i), HsReq(r, i),
      i.c2dReady && (r.fvStart || r.fvEnd || r.lvStart || HsReq(r, i)),
      ReadsFifo(r), ReadsFifo(r),
      if Readable(r) then r.fifo[0] else 0)
  }

  /** The FSM state after a byte-clock edge. */
  function NextState(r: Regs, i: ByteInputs): State
  {
    match r.state
    case WaitFvStart => if r.fvStart then FvStart else WaitFvStart
    case FvStart => if i.dHsRdy then WaitFvStartDone else FvStart
    case WaitFvStartDone =>
      if !PacketDone(r) then WaitFvStartDone
      else if r.lvStart then LvStart
      else if i.lv then LpXfr
      else WaitLvStart
    case WaitLvStart => if r.lvStart then LvStart else WaitLvStart
    case LvStart => if i.dHsRdy then WaitForPhdr else LvStart
    case WaitForPhdr => if PayloadLoaded(r, i) then LpXfr else WaitForPhdr
    case LpXfr => if PacketDone(r) then LvEnd else LpXfr
    case LvEnd => if !i.fv && i.c2dReady then FvEnd else if r.lvStart then LvStart else LvEnd
    case FvEnd => if i.dHsRdy then WaitFvEndDone else FvEnd
    case WaitFvEndDone => if PacketDone(r) then WaitFvStart else WaitFvEndDone
  }

  /** `sp_en` after a byte-clock edge: raised with a short-packet request, lowered in the state after. */
  function NextSpEn(r: Regs, i: ByteInputs): bool
  {
    if r.state == FvStart || r.state == FvEnd then i.dHsRdy || r.spEn
    else if r.state == WaitFvStartDone || r.state == WaitFvEndDone then false
    else r.spEn
  }

  /** `lp_en` after a byte-clock edge: raised with a long-packet request, lowered in the state after. */
  function NextLpEn(r: Regs, i: ByteInputs): bool
  {
    if r.state == WaitFvStartDone then (PacketDone(r) && !r.lvStart && i.lv) || r.lpEn
    else if r.state == LvStart then i.dHsRdy || r.lpEn
    else if r.state == WaitForPhdr || r.state == LpXfr then false
    else r.lpEn
  }

  /**
   * One byte-clock edge: the FSM with its `sp_en`/`lp_en` registers, the two delay chains,
   * and the FIFO's read side, held in reset while `fv_i` is low.
   */
  function ByteNext(r: Regs, i: ByteInputs): Regs
  {
    Regs(
      r.fvD, r.lvD, r.fvStart, r.fvEnd, r.lvStart, r.lvEnd, r.we, r.din,
      NextState(r, i), NextSpEn(r, i), NextLpEn(r, i),
      i.ldPyld, r.ldPyldD0, i.phdrXfrDone, r.phdrXfrDoneD0,
      FifoAfterRead(r, i))
  }

  /** The FIFO's read side: the word read leaves the FIFO; reset while `fv_i` is low. */
  function FifoAfterRead(r: Regs, i: ByteInputs): seq<bv16>
  {
    if !i.fv then [] else if ReadsFifo(r) then r.fifo[1..] else r.fifo
  }

  /**
   * What holds in every reachable register set: the FIFO never exceeds its depth, a
   * registered write strobe comes with a word, and `sp_en`/`lp_en` are only high in the
   * state that follows the request.
   */
  predicate Inv(r: Regs)
  {
    && |r.fifo| <= FifoDepth
    && (r.spEn ==> r.state == WaitFvStartDone || r.state == WaitFvEndDone)
    && (r.lpEn ==> r.state == WaitForPhdr || r.state == LpXfr)
  }

  lemma ResetSatisfiesInv()
    ensures Inv(ResetRegs)
  {
  }

  lemma PixelNextPreservesInv(r: Regs, i: PixelInputs)
    requires Inv(r)
    ensures Inv(PixelNext(r, i))
  {
  }

  lemma ByteNextPreservesInv(r: Regs, i: ByteInputs)
    requires Inv(r)
    ensures Inv(ByteNext(r, i))
  {
  }

  /** The FSM starts in WAIT_FV_START and leaves it only on `fv_start`, for FV_START. */
  lemma LeavesWaitFvStartOnFrameStart(r: Regs, i: ByteInputs)
    requires r.state == WaitFvStart
    ensures ResetRegs.state == WaitFvStart
    ensures NextState(r, i) != WaitFvStart <==> r.fvStart
    ensures r.fvStart ==> NextState(r, i) == FvStart
  {
  }

  /**
   * The packet requests: frame-start states ask for data type 0, frame-end states for
   * data type 1, both with word count 0; the long-packet states ask for data type 0x1E
   * with 3840 words (one line). WAIT_FV_START_DONE and LV_START drive the long-packet
   * fields only in the cycle whose transition raises `lp_en`, and data type 0 with word
   * count 0 otherwise.
   */
  lemma RequestFields(r: Regs, i: ByteInputs)
    ensures var o := ByteOutput(r, i);
      && (r.state in {WaitFvStart, FvStart, WaitLvStart, LvEnd} ==> o.dt == DtFrameStart && o.wc == 0)
      && (r.state in {FvEnd, WaitFvEndDone} ==> o.dt == DtFrameEnd && o.wc == 0)
      && (r.state in {WaitForPhdr, LpXfr} ==> o.dt == DtYuv422 && o.wc == LineWordCount)
      && (r.state == WaitFvStartDone ==>
            if PacketDone(r) && !r.lvStart && i.lv then o.dt == DtYuv422 && o.wc == LineWordCount
            else o.dt == DtFrameStart && o.wc == 0)
      && (r.state == LvStart ==>
            if i.dHsRdy then o.dt == DtYuv422 && o.wc == LineWordCount
            else o.dt == DtFrameStart && o.wc == 0)
      && (NextLpEn(r, i) && !r.lpEn ==> o.dt == DtYuv422 && o.wc == LineWordCount)
  {
  }

  /**
   * While the frame-start request `sp_en` is high (the cycle after FV_START) the packet
   * engine sees data type 0 with word count 0, unless that same cycle sees the packet end
   * with `lv_i` already high: then the line's long-packet fields are driven at once.
   */
  lemma FrameStartRequest(r: Regs, i: ByteInputs)
    requires Inv(r) && r.spEn && r.state == WaitFvStartDone
    ensures var o := ByteOutput(r, i);
      && (!(PacketDone(r) && !r.lvStart && i.lv) ==> o.dt == DtFrameStart && o.wc == 0)
      && (PacketDone(r) && !r.lvStart && i.lv ==> o.dt == DtYuv422 && o.wc == LineWordCount)
  {
  }

  /** That overlap can happen: `sp_en` high together with data type 0x1E and 3840 words. */
  lemma FrameStartOverlapsLine()
    ensures var r := ResetRegs.(state := WaitFvStartDone, spEn := true, phdrXfrDoneD0 := true);
            var i := ByteInputs(true, true, false, false, false, false);
            var o := ByteOutput(r, i);
            Inv(r) && r.spEn && o.dt == DtYuv422 && o.wc == LineWordCount && NextLpEn(r, i)
  {
  }

  /**
   * `sp_en` and `lp_en` are one-cycle pulses: a high request is low after the next edge.
   * `sp_en` rises only on the FV_START→WAIT_FV_START_DONE or FV_END→WAIT_FV_END_DONE
   * transition, and only when `d_hs_rdy` is high.
   */
  lemma RequestsArePulses(r: Regs, i: ByteInputs)
    requires Inv(r)
    ensures r.spEn ==> !NextSpEn(r, i)
    ensures r.lpEn ==> !NextLpEn(r, i)
    ensures NextSpEn(r, i) && !r.spEn <==>
              i.dHsRdy && (r.state == FvStart || r.state == FvEnd)
    ensures NextSpEn(r, i) && !r.spEn ==>
              NextState(r, i) == WaitFvStartDone || NextState(r, i) == WaitFvEndDone
  {
  }

  /**
   * `lp_en` rises on LV_START→WAIT_FOR_PHDR only when `d_hs_rdy` is high, and on
   * WAIT_FV_START_DONE→LP_XFR, where `d_hs_rdy` is not consulted.
   */
  lemma LongRequestRises(r: Regs, i: ByteInputs)
    requires Inv(r)
    ensures NextLpEn(r, i) && !r.lpEn <==>
              (r.state == LvStart && i.dHsRdy)
              || (r.state == WaitFvStartDone && PacketDone(r) && !r.lvStart && i.lv)
    ensures NextLpEn(r, i) && !r.lpEn ==> NextState(r, i) == WaitForPhdr || NextState(r, i) == LpXfr
  {
  }

  /** The WAIT_FV_START_DONE→LP_XFR transition raises `lp_en` while `d_hs_rdy` is low. */
  lemma LongRequestWithoutReady()
    ensures var r := ResetRegs.(state := WaitFvStartDone, phdrXfrDoneD0 := true);
            var i := ByteInputs(true, true, false, false, false, false);
            !i.dHsRdy && NextLpEn(r, i) && NextState(r, i) == LpXfr
  {
  }

  /** The FIFO is read, and the payload strobe raised, only in LP_XFR and only when it holds a word. */
  lemma FifoRead(r: Regs, i: ByteInputs)
    ensures var o := ByteOutput(r, i);
      && (o.fifoRe <==> r.state == LpXfr && |r.fifo| > 0)
      && o.byteDataEn == o.fifoRe
      && (o.fifoRe ==> o.byteData == r.fifo[0])
  {
  }

  /** A byte-clock edge removes the word it read from the front of the FIFO, and empties it while `fv_i` is low. */
  lemma FifoDequeue(r: Regs, i: ByteInputs)
    ensures var f := ByteNext(r, i).fifo;
      && (!i.fv ==> f == [])
      && (i.fv && ReadsFifo(r) ==> [r.fifo[0]] + f == r.fifo)
      && (i.fv && !ReadsFifo(r) ==> f == r.fifo)
  {
  }

  /**
   * `txfr_req` (the HS request to the packet engine) is `c2d_ready` and-ed with an edge
   * flag or `hs_req`, and `hs_req` is high exactly on the LV_END→FV_END transition.
   */
  lemma TransferRequest(r: Regs, i: ByteInputs)
    ensures var o := ByteOutput(r, i);
      && (o.txfrReq <==> i.c2dReady && (r.fvStart || r.fvEnd || r.lvStart || o.hsReq))
      && (o.hsReq <==> r.state == LvEnd && NextState(r, i) == FvEnd)
  {
  }

  /** The delay chains: `ld_pyld_d[k]` and `phdr_xfr_done_d[k]` are the packet engine's strobes `k + 1` edges late. */
  lemma DelayChains(r: Regs, i: ByteInputs, i': ByteInputs)
    ensures var r2 := ByteNext(ByteNext(r, i), i');
      && r2.ldPyldD0 == i'.ldPyld && r2.ldPyldD1 == i.ldPyld
      && r2.phdrXfrDoneD0 == i'.phdrXfrDone && r2.phdrXfrDoneD1 == i.phdrXfrDone
      && (PacketDone(r2) <==> i'.phdrXfrDone && !i.phdrXfrDone)
  {
  }

  // ---------------------------------------------------------------- the two clocks together

  /** An edge of one of the two clocks, with that clock's inputs. */
  datatype Tick = Pixel(pixelIn: PixelInputs) | Byte(byteIn: ByteInputs)

  /** The registers after one edge of either clock. */
  function Apply(r: Regs, t: Tick): Regs
  {
    match t
    case Pixel(i) => PixelNext(r, i)
    case Byte(i) => ByteNext(r, i)
  }

  /** `fv_i` is high at the edge, so neither FIFO side is held in reset. */
  predicate FrameHigh(t: Tick)
  {
    match t
    case Pixel(i) => i.fv
    case Byte(i) => i.fv
  }

  /** The word the FIFO's write side takes in at a pixel-clock edge, if any. */
  function Accepted(r: Regs, t: Tick): seq<bv16>
  {
    match t
    case Pixel(i) => if i.fv && r.we && Writable(r) then [r.din] else []
    case Byte(_) => []
  }

  /** The word handed to the packet engine (`w_byte_data` with `w_byte_data_en` high) in a byte-clock cycle, if any. */
  function Delivered(r: Regs, t: Tick): seq<bv16>
  {
    match t
    case Pixel(_) => []
    case Byte(i) =>
      var o := ByteOutput(r, i);
      if o.byteDataEn then [o.byteData] else []
  }

  /** The registers after the edges `ts`, in order. */
  function Final(r: Regs, ts: seq<Tick>): Regs
    decreases |ts|
  {
    if |ts| == 0 then r else Final(Apply(r, ts[0]), ts[1..])
  }

  /** Every word the FIFO takes in during `ts`, in order. */
  function AcceptedAll(r: Regs, ts: seq<Tick>): seq<bv16>
    decreases |ts|
  {
    if |ts| == 0 then [] else Accepted(r, ts[0]) + AcceptedAll(Apply(r, ts[0]), ts[1..])
  }

  /** Every word handed to the packet engine during `ts`, in order. */
  function DeliveredAll(r: Regs, ts: seq<Tick>): seq<bv16>
    decreases |ts|
  {
    if |ts| == 0 then [] else Delivered(r, ts[0]) + DeliveredAll(Apply(r, ts[0]), ts[1..])
  }

  /** One edge of either clock: what was in the FIFO plus what it took in is what it gave out plus what it holds. */
  lemma FifoStep(r: Regs, t: Tick)
    requires FrameHigh(t)
    ensures r.fifo + Accepted(r, t) == Delivered(r, t) + Apply(r, t).fifo
  {
    match t
    case Pixel(i) =>
      assert Apply(r, t).fifo == FifoAfterWrite(r, i);
    case Byte(i) =>
      ReadStep(r, i);
  }

  lemma ReadStep(r: Regs, i: ByteInputs)
    requires i.fv
    ensures var o := ByteOutput(r, i);
      r.fifo == (if o.byteDataEn then [o.byteData] else []) + ByteNext(r, i).fifo
  {
    var o := ByteOutput(r, i);
    assert o.byteDataEn == ReadsFifo(r);
    if ReadsFifo(r) {
      assert o.byteData == r.fifo[0];
      assert r.fifo == [r.fifo[0]] + r.fifo[1..];
    }
  }

  /**
   * The FIFO keeps order across the clock-domain crossing: over any interleaving of
   * pixel-clock and byte-clock edges with `fv_i` high, the words handed to the packet
   * engine followed by the words still queued are the words queued at the start followed
   * by the words taken in; so the words handed out are, in order, a prefix of those.
   */
  lemma {:induction false} FifoKeepsOrder(r: Regs, ts: seq<Tick>)
    requires forall k :: 0 <= k < |ts| ==> FrameHigh(ts[k])
    ensures r.fifo + AcceptedAll(r, ts) == DeliveredAll(r, ts) + Final(r, ts).fifo
    ensures DeliveredAll(r, ts) <= r.fifo + AcceptedAll(r, ts)
    decreases |ts|
  {
    if |ts| > 0 {
      var r1 := Apply(r, ts[0]);
      FifoStep(r, ts[0]);
      FifoKeepsOrder(r1, ts[1..]);
      calc {
        r.fifo + AcceptedAll(r, ts);
        r.fifo + (Accepted(r, ts[0]) + AcceptedAll(r1, ts[1..]));
        (r.fifo + Accepted(r, ts[0])) + AcceptedAll(r1, ts[1..]);
        (Delivered(r, ts[0]) + r1.fifo) + AcceptedAll(r1, ts[1..]);
        Delivered(r, ts[0]) + (r1.fifo + AcceptedAll(r1, ts[1..]));
        Delivered(r, ts[0]) + (DeliveredAll(r1, ts[1..]) + Final(r1, ts[1..]).fifo);
        (Delivered(r, ts[0]) + DeliveredAll(r1, ts[1..])) + Final(r1, ts[1..]).fifo;
        DeliveredAll(r, ts) + Final(r, ts).fifo;
      }
    }
    assert DeliveredAll(r, ts) == (r.fifo + AcceptedAll(r, ts))[..|DeliveredAll(r, ts)|];
  }

  // ---------------------------------------------------------------- imperative form

  /**
   * The registered half of a byte-clock cycle, statement by statement: the FSM's
   * `NextState` and `NextValue` assignments in the current state's branch.
   */
  method FsmEdge(r: Regs, i: ByteInputs) returns (state: State, spEn: bool, lpEn: bool)
    ensures state == NextState(r, i) && spEn == NextSpEn(r, i) && lpEn == NextLpEn(r, i)
  {
    state, spEn, lpEn := r.state, r.spEn, r.lpEn;
    var done := r.phdrXfrDoneD0 && !r.phdrXfrDoneD1;
    match r.state {
      case WaitFvStart =>
        if r.fvStart {
          state := FvStart;
        }
      case FvStart =>
        if i.dHsRdy {
          spEn := true;
          state := WaitFvStartDone;
        }
      case WaitFvStartDone =>
        spEn := false;
        if done {
          if r.lvStart {
            state := LvStart;
          } else if i.lv {
            lpEn := true;
            state := LpXfr;
          } else {
            state := WaitLvStart;
          }
        }
      case WaitLvStart =>
        if r.lvStart {
          state := LvStart;
        }
      case LvStart =>
        if i.dHsRdy {
          lpEn := true;
          state := WaitForPhdr;
        }
      case WaitForPhdr =>
        lpEn := false;
        if !i.ldPyld && !r.ldPyldD0 && r.ldPyldD1 {
          state := LpXfr;
        }
      case LpXfr =>
        lpEn := false;
        if done {
          state := LvEnd;
        }
      case LvEnd =>
        if !i.fv && i.c2dReady {
          state := FvEnd;
        } else if r.lvStart {
          state := LvStart;
        }
      case FvEnd =>
        if i.dHsRdy {
          spEn := true;
          state := WaitFvEndDone;
        }
      case WaitFvEndDone =>
        spEn := false;
        if done {
          state := WaitFvStart;
        }
    }
  }

  /**
   * The combinational half of a byte-clock cycle: `dt`, `wc`, `hs_req` and the FIFO read
   * strobe as the current state's branch drives them (0 where it does not), then
   * `txfr_req` and the FIFO's head word.
   */
  method Drive(r: Regs, i: ByteInputs) returns (o: ByteOutputs)
    ensures o == ByteOutput(r, i)
  {
    var dt: bv8, wc: bv16, hsReq, re := 0, 0, false, false;
    var done := r.phdrXfrDoneD0 && !r.phdrXfrDoneD1;
    match r.state {
      case WaitFvStart =>
      case FvStart =>
        dt, wc := 0, 0;
      case WaitFvStartDone =>
        if done && !r.lvStart && i.lv {
          dt, wc := 0x1E, 3840;
        }
      case WaitLvStart =>
      case LvStart =>
        if i.dHsRdy {
          dt, wc := 0x1E, 3840;
        }
      case WaitForPhdr =>
        dt, wc := 0x1E, 3840;
      case LpXfr =>
        dt, wc := 0x1E, 3840;
        if |r.fifo| > 0 {
          re := true;
        }
      case LvEnd =>
        if !i.fv && i.c2dReady {
          hsReq := true;
        }
      case FvEnd =>
        hsReq := false;
        dt, wc := 1, 0;
      case WaitFvEndDone =>
        dt, wc := 1, 0;
    }
    var txfrReq := i.c2dReady && (r.fvStart || r.fvEnd || r.lvStart || hsReq);
    var data: bv16 := if |r.fifo| > 0 then r.fifo[0] else 0;
    o := ByteOutputs(dt, wc, hsReq, txfrReq, re, re, data);
  }

  /**
   * One byte-clock cycle: its outputs and the registers after its edge; the delay chains
   * shift and the FIFO gives up the word read, or empties while `fv_i` is low.
   */
  method ByteEdge(r: Regs, i: ByteInputs) returns (o: ByteOutputs, n: Regs)
    ensures o == ByteOutput(r, i) && n == ByteNext(r, i)
  {
    o := Drive(r, i);
    var state, spEn, lpEn := FsmEdge(r, i);
    var fifo := if !i.fv then [] else if o.fifoRe then r.fifo[1..] else r.fifo;
    n := r.(state := state, spEn := spEn, lpEn := lpEn,
            ldPyldD0 := i.ldPyld, ldPyldD1 := r.ldPyldD0,
            phdrXfrDoneD0 := i.phdrXfrDone, phdrXfrDoneD1 := r.phdrXfrDoneD0,
            fifo := fifo);
  }

  /** The FIFO's write side on a pixel-clock edge. */
  method FifoWriteSide(r: Regs, i: PixelInputs) returns (fifo: seq<bv16>)
    ensures fifo == FifoAfterWrite(r, i)
  {
    fifo := r.fifo;
    if !i.fv {
      fifo := [];
    } else if r.we && |r.fifo| < FifoDepth {
      fifo := r.fifo + [r.din];
    }
  }

  /** One edge detector's registered flags after a clock edge, given the delayed and current input. */
  method DetectEdge(d: bool, x: bool, start: bool, end: bool) returns (start': bool, end': bool)
    ensures start' == RiseFlag(d, x, start) && end' == FallFlag(d, x, end)
  {
    start', end' := start, end;
    if x && !d {
      start' := true;
    } else if d && !x {
      end' := true;
    } else {
      start', end' := false, false;
    }
  }

  /**
   * One pixel-clock edge on a register set: the FIFO takes the registered word if it has
   * room (or empties while `fv_i` is low), the edge detectors follow `fv_i` and `lv_i`, and
   * a new word is registered while both are high and the FIFO had room.
   */
  method PixelEdge(r: Regs, i: PixelInputs) returns (n: Regs)
    ensures n == PixelNext(r, i)
  {
    var fifo := FifoWriteSide(r, i);
    var writable := |r.fifo| < FifoDepth;
    var fvStart, fvEnd := DetectEdge(r.fvD, i.fv, r.fvStart, r.fvEnd);
    var lvStart, lvEnd := DetectEdge(r.lvD, i.lv, r.lvStart, r.lvEnd);
    var we, din := false, 0;
    if i.fv && i.lv && writable {
      we, din := true, Common.CatBytes(i.pixData0, i.pixData1);
    }
    n := r.(fvD := i.fv, lvD := i.lv, fvStart := fvStart, fvEnd := fvEnd,
            lvStart := lvStart, lvEnd := lvEnd, we := we, din := din, fifo := fifo);
  }

  /**
   * The block as a hardware object: its register file, FIFO included, changed in place by
   * the edges of its two clocks.
   */
  class Converter {
    var regs: Regs

    ghost predicate Valid()
      reads this
    {
      Inv(regs)
    }

    constructor ()
      ensures regs == ResetRegs && Valid()
    {
      regs := ResetRegs;
      ResetSatisfiesInv();
    }

    /** One pixel-clock edge: the edge detectors, the write strobe and the FIFO's write side. */
    method PixelStep(i: PixelInputs)
      requires Valid()
      modifies this
      ensures Valid()
      ensures regs == PixelNext(old(regs), i)
    {
      PixelNextPreservesInv(regs, i);
      regs := PixelEdge(regs, i);
    }

    /** One byte-clock cycle: returns this cycle's outputs and performs the byte-clock edge. */
    method ByteStep(i: ByteInputs) returns (o: ByteOutputs)
      requires Valid()
      modifies this
      ensures Valid()
      ensures o == ByteOutput(old(regs), i)
      ensures regs == ByteNext(old(regs), i)
    {
      ByteNextPreservesInv(regs, i);
      o, regs := ByteEdge(regs, i);
    }
  }
}
