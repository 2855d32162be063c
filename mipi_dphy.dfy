/**
 * The D-PHY lane sequencer (`TXGlobalOperations`): an init timer and a four-state FSM
 * that moves the clock lane and the data lanes from the LP-11 Stop state through the
 * HS-Request (LP-01), HS-Prepare (LP-00) and HS-Go states into high-speed mode, and back
 * through the HS-trail to Stop (sections 6.4 and 6.6 of MIPI D-PHY v1.1). Every phase
 * lasts a number of byte-clock cycles taken from a timing row; the phase counter and
 * the init counter are 14-bit registers.
 */
module MipiDphy {
  import opened Common

  datatype State = TxStop | TxClkEnable | TxDataEnable | TxHsDisable

  /** The LP levels of a lane's two wires; every data lane is driven with the same levels. */
  datatype Lp = Lp(p: bool, n: bool)

  const Lp11 := Lp(true, true)
  const Lp01 := Lp(false, true)
  const Lp00 := Lp(false, false)

  /** The registers of the block, including its registered outputs. */
  datatype Regs = Regs(
    state: State,
    counter: nat,          // `counter`, 14 bits
    tinitCounter: nat,     // `tinit_counter`, 14 bits
    tinitDone: bool,       // `tinit_done_o`
    dataEnR: bool,         // `byte_or_pkt_data_en_r`
    dphyReady: bool,       // `dphy_ready_o`
    dHsRdy: bool,          // `d_hs_rdy_o`
    hsClkEn: bool,         // `hs_clk_en_o`
    hsTxEn: bool,          // `hs_tx_en_o`
    lpTxDataEn: bool,      // `lp_tx_data_en_o`
    clk: Lp,               // `lp_tx_clk_p_o`, `lp_tx_clk_n_o`
    data: Lp)              // `lp_tx_data_p_o`, `lp_tx_data_n_o`

  /** The inputs of one cycle: `byte_or_pkt_data_en_i` and `d_hs_en_i`. */
  datatype Inputs = Inputs(dataEn: bool, dHsEn: bool)

  /** Every register at its reset value: state TX_STOP, everything else 0. */
  const ResetRegs := Regs(TxStop, 0, 0, false, false, false, false, false, false, false, Lp00, Lp00)

  /** A 14-bit register incremented by one, wrapping at 2^14. */
  function Inc(n: nat): (m: nat)
    ensures m < CounterModulus
    ensures n + 1 < CounterModulus ==> m == n + 1
    ensures n + 1 == CounterModulus ==> m == 0
  {
    (n + 1) % CounterModulus
  }

  /** The last counter value of TX_CLK_ENABLE's HS-Go sub-phase. */
  function ClkSum(t: ClockTimings): nat
  {
    t.tLpx + t.tClkPrep + t.tClkHsZero
  }

  /** The last counter value of TX_DATA_ENABLE's HS-Go sub-phase. */
  function DataSum(t: ClockTimings): nat
  {
    t.tClkPrep + t.tLpx + t.tDatPrep + t.tDatHsZero
  }

  /** The last counter value of TX_HS_DISABLE's clock-trail sub-phase. */
  function TrailSum(t: ClockTimings): nat
  {
    t.tClkPost + t.tClkTrail
  }

  /** A falling edge of `byte_or_pkt_data_en_i`: low now, high in the previous cycle. */
  predicate FallingEdge(r: Regs, i: Inputs)
  {
    !i.dataEn && r.dataEnR
  }

  /** The sub-phase of TX_CLK_ENABLE a counter value selects: 0 HS-Request, 1 HS-Prepare, 2 HS-Go, 3 leave. */
  function ClkPhase(t: ClockTimings, counter: nat): nat
  {
    if counter <= t.tLpx then 0
    else if counter <= t.tLpx + t.tClkPrep then 1
    else if counter <= ClkSum(t) then 2
    else 3
  }

  /**
   * The sub-phase of TX_DATA_ENABLE a counter value selects: 0 Stop, 1 HS-Request,
   * 2 HS-Prepare, 3 HS-Go, 4 HS enabled.
   */
  function DataPhase(t: ClockTimings, counter: nat): nat
  {
    if counter <= t.tClkPrep then 0
    else if counter <= t.tClkPrep + t.tLpx then 1
    else if counter <= t.tClkPrep + t.tLpx + t.tDatPrep then 2
    else if counter <= DataSum(t) then 3
    else 4
  }

  /** The sub-phase of TX_HS_DISABLE a counter value selects: 0 clock post, 1 clock trail, 2 leave. */
  function TrailPhase(t: ClockTimings, counter: nat): nat
  {
    if counter <= t.tClkPost then 0 else if counter <= TrailSum(t) then 1 else 2
  }

  /** The FSM state after an edge. */
  function NextState(t: ClockTimings, r: Regs, i: Inputs): State
  {
    match r.state
    case TxStop => if i.dHsEn && r.tinitDone then TxClkEnable else TxStop
    case TxClkEnable => if ClkPhase(t, r.counter) == 3 then TxDataEnable else TxClkEnable
    case TxDataEnable => if DataPhase(t, r.counter) == 4 && FallingEdge(r, i) then TxHsDisable else TxDataEnable
    case TxHsDisable => if TrailPhase(t, r.counter) == 2 then TxStop else TxHsDisable
  }

  /**
   * `counter` after an edge: held in TX_STOP, cleared on leaving TX_CLK_ENABLE or
   * TX_DATA_ENABLE and on the TX_STOP→TX_CLK_ENABLE transition, and otherwise incremented,
   * including on the TX_HS_DISABLE→TX_STOP transition.
   */
  function NextCounter(t: ClockTimings, r: Regs, i: Inputs): nat
  {
    match r.state
    case TxStop => if i.dHsEn && r.tinitDone then 0 else r.counter
    case TxClkEnable => if ClkPhase(t, r.counter) == 3 then 0 else Inc(r.counter)
    case TxDataEnable => if DataPhase(t, r.counter) == 4 && FallingEdge(r, i) then 0 else Inc(r.counter)
    case TxHsDisable => Inc(r.counter)
  }

  /** `dphy_ready_o` after an edge. */
  function NextDphyReady(r: Regs, i: Inputs): bool
  {
    r.state == TxStop && !(i.dHsEn && r.tinitDone)
  }

  /** `d_hs_rdy_o` after an edge. */
  function NextDHsRdy(t: ClockTimings, r: Regs): bool
  {
    match r.state
    case TxStop => false
    case TxClkEnable => r.dHsRdy
    case TxDataEnable => if DataPhase(t, r.counter) == 4 then true else r.dHsRdy
    case TxHsDisable => false
  }

  /** `hs_clk_en_o` after an edge. */
  function NextHsClkEn(t: ClockTimings, r: Regs): bool
  {
    match r.state
    case TxStop => r.hsClkEn
    case TxClkEnable => r.hsClkEn
    case TxDataEnable => true
    case TxHsDisable => TrailPhase(t, r.counter) == 0
  }

  /** `hs_tx_en_o` after an edge. */
  function NextHsTxEn(t: ClockTimings, r: Regs): bool
  {
    match r.state
    case TxStop => r.hsTxEn
    case TxClkEnable => r.hsTxEn
    case TxDataEnable => if DataPhase(t, r.counter) >= 3 then true else r.hsTxEn
    case TxHsDisable => false
  }

  /** `lp_tx_data_en_o` after an edge. */
  function NextLpTxDataEn(t: ClockTimings, r: Regs): bool
  {
    match r.state
    case TxStop => true
    case TxClkEnable => true
    case TxDataEnable => if DataPhase(t, r.counter) >= 3 then false else r.lpTxDataEn
    case TxHsDisable => true
  }

  /** The clock lane's LP levels after an edge. */
  function NextClk(t: ClockTimings, r: Regs, i: Inputs): Lp
  {
    match r.state
    case TxStop => if i.dHsEn && r.tinitDone then Lp01 else Lp11
    case TxClkEnable =>
      var p := ClkPhase(t, r.counter);
      if p == 0 || p == 2 then Lp01 else if p == 1 then Lp00 else r.clk
    case TxDataEnable => r.clk
    case TxHsDisable =>
      var p := TrailPhase(t, r.counter);
      if p == 0 then r.clk else if p == 1 then Lp01 else Lp11
  }

  /** The data lanes' LP levels after an edge. */
  function NextData(t: ClockTimings, r: Regs): Lp
  {
    match r.state
    case TxStop => Lp11
    case TxClkEnable => Lp11
    case TxDataEnable =>
      var p := DataPhase(t, r.counter);
      if p == 0 then Lp11 else if p == 1 || p == 3 then Lp01 else if p == 2 then Lp00 else r.data
    case TxHsDisable => Lp11
  }

  /** One rising edge of the byte clock: every register samples its next value at once. */
  function Next(t: ClockTimings, r: Regs, i: Inputs): Regs
  {
    Regs(
      NextState(t, r, i), NextCounter(t, r, i),
      if !r.tinitDone then Inc(r.tinitCounter) else r.tinitCounter,
      r.tinitCounter > t.tinitValue,
      i.dataEn,
      NextDphyReady(r, i), NextDHsRdy(t, r), NextHsClkEn(t, r), NextHsTxEn(t, r), NextLpTxDataEn(t, r),
      NextClk(t, r, i), NextData(t, r))
  }

  /** Both counters hold 14-bit values. */
  predicate CountersInRange(r: Regs)
  {
    r.counter < CounterModulus && r.tinitCounter < CounterModulus
  }

  /**
   * What holds of every register set reachable from reset: the init timer has either not
   * passed `TINIT_VALUE` yet or has, for good; HS transmission is off until the data lanes
   * enable it; and the clock-enable and HS-disable counters stay within their phase.
   */
  predicate Inv(t: ClockTimings, r: Regs)
  {
    && CountersInRange(r)
    && (r.tinitDone ==> r.tinitCounter > t.tinitValue)
    && (!r.tinitDone ==> r.tinitCounter <= t.tinitValue + 1)
    && (r.state == TxStop ==> !r.hsTxEn)
    && (r.state == TxClkEnable ==> !r.hsTxEn && !r.dHsRdy && r.lpTxDataEn && r.counter <= ClkSum(t) + 1)
    && (r.state == TxHsDisable ==> r.counter <= TrailSum(t) + 1)
  }

  lemma ResetSatisfiesInv(t: ClockTimings)
    ensures Inv(t, ResetRegs)
  {
  }

  /** Every edge keeps the invariant, for a timing row that fits the counters. */
  lemma NextPreservesInv(t: ClockTimings, r: Regs, i: Inputs)
    requires FitsCounters(t) && Inv(t, r)
    ensures Inv(t, Next(t, r, i))
  {
  }

  /**
   * `tinit_counter` advances only while `tinit_done_o` is low, and `tinit_done_o`, once
   * set, stays set.
   */
  lemma TinitMonotone(t: ClockTimings, r: Regs, i: Inputs)
    requires FitsCounters(t) && Inv(t, r)
    ensures r.tinitDone ==> Next(t, r, i).tinitDone && Next(t, r, i).tinitCounter == r.tinitCounter
    ensures !r.tinitDone ==> Next(t, r, i).tinitCounter == r.tinitCounter + 1
    ensures Next(t, r, i).tinitDone <==> r.tinitCounter > t.tinitValue
  {
  }

  /** Cycle `k` of a run: the registers of cycle `k + 1` are one edge applied to those of cycle `k`. */
  predicate StepAt(t: ClockTimings, rs: seq<Regs>, ins: seq<Inputs>, k: nat)
    requires |rs| == |ins| + 1 && k < |ins|
  {
    rs[k + 1] == Next(t, rs[k], ins[k])
  }

  /** `rs` holds the registers of every cycle of `ins` and those after its last edge. */
  predicate IsRun(t: ClockTimings, rs: seq<Regs>, ins: seq<Inputs>)
  {
    |rs| == |ins| + 1 && forall k :: 0 <= k < |ins| ==> StepAt(t, rs, ins, k)
  }

  /** The registers after the first `n` cycles of `ins`. */
  function After(t: ClockTimings, r: Regs, ins: seq<Inputs>, n: nat): Regs
    requires n <= |ins|
  {
    if n == 0 then r else Next(t, After(t, r, ins, n - 1), ins[n - 1])
  }

  /** The registers of every cycle of `ins`, starting from `r`. */
  function Run(t: ClockTimings, r: Regs, ins: seq<Inputs>): (rs: seq<Regs>)
    ensures IsRun(t, rs, ins) && rs[0] == r
  {
    seq(|ins| + 1, n requires 0 <= n <= |ins| => After(t, r, ins, n))
  }

  /**
   * From reset, `tinit_done_o` is low for the first `TINIT_VALUE + 2` edges and high from
   * then on, whatever the inputs; `tinit_counter` stops at `TINIT_VALUE + 2`.
   */
  lemma {:induction false} TinitFromReset(t: ClockTimings, rs: seq<Regs>, ins: seq<Inputs>, k: nat)
    requires FitsCounters(t) && IsRun(t, rs, ins) && rs[0] == ResetRegs && k <= |ins|
    ensures rs[k].tinitDone <==> k >= t.tinitValue + 2
    ensures rs[k].tinitCounter == if k <= t.tinitValue + 2 then k else t.tinitValue + 2
  {
    if k > 0 {
      TinitFromReset(t, rs, ins, k - 1);
      assert StepAt(t, rs, ins, k - 1);
    }
  }

  /** The registered copy of `byte_or_pkt_data_en_i` is the input one cycle late. */
  lemma {:induction false} DataEnDelayed(t: ClockTimings, rs: seq<Regs>, ins: seq<Inputs>, k: nat)
    requires IsRun(t, rs, ins) && 0 < k <= |ins|
    ensures rs[k].dataEnR == ins[k - 1].dataEn
  {
    assert StepAt(t, rs, ins, k - 1);
  }

  /** The Stop-state outputs: LP-11 on every lane, LP mode on, not in HS, ready for a request. */
  predicate StopOutputs(r: Regs)
  {
    r.dphyReady && !r.dHsRdy && r.lpTxDataEn && r.clk == Lp11 && r.data == Lp11
  }

  /**
   * A TX_STOP cycle: without a request, or before the init timer is done, the FSM stays
   * and drives the Stop-state outputs; with both, it resets the counter, drives the clock
   * lane LP-01, drops `dphy_ready_o` and enters TX_CLK_ENABLE.
   */
  lemma StopCycle(t: ClockTimings, r: Regs, i: Inputs)
    requires r.state == TxStop
    ensures var r' := Next(t, r, i);
      if i.dHsEn && r.tinitDone then
        r'.state == TxClkEnable && r'.counter == 0 && r'.clk == Lp01 && r'.data == Lp11
        && !r'.dphyReady && !r'.dHsRdy && r'.lpTxDataEn
      else
        r'.state == TxStop && StopOutputs(r')
  {
  }

  /** TX_STOP is left exactly on a request while the init timer is done. */
  lemma LeaveStopIff(t: ClockTimings, r: Regs, i: Inputs)
    requires r.state == TxStop
    ensures Next(t, r, i).state != TxStop <==> i.dHsEn && r.tinitDone
  {
  }

  /** `dphy_ready_o` is set by an edge exactly when TX_STOP stays in TX_STOP. */
  lemma ReadyOnlyInStop(t: ClockTimings, r: Regs, i: Inputs)
    ensures Next(t, r, i).dphyReady <==> r.state == TxStop && Next(t, r, i).state == TxStop
  {
  }

  /**
   * The clock lane `j` edges into TX_CLK_ENABLE: HS-Request (LP-01) for the first
   * `T_LPX + 1` edges, HS-Prepare (LP-00) for the next `T_CLKPREP`, then HS-Go (LP-01).
   */
  function ClkLaneAfter(t: ClockTimings, j: nat): Lp
  {
    if j <= t.tLpx + 1 then Lp01 else if j <= t.tLpx + t.tClkPrep + 1 then Lp00 else Lp01
  }

  /**
   * TX_CLK_ENABLE, entered with the counter at 0, keeps the data lanes at LP-11 and
   * stays `ClkSum + 1` edges, stepping the clock lane through its LP sequence, whatever
   * the inputs.
   */
  lemma {:induction false} ClkEnablePhase(t: ClockTimings, rs: seq<Regs>, ins: seq<Inputs>, m: nat, j: nat)
    requires FitsCounters(t) && IsRun(t, rs, ins) && m + j <= |ins| && j <= ClkSum(t) + 1
    requires rs[m].state == TxClkEnable && rs[m].counter == 0
    ensures rs[m + j].state == TxClkEnable && rs[m + j].counter == j
    ensures rs[m + j].hsTxEn == rs[m].hsTxEn && rs[m + j].dHsRdy == rs[m].dHsRdy
    ensures 0 < j ==> rs[m + j].clk == ClkLaneAfter(t, j) && rs[m + j].data == Lp11
                      && rs[m + j].lpTxDataEn && !rs[m + j].dphyReady
  {
    if j > 0 {
      ClkEnablePhase(t, rs, ins, m, j - 1);
      assert StepAt(t, rs, ins, m + j - 1);
    }
  }

  /** After `ClkSum + 2` edges TX_CLK_ENABLE hands over to TX_DATA_ENABLE with the counter reset. */
  lemma ClkEnableEnds(t: ClockTimings, rs: seq<Regs>, ins: seq<Inputs>, m: nat)
    requires FitsCounters(t) && IsRun(t, rs, ins) && m + ClkSum(t) + 2 <= |ins|
    requires rs[m].state == TxClkEnable && rs[m].counter == 0
    ensures var e := m + ClkSum(t) + 2;
      rs[e].state == TxDataEnable && rs[e].counter == 0 && rs[e].clk == ClkLaneAfter(t, ClkSum(t) + 1)
      && rs[e].data == Lp11 && rs[e].lpTxDataEn && !rs[e].dphyReady
      && rs[e].hsTxEn == rs[m].hsTxEn && rs[e].dHsRdy == rs[m].dHsRdy
  {
    ClkEnablePhase(t, rs, ins, m, ClkSum(t) + 1);
    assert StepAt(t, rs, ins, m + ClkSum(t) + 1);
  }

  /**
   * The data lanes `j` edges into TX_DATA_ENABLE: LP-11 for the first `T_CLKPREP + 1`
   * edges, HS-Request (LP-01) for the next `T_LPX`, HS-Prepare (LP-00) for `T_DATPREP`,
   * then HS-Go (LP-01).
   */
  function DataLaneAfter(t: ClockTimings, j: nat): Lp
  {
    if j <= t.tClkPrep + 1 then Lp11
    else if j <= t.tClkPrep + t.tLpx + 1 then Lp01
    else if j <= t.tClkPrep + t.tLpx + t.tDatPrep + 1 then Lp00
    else Lp01
  }

  /** Whether HS transmission has been switched on `j` edges into TX_DATA_ENABLE (the HS-Go sub-phase). */
  predicate HsGoAfter(t: ClockTimings, j: nat)
  {
    j > t.tClkPrep + t.tLpx + t.tDatPrep + 1
  }

  /**
   * TX_DATA_ENABLE, entered with the counter at 0 and HS off, enables the HS clock and
   * stays `DataSum + 1` edges stepping the data lanes through their LP sequence; LP mode
   * is switched off and HS transmission on for the HS-Go sub-phase, and `d_hs_rdy_o`
   * stays low, whatever the inputs.
   */
  lemma {:induction false} DataEnablePhase(t: ClockTimings, rs: seq<Regs>, ins: seq<Inputs>, m: nat, j: nat)
    requires FitsCounters(t) && IsRun(t, rs, ins) && m + j <= |ins| && j <= DataSum(t) + 1
    requires rs[m].state == TxDataEnable && rs[m].counter == 0
    requires !rs[m].hsTxEn && !rs[m].dHsRdy && rs[m].lpTxDataEn
    ensures rs[m + j].state == TxDataEnable && rs[m + j].counter == j && !rs[m + j].dHsRdy
    ensures 0 < j ==> rs[m + j].hsClkEn && rs[m + j].data == DataLaneAfter(t, j) && !rs[m + j].dphyReady
    ensures rs[m + j].hsTxEn == HsGoAfter(t, j) && rs[m + j].lpTxDataEn == !HsGoAfter(t, j)
  {
    if j > 0 {
      DataEnablePhase(t, rs, ins, m, j - 1);
      assert StepAt(t, rs, ins, m + j - 1);
    }
  }

  /**
   * The HS-enabled cycles of TX_DATA_ENABLE (counter past `DataSum`): the edge raises
   * `d_hs_rdy_o` and keeps HS on, and it leaves for TX_HS_DISABLE, counter reset, exactly
   * on a falling edge of `byte_or_pkt_data_en_i`; otherwise the counter keeps counting,
   * modulo 2^14.
   */
  lemma HsEnabledCycle(t: ClockTimings, r: Regs, i: Inputs)
    requires r.state == TxDataEnable && r.counter > DataSum(t) && r.counter < CounterModulus
    ensures var r' := Next(t, r, i);
      && r'.dHsRdy && r'.hsTxEn && r'.hsClkEn && !r'.lpTxDataEn && !r'.dphyReady && r'.data == r.data
      && (r'.state == TxHsDisable <==> FallingEdge(r, i))
      && (if FallingEdge(r, i) then r'.counter == 0
          else r'.state == TxDataEnable && r'.counter == (r.counter + 1) % CounterModulus)
  {
  }

  /** TX_DATA_ENABLE goes to TX_HS_DISABLE only from an HS-enabled cycle with a falling edge; otherwise it stays. */
  lemma DataEnableExitIff(t: ClockTimings, r: Regs, i: Inputs)
    requires r.state == TxDataEnable
    ensures Next(t, r, i).state in {TxDataEnable, TxHsDisable}
    ensures Next(t, r, i).state == TxHsDisable <==> r.counter > DataSum(t) && !i.dataEn && r.dataEnR
  {
  }

  /**
   * In a run, HS mode is left at edge `k` exactly when `byte_or_pkt_data_en_i` was high
   * in cycle `k - 1` and is low in cycle `k`.
   */
  lemma HsExitOnFallingEdge(t: ClockTimings, rs: seq<Regs>, ins: seq<Inputs>, k: nat)
    requires IsRun(t, rs, ins) && 0 < k < |ins| && rs[k].state == TxDataEnable
    ensures rs[k + 1].state == TxHsDisable <==> rs[k].counter > DataSum(t) && ins[k - 1].dataEn && !ins[k].dataEn
  {
    DataEnDelayed(t, rs, ins, k);
    assert StepAt(t, rs, ins, k);
  }

  /**
   * The 14-bit counter of a long HS burst wraps: from counter `2^14 - 1`, two HS-enabled
   * edges without a falling edge bring the counter to 0 and then drive the data lanes'
   * LP levels back to LP-11, while `hs_tx_en_o` and `d_hs_rdy_o` stay high.
   */
  lemma HsCounterWraps(t: ClockTimings, rs: seq<Regs>, ins: seq<Inputs>, k: nat)
    requires FitsCounters(t) && IsRun(t, rs, ins) && k + 2 <= |ins|
    requires rs[k].state == TxDataEnable && rs[k].counter == CounterModulus - 1
    requires !FallingEdge(rs[k], ins[k])
    ensures rs[k + 1].state == TxDataEnable && rs[k + 1].counter == 0
    ensures rs[k + 2].state == TxDataEnable && rs[k + 2].counter == 1
    ensures rs[k + 2].data == Lp11 && rs[k + 2].hsTxEn && rs[k + 2].dHsRdy
  {
    assert StepAt(t, rs, ins, k);
    assert StepAt(t, rs, ins, k + 1);
  }

  /**
   * TX_HS_DISABLE, entered with the counter at 0, switches HS transmission and
   * `d_hs_rdy_o` off and the data lanes to LP-11 at once; it keeps the HS clock for the
   * first `T_CLKPOST + 1` edges and then drives the clock lane LP-01 for `T_CLKTRAIL`.
   */
  lemma {:induction false} HsDisablePhase(t: ClockTimings, rs: seq<Regs>, ins: seq<Inputs>, m: nat, j: nat)
    requires FitsCounters(t) && IsRun(t, rs, ins) && m + j <= |ins| && j <= TrailSum(t) + 1
    requires rs[m].state == TxHsDisable && rs[m].counter == 0
    ensures rs[m + j].state == TxHsDisable && rs[m + j].counter == j
    ensures 0 < j ==> && !rs[m + j].hsTxEn && !rs[m + j].dHsRdy && !rs[m + j].dphyReady
                      && rs[m + j].data == Lp11 && rs[m + j].lpTxDataEn
                      && rs[m + j].hsClkEn == (j <= t.tClkPost + 1)
                      && rs[m + j].clk == (if j <= t.tClkPost + 1 then rs[m].clk else Lp01)
  {
    if j > 0 {
      HsDisablePhase(t, rs, ins, m, j - 1);
      assert StepAt(t, rs, ins, m + j - 1);
    }
  }

  /**
   * After `TrailSum + 2` edges TX_HS_DISABLE returns to TX_STOP with every lane at LP-11,
   * and one more edge without a request restores all the Stop-state outputs.
   */
  lemma HsDisableRestoresStop(t: ClockTimings, rs: seq<Regs>, ins: seq<Inputs>, m: nat)
    requires FitsCounters(t) && IsRun(t, rs, ins) && m + TrailSum(t) + 3 <= |ins|
    requires rs[m].state == TxHsDisable && rs[m].counter == 0
    requires !ins[m + TrailSum(t) + 2].dHsEn
    ensures var e := m + TrailSum(t) + 2;
      && rs[e].state == TxStop && rs[e].clk == Lp11 && rs[e].data == Lp11 && rs[e].lpTxDataEn
      && !rs[e].hsClkEn && !rs[e].hsTxEn && !rs[e].dHsRdy && !rs[e].dphyReady
      && rs[e + 1].state == TxStop && StopOutputs(rs[e + 1]) && !rs[e + 1].hsClkEn && !rs[e + 1].hsTxEn
  {
    var e := m + TrailSum(t) + 2;
    HsDisablePhase(t, rs, ins, m, TrailSum(t) + 1);
    assert StepAt(t, rs, ins, e - 1);
    assert StepAt(t, rs, ins, e);
  }

  /**
   * The LP-to-HS switch: a request in TX_STOP once the init timer is done raises
   * `d_hs_rdy_o` after exactly `ClkSum + DataSum + 5` edges, with HS transmission and the
   * HS clock on and LP mode off; `d_hs_rdy_o` stays low until then.
   */
  lemma LpToHs(t: ClockTimings, rs: seq<Regs>, ins: seq<Inputs>, m: nat)
    requires FitsCounters(t) && IsRun(t, rs, ins) && m + ClkSum(t) + DataSum(t) + 5 <= |ins|
    requires Inv(t, rs[m]) && rs[m].state == TxStop && rs[m].tinitDone && ins[m].dHsEn
    ensures var e := m + ClkSum(t) + DataSum(t) + 5;
      && rs[e].dHsRdy && rs[e].hsTxEn && rs[e].hsClkEn && !rs[e].lpTxDataEn && !rs[e].dphyReady
      && rs[e].state in {TxDataEnable, TxHsDisable}
      && forall k :: m < k < e ==> !rs[k].dHsRdy
  {
    var c := m + 1;
    var d := c + ClkSum(t) + 2;
    var e := d + DataSum(t) + 2;
    assert StepAt(t, rs, ins, m);
    ClkEnableEnds(t, rs, ins, c);
    DataEnablePhase(t, rs, ins, d, DataSum(t) + 1);
    assert StepAt(t, rs, ins, e - 1);
    forall k | m < k < e
      ensures !rs[k].dHsRdy
    {
      if k < d {
        ClkEnablePhase(t, rs, ins, c, k - c);
      } else {
        DataEnablePhase(t, rs, ins, d, k - d);
      }
    }
  }

  /**
   * One rising edge, statement by statement: starting from the sampled values `r`, the
   * init timer's assignments and then those of the current state's branch, the last one
   * winning.
   */
  method Edge(t: ClockTimings, r: Regs, i: Inputs) returns (n: Regs)
    ensures n == Next(t, r, i)
  {
    var tinitCounter, tinitDone := r.tinitCounter, r.tinitDone;
    if !r.tinitDone {
      tinitCounter := Inc(r.tinitCounter);
    }
    tinitDone := r.tinitCounter > t.tinitValue;
    var dataEnR := i.dataEn;
    var state, counter, dphyReady, dHsRdy, hsClkEn, hsTxEn, lpTxDataEn, clk, data :=
      r.state, r.counter, r.dphyReady, r.dHsRdy, r.hsClkEn, r.hsTxEn, r.lpTxDataEn, r.clk, r.data;
    match r.state {
      case TxStop =>
        lpTxDataEn := true;
        dHsRdy := false;
        clk := Lp11;
        data := Lp11;
        dphyReady := true;
        if i.dHsEn && r.tinitDone {
          counter := 0;
          dphyReady := false;
          clk := Lp01;
          state := TxClkEnable;
        }
      case TxClkEnable =>
        counter := Inc(r.counter);
        dphyReady := false;
        data := Lp11;
        lpTxDataEn := true;
        if r.counter <= t.tLpx {
          clk := Lp01;
        } else if r.counter <= t.tLpx + t.tClkPrep {
          clk := Lp00;
        } else if r.counter <= t.tLpx + t.tClkPrep + t.tClkHsZero {
          clk := Lp01;
        } else {
          counter := 0;
          state := TxDataEnable;
        }
      case TxDataEnable =>
        counter := Inc(r.counter);
        dphyReady := false;
        hsClkEn := true;
        if r.counter <= t.tClkPrep {
          data := Lp11;
        } else if r.counter <= t.tClkPrep + t.tLpx {
          data := Lp01;
        } else if r.counter <= t.tClkPrep + t.tLpx + t.tDatPrep {
          data := Lp00;
        } else if r.counter <= t.tClkPrep + t.tLpx + t.tDatPrep + t.tDatHsZero {
          lpTxDataEn := false;
          hsTxEn := true;
          data := Lp01;
        } else {
          lpTxDataEn := false;
          dHsRdy := true;
          hsTxEn := true;
          if !i.dataEn && r.dataEnR {
            counter := 0;
            state := TxHsDisable;
          }
        }
      case TxHsDisable =>
        counter := Inc(r.counter);
        dphyReady := false;
        hsTxEn := false;
        dHsRdy := false;
        data := Lp11;
        if r.counter <= t.tClkPost {
          hsClkEn := true;
          lpTxDataEn := true;
        } else if r.counter <= t.tClkPost + t.tClkTrail {
          hsClkEn := false;
          lpTxDataEn := true;
          clk := Lp01;
        } else {
          hsClkEn := false;
          lpTxDataEn := true;
          clk := Lp11;
          state := TxStop;
        }
    }
    n := Regs(state, counter, tinitCounter, tinitDone, dataEnR, dphyReady, dHsRdy, hsClkEn, hsTxEn, lpTxDataEn, clk, data);
  }

  /** The block as a hardware object: one field per register, stepped once per byte-clock edge. */
  class TxGlobalOperations {
    const timings: ClockTimings
    var state: State
    var counter: nat
    var tinitCounter: nat
    var tinitDone: bool
    var dataEnR: bool
    var dphyReady: bool
    var dHsRdy: bool
    var hsClkEn: bool
    var hsTxEn: bool
    var lpTxDataEn: bool
    var clk: Lp
    var data: Lp

    function Registers(): Regs
      reads this
    {
      Regs(state, counter, tinitCounter, tinitDone, dataEnR, dphyReady, dHsRdy, hsClkEn, hsTxEn, lpTxDataEn, clk, data)
    }

    /** The reachable-state invariant, for the instance's timing row. */
    ghost predicate Valid()
      reads this
    {
      Inv(timings, Registers())
    }

    /** An instance for a timing row, in its reset state. */
    constructor (t: ClockTimings)
      ensures timings == t && Registers() == ResetRegs && Valid()
    {
      timings := t;
      state := TxStop;
      counter := 0;
      tinitCounter := 0;
      tinitDone := false;
      dataEnR := false;
      dphyReady := false;
      dHsRdy := false;
      hsClkEn := false;
      hsTxEn := false;
      lpTxDataEn := false;
      clk := Lp00;
      data := Lp00;
    }

    /**
     * One rising edge: every register takes the value its statements assign, the last
     * assignment winning, computed from the values sampled before the edge.
     */
    method Step(i: Inputs)
      requires FitsCounters(timings) && Valid()
      modifies this
      ensures Valid()
      ensures Registers() == Next(timings, old(Registers()), i)
    {
      var r := Registers();
      var n := Edge(timings, r, i);
      NextPreservesInv(timings, r, i);
      state := n.state;
      counter := n.counter;
      tinitCounter := n.tinitCounter;
      tinitDone := n.tinitDone;
      dataEnR := n.dataEnR;
      dphyReady := n.dphyReady;
      dHsRdy := n.dHsRdy;
      hsClkEn := n.hsClkEn;
      hsTxEn := n.hsTxEn;
      lpTxDataEn := n.lpTxDataEn;
      clk := n.clk;
      data := n.data;
      assert Registers() == n;
    }
  }
}
