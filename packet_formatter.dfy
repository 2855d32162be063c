/**
 * The CSI-2 packet formatter: a four-state machine clocked by the D-PHY byte clock.
 * On a short- or long-packet request it drives the sync word, the two header words,
 * (for a long packet) waits out the payload while folding it into the checksum, then
 * drives the checksum and the HS trail, and pulses `phdr_xfr_done_o`.
 *
 * `Next` is one rising clock edge, `Output` the combinational outputs of the current
 * cycle; `Formatter` is the hardware block with one field per register.
 */
module PacketFormatter {
  import opened PacketHeader
  import Crc16
  import Common

  /** `payload_cnt` is declared `Signal(max=3840)`, i.e. 12 bits wide. */
  const PayloadCntModulus: nat := 4096

  datatype State = WaitForPacketReq | GenerateHeader | ComputeCrc | EoT

  /**
   * Per-instance parameters: the lane count, `T_DATTRAIL` of the selected timing row, the
   * combinational ECC generator that feeds the `ecc` register (`PacketHeader.Ecc` in the
   * block) and the checksum generator `crc_gen` (`Crc16.Step` in the block). The state
   * machine's properties hold for any generators.
   */
  datatype Config = Config(
    fourLanes: bool, tDatTrail: nat, eccGen: (U8, bv16) -> bv16, crcGen: (bv16, bv16) -> bv16)

  /** The inputs sampled in one cycle. */
  datatype Inputs = Inputs(vc: U2, dt: U6, wc: bv16, spEn: bool, lpEn: bool, byteData: bv16)

  /** Every register of the block; `ldPyld` is the output `ld_pyld_o`. */
  datatype Regs = Regs(
    state: State, payloadCnt: nat, crc: bv16, ecc: bv16,
    longXfr: bool, lastData: bv16, ldPyld: bool)

  /** The combinational outputs `data_o` and `phdr_xfr_done_o`. */
  datatype Outputs = Outputs(data: bv16, phdrXfrDone: bool)

  const ResetRegs: Regs := Regs(WaitForPacketReq, 0, 0, 0, false, 0, false)

  predicate ValidRegs(r: Regs)
  {
    r.payloadCnt < PayloadCntModulus
  }

  function Inc(n: nat): (m: nat)
    ensures m < PayloadCntModulus
  {
    (n + 1) % PayloadCntModulus
  }

  /** The number of 16-bit payload words of a long packet, `wc_i >> 1`. */
  function PayloadWords(wc: bv16): nat
  {
    (wc as nat) / 2
  }

  /**
   * `payload_cnt == (wc_i >> 1) - 1`. The subtraction is 17 bits wide and unsigned, so for
   * `wc_i >> 1 == 0` the right-hand side is 2^17 - 1, which the 12-bit counter never reaches.
   */
  predicate LastPayloadCycle(cnt: nat, wc: bv16)
  {
    PayloadWords(wc) != 0 && cnt == PayloadWords(wc) - 1
  }

  /** The compare above is the 17-bit unsigned one of the hardware, for every 12-bit counter value. */
  lemma LastPayloadCycleUnsigned(cnt: nat, wc: bv16)
    requires cnt < PayloadCntModulus
    ensures LastPayloadCycle(cnt, wc) <==> cnt == (PayloadWords(wc) - 1) % 0x2_0000
  {
  }

  /** `phdr_xfr_done_o`: raised in EoT when the counter reaches the end of the trailer. */
  function Done(c: Config, r: Regs): bool
  {
    && r.state == EoT
    && if r.longXfr then r.payloadCnt != 0 && r.payloadCnt != 1 && r.payloadCnt == c.tDatTrail
       else r.payloadCnt != 0 && r.payloadCnt == c.tDatTrail as int - 1
  }

  /** `data_o` in the cycle whose registers are `r` and inputs `i` (0 unless driven). */
  function Data(c: Config, r: Regs, i: Inputs): bv16
  {
    match r.state
    case WaitForPacketReq =>
      if i.spEn || i.lpEn then SyncWord else 0
    case GenerateHeader =>
      if r.payloadCnt == 0 then HeaderWord0(i.dt, i.wc)
      else if r.payloadCnt == 1 then HeaderWord1(i.wc, r.ecc)
      else 0
    case ComputeCrc =>
      0
    case EoT =>
      if r.longXfr && r.payloadCnt == 0 then r.crc
      else if r.payloadCnt == (if r.longXfr then 1 else 0) then TrailerWord(r.lastData)
      else r.lastData
  }

  /** Both combinational outputs of the cycle. */
  function Output(c: Config, r: Regs, i: Inputs): Outputs
  {
    Outputs(Data(c, r, i), Done(c, r))
  }

  /** The state register's next value. */
  function NextState(c: Config, r: Regs, i: Inputs): State
  {
    match r.state
    case WaitForPacketReq =>
      if i.spEn || i.lpEn then GenerateHeader else WaitForPacketReq
    case GenerateHeader =>
      if r.payloadCnt != 1 then GenerateHeader else if r.longXfr then ComputeCrc else EoT
    case ComputeCrc =>
      if LastPayloadCycle(r.payloadCnt, i.wc) then EoT else ComputeCrc
    case EoT =>
      if Done(c, r) then WaitForPacketReq else EoT
  }

  /** `payload_cnt`'s next value: cleared on entering a state, counting within it. */
  function NextCnt(r: Regs, i: Inputs): (n: nat)
    ensures n < PayloadCntModulus
  {
    match r.state
    case WaitForPacketReq => 0
    case GenerateHeader => if r.payloadCnt == 1 then 0 else Inc(r.payloadCnt)
    case ComputeCrc => if LastPayloadCycle(r.payloadCnt, i.wc) then 0 else Inc(r.payloadCnt)
    case EoT => Inc(r.payloadCnt)
  }

  /** `crc`'s next value: seeded when the header of a long packet ends, one payload word folded in per cycle of COMPUTE_CRC. */
  function NextCrc(c: Config, r: Regs, i: Inputs): bv16
  {
    match r.state
    case GenerateHeader => if r.payloadCnt == 1 && r.longXfr then Crc16.Seed else r.crc
    case ComputeCrc => c.crcGen(r.crc, i.byteData)
    case _ => r.crc
  }

  /** `long_xfr`'s next value: set by a long-packet request, cleared by a short one or by the end of a transfer. */
  function NextLongXfr(c: Config, r: Regs, i: Inputs): bool
  {
    if i.lpEn then true else if i.spEn || Done(c, r) then false else r.longXfr
  }

  /** The registers after one rising edge; `ecc` samples the code of this cycle's header fields. */
  function Next(c: Config, r: Regs, i: Inputs): Regs
  {
    Regs(
      NextState(c, r, i), NextCnt(r, i), NextCrc(c, r, i), c.eccGen(DataId(i.dt, i.vc), i.wc),
      NextLongXfr(c, r, i), Data(c, r, i), i.lpEn)
  }

  /** The registers after the first `n` cycles of `ins`. */
  function After(c: Config, r: Regs, ins: seq<Inputs>, n: nat): Regs
    requires n <= |ins|
  {
    if n == 0 then r else Next(c, After(c, r, ins, n - 1), ins[n - 1])
  }

  /** Cycle `k` of a run: the registers of cycle `k + 1` are one edge applied to those of cycle `k`. */
  predicate StepAt(c: Config, rs: seq<Regs>, ins: seq<Inputs>, k: nat)
    requires |rs| == |ins| + 1 && k < |ins|
  {
    rs[k + 1] == Next(c, rs[k], ins[k])
  }

  /** `rs` holds the registers of every cycle of `ins` and those after its last edge. */
  predicate IsRun(c: Config, rs: seq<Regs>, ins: seq<Inputs>)
  {
    |rs| == |ins| + 1 && forall k :: 0 <= k < |ins| ==> StepAt(c, rs, ins, k)
  }

  /** The registers of every cycle of `ins`, starting from `r`. */
  function Run(c: Config, r: Regs, ins: seq<Inputs>): (rs: seq<Regs>)
    ensures IsRun(c, rs, ins) && rs[0] == r
  {
    seq(|ins| + 1, n requires 0 <= n <= |ins| => After(c, r, ins, n))
  }

  /** Two runs of the same inputs from the same registers agree in every cycle: the block is deterministic. */
  lemma RunsAgree(c: Config, rs: seq<Regs>, qs: seq<Regs>, ins: seq<Inputs>)
    requires IsRun(c, rs, ins) && IsRun(c, qs, ins) && rs[0] == qs[0]
    ensures rs == qs
  {
    forall n | 0 <= n <= |ins|
      ensures rs[n] == qs[n]
    {
      RunsAgreeUpTo(c, rs, qs, ins, n);
    }
  }

  lemma {:induction false} RunsAgreeUpTo(c: Config, rs: seq<Regs>, qs: seq<Regs>, ins: seq<Inputs>, n: nat)
    requires IsRun(c, rs, ins) && IsRun(c, qs, ins) && rs[0] == qs[0] && n <= |ins|
    ensures rs[n] == qs[n]
  {
    if n > 0 {
      RunsAgreeUpTo(c, rs, qs, ins, n - 1);
      assert StepAt(c, rs, ins, n - 1) && StepAt(c, qs, ins, n - 1);
    }
  }

  /** The outputs of every cycle of a run. */
  function Trace(c: Config, rs: seq<Regs>, ins: seq<Inputs>): (os: seq<Outputs>)
    requires |rs| == |ins| + 1
    ensures |os| == |ins|
  {
    seq(|ins|, n requires 0 <= n < |ins| => Output(c, rs[n], ins[n]))
  }

  /** No request in a cycle. */
  predicate Quiet(i: Inputs)
  {
    !i.spEn && !i.lpEn
  }

  /** Cycles `lo` to `hi - 1` carry no request. */
  predicate QuietBetween(ins: seq<Inputs>, lo: nat, hi: nat)
    requires lo <= hi <= |ins|
  {
    forall k :: lo <= k < hi ==> Quiet(ins[k])
  }

  /**
   * Cycles `lo` to `hi - 1` carry no new request and keep the header fields of `req`, as the
   * formatter's callers must while a packet is generated.
   */
  predicate Holds(ins: seq<Inputs>, lo: nat, hi: nat, req: Inputs)
    requires lo <= hi <= |ins|
  {
    forall k :: lo <= k < hi ==> Quiet(ins[k]) && ins[k].vc == req.vc && ins[k].dt == req.dt && ins[k].wc == req.wc
  }

  /** The running checksum after the words `ws`, one application of the block's generator per word. */
  function RunningCrc(c: Config, crc: bv16, ws: seq<bv16>): bv16
    decreases |ws|
  {
    if ws == [] then crc else c.crcGen(RunningCrc(c, crc, ws[..|ws| - 1]), ws[|ws| - 1])
  }

  /** With the CSI-2 generator of the block, the running checksum is the CSI-2 checksum fold. */
  lemma {:induction false} RunningCrcIsWords(c: Config, crc: bv16, ws: seq<bv16>)
    requires c.crcGen == Crc16.Step
    ensures RunningCrc(c, crc, ws) == Crc16.Words(crc, ws)
    decreases |ws|
  {
    if ws != [] {
      var front, w := ws[..|ws| - 1], ws[|ws| - 1];
      RunningCrcIsWords(c, crc, front);
      assert ws == front + [w];
      Crc16.WordsSnoc(crc, front, w);
    }
  }

  /** The payload words presented on `byte_data_i`. */
  function Payload(ins: seq<Inputs>): (ws: seq<bv16>)
    ensures |ws| == |ins| && forall k :: 0 <= k < |ins| ==> ws[k] == ins[k].byteData
  {
    seq(|ins|, k requires 0 <= k < |ins| => ins[k].byteData)
  }

  /** `n` idle cycles: `data_o` is 0 and no pulse. */
  function Idle(n: nat): (os: seq<Outputs>)
    ensures |os| == n && forall k :: 0 <= k < n ==> os[k] == Outputs(0, false)
  {
    seq(n, k => Outputs(0, false))
  }

  /** `n` cycles holding word `w`, with `phdr_xfr_done_o` in the last one only. */
  function Hold(w: bv16, n: nat): (os: seq<Outputs>)
    ensures |os| == n && forall k :: 0 <= k < n ==> os[k] == Outputs(w, k == n - 1)
  {
    seq(n, k => Outputs(w, k == n - 1))
  }

  /**
   * In WAIT_FOR_PACKET_REQ a request moves to GENERATE_HEADER with the counter cleared and
   * drives the sync word in the same cycle; without one nothing is driven.
   * `long_xfr` records which kind of packet was requested.
   */
  lemma RequestStartsPacket(c: Config, r: Regs, i: Inputs)
    requires r.state == WaitForPacketReq
    ensures Next(c, r, i).state == GenerateHeader <==> i.spEn || i.lpEn
    ensures Output(c, r, i) == Outputs(if i.spEn || i.lpEn then 0xB8B8 else 0, false)
    ensures Next(c, r, i).payloadCnt == 0
    ensures i.spEn || i.lpEn ==> Next(c, r, i).longXfr == i.lpEn
  {
  }

  /** The first header cycle drives `Cat(dt_i, wc_i[:8])` and samples the code of this cycle's header into `ecc`. */
  lemma HeaderCycle0(c: Config, r: Regs, i: Inputs)
    requires r.state == GenerateHeader && r.payloadCnt == 0 && Quiet(i)
    ensures Output(c, r, i) == Outputs(HeaderWord0(i.dt, i.wc), false)
    ensures var r' := Next(c, r, i);
      && r'.state == GenerateHeader && r'.payloadCnt == 1 && r'.longXfr == r.longXfr
      && r'.ecc == c.eccGen(DataId(i.dt, i.vc), i.wc)
  {
  }

  /**
   * The second header cycle drives `Cat(wc_i[8:], ecc)`, clears the counter and, for a long
   * packet, seeds the checksum with 0xFFFF and computes it; a short packet goes to the trailer.
   */
  lemma HeaderCycle1(c: Config, r: Regs, i: Inputs)
    requires r.state == GenerateHeader && r.payloadCnt == 1 && Quiet(i)
    ensures Output(c, r, i) == Outputs(HeaderWord1(i.wc, r.ecc), false)
    ensures var r' := Next(c, r, i);
      && r'.payloadCnt == 0 && r'.longXfr == r.longXfr && r'.lastData == HeaderWord1(i.wc, r.ecc)
      && (if r.longXfr then r'.state == ComputeCrc && r'.crc == Crc16.Seed else r'.state == EoT)
  {
  }

  /** A COMPUTE_CRC cycle drives nothing, folds `byte_data_i` into `crc` and leaves at the last payload word. */
  lemma CrcCycle(c: Config, r: Regs, i: Inputs)
    requires r.state == ComputeCrc
    ensures Output(c, r, i) == Outputs(0, false)
    ensures var r' := Next(c, r, i);
      && r'.state == (if LastPayloadCycle(r.payloadCnt, i.wc) then EoT else ComputeCrc)
      && r'.payloadCnt == (if LastPayloadCycle(r.payloadCnt, i.wc) then 0 else Inc(r.payloadCnt))
      && r'.crc == c.crcGen(r.crc, i.byteData)
      && r'.longXfr == (if i.lpEn then true else if i.spEn then false else r.longXfr)
      && r'.lastData == 0
  {
  }

  /** The cycle at which EoT raises `phdr_xfr_done_o`: `T_DATTRAIL - 1` for a short packet, `T_DATTRAIL` for a long one. */
  function DoneCount(c: Config, long: bool): int
  {
    if long then c.tDatTrail else c.tDatTrail as int - 1
  }

  /**
   * Past the first trailer word an EoT cycle repeats `last_data`, pulses `phdr_xfr_done_o`
   * exactly when the counter is at the done count and then returns to WAIT_FOR_PACKET_REQ.
   */
  lemma TrailCycle(c: Config, r: Regs, i: Inputs)
    requires r.state == EoT && Quiet(i) && c.tDatTrail < PayloadCntModulus
    requires 1 <= r.payloadCnt <= DoneCount(c, r.longXfr) && (r.longXfr ==> 2 <= r.payloadCnt)
    ensures Output(c, r, i) == Outputs(r.lastData, r.payloadCnt == DoneCount(c, r.longXfr))
    ensures var r' := Next(c, r, i);
      && r'.lastData == r.lastData
      && if r.payloadCnt == DoneCount(c, r.longXfr) then r'.state == WaitForPacketReq && !r'.longXfr
         else r'.state == EoT && r'.payloadCnt == r.payloadCnt + 1 && r'.longXfr == r.longXfr
  {
  }

  /**
   * The first trailer cycle: a short packet drives the trailer word inverting the last
   * header word, a long packet drives the checksum.
   */
  lemma TrailStart(c: Config, r: Regs, i: Inputs)
    requires r.state == EoT && r.payloadCnt == 0 && Quiet(i) && 2 <= c.tDatTrail < PayloadCntModulus
    ensures var w := if r.longXfr then r.crc else TrailerWord(r.lastData);
      && Output(c, r, i) == Outputs(w, false)
      && var r' := Next(c, r, i);
      r'.state == EoT && r'.payloadCnt == 1 && r'.lastData == w && r'.longXfr == r.longXfr
  {
  }

  /** A long packet's second trailer cycle drives the trailer word inverting the checksum. */
  lemma TrailSecond(c: Config, r: Regs, i: Inputs)
    requires r.state == EoT && r.longXfr && r.payloadCnt == 1 && Quiet(i) && 2 <= c.tDatTrail < PayloadCntModulus
    ensures Output(c, r, i) == Outputs(TrailerWord(r.lastData), false)
    ensures var r' := Next(c, r, i);
      r'.state == EoT && r'.payloadCnt == 2 && r'.lastData == TrailerWord(r.lastData) && r'.longXfr
  {
  }

  /**
   * From cycle `m`, where COMPUTE_CRC begins with the counter at 0, the `j`-th following
   * cycle is still in COMPUTE_CRC with the counter at `j`, until `wc_i >> 1` cycles have
   * passed and the formatter enters EoT with the counter cleared.
   */
  lemma {:induction false} CrcPhaseControl(c: Config, rs: seq<Regs>, ins: seq<Inputs>, m: nat, j: nat, wc: bv16)
    requires IsRun(c, rs, ins) && m + j <= |ins| && QuietBetween(ins, m, m + j)
    requires forall k :: m <= k < m + j ==> ins[k].wc == wc
    requires 1 <= PayloadWords(wc) <= PayloadCntModulus && j <= PayloadWords(wc)
    requires rs[m].state == ComputeCrc && rs[m].payloadCnt == 0
    ensures rs[m + j].state == (if j == PayloadWords(wc) then EoT else ComputeCrc)
    ensures rs[m + j].payloadCnt == (if j == PayloadWords(wc) then 0 else j)
    ensures rs[m + j].longXfr == rs[m].longXfr
    ensures j > 0 ==> rs[m + j].lastData == 0
    decreases j
  {
    if j > 0 {
      CrcPhaseControl(c, rs, ins, m, j - 1, wc);
      var r, i := rs[m + j - 1], ins[m + j - 1];
      assert r.state == ComputeCrc && r.payloadCnt == j - 1 && i.wc == wc;
      assert LastPayloadCycle(r.payloadCnt, i.wc) <==> j == PayloadWords(wc);
      assert j < PayloadCntModulus ==> Inc(j - 1) == j;
      assert Quiet(i);
      CrcStepInRun(c, rs, ins, m + j - 1);
    }
  }

  /**
   * The `j`-th cycle after COMPUTE_CRC begins has folded the first `j` payload words into
   * `crc`, and is where `CrcPhaseControl` says.
   */
  lemma {:induction false} CrcPhase(c: Config, rs: seq<Regs>, ins: seq<Inputs>, m: nat, j: nat, wc: bv16)
    requires IsRun(c, rs, ins) && m + j <= |ins| && QuietBetween(ins, m, m + j)
    requires forall k :: m <= k < m + j ==> ins[k].wc == wc
    requires 1 <= PayloadWords(wc) <= PayloadCntModulus && j <= PayloadWords(wc)
    requires rs[m].state == ComputeCrc && rs[m].payloadCnt == 0
    ensures rs[m + j].state == (if j == PayloadWords(wc) then EoT else ComputeCrc)
    ensures rs[m + j].payloadCnt == (if j == PayloadWords(wc) then 0 else j)
    ensures rs[m + j].crc == RunningCrc(c, rs[m].crc, Payload(ins[m..m + j]))
    ensures rs[m + j].longXfr == rs[m].longXfr
    ensures j > 0 ==> rs[m + j].lastData == 0
    decreases j
  {
    CrcPhaseControl(c, rs, ins, m, j, wc);
    if j == 0 {
      assert Payload(ins[m..m]) == [];
    } else {
      CrcPhase(c, rs, ins, m, j - 1, wc);
      CrcStepInRun(c, rs, ins, m + j - 1);
      RunningCrcStep(c, rs[m].crc, ins, m, j);
    }
  }

  /** A COMPUTE_CRC cycle of a run, as `CrcCycle` states it. */
  lemma CrcStepInRun(c: Config, rs: seq<Regs>, ins: seq<Inputs>, k: nat)
    requires IsRun(c, rs, ins) && k < |ins| && rs[k].state == ComputeCrc
    ensures var r, i := rs[k], ins[k];
      && rs[k + 1].state == (if LastPayloadCycle(r.payloadCnt, i.wc) then EoT else ComputeCrc)
      && rs[k + 1].payloadCnt == (if LastPayloadCycle(r.payloadCnt, i.wc) then 0 else Inc(r.payloadCnt))
      && rs[k + 1].crc == c.crcGen(r.crc, i.byteData)
      && rs[k + 1].longXfr == (if i.lpEn then true else if i.spEn then false else r.longXfr)
      && rs[k + 1].lastData == 0
  {
    assert StepAt(c, rs, ins, k);
    CrcCycle(c, rs[k], ins[k]);
  }

  /** One more cycle of payload adds one more word to the running checksum. */
  lemma RunningCrcStep(c: Config, crc: bv16, ins: seq<Inputs>, m: nat, j: nat)
    requires 0 < j && m + j <= |ins|
    ensures RunningCrc(c, crc, Payload(ins[m..m + j]))
      == c.crcGen(RunningCrc(c, crc, Payload(ins[m..m + j - 1])), ins[m + j - 1].byteData)
  {
    var ws := Payload(ins[m..m + j]);
    assert ws[..|ws| - 1] == Payload(ins[m..m + j - 1]);
  }

  /** The formatter drives nothing while it computes the checksum. */
  lemma CrcPhaseOutputs(c: Config, rs: seq<Regs>, ins: seq<Inputs>, m: nat, n: nat, wc: bv16)
    requires IsRun(c, rs, ins) && m + n <= |ins| && QuietBetween(ins, m, m + n)
    requires forall k :: m <= k < m + n ==> ins[k].wc == wc
    requires 1 <= PayloadWords(wc) <= PayloadCntModulus && n == PayloadWords(wc)
    requires rs[m].state == ComputeCrc && rs[m].payloadCnt == 0
    ensures forall k {:trigger Output(c, rs[k], ins[k])} :: m <= k < m + n ==> Output(c, rs[k], ins[k]) == Outputs(0, false)
  {
    forall k | m <= k < m + n
      ensures Output(c, rs[k], ins[k]) == Outputs(0, false)
    {
      CrcPhase(c, rs, ins, m, k - m, wc);
      assert m + (k - m) == k;
      CrcCycle(c, rs[k], ins[k]);
    }
  }

  /**
   * With `wc_i >> 1` equal to 0 or above 4096 the exit compare never holds: the formatter
   * stays in COMPUTE_CRC however long it runs.
   */
  lemma {:induction false} CrcPhaseNeverEnds(c: Config, rs: seq<Regs>, ins: seq<Inputs>, m: nat, j: nat, wc: bv16)
    requires IsRun(c, rs, ins) && m + j <= |ins| && forall k :: m <= k < m + j ==> ins[k].wc == wc
    requires PayloadWords(wc) == 0 || PayloadWords(wc) > PayloadCntModulus
    requires rs[m].state == ComputeCrc && ValidRegs(rs[m])
    ensures rs[m + j].state == ComputeCrc && ValidRegs(rs[m + j])
    decreases j
  {
    if j > 0 {
      CrcPhaseNeverEnds(c, rs, ins, m, j - 1, wc);
      assert StepAt(c, rs, ins, m + j - 1);
      CrcCycle(c, rs[m + j - 1], ins[m + j - 1]);
    }
  }

  /**
   * From cycle `m`, in EoT with the counter past the first trailer word, the `j`-th
   * following cycle is still in EoT holding `last_data` until the done count is reached.
   */
  lemma {:induction false} TrailPhase(c: Config, rs: seq<Regs>, ins: seq<Inputs>, m: nat, j: nat)
    requires IsRun(c, rs, ins) && m + j <= |ins| && QuietBetween(ins, m, m + j) && c.tDatTrail < PayloadCntModulus
    requires rs[m].state == EoT && 1 <= rs[m].payloadCnt && (rs[m].longXfr ==> 2 <= rs[m].payloadCnt)
    requires rs[m].payloadCnt + j <= DoneCount(c, rs[m].longXfr)
    ensures rs[m + j].state == EoT && rs[m + j].payloadCnt == rs[m].payloadCnt + j
    ensures rs[m + j].lastData == rs[m].lastData && rs[m + j].longXfr == rs[m].longXfr
    decreases j
  {
    if j > 0 {
      TrailPhase(c, rs, ins, m, j - 1);
      assert StepAt(c, rs, ins, m + j - 1);
      TrailCycle(c, rs[m + j - 1], ins[m + j - 1]);
    }
  }

  /**
   * The trailer from cycle `m`, in EoT past the first trailer word, to cycle `e`: in each
   * cycle up to the done count `data_o` repeats `last_data`, `phdr_xfr_done_o` is raised in
   * the last of them only, and the formatter is back in WAIT_FOR_PACKET_REQ afterwards.
   */
  lemma TrailOutputs(c: Config, rs: seq<Regs>, ins: seq<Inputs>, m: nat, e: nat)
    requires IsRun(c, rs, ins) && c.tDatTrail < PayloadCntModulus
    requires m < e <= |ins| && QuietBetween(ins, m, e)
    requires rs[m].state == EoT && 1 <= rs[m].payloadCnt && (rs[m].longXfr ==> 2 <= rs[m].payloadCnt)
    requires e - m == DoneCount(c, rs[m].longXfr) - rs[m].payloadCnt + 1
    ensures forall k {:trigger Output(c, rs[k], ins[k])} :: m <= k < e ==> Output(c, rs[k], ins[k]) == Outputs(rs[m].lastData, k == e - 1)
    ensures rs[e].state == WaitForPacketReq && !rs[e].longXfr
  {
    forall k | m <= k < e
      ensures Output(c, rs[k], ins[k]) == Outputs(rs[m].lastData, k == e - 1)
    {
      TrailPhase(c, rs, ins, m, k - m);
      assert m + (k - m) == k;
      TrailCycle(c, rs[k], ins[k]);
    }
    TrailPhase(c, rs, ins, m, e - 1 - m);
    assert m + (e - 1 - m) == e - 1;
    assert StepAt(c, rs, ins, e - 1);
    TrailCycle(c, rs[e - 1], ins[e - 1]);
  }

  /** The first three cycles of a packet: sync word, the two header words, then the header's code in the second. */
  lemma {:induction false} PacketStart(c: Config, rs: seq<Regs>, ins: seq<Inputs>)
    requires IsRun(c, rs, ins) && 3 <= |ins| && rs[0].state == WaitForPacketReq
    requires (ins[0].spEn || ins[0].lpEn) && Holds(ins, 1, 3, ins[0])
    ensures var req := ins[0];
      && Output(c, rs[0], ins[0]) == Outputs(SyncWord, false)
      && Output(c, rs[1], ins[1]) == Outputs(HeaderWord0(req.dt, req.wc), false)
      && Output(c, rs[2], ins[2]) == Outputs(HeaderWord1(req.wc, c.eccGen(DataId(req.dt, req.vc), req.wc)), false)
    ensures rs[3].payloadCnt == 0 && rs[3].longXfr == ins[0].lpEn
    ensures rs[3].lastData == HeaderWord1(ins[0].wc, c.eccGen(DataId(ins[0].dt, ins[0].vc), ins[0].wc))
    ensures if ins[0].lpEn then rs[3].state == ComputeCrc && rs[3].crc == Crc16.Seed else rs[3].state == EoT
  {
    assert StepAt(c, rs, ins, 0);
    RequestStartsPacket(c, rs[0], ins[0]);
    assert StepAt(c, rs, ins, 1);
    HeaderCycle0(c, rs[1], ins[1]);
    assert StepAt(c, rs, ins, 2);
    HeaderCycle1(c, rs[2], ins[2]);
  }

  /**
   * A whole short packet: from WAIT_FOR_PACKET_REQ, a short request followed by `2 + T_DATTRAIL`
   * cycles that hold the header fields drives the sync word, the two header words (the second
   * carrying the code of the header) and `T_DATTRAIL` trailer words, pulses `phdr_xfr_done_o`
   * exactly in the last cycle, and is then ready for the next request.
   */
  lemma ShortPacket(c: Config, rs: seq<Regs>, ins: seq<Inputs>)
    requires IsRun(c, rs, ins) && rs[0].state == WaitForPacketReq && 2 <= c.tDatTrail < PayloadCntModulus
    requires |ins| == 3 + c.tDatTrail && ins[0].spEn && !ins[0].lpEn && Holds(ins, 1, |ins|, ins[0])
    ensures var req := ins[0];
      var h1 := HeaderWord1(req.wc, c.eccGen(DataId(req.dt, req.vc), req.wc));
      Trace(c, rs, ins)
        == [Outputs(SyncWord, false), Outputs(HeaderWord0(req.dt, req.wc), false), Outputs(h1, false)]
           + Hold(TrailerWord(h1), c.tDatTrail)
    ensures rs[|ins|].state == WaitForPacketReq
  {
    var req := ins[0];
    var h1 := HeaderWord1(req.wc, c.eccGen(DataId(req.dt, req.vc), req.wc));
    var tw := TrailerWord(h1);
    PacketStart(c, rs, ins);
    assert StepAt(c, rs, ins, 3);
    TrailStart(c, rs[3], ins[3]);
    TrailOutputs(c, rs, ins, 4, |ins|);
    var tr := Trace(c, rs, ins);
    var expected := [Outputs(SyncWord, false), Outputs(HeaderWord0(req.dt, req.wc), false), Outputs(h1, false)]
      + Hold(tw, c.tDatTrail);
    forall k | 0 <= k < |ins|
      ensures tr[k] == expected[k]
    {
      assert tr[k] == Output(c, rs[k], ins[k]);
    }
  }

  /**
   * A whole long packet of `N = wc_i >> 1` payload words: the sync word, the two header words,
   * `N` idle cycles while the payload is folded into the checksum, the CSI-2 checksum of those
   * `N` words of `byte_data_i`, then `T_DATTRAIL` trailer words with `phdr_xfr_done_o` in the
   * last one, back in WAIT_FOR_PACKET_REQ.
   */
  lemma LongPacket(c: Config, rs: seq<Regs>, ins: seq<Inputs>)
    requires IsRun(c, rs, ins) && rs[0].state == WaitForPacketReq && 2 <= c.tDatTrail < PayloadCntModulus
    requires 1 <= |ins| && 1 <= PayloadWords(ins[0].wc) <= PayloadCntModulus
    requires |ins| == 4 + PayloadWords(ins[0].wc) + c.tDatTrail && ins[0].lpEn && Holds(ins, 1, |ins|, ins[0])
    ensures var req := ins[0];
      var n := PayloadWords(req.wc);
      var h1 := HeaderWord1(req.wc, c.eccGen(DataId(req.dt, req.vc), req.wc));
      var crc := RunningCrc(c, Crc16.Seed, Payload(ins[3..3 + n]));
      Trace(c, rs, ins)
        == [Outputs(SyncWord, false), Outputs(HeaderWord0(req.dt, req.wc), false), Outputs(h1, false)]
           + Idle(n) + [Outputs(crc, false)] + Hold(TrailerWord(crc), c.tDatTrail)
    ensures rs[|ins|].state == WaitForPacketReq
  {
    var req := ins[0];
    var n := PayloadWords(req.wc);
    var h1 := HeaderWord1(req.wc, c.eccGen(DataId(req.dt, req.vc), req.wc));
    var crc := RunningCrc(c, Crc16.Seed, Payload(ins[3..3 + n]));
    PacketStart(c, rs, ins);
    LongPacketPhases(c, rs, ins);
    CrcPhaseOutputs(c, rs, ins, 3, n, req.wc);
    TrailOutputs(c, rs, ins, 5 + n, |ins|);
    var tr := Trace(c, rs, ins);
    forall k | 0 <= k < |ins|
      ensures tr[k] == Output(c, rs[k], ins[k])
    {
    }
    LongPacketOutputs(tr, HeaderWord0(req.dt, req.wc), h1, n, crc, c.tDatTrail);
  }

  /**
   * The phases of a long packet: COMPUTE_CRC begins after the header, the checksum and
   * the first trailer word follow the payload, and the rest of the trailer begins with the
   * counter at 2.
   */
  lemma LongPacketPhases(c: Config, rs: seq<Regs>, ins: seq<Inputs>)
    requires IsRun(c, rs, ins) && rs[0].state == WaitForPacketReq && 2 <= c.tDatTrail < PayloadCntModulus
    requires 1 <= |ins| && 1 <= PayloadWords(ins[0].wc) <= PayloadCntModulus
    requires |ins| == 4 + PayloadWords(ins[0].wc) + c.tDatTrail && ins[0].lpEn && Holds(ins, 1, |ins|, ins[0])
    ensures rs[3].state == ComputeCrc && rs[3].payloadCnt == 0
    ensures var n := PayloadWords(ins[0].wc);
      var crc := RunningCrc(c, Crc16.Seed, Payload(ins[3..3 + n]));
      && Output(c, rs[3 + n], ins[3 + n]) == Outputs(crc, false)
      && Output(c, rs[4 + n], ins[4 + n]) == Outputs(TrailerWord(crc), false)
      && rs[5 + n].state == EoT && rs[5 + n].payloadCnt == 2 && rs[5 + n].longXfr
      && rs[5 + n].lastData == TrailerWord(crc)
  {
    var n := PayloadWords(ins[0].wc);
    PacketStart(c, rs, ins);
    CrcPhase(c, rs, ins, 3, n, ins[0].wc);
    assert StepAt(c, rs, ins, 3 + n);
    TrailStart(c, rs[3 + n], ins[3 + n]);
    assert StepAt(c, rs, ins, 4 + n);
    TrailSecond(c, rs[4 + n], ins[4 + n]);
  }

  /** Assembles the outputs of a long packet from those of its phases. */
  lemma LongPacketOutputs(os: seq<Outputs>, h0: bv16, h1: bv16, n: nat, crc: bv16, t: nat)
    requires |os| == 4 + n + t && 2 <= t
    requires os[0] == Outputs(SyncWord, false) && os[1] == Outputs(h0, false) && os[2] == Outputs(h1, false)
    requires forall k :: 3 <= k < 3 + n ==> os[k] == Outputs(0, false)
    requires os[3 + n] == Outputs(crc, false) && os[4 + n] == Outputs(TrailerWord(crc), false)
    requires forall k :: 5 + n <= k < |os| ==> os[k] == Outputs(TrailerWord(crc), k == |os| - 1)
    ensures os == [Outputs(SyncWord, false), Outputs(h0, false), Outputs(h1, false)]
      + Idle(n) + [Outputs(crc, false)] + Hold(TrailerWord(crc), t)
  {
    var expected := [Outputs(SyncWord, false), Outputs(h0, false), Outputs(h1, false)]
      + Idle(n) + [Outputs(crc, false)] + Hold(TrailerWord(crc), t);
    forall k | 0 <= k < |os|
      ensures os[k] == expected[k]
    {
      if 3 <= k < 3 + n {
        assert expected[k] == Idle(n)[k - 3];
      } else if 4 + n <= k {
        assert expected[k] == Hold(TrailerWord(crc), t)[k - 4 - n];
      }
    }
  }

  /** `ld_pyld_o` is `lp_en_i` delayed by one cycle. */
  lemma LdPyldDelaysRequest(c: Config, rs: seq<Regs>, ins: seq<Inputs>, k: nat)
    requires IsRun(c, rs, ins) && k < |ins|
    ensures rs[k + 1].ldPyld == ins[k].lpEn
  {
    assert StepAt(c, rs, ins, k);
  }

  /**
   * The state machine's side of a rising edge: the next state, counter and checksum,
   * given `phdr_xfr_done_o` of the current cycle.
   */
  method FsmEdge(c: Config, r: Regs, i: Inputs, done: bool) returns (state: State, cnt: nat, crc: bv16)
    requires done == Done(c, r)
    ensures state == NextState(c, r, i) && cnt == NextCnt(r, i) && crc == NextCrc(c, r, i)
  {
    state, cnt, crc := r.state, r.payloadCnt, r.crc;
    match r.state {
      case WaitForPacketReq =>
        cnt := 0;
        if i.spEn || i.lpEn {
          state := GenerateHeader;
        }
      case GenerateHeader =>
        if r.payloadCnt == 1 {
          cnt := 0;
          if r.longXfr {
            crc := Crc16.Seed;
            state := ComputeCrc;
          } else {
            state := EoT;
          }
        } else {
          cnt := Inc(r.payloadCnt);
        }
      case ComputeCrc =>
        crc := c.crcGen(r.crc, i.byteData);
        if LastPayloadCycle(r.payloadCnt, i.wc) {
          cnt := 0;
          state := EoT;
        } else {
          cnt := Inc(r.payloadCnt);
        }
      case EoT =>
        cnt := Inc(r.payloadCnt);
        if done {
          state := WaitForPacketReq;
        }
    }
  }

  /** The packet formatter block: one field per register. */
  class Formatter {
    const config: Config
    var state: State
    var payloadCnt: nat
    var crc: bv16
    var ecc: bv16
    var longXfr: bool
    var lastData: bv16
    var ldPyld: bool

    function Registers(): Regs
      reads this
    {
      Regs(state, payloadCnt, crc, ecc, longXfr, lastData, ldPyld)
    }

    ghost predicate Valid()
      reads this
    {
      ValidRegs(Registers())
    }

    /** An instance for a timing row (`dphy_timings[video_format]`) and a lane count, in its reset state. */
    constructor (timings: Common.ClockTimings, fourLanes: bool)
      ensures config == Config(fourLanes, timings.tDatTrail, Ecc, Crc16.Step)
      ensures Registers() == ResetRegs && Valid()
    {
      config := Config(fourLanes, timings.tDatTrail, Ecc, Crc16.Step);
      state := WaitForPacketReq;
      payloadCnt := 0;
      crc := 0;
      ecc := 0;
      longXfr := false;
      lastData := 0;
      ldPyld := false;
    }

    /** The combinational outputs of the current cycle: `data_o` is 0 unless a state drives it. */
    method Drive(i: Inputs) returns (o: Outputs)
      ensures o == Output(config, Registers(), i)
    {
      var data: bv16 := 0;
      var done := false;
      match state {
        case WaitForPacketReq =>
          if i.spEn || i.lpEn {
            data := SyncWord;
          }
        case GenerateHeader =>
          if payloadCnt == 0 {
            data := HeaderWord0(i.dt, i.wc);
          } else if payloadCnt == 1 {
            data := HeaderWord1(i.wc, ecc);
          }
        case ComputeCrc =>
        case EoT =>
          if !longXfr {
            if payloadCnt == 0 {
              data := TrailerWord(lastData);
            } else if payloadCnt as int != config.tDatTrail as int - 1 {
              data := lastData;
            } else {
              data := lastData;
              done := true;
            }
          } else {
            if payloadCnt == 0 {
              data := crc;
            } else if payloadCnt == 1 {
              data := TrailerWord(lastData);
            } else if payloadCnt != config.tDatTrail {
              data := lastData;
            } else {
              data := lastData;
              done := true;
            }
          }
      }
      o := Outputs(data, done);
    }

    /**
     * The rising edge, given this cycle's outputs `o`: every register samples its next
     * value at once.
     */
    method Clock(i: Inputs, o: Outputs)
      requires Valid() && o == Output(config, Registers(), i)
      modifies this
      ensures Valid()
      ensures Registers() == Next(config, old(Registers()), i)
    {
      var r := Registers();
      state, payloadCnt, crc := FsmEdge(config, r, i, o.phdrXfrDone);
      if i.lpEn {
        longXfr := true;
      } else if i.spEn || o.phdrXfrDone {
        longXfr := false;
      }
      ecc := config.eccGen(DataId(i.dt, i.vc), i.wc);
      lastData := o.data;
      ldPyld := i.lpEn;
    }

    /** One byte-clock cycle: returns this cycle's outputs and performs the rising edge. */
    method Step(i: Inputs) returns (o: Outputs)
      requires Valid()
      modifies this
      ensures Valid()
      ensures o == Output(config, old(Registers()), i)
      ensures Registers() == Next(config, old(Registers()), i)
    {
      o := Drive(i);
      Clock(i, o);
    }
  }
}
