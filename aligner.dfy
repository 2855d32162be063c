// The re-alignment controller of the SDI receiver (src/aligner.py).
//
// While the TRS detector reports the stream as not aligned (`n_align_i` low) the
// controller holds the detector in reset and its counter at 0; once `n_align_i` is high
// it counts 1..5 and re-issues a one-cycle detector reset every fifth cycle. Every rising
// edge of `n_align_i` toggles `align_o`, which moves the bit clock divider by one step.

module Aligner {

  /** The registers: `align_r`, the 3-bit `align_cnt`, `detector_rst_c`, `align_o` and `detector_rst_o`. */
  datatype Regs = Regs(alignR: bool, alignCnt: nat, detectorRstC: bool, alignO: bool, detectorRstO: bool)

  const ResetRegs := Regs(false, 0, false, false, false)

  /** `align_cnt` is a 3-bit register. */
  const CountModulus: nat := 8

  /** `align_c`: the controller is aligning while the detector reports no alignment. */
  function AlignC(nAlign: bool): bool
  {
    !nAlign
  }

  /** `align_p`: `n_align_i` is high now and was low in the previous cycle. */
  predicate AlignPulse(r: Regs, nAlign: bool)
  {
    !AlignC(nAlign) && r.alignR
  }

  /** `align_cnt` after an edge: cleared while not aligned, else counting up to 5 and back to 1. */
  function NextCount(r: Regs, nAlign: bool): nat
  {
    if !nAlign then 0
    else if r.alignCnt < 5 then (r.alignCnt + 1) % CountModulus
    else 1
  }

  /** `detector_rst_c` after an edge: held while not aligned, else pulsed when the count wraps. */
  function NextRst(r: Regs, nAlign: bool): bool
  {
    !nAlign || !(r.alignCnt < 5)
  }

  /** One clock edge. */
  function Next(r: Regs, nAlign: bool): Regs
  {
    Regs(AlignC(nAlign), NextCount(r, nAlign), NextRst(r, nAlign),
         if AlignPulse(r, nAlign) then !r.alignO else r.alignO,
         r.detectorRstC)
  }

  /** `align_cnt` never leaves [0, 5]. */
  predicate Inv(r: Regs)
  {
    r.alignCnt <= 5
  }

  lemma ResetSatisfiesInv()
    ensures Inv(ResetRegs)
  {
  }

  /** Every edge keeps `align_cnt` in [0, 5]; the 3-bit increment never wraps. */
  lemma NextPreservesInv(r: Regs, nAlign: bool)
    requires Inv(r)
    ensures Inv(Next(r, nAlign))
    ensures r.alignCnt < 5 ==> (r.alignCnt + 1) % CountModulus == r.alignCnt + 1
  {
  }

  /** While `n_align_i` is low the counter is cleared and the detector reset requested. */
  lemma NotAlignedHoldsReset(r: Regs)
    ensures Next(r, false).alignCnt == 0 && Next(r, false).detectorRstC
  {
  }

  /** One clock edge, computed the way the synchronous statements are written. */
  method Edge(r: Regs, nAlign: bool) returns (n: Regs)
    ensures n == Next(r, nAlign)
  {
    var alignC := !nAlign;
    var alignP := !alignC && r.alignR;
    var cnt := r.alignCnt;
    var rst := r.detectorRstC;
    if nAlign {
      rst := false;
      if cnt < 5 {
        cnt := (cnt + 1) % CountModulus;
      } else {
        cnt := 1;
        rst := true;
      }
    } else {
      cnt := 0;
      rst := true;
    }
    var alignO := r.alignO;
    if alignP {
      alignO := !alignO;
    }
    n := Regs(alignC, cnt, rst, alignO, r.detectorRstC);
  }

  // ---------------------------------------------------------------- runs

  predicate StepAt(rs: seq<Regs>, ins: seq<bool>, k: nat)
    requires |rs| == |ins| + 1 && k < |ins|
  {
    rs[k + 1] == Next(rs[k], ins[k])
  }

  /** `rs` holds the registers of every cycle of the `n_align_i` values `ins` and those after the last edge. */
  predicate IsRun(rs: seq<Regs>, ins: seq<bool>)
  {
    |rs| == |ins| + 1 && forall k :: 0 <= k < |ins| ==> StepAt(rs, ins, k)
  }

  /** The registers after the first `n` cycles of `ins`. */
  function After(r: Regs, ins: seq<bool>, n: nat): Regs
    requires n <= |ins|
  {
    if n == 0 then r else Next(After(r, ins, n - 1), ins[n - 1])
  }

  /** The registers of every cycle of `ins`, starting from `r`. */
  function Run(r: Regs, ins: seq<bool>): (rs: seq<Regs>)
    ensures IsRun(rs, ins) && rs[0] == r
  {
    seq(|ins| + 1, n requires 0 <= n <= |ins| => After(r, ins, n))
  }

  /** `detector_rst_o` is `detector_rst_c` one cycle late. */
  lemma ResetOutputDelayed(rs: seq<Regs>, ins: seq<bool>, k: nat)
    requires IsRun(rs, ins) && 0 < k <= |ins|
    ensures rs[k].detectorRstO == rs[k - 1].detectorRstC
  {
    assert StepAt(rs, ins, k - 1);
  }

  /**
   * With `n_align_i` held high from a cleared counter, the counter reads 1, 2, 3, 4, 5, 1,
   * ... and the detector reset is pulsed on every fifth edge, the first time on the sixth.
   */
  lemma {:induction false} AlignedCountCycle(rs: seq<Regs>, ins: seq<bool>, k: nat)
    requires IsRun(rs, ins) && rs[0].alignCnt == 0 && k <= |ins|
    requires forall j :: 0 <= j < |ins| ==> ins[j]
    ensures 0 < k ==> rs[k].alignCnt == (k - 1) % 5 + 1
    ensures 0 < k ==> (rs[k].detectorRstC <==> k >= 6 && k % 5 == 1)
  {
    if k > 0 {
      assert StepAt(rs, ins, k - 1);
      if k > 1 {
        AlignedCountCycle(rs, ins, k - 1);
      }
    }
  }

  /** The number of rising edges of `n_align_i` in `ins`, the value before `ins` being `prev`. */
  function Rises(prev: bool, ins: seq<bool>): nat
  {
    if |ins| == 0 then 0
    else Rises(prev, ins[..|ins| - 1]) + (if ins[|ins| - 1] && !Last(prev, ins[..|ins| - 1]) then 1 else 0)
  }

  /** The last value of `n_align_i` in `ins`, or `prev` when there is none. */
  function Last(prev: bool, ins: seq<bool>): bool
  {
    if |ins| == 0 then prev else ins[|ins| - 1]
  }

  /**
   * From reset `align_r` stands for a high `n_align_i`; after `k` cycles `align_r` holds the
   * complement of the last input and `align_o` has toggled once per rising edge of
   * `n_align_i`, so it is high exactly when that number is odd.
   */
  lemma {:induction false} AlignToggles(rs: seq<Regs>, ins: seq<bool>, k: nat)
    requires IsRun(rs, ins) && rs[0] == ResetRegs && k <= |ins|
    ensures rs[k].alignR == !Last(true, ins[..k])
    ensures rs[k].alignO <==> Rises(true, ins[..k]) % 2 == 1
  {
    if k > 0 {
      AlignToggles(rs, ins, k - 1);
      assert StepAt(rs, ins, k - 1);
      assert ins[..k][..k - 1] == ins[..k - 1];
    }
  }

  /** The toggle happens in the first cycle with `n_align_i` high after a low one, and only then. */
  lemma ToggleOnRisingEdge(rs: seq<Regs>, ins: seq<bool>, k: nat)
    requires IsRun(rs, ins) && rs[0] == ResetRegs && 0 < k < |ins|
    ensures rs[k + 1].alignO != rs[k].alignO <==> ins[k] && !ins[k - 1]
  {
    AlignToggles(rs, ins, k);
    assert StepAt(rs, ins, k);
  }

  /** The controller as a hardware object: one field per register. */
  class AlignerBlock {
    var alignR: bool
    var alignCnt: nat
    var detectorRstC: bool
    var alignO: bool
    var detectorRstO: bool

    function Registers(): Regs
      reads this
    {
      Regs(alignR, alignCnt, detectorRstC, alignO, detectorRstO)
    }

    ghost predicate Valid()
      reads this
    {
      Inv(Registers())
    }

    constructor ()
      ensures Registers() == ResetRegs && Valid()
    {
      alignR, alignCnt, detectorRstC, alignO, detectorRstO := false, 0, false, false, false;
    }

    /** One clock edge with `n_align_i` as given. */
    method Step(nAlign: bool)
      requires Valid()
      modifies this
      ensures Valid()
      ensures Registers() == Next(old(Registers()), nAlign)
    {
      var r := Registers();
      NextPreservesInv(r, nAlign);
      var n := Edge(r, nAlign);
      alignR := n.alignR;
      alignCnt := n.alignCnt;
      detectorRstC := n.detectorRstC;
      alignO := n.alignO;
      detectorRstO := n.detectorRstO;
    }
  }
}
