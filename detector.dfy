// The TRS detector of the SDI receiver (src/detector.py).
//
// A four-state machine looks, in the bytes received while `lv_i` is low, for the EAV
// preamble FF FF 00 00 00 00 followed by two XY bytes whose high nibble is B. The counters
// `s1`, `s2` and `s3` count the repeated bytes of the current group, and on entering the
// next group the flags F1..F3 record the phase of the pixel clock. DONE has no exit; once
// it is reached with all three flags set, `n_align_o` is raised and stays raised until the
// `det` clock domain's synchronous reset, which returns every register to its reset value.

module Detector {

  datatype State = FirstOk | SecondOk | ThirdOk | Done

  /** The FSM state, the 1-bit `s1`, 2-bit `s2` and 1-bit `s3`, the flags F1..F3 and `n_align_o`. */
  datatype Regs = Regs(state: State, s1: nat, s2: nat, s3: nat, f1: bool, f2: bool, f3: bool, nAlign: bool)

  const ResetRegs := Regs(FirstOk, 0, 0, 0, false, false, false, false)

  /** The inputs of one edge of the `det` clock: the byte, `lv_i`, and the level of the pixel clock. */
  datatype Inputs = Inputs(data: bv8, lv: bool, pixClk: bool)

  /** `detect_trs`: driven high only by the DONE state. */
  predicate DetectTrs(r: Regs)
  {
    r.state == Done
  }

  /** An XY byte of an EAV: its high nibble is 0xB. */
  predicate IsXy(b: bv8)
  {
    b & 0xF0 == 0xB0
  }

  /** The state after an edge. */
  function NextState(r: Regs, i: Inputs): State
  {
    match r.state
    case FirstOk =>
      if !i.lv && i.data == 0xFF && !(r.s1 < 1) then SecondOk else FirstOk
    case SecondOk =>
      if i.lv then FirstOk
      else if i.data == 0x00 then (if r.s2 < 3 then SecondOk else ThirdOk)
      else FirstOk
    case ThirdOk =>
      if i.lv then FirstOk
      else if IsXy(i.data) then (if r.s3 < 1 then ThirdOk else Done)
      else FirstOk
    case Done => Done
  }

  /** `s1` after an edge: counts a first 0xFF in FIRST_OK; a 0xFF that breaks a later group counts as one. */
  function NextS1(r: Regs, i: Inputs): nat
  {
    match r.state
    case FirstOk => if !i.lv && i.data == 0xFF && r.s1 < 1 then r.s1 + 1 else 0
    case SecondOk => if !i.lv && i.data == 0xFF then 1 else 0
    case ThirdOk => if !i.lv && i.data == 0xFF then 1 else 0
    case Done => r.s1
  }

  /** `s2` after an edge: counts the 0x00 bytes in SECOND_OK, cleared everywhere else. */
  function NextS2(r: Regs, i: Inputs): nat
  {
    match r.state
    case SecondOk => if !i.lv && i.data == 0x00 && r.s2 < 3 then r.s2 + 1 else 0
    case Done => r.s2
    case _ => 0
  }

  /** `s3` after an edge: counts the XY bytes in THIRD_OK, cleared everywhere else. */
  function NextS3(r: Regs, i: Inputs): nat
  {
    match r.state
    case ThirdOk => if !i.lv && IsXy(i.data) && r.s3 < 1 then r.s3 + 1 else 0
    case Done => r.s3
    case _ => 0
  }

  /** One edge of the `det` clock. */
  function Next(r: Regs, i: Inputs): Regs
  {
    var toSecond := r.state == FirstOk && NextState(r, i) == SecondOk;
    var toThird := r.state == SecondOk && NextState(r, i) == ThirdOk;
    var toDone := r.state == ThirdOk && NextState(r, i) == Done;
    Regs(NextState(r, i), NextS1(r, i), NextS2(r, i), NextS3(r, i),
         if toSecond then i.pixClk else r.f1,
         if toThird then i.pixClk else r.f2,
         if toDone then i.pixClk else r.f3,
         r.nAlign || (DetectTrs(r) && r.f1 && r.f2 && r.f3))
  }

  /** The counters stay within the values their guards allow: `s1 <= 1`, `s2 <= 3`, `s3 <= 1`. */
  predicate Inv(r: Regs)
  {
    r.s1 <= 1 && r.s2 <= 3 && r.s3 <= 1
  }

  lemma ResetSatisfiesInv()
    ensures Inv(ResetRegs)
  {
  }

  lemma NextPreservesInv(r: Regs, i: Inputs)
    requires Inv(r)
    ensures Inv(Next(r, i))
  {
  }

  /**
   * In FIRST_OK, SECOND_OK and THIRD_OK a byte received with `lv_i` high sends the FSM back
   * to FIRST_OK with every counter cleared, and a 0xFF byte that breaks the zeros or the XY
   * bytes restarts the search with `s1 = 1`.
   */
  lemma SearchRestarts(r: Regs, i: Inputs)
    requires r.state != Done
    ensures var r' := Next(r, i);
      && (i.lv ==> r'.state == FirstOk && r'.s1 == 0 && r'.s2 == 0 && r'.s3 == 0)
      && (r.state != FirstOk && !i.lv && i.data == 0xFF ==>
            r'.state == FirstOk && r'.s1 == 1 && r'.s2 == 0 && r'.s3 == 0)
  {
  }

  /** DONE is entered only from THIRD_OK on a second XY byte, and it is never left. */
  lemma DoneEntryAndAbsorbing(r: Regs, i: Inputs)
    ensures Next(r, i).state == Done <==>
      r.state == Done || (r.state == ThirdOk && !i.lv && IsXy(i.data) && r.s3 >= 1)
  {
  }

  /** One edge, computed the way the FSM's actions are written. */
  method Edge(r: Regs, i: Inputs) returns (n: Regs)
    ensures n == Next(r, i)
  {
    var state, s1, s2, s3, f1, f2, f3 := r.state, r.s1, r.s2, r.s3, r.f1, r.f2, r.f3;
    match r.state {
      case FirstOk =>
        if !i.lv && i.data == 0xFF {
          if s1 < 1 {
            s1, s2, s3 := s1 + 1, 0, 0;
          } else {
            s1, s2, s3 := 0, 0, 0;
            state := SecondOk;
            f1 := i.pixClk;
          }
        } else {
          s1, s2, s3 := 0, 0, 0;
        }
      case SecondOk =>
        if !i.lv && i.data == 0x00 {
          if s2 < 3 {
            s1, s2, s3 := 0, s2 + 1, 0;
          } else {
            s1, s2, s3 := 0, 0, 0;
            state := ThirdOk;
            f2 := i.pixClk;
          }
        } else if !i.lv && i.data == 0xFF {
          s1, s2, s3 := 1, 0, 0;
          state := FirstOk;
        } else {
          s1, s2, s3 := 0, 0, 0;
          state := FirstOk;
        }
      case ThirdOk =>
        if !i.lv && i.data & 0xF0 == 0xB0 {
          if s3 < 1 {
            s1, s2, s3 := 0, 0, s3 + 1;
          } else {
            s1, s2, s3 := 0, 0, 0;
            state := Done;
            f3 := i.pixClk;
          }
        } else if !i.lv && i.data == 0xFF {
          s1, s2, s3 := 1, 0, 0;
          state := FirstOk;
        } else {
          s1, s2, s3 := 0, 0, 0;
          state := FirstOk;
        }
      case Done =>
    }
    var nAlign := r.nAlign;
    if r.state == Done && r.f1 && r.f2 && r.f3 {
      nAlign := true;
    }
    n := Regs(state, s1, s2, s3, f1, f2, f3, nAlign);
  }

  // ---------------------------------------------------------------- runs

  predicate StepAt(rs: seq<Regs>, ins: seq<Inputs>, k: nat)
    requires |rs| == |ins| + 1 && k < |ins|
  {
    rs[k + 1] == Next(rs[k], ins[k])
  }

  /** `rs` holds the registers of every cycle of `ins` and those after its last edge. */
  predicate IsRun(rs: seq<Regs>, ins: seq<Inputs>)
  {
    |rs| == |ins| + 1 && forall k :: 0 <= k < |ins| ==> StepAt(rs, ins, k)
  }

  /** The registers after the first `n` edges of `ins`. */
  function After(r: Regs, ins: seq<Inputs>, n: nat): Regs
    requires n <= |ins|
  {
    if n == 0 then r else Next(After(r, ins, n - 1), ins[n - 1])
  }

  /** The registers of every cycle of `ins`, starting from `r`. */
  function Run(r: Regs, ins: seq<Inputs>): (rs: seq<Regs>)
    ensures IsRun(rs, ins) && rs[0] == r
  {
    seq(|ins| + 1, n requires 0 <= n <= |ins| => After(r, ins, n))
  }

  /** Byte `j` of the EAV preamble FF FF 00 00 00 00 XY XY, received with `lv_i` low. */
  predicate PreambleByte(j: nat, i: Inputs)
  {
    !i.lv && (if j < 2 then i.data == 0xFF else if j < 6 then i.data == 0x00 else IsXy(i.data))
  }

  /** How many preamble bytes the state and counters stand for. */
  function Progress(r: Regs): nat
  {
    match r.state
    case FirstOk => r.s1
    case SecondOk => 2 + r.s2
    case ThirdOk => 6 + r.s3
    case Done => 8
  }

  /** The `p` inputs before cycle `k` are the first `p` bytes of the preamble. */
  predicate PreambleBefore(ins: seq<Inputs>, k: nat, p: nat)
    requires k <= |ins|
  {
    p <= k && forall m :: k - p <= m < k ==> PreambleByte(m - (k - p), ins[m])
  }

  /**
   * Until DONE, the bytes the state and counters stand for are exactly the last bytes
   * received, and they are a prefix of the preamble.
   */
  lemma {:induction false} SearchTracksInput(rs: seq<Regs>, ins: seq<Inputs>, k: nat)
    requires IsRun(rs, ins) && rs[0] == ResetRegs && k <= |ins| && rs[k].state != Done
    ensures Inv(rs[k]) && PreambleBefore(ins, k, Progress(rs[k]))
  {
    if k > 0 {
      assert StepAt(rs, ins, k - 1);
      var r, i := rs[k - 1], ins[k - 1];
      assert r.state != Done;
      SearchTracksInput(rs, ins, k - 1);
      NextPreservesInv(r, i);
      var p := Progress(r);
      var p' := Progress(rs[k]);
      if p' == p + 1 {
        assert PreambleByte(p, i);
      } else {
        assert p' <= 1;
        if p' == 1 {
          assert PreambleByte(0, i);
        }
      }
    }
  }

  /**
   * DONE is reached only by receiving the whole preamble: on the edge that enters DONE,
   * that byte and the seven before it are FF FF 00 00 00 00 XY XY, all with `lv_i` low.
   */
  lemma DoneOnlyAfterPreamble(rs: seq<Regs>, ins: seq<Inputs>, k: nat)
    requires IsRun(rs, ins) && rs[0] == ResetRegs && k < |ins|
    requires rs[k].state != Done && rs[k + 1].state == Done
    ensures PreambleBefore(ins, k + 1, 8)
  {
    SearchTracksInput(rs, ins, k);
    assert StepAt(rs, ins, k);
    assert Progress(rs[k]) == 7 && PreambleByte(7, ins[k]);
  }

  /**
   * Conversely, from FIRST_OK with no 0xFF counted, the eight preamble bytes lead to DONE
   * on the eighth edge and not before, with F1, F2 and F3 holding the pixel clock level
   * seen with the second 0xFF, the fourth 0x00 and the second XY byte.
   */
  lemma {:induction false} PreambleReachesDone(rs: seq<Regs>, ins: seq<Inputs>)
    requires IsRun(rs, ins) && |ins| == 8 && rs[0].state == FirstOk && rs[0].s1 == 0
    requires forall j :: 0 <= j < 8 ==> PreambleByte(j, ins[j])
    ensures forall j :: 0 <= j < 8 ==> rs[j].state != Done && Progress(rs[j]) == j
    ensures rs[8].state == Done
    ensures rs[8].f1 == ins[1].pixClk && rs[8].f2 == ins[5].pixClk && rs[8].f3 == ins[7].pixClk
  {
    assert PreambleByte(0, ins[0]) && StepAt(rs, ins, 0);
    assert PreambleByte(1, ins[1]) && StepAt(rs, ins, 1);
    assert PreambleByte(2, ins[2]) && StepAt(rs, ins, 2);
    assert PreambleByte(3, ins[3]) && StepAt(rs, ins, 3);
    assert PreambleByte(4, ins[4]) && StepAt(rs, ins, 4);
    assert PreambleByte(5, ins[5]) && StepAt(rs, ins, 5);
    assert PreambleByte(6, ins[6]) && StepAt(rs, ins, 6);
    assert PreambleByte(7, ins[7]) && StepAt(rs, ins, 7);
  }

  /** Once DONE, always DONE, and the flags no longer change. */
  lemma {:induction false} DoneIsFinal(rs: seq<Regs>, ins: seq<Inputs>, j: nat, k: nat)
    requires IsRun(rs, ins) && j <= k <= |ins| && rs[j].state == Done
    ensures rs[k].state == Done && rs[k].f1 == rs[j].f1 && rs[k].f2 == rs[j].f2 && rs[k].f3 == rs[j].f3
  {
    if k > j {
      DoneIsFinal(rs, ins, j, k - 1);
      assert StepAt(rs, ins, k - 1);
    }
  }

  /**
   * `n_align_o` is sticky: it rises one edge after DONE is seen with F1, F2 and F3 all set,
   * and no later edge of a run without reset clears it.
   */
  lemma {:induction false} AlignedIsSticky(rs: seq<Regs>, ins: seq<Inputs>, j: nat, k: nat)
    requires IsRun(rs, ins) && j <= k <= |ins|
    requires rs[j].nAlign || (j < k && DetectTrs(rs[j]) && rs[j].f1 && rs[j].f2 && rs[j].f3)
    ensures rs[k].nAlign
  {
    if k > j {
      assert StepAt(rs, ins, k - 1);
      if rs[j].nAlign || j < k - 1 {
        AlignedIsSticky(rs, ins, j, k - 1);
      }
    }
  }

  /** `n_align_o` is raised only by a DONE state whose three flags are set. */
  lemma AlignedOnlyFromDone(r: Regs, i: Inputs)
    ensures Next(r, i).nAlign <==> r.nAlign || (DetectTrs(r) && r.f1 && r.f2 && r.f3)
  {
  }

  /** One edge of the `det` clock with its synchronous reset `det.rst` as given. */
  function ClockedNext(r: Regs, i: Inputs, rst: bool): Regs
  {
    if rst then ResetRegs else Next(r, i)
  }

  /**
   * The reset is the only way out of alignment and out of DONE: an edge with `det.rst`
   * high returns to FIRST_OK with `n_align_o` low, and an edge that clears `n_align_o` or
   * leaves DONE had `det.rst` high.
   */
  lemma OnlyResetClearsAlign(r: Regs, i: Inputs, rst: bool)
    ensures rst ==> ClockedNext(r, i, rst) == ResetRegs && !ClockedNext(r, i, rst).nAlign
    ensures r.nAlign && !ClockedNext(r, i, rst).nAlign ==> rst
    ensures r.state == Done && ClockedNext(r, i, rst).state != Done ==> rst
    ensures Inv(r) ==> Inv(ClockedNext(r, i, rst))
  {
    if !rst {
      AlignedOnlyFromDone(r, i);
      if Inv(r) {
        NextPreservesInv(r, i);
      }
    }
  }

  /** The detector as a hardware object: one field per register. */
  class DetectTRS {
    var state: State
    var s1: nat
    var s2: nat
    var s3: nat
    var f1: bool
    var f2: bool
    var f3: bool
    var nAlign: bool

    function Registers(): Regs
      reads this
    {
      Regs(state, s1, s2, s3, f1, f2, f3, nAlign)
    }

    ghost predicate Valid()
      reads this
    {
      Inv(Registers())
    }

    constructor ()
      ensures Registers() == ResetRegs && Valid()
    {
      state, s1, s2, s3 := FirstOk, 0, 0, 0;
      f1, f2, f3, nAlign := false, false, false, false;
    }

    /** One edge of the `det` clock. */
    method Step(i: Inputs)
      requires Valid()
      modifies this
      ensures Valid()
      ensures Registers() == Next(old(Registers()), i)
    {
      var r := Registers();
      NextPreservesInv(r, i);
      var n := Edge(r, i);
      state := n.state;
      s1 := n.s1;
      s2 := n.s2;
      s3 := n.s3;
      f1 := n.f1;
      f2 := n.f2;
      f3 := n.f3;
      nAlign := n.nAlign;
    }

    /** An edge of the `det` clock with `det.rst` high, as the aligner's `detector_rst_o` drives it. */
    method Reset()
      modifies this
      ensures Valid()
      ensures Registers() == ResetRegs
    {
      state, s1, s2, s3 := FirstOk, 0, 0, 0;
      f1, f2, f3, nAlign := false, false, false, false;
      ResetSatisfiesInv();
    }
  }
}
