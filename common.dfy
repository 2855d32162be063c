/**
 * The timing table shared by the packet formatter and the D-PHY lane sequencer:
 * D-PHY timing parameters (section 6.9 of MIPI D-PHY v1.1) expressed in byte-clock
 * cycles, keyed first by pixel clock and then by video format, and the error raised
 * for an unsupported video format; also the 16-bit video word both video blocks build
 * from two bytes.
 */
module Common {
  import opened Wrappers

  /** migen's `Cat(lo, hi)` of two bytes: `lo` in bits 7:0 and `hi` in bits 15:8. */
  function CatBytes(lo: bv8, hi: bv8): (w: bv16)
    ensures (w & 0xFF) as bv8 == lo && (w >> 8) as bv8 == hi
  {
    (lo as bv16) | ((hi as bv16) << 8)
  }

  /** One row of `clock_timings`: PLL settings and D-PHY timing constants in cycles. */
  datatype ClockTimings = ClockTimings(
    cn: string, cm: string, co: string,
    tinitValue: nat,
    tLpx: nat, tDatPrep: nat, tDatHsZero: nat, tDatTrail: nat,
    tClkPrep: nat, tClkHsZero: nat, tClkPost: nat, tClkTrail: nat)

  const Timings74_25MHz := ClockTimings(
    "0b10000", "0b10100000", "0b010",
    15000,
    4, 4, 10, 13,
    3, 20, 10, 6)

  const Timings148_5MHz := ClockTimings(
    "0b11100", "0b10010000", "0b001",
    15000,
    8, 7, 18, 19,
    6, 39, 15, 10)

  /** `clock_timings`, keyed by pixel clock frequency. */
  const ClockTimingsTable: map<string, ClockTimings> :=
    map["74_25MHz" := Timings74_25MHz, "148_5MHz" := Timings148_5MHz]

  /** `dphy_timings`, keyed by video format; every entry aliases a `clock_timings` row. */
  const DphyTimingsTable: map<string, ClockTimings> :=
    map["1080p25" := ClockTimingsTable["74_25MHz"],
        "1080p30" := ClockTimingsTable["74_25MHz"],
        "1080p50" := ClockTimingsTable["148_5MHz"],
        "1080p60" := ClockTimingsTable["148_5MHz"]]

  /**
   * `dphy_timings[video_format]`: `None` stands for the `KeyError` that Python raises
   * for a format without an entry.
   */
  function DphyTimings(videoFormat: string): (r: Option<ClockTimings>)
    ensures r.Some? <==> videoFormat in {"1080p25", "1080p30", "1080p50", "1080p60"}
    ensures r.Some? ==> r.value == DphyTimingsTable[videoFormat]
  {
    if videoFormat in DphyTimingsTable then Some(DphyTimingsTable[videoFormat]) else None
  }

  /** Width of the lane sequencer's `counter` and `tinit_counter` registers. */
  const CounterBits: nat := 14
  const CounterModulus: nat := 16384

  /**
   * A row whose constants, and every threshold the lane sequencer compares its 14-bit
   * counters against, stay below 2^14, and whose HS-trail lasts at least two cycles.
   */
  predicate FitsCounters(t: ClockTimings)
  {
    && t.tinitValue + 2 < CounterModulus
    && t.tLpx + t.tClkPrep + t.tClkHsZero + 1 < CounterModulus
    && t.tClkPrep + t.tLpx + t.tDatPrep + t.tDatHsZero + 1 < CounterModulus
    && t.tClkPost + t.tClkTrail + 1 < CounterModulus
    && 2 <= t.tDatTrail < 4095
  }

  /** Both rows of the table, hence every supported format, fit the counters. */
  lemma TableFitsCounters(videoFormat: string)
    requires DphyTimings(videoFormat).Some?
    ensures FitsCounters(DphyTimings(videoFormat).value)
    ensures DphyTimings(videoFormat).value.tDatTrail >= 2
  {
  }

  /** The 1080p25/30 formats use the 74.25 MHz row, the 1080p50/60 formats the 148.5 MHz row. */
  lemma FormatsSelectPixelClock()
    ensures DphyTimings("1080p25") == DphyTimings("1080p30") == Some(ClockTimingsTable["74_25MHz"])
    ensures DphyTimings("1080p50") == DphyTimings("1080p60") == Some(ClockTimingsTable["148_5MHz"])
    ensures DphyTimings("720p60") == None
  {
  }

  /** `sep.join(items)`. */
  function Join(sep: string, items: seq<string>): string
    decreases |items|
  {
    if |items| == 0 then ""
    else if |items| == 1 then items[0]
    else items[0] + sep + Join(sep, items[1..])
  }

  /** Sum of the lengths of `items`. */
  function TotalLength(items: seq<string>): nat
    decreases |items|
  {
    if items == [] then 0 else |items[0]| + TotalLength(items[1..])
  }

  /** The joined string holds every item and one separator between neighbours, nothing else. */
  lemma {:induction false} JoinLength(sep: string, items: seq<string>)
    requires |items| > 0
    ensures |Join(sep, items)| == TotalLength(items) + |sep| * (|items| - 1)
    decreases |items|
  {
    if |items| > 1 {
      JoinLength(sep, items[1..]);
      assert TotalLength(items) == |items[0]| + TotalLength(items[1..]);
    } else {
      assert items[1..] == [];
    }
  }

  /** `f` occurs in `s` starting at position `k`. */
  predicate OccursAt(s: string, f: string, k: int)
  {
    0 <= k <= |s| - |f| && s[k..k + |f|] == f
  }

  /** Every item appears, letter for letter, at some position of the joined string. */
  lemma {:induction false} JoinContains(sep: string, items: seq<string>, i: nat)
    requires i < |items|
    ensures exists k :: OccursAt(Join(sep, items), items[i], k)
    decreases |items|
  {
    var j := Join(sep, items);
    if |items| == 1 || i == 0 {
      assert j[0..|items[0]|] == items[0];
      assert OccursAt(j, items[i], 0);
    } else {
      JoinContains(sep, items[1..], i - 1);
      var rest := Join(sep, items[1..]);
      var k :| OccursAt(rest, items[i], k);
      var off := |items[0]| + |sep|;
      assert j == items[0] + sep + rest;
      assert j[off + k..off + k + |items[i]|] == rest[k..k + |items[i]|];
      assert OccursAt(j, items[i], off + k);
    }
  }

  const MessagePrefix: string := "Unsupported video format. Available options are: {"

  /** The message of `UnsupportedVideoFormatException(supported_video_formats)`. */
  function UnsupportedVideoFormatMessage(supportedVideoFormats: seq<string>): (msg: string)
    ensures |msg| > |MessagePrefix| && msg[..|MessagePrefix|] == MessagePrefix
    ensures msg[|msg| - 1] == '}'
  {
    MessagePrefix + Join(", ", supportedVideoFormats) + "}"
  }

  /** A slice inside the right operand of a concatenation. */
  lemma SliceOfAppend(a: string, b: string, i: nat, j: nat)
    requires i <= j <= |b|
    ensures (a + b)[|a| + i..|a| + j] == b[i..j]
  {
  }

  /** The message names every supported format, letter for letter. */
  lemma MessageNamesEveryFormat(supportedVideoFormats: seq<string>, i: nat)
    requires i < |supportedVideoFormats|
    ensures exists k :: OccursAt(UnsupportedVideoFormatMessage(supportedVideoFormats), supportedVideoFormats[i], k)
  {
    var joined := Join(", ", supportedVideoFormats);
    var f := supportedVideoFormats[i];
    JoinContains(", ", supportedVideoFormats, i);
    var k :| OccursAt(joined, f, k);
    var msg := UnsupportedVideoFormatMessage(supportedVideoFormats);
    assert msg == MessagePrefix + (joined + "}");
    assert (joined + "}")[k..k + |f|] == f;
    SliceOfAppend(MessagePrefix, joined + "}", k, k + |f|);
    assert OccursAt(msg, f, |MessagePrefix| + k);
  }

  /** Besides the formats, the message holds the prefix, one ", " between neighbours and the closing brace. */
  lemma MessageLength(supportedVideoFormats: seq<string>)
    requires |supportedVideoFormats| > 0
    ensures |UnsupportedVideoFormatMessage(supportedVideoFormats)|
            == |MessagePrefix| + TotalLength(supportedVideoFormats) + 2 * (|supportedVideoFormats| - 1) + 1
  {
    JoinLength(", ", supportedVideoFormats);
  }
}
