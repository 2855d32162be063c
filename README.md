# SDI to MIPI CSI-2 converter: a verified model of its protocol core

This project models, in Dafny, the clocked logic of an FPGA design that takes a parallel
(CMOS) video stream and sends it as MIPI CSI-2 packets over MIPI D-PHY lanes. It also
models the small counters and state machines that generate and check the video timing.
Every block is a migen hardware description: a set of registers updated together at each
clock edge, plus combinational outputs. Every block follows the same shape in the model:

- a `datatype Regs` snapshot of its registers;
- a pure `Next(regs, inputs)` function that gives the registers after one edge, with the
  last assignment winning as in migen, and registers of width `w` counting modulo `2^w`;
- functions for the combinational outputs;
- an imperative `Edge`/`Step` method, written statement by statement like the source and
  proved equal to `Next`;
- a `class` holding the registers as mutable fields, whose `Step` method performs one edge
  in place;
- multi-cycle properties stated over runs: a run is a sequence `rs` of register sets with
  `rs[k + 1] == Next(rs[k], ins[k])` for the inputs `ins`.

The modules are:

- `Crc16`: the CSI-2 payload checksum of section 9.6 of MIPI CSI-2 v1.01. It has the CRC-16
  generator x^16 + x^12 + x^5 + 1, is seeded with 0xFFFF and takes the lowest bit first.
  The checksum generator the formatter instantiates (src/crc16.py) is not part of this
  model; `Crc16.Step` is the CSI-2 definition it implements.
- `Common`: the D-PHY timing table, the lookup by video format and the message of the
  unsupported-format exception.
- `PacketHeader`: the packet-header code (the ECC), the two header words, the trailer word
  and the sync word.
- `PacketFormatter`: the four-state packet formatter, from a request through sync word,
  header, checksum phase and HS trail, as whole short and long packets.
- `MipiDphy`: the D-PHY lane sequencer `TXGlobalOperations`, made of the init timer and the
  Stop → clock enable → data enable → HS disable cycle.
- `Cmos2Dphy`: the orchestration block. It detects frame-valid and line-valid edges, runs
  the packet request FSM, keeps a pixel FIFO of depth 128 and has two delay chains.
- `TimingGen`: `get_timings`, `create_timing_generator` and the four timing generator
  variants (720p60 with two lanes, 720p60 with four lanes, 1080p60, 1080p30).
- `PatternGen`: the colour-bar generator.
- `Detector`: the EAV-preamble matcher of the SDI receiver.
- `Aligner`: the SDI re-alignment controller.

Some behaviours are reproduced as the code has them:

- The first header word is `Cat(dt_i, wc_i[:8])`. It leaves out the virtual channel and
  starts the word count at bit 6 (`PacketHeader.HeaderWord0StandardIff`).
- The 14-bit D-PHY counter wraps during a long HS burst (`MipiDphy.HsCounterWraps`).
- The formatter's checksum phase never ends for a word count whose half is 0 or above
  4096 (`PacketFormatter.CrcPhaseNeverEnds`).
- The two-lane 720p60 and the 1080p30 timing generators raise `lv_o` for one pixel after
  `fv_o` has fallen at the end of the active lines, because the line counter only steps one
  edge after pixel count 1; the four-lane 720p60 and the 1080p60 variants mask that pixel
  (`TimingGen.LineValidOutlastsFrame`).
- At 720p60 the colour-bar generator draws six stripes of 213 pixels, and the two pixels
  left over carry the word 0 (`TimingGen.Pattern720p60Tail`).

## Model

| member | source | states |
|---|---|---|
| Crc16.WordsAppend | src/packet_formatter.py:203-212 | Folding a payload in two pieces gives the same checksum as folding it at once. |
| Crc16.WordsSnoc | src/packet_formatter.py:205-206 | One more payload word is one more application of the checksum generator. |
| Crc16.ReferenceLineStartChecksum | tests/test_crc16.py:20-21 | The checksum of the test bench's twelve reference words is the golden 0x730b. |
| Common.CatBytes | src/cmos2dphy.py:233 | `Cat(lo, hi)` of two bytes puts `lo` in bits 7:0 and `hi` in bits 15:8: the FIFO word holds `pix_data0_i` low and `pix_data1_i` high, and the pattern word (src/pattern_gen.py:212-214) holds U or V low and Y high. |
| Common.DphyTimings | src/common.py:47-52 | The lookup succeeds exactly for 1080p25/30/50/60 and then returns that format's table row. |
| Common.TableFitsCounters | src/common.py:16-45 | Every constant of every row, and every threshold sum the sequencer compares against, fits the 14-bit counters; T_DATTRAIL is at least 2. |
| Common.FormatsSelectPixelClock | src/common.py:47-52 | 1080p25/30 use the 74.25 MHz row, 1080p50/60 the 148.5 MHz row, and 720p60 has no entry. |
| Common.JoinLength | src/common.py:58 | `", ".join(items)` has the items' total length plus one separator between neighbours. |
| Common.JoinContains | src/common.py:58 | Every item occurs letter for letter in the joined string. |
| Common.UnsupportedVideoFormatMessage | src/common.py:55-60 | The message starts with the fixed prefix and ends with '}'. |
| Common.MessageNamesEveryFormat | src/common.py:55-60 | The message names every supported format. |
| Common.MessageLength | src/common.py:55-60 | The message holds exactly the prefix, the formats, one ", " between neighbours and the closing brace. |
| PacketHeader.DataId | src/packet_formatter.py:163-164 | `di` holds the data type in bits 0-5 and the virtual channel in bits 6-7. |
| PacketHeader.XorAllPairwise | src/packet_formatter.py:119-144 | The XOR over a bitwise XOR of two headers is the XOR of the two XORs. |
| PacketHeader.TapsInRange | src/packet_formatter.py:119-144 | Every tap of the six parity bits is a bit of `di` (0-7) or of `wc_i` (0-15). |
| PacketHeader.PackBits | src/packet_formatter.py:119-144 | Bit k of a packed code is the k-th parity bit, and bits 6-7 are clear. |
| PacketHeader.EccBits | src/packet_formatter.py:119-144 | Bit k of the code is the XOR of exactly the listed `di` and `wc_i` bits, and bits 6 and 7 are 0. |
| PacketHeader.EccBitLinear | src/packet_formatter.py:119-144 | Every parity bit is linear in the header. |
| PacketHeader.StandardRowsSplit | src/packet_formatter.py:119-144 | Each row of the 24-bit parity matrix lists exactly the generator's `di` taps and its `wc_i` taps moved up by 8. |
| PacketHeader.EccBitIsStandard | src/packet_formatter.py:119-144 | Each generated parity bit equals the parity of its matrix row over the 24-bit header. |
| PacketHeader.XorAllOneHot | src/packet_formatter.py:119-144 | Over a list of distinct positions, the parity of a one-hot header is whether its bit is listed. |
| PacketHeader.SingleBitErrorSyndrome | src/packet_formatter.py:119-144 | Flipping header bit j flips exactly the parity bits whose rows list j: the syndrome is column j of the matrix. |
| PacketHeader.HeaderWord0 | src/packet_formatter.py:188-189 | The first header word carries `dt_i` in bits 0-5 and the low byte of `wc_i` in bits 6-13. |
| PacketHeader.HeaderWord0StandardIff | src/packet_formatter.py:189 | That word equals the CSI-2 layout (data identifier, then word-count low byte) exactly when the virtual channel and the word-count low byte are both zero. |
| PacketHeader.HeaderWord1 | src/packet_formatter.py:190-191 | The second header word carries the high byte of `wc_i`, then the code. |
| PacketHeader.TrailerWordBits | src/packet_formatter.py:220-232 | Every bit of the trailer's low byte inverts bit 7 of the last word, and every bit of its high byte inverts bit 15. |
| PacketHeader.ReplicateTruncated | src/packet_formatter.py:165 | With two copies or more, the low 16 bits of a replicated byte hold exactly two copies. |
| PacketHeader.SyncWordIsTruncatedHsInitSeq | src/packet_formatter.py:163-178 | For 2 or 4 lanes the 16-bit output of `hs_init_seq` is 0xB8B8, the sync byte on each lane. |
| PacketFormatter.Inc | src/packet_formatter.py:186 | `payload_cnt + 1` wraps at 2^12, the width of `Signal(max=3840)`. |
| PacketFormatter.LastPayloadCycleUnsigned | src/packet_formatter.py:208 | The exit compare `payload_cnt == (wc_i >> 1) - 1` holds exactly when the counter is one below half the word count. |
| PacketFormatter.NextCnt | src/packet_formatter.py:174-216 | The counter is cleared on entering a state and counts within it. |
| PacketFormatter.RunsAgree | src/packet_formatter.py:148-241 | Two runs on the same inputs from the same registers agree in every cycle. |
| PacketFormatter.RunningCrcIsWords | src/packet_formatter.py:111-206 | With the block's generator, the register `crc` folds the payload as the CSI-2 checksum does. |
| PacketFormatter.RequestStartsPacket | src/packet_formatter.py:148-181 | A request in WAIT_FOR_PACKET_REQ drives 0xB8B8 in the same cycle and enters GENERATE_HEADER with the counter at 0; without one nothing is driven; `long_xfr` records the packet kind. |
| PacketFormatter.HeaderCycle0 | src/packet_formatter.py:119-189 | The first header cycle drives `Cat(dt_i, wc_i[:8])` and samples this header's code into `ecc`. |
| PacketFormatter.HeaderCycle1 | src/packet_formatter.py:190-199 | The second header cycle drives `Cat(wc_i[8:], ecc)` and clears the counter; a long packet seeds `crc` with 0xFFFF and enters COMPUTE_CRC, a short one enters EoT. |
| PacketFormatter.CrcCycle | src/packet_formatter.py:203-212 | A COMPUTE_CRC cycle drives 0, folds `byte_data_i` into `crc`, and leaves for EoT with the counter cleared exactly at the last payload word. |
| PacketFormatter.TrailCycle | src/packet_formatter.py:215-241 | Past the first trailer word, EoT repeats `last_data` and pulses `phdr_xfr_done_o` exactly at the done count (T_DATTRAIL - 1 short, T_DATTRAIL long), then returns to WAIT_FOR_PACKET_REQ. |
| PacketFormatter.TrailStart | src/packet_formatter.py:219-230 | The first EoT cycle drives the trailer word of the last header word (short packet) or the checksum (long packet). |
| PacketFormatter.TrailSecond | src/packet_formatter.py:231-232 | A long packet's second EoT cycle drives the trailer word of the checksum. |
| PacketFormatter.CrcPhaseControl | src/packet_formatter.py:203-212 | COMPUTE_CRC lasts exactly `wc_i >> 1` cycles, with the counter equal to the cycle number, and then enters EoT. |
| PacketFormatter.CrcPhase | src/packet_formatter.py:203-212 | After j cycles of COMPUTE_CRC, `crc` is the running checksum of the first j payload words. |
| PacketFormatter.CrcPhaseOutputs | src/packet_formatter.py:203-212 | The formatter drives 0 throughout the checksum phase. |
| PacketFormatter.CrcPhaseNeverEnds | src/packet_formatter.py:203-212 | When `wc_i >> 1` is 0 or above 4096, the exit compare never holds and the formatter stays in COMPUTE_CRC. |
| PacketFormatter.TrailPhase | src/packet_formatter.py:215-241 | Through the trailer, EoT holds `last_data` and counts up to the done count. |
| PacketFormatter.TrailOutputs | src/packet_formatter.py:215-241 | Every trailer cycle drives `last_data`, `phdr_xfr_done_o` is raised in the last one only, and the FSM is then back in WAIT_FOR_PACKET_REQ. |
| PacketFormatter.PacketStart | src/packet_formatter.py:173-200 | The first three cycles of a packet drive the sync word and the two header words, the second carrying the header's code. |
| PacketFormatter.ShortPacket | src/packet_formatter.py:173-241 | A whole short packet drives exactly sync word, two header words and T_DATTRAIL trailer words, with `phdr_xfr_done_o` in the last cycle only, and ends ready for the next request. |
| PacketFormatter.LongPacket | src/packet_formatter.py:173-241 | A whole long packet of N = `wc_i >> 1` words drives exactly sync word, two header words, N idle cycles, the CSI-2 checksum of the N payload words and T_DATTRAIL trailer words, with `phdr_xfr_done_o` in the last cycle only. |
| PacketFormatter.LongPacketPhases | src/packet_formatter.py:193-241 | A long packet's checksum phase starts after the header, and is followed by the checksum, its trailer word and the rest of the trailer. |
| PacketFormatter.LongPacketOutputs | src/packet_formatter.py:173-241 | The outputs of a long packet's phases assemble into the whole packet's output sequence. |
| PacketFormatter.LdPyldDelaysRequest | src/packet_formatter.py:160 | `ld_pyld_o` is `lp_en_i` one cycle late. |
| PacketFormatter.FsmEdge | src/packet_formatter.py:173-241 | The imperative state, counter and checksum update equals the next-state functions. |
| PacketFormatter.Formatter.constructor | src/packet_formatter.py:71-74 | A formatter takes the T_DATTRAIL of its timing row and starts in reset. |
| PacketFormatter.Formatter.Drive | src/packet_formatter.py:173-241 | The combinational `data_o` and `phdr_xfr_done_o` of the current state. |
| PacketFormatter.Formatter.Clock | src/packet_formatter.py:119-241 | Every register takes its next value at once. |
| PacketFormatter.Formatter.Step | src/packet_formatter.py:148-241 | One byte-clock cycle returns the cycle's outputs and updates the registers to `Next`. |
| MipiDphy.Inc | src/mipi_dphy.py:136 | The 14-bit `counter + 1` wraps from 2^14 - 1 to 0. |
| MipiDphy.ResetSatisfiesInv | src/mipi_dphy.py:98-101 | The reset state meets the invariant: 14-bit counters, `tinit_done_o` set only past TINIT_VALUE, HS transmission off outside the data phases, and phase counters within their phase. |
| MipiDphy.NextPreservesInv | src/mipi_dphy.py:100-217 | Every edge keeps the invariant, for a timing row that fits the counters. |
| MipiDphy.TinitMonotone | src/mipi_dphy.py:103-112 | `tinit_counter` advances only while `tinit_done_o` is low, and `tinit_done_o` is set by an edge exactly when `tinit_counter > TINIT_VALUE`, then stays set. |
| MipiDphy.TinitFromReset | src/mipi_dphy.py:103-112 | From reset, `tinit_done_o` is low for the first TINIT_VALUE + 2 edges and high from then on, whatever the inputs. |
| MipiDphy.DataEnDelayed | src/mipi_dphy.py:95-96 | The registered copy of `byte_or_pkt_data_en_i` is the input one cycle late. |
| MipiDphy.StopCycle | src/mipi_dphy.py:114-134 | TX_STOP either stays and drives LP-11 on every lane with `dphy_ready_o`, or, on `d_hs_en_i & tinit_done_o`, clears the counter, drives the clock lane LP-01, drops `dphy_ready_o` and enters TX_CLK_ENABLE. |
| MipiDphy.LeaveStopIff | src/mipi_dphy.py:127-133 | TX_STOP is left exactly when `d_hs_en_i & tinit_done_o`. |
| MipiDphy.ReadyOnlyInStop | src/mipi_dphy.py:125-196 | An edge sets `dphy_ready_o` exactly when the FSM stays in TX_STOP. |
| MipiDphy.ClkEnablePhase | src/mipi_dphy.py:135-154 | TX_CLK_ENABLE keeps the data lanes LP-11 and steps the clock lane through LP-01, LP-00 and LP-01 at the T_LPX, T_CLKPREP and T_CLK_HSZERO thresholds. |
| MipiDphy.ClkEnableEnds | src/mipi_dphy.py:155-158 | After its last threshold, TX_CLK_ENABLE enters TX_DATA_ENABLE with the counter cleared. |
| MipiDphy.DataEnablePhase | src/mipi_dphy.py:160-182 | TX_DATA_ENABLE turns the HS clock on and steps the data lanes 11 → 01 → 00, with the first sub-phase bounded by T_CLKPREP; in HS-Go it switches LP off and HS transmission on. |
| MipiDphy.HsEnabledCycle | src/mipi_dphy.py:183-191 | An HS-enabled cycle raises `d_hs_rdy_o`, keeps HS on, and leaves for TX_HS_DISABLE with the counter cleared exactly on a falling edge of `byte_or_pkt_data_en_i`. |
| MipiDphy.DataEnableExitIff | src/mipi_dphy.py:160-193 | TX_DATA_ENABLE goes to TX_HS_DISABLE exactly from an HS-enabled cycle with a falling edge, and otherwise stays. |
| MipiDphy.HsExitOnFallingEdge | src/mipi_dphy.py:95-191 | In a run, TX_DATA_ENABLE moves to HS_DISABLE exactly from an HS-enabled cycle (counter past DataSum) in which the data-enable input was high in the previous cycle and is low now; a falling edge during the LP→HS preparation is ignored. |
| MipiDphy.HsCounterWraps | src/mipi_dphy.py:100-168 | A long HS burst wraps the 14-bit counter to 0, after which the data lanes' LP levels return to LP-11 while HS stays on. |
| MipiDphy.HsDisablePhase | src/mipi_dphy.py:194-209 | TX_HS_DISABLE switches HS transmission and `d_hs_rdy_o` off and the data lanes to LP-11 at once; it keeps the HS clock until T_CLKPOST and then drives the clock lane LP-01 until T_CLKTRAIL. |
| MipiDphy.HsDisableRestoresStop | src/mipi_dphy.py:194-217 | TX_HS_DISABLE returns to TX_STOP with every lane LP-11, and one more edge restores every Stop-state output. |
| MipiDphy.LpToHs | src/mipi_dphy.py:114-193 | A request once the init timer is done raises `d_hs_rdy_o` exactly ClkSum + DataSum + 5 edges later, with HS on and LP off. |
| MipiDphy.Edge | src/mipi_dphy.py:103-217 | The imperative, last-assignment-wins edge equals `Next`. |
| MipiDphy.TxGlobalOperations.constructor | src/mipi_dphy.py:58-101 | A sequencer starts in TX_STOP with every register at reset. |
| MipiDphy.TxGlobalOperations.Step | src/mipi_dphy.py:95-217 | One edge updates every register to `Next` and keeps the invariant. |
| Cmos2Dphy.FrameEdgeDetect | src/cmos2dphy.py:112-123 | `fv_start` follows a rising edge of `fv_i` and `fv_end` a falling edge; both clear with no edge, and an edge of one kind leaves the other flag as it was. |
| Cmos2Dphy.LineEdgeDetect | src/cmos2dphy.py:112-132 | The same for `lv_start` and `lv_end`. |
| Cmos2Dphy.FifoWrite | src/cmos2dphy.py:223-238 | A word is registered for writing only under `fv_i & lv_i & writable`, it enters the FIFO on the next pixel edge if there is room, and the FIFO is emptied while `fv_i` is low. |
| Cmos2Dphy.ResetSatisfiesInv | src/cmos2dphy.py:71-78 | The reset state meets the invariant (FIFO within depth, request registers only in their follow-up states). |
| Cmos2Dphy.PixelNextPreservesInv | src/cmos2dphy.py:112-238 | A pixel edge keeps the invariant. |
| Cmos2Dphy.ByteNextPreservesInv | src/cmos2dphy.py:135-245 | A byte edge keeps the invariant. |
| Cmos2Dphy.LeavesWaitFvStartOnFrameStart | src/cmos2dphy.py:76-139 | The FSM starts in WAIT_FV_START and leaves it exactly on `fv_start`, for FV_START. |
| Cmos2Dphy.RequestFields | src/cmos2dphy.py:140-216 | Frame-start states drive dt 0 and wc 0, frame-end states dt 1 and wc 0, and long-packet states dt 0x1E and wc 3840; WAIT_FV_START_DONE and LV_START drive dt 0x1E and wc 3840 exactly in the cycle whose transition raises `lp_en`, and dt 0 and wc 0 otherwise. |
| Cmos2Dphy.FrameStartRequest | src/cmos2dphy.py:140-162 | While the frame-start `sp_en` is high, in WAIT_FV_START_DONE, the engine sees dt 0 and wc 0, unless that cycle also sees the packet end with `lv_i` high, when dt 0x1E and wc 3840 are driven. |
| Cmos2Dphy.FrameStartOverlapsLine | src/cmos2dphy.py:148-162 | That overlap occurs in a register set meeting the invariant: `sp_en` high together with dt 0x1E, wc 3840 and a rising `lp_en`. |
| Cmos2Dphy.RequestsArePulses | src/cmos2dphy.py:143-214 | `sp_en` and `lp_en` are one-cycle pulses; `sp_en` rises only on FV_START → WAIT_FV_START_DONE or FV_END → WAIT_FV_END_DONE, and only with `d_hs_rdy`. |
| Cmos2Dphy.LongRequestRises | src/cmos2dphy.py:153-177 | `lp_en` rises on LV_START → WAIT_FOR_PHDR only with `d_hs_rdy`, and on WAIT_FV_START_DONE → LP_XFR without that check. |
| Cmos2Dphy.LongRequestWithoutReady | src/cmos2dphy.py:150-157 | The WAIT_FV_START_DONE → LP_XFR transition raises `lp_en` while `d_hs_rdy` is low. |
| Cmos2Dphy.FifoRead | src/cmos2dphy.py:184-191 | The FIFO is read, and `w_byte_data_en` raised, exactly in LP_XFR with a readable FIFO. |
| Cmos2Dphy.FifoDequeue | src/cmos2dphy.py:188-225 | A byte edge removes the word read from the FIFO front, and empties the FIFO while `fv_i` is low. |
| Cmos2Dphy.FifoStep | src/cmos2dphy.py:184-237 | On any edge of either clock with `fv_i` high, the FIFO before plus the word it took in equals the word handed to the engine plus the FIFO after. |
| Cmos2Dphy.FifoKeepsOrder | src/cmos2dphy.py:71-237 | Over any interleaving of pixel- and byte-clock edges with `fv_i` high, the words handed to the packet engine followed by the words still queued are the words queued at the start followed by the words taken in; the words handed out are, in order, a prefix of those. |
| Cmos2Dphy.TransferRequest | src/cmos2dphy.py:196-226 | `txfr_req` is `c2d_ready & (fv_start \| fv_end \| lv_start \| hs_req)`, and `hs_req` is high exactly on LV_END → FV_END. |
| Cmos2Dphy.DelayChains | src/cmos2dphy.py:240-245 | `ld_pyld_d[k]` and `phdr_xfr_done_d[k]` are the engine's strobes k + 1 edges late. |
| Cmos2Dphy.FsmEdge | src/cmos2dphy.py:135-220 | The imperative FSM update with `NextState`/`NextValue` equals the next-state functions. |
| Cmos2Dphy.Drive | src/cmos2dphy.py:135-226 | The imperative combinational outputs equal the output function. |
| Cmos2Dphy.ByteEdge | src/cmos2dphy.py:135-245 | One imperative byte-clock cycle gives the outputs and the next registers. |
| Cmos2Dphy.FifoWriteSide | src/cmos2dphy.py:223-238 | The imperative FIFO write side equals the FIFO after a pixel edge. |
| Cmos2Dphy.DetectEdge | src/cmos2dphy.py:116-132 | The imperative edge detector equals the flag functions. |
| Cmos2Dphy.PixelEdge | src/cmos2dphy.py:112-238 | One imperative pixel-clock edge equals `PixelNext`. |
| Cmos2Dphy.Converter.constructor | src/cmos2dphy.py:71-108 | The block starts in reset with an empty FIFO. |
| Cmos2Dphy.Converter.PixelStep | src/cmos2dphy.py:112-238 | A pixel-clock edge updates the registers to `PixelNext` and keeps the invariant. |
| Cmos2Dphy.Converter.ByteStep | src/cmos2dphy.py:135-245 | A byte-clock cycle returns its outputs, updates the registers to `ByteNext` and keeps the invariant. |
| TimingGen.GetTimings | src/timing_gen.py:40-97 | The lookup succeeds exactly for 720p60, 1080p60 and 1080p30, with totals 1650/750 or 2200/1125; otherwise it fails with the unsupported-format message. |
| TimingGen.CreateTimingGenerator | src/timing_gen.py:20-37 | The pattern generator takes precedence; 720p60 picks its variant by lane count, and the 1080 formats have one variant each; an unknown format fails with the lookup's message or the assertion. |
| TimingGen.TimingsOf | src/timing_gen.py:185-333 | Each variant uses its format's `get_timings` entry. |
| TimingGen.ResetSatisfiesInv | src/timing_gen.py:145-148 | Reset counters are in range. |
| TimingGen.LoadsInRange | src/timing_gen.py:120-350 | The hsync and vsync load values lie inside [1, H_TOTAL) and [1, V_TOTAL), below 2^12. |
| TimingGen.NextPreservesInv | src/timing_gen.py:150-358 | The pixel counter stays in [1, H_TOTAL] after every edge and the line counter in [0, V_TOTAL]; the 12-bit increments never wrap. |
| TimingGen.LineCounterSteps | src/timing_gen.py:165-175 | A vsync leading edge loads V_SYNC_START; otherwise, at pixel count 1, the line counter advances, wrapping from V_TOTAL to 1, and at any other count it holds. |
| TimingGen.FvExtendWindow | src/timing_gen.py:213-373 | `fv_extend_cnt` counts up exactly while the last line's blanking runs and is cleared otherwise. |
| TimingGen.Counters | src/timing_gen.py:160-211 | The imperative counter logic equals `pixcnt_c`, `linecnt_c` and `lv_c`. |
| TimingGen.Edge | src/timing_gen.py:150-373 | One imperative edge of each variant equals `Next`. |
| TimingGen.OutputLatency | src/timing_gen.py:194-343 | `fv_o` shows `fv_c` one edge late (two for 1080p60), and `lv_o` shows `lv_c & fv_c` two edges late in every variant. |
| TimingGen.LineValidOutlastsFrame | src/timing_gen.py:165-343 | From pixel count 1 of line V_ACTIVE, two edges later `lv_o` is high exactly for the two-lane 720p60 and the 1080p30 variants, which then have `fv_o` low: one pixel of line-valid outside frame-valid; the four-lane 720p60 and 1080p60 variants mask it. |
| TimingGen.HsyncLoadsPixelCounter | src/timing_gen.py:150-203 | An hsync leading edge reaches `hsync_r & ~hsync_rr` two edges later and then loads the pixel counter. |
| TimingGen.PixelCounterCycles | src/timing_gen.py:200-211 | Without hsync edges, after n edges the pixel counter has advanced by n modulo H_TOTAL within [1, H_TOTAL]. |
| TimingGen.LineStartDelays | src/timing_gen.py:191-350 | From an hsync load to pixel count 1 takes H_SYNC + H_BACK_PORCH edges (two-lane 720p60, 1080p30), 5 fewer for four-lane 720p60 and 6 fewer for 1080p60. |
| TimingGen.LineStartsAfterLoad | src/timing_gen.py:160-211 | After an hsync load, line-valid stays low until the pixel count returns to 1 and rises then. |
| TimingGen.LineValidInFreeRun | src/timing_gen.py:160-162 | `lv_c` is high exactly while the pixel count lies in the line's first H_ACTIVE counts. |
| TimingGen.TableWellFormed | src/timing_gen.py:57-88 | Every `get_timings` entry meets the colour-bar generator's assumptions. |
| TimingGen.Pattern720p60Tail | src/timing_gen.py:376-538 | At 720p60 the last two of the 1280 active pixels fall past the six 213-pixel stripes and carry 0. |
| TimingGen.TimingGenerator.constructor | src/timing_gen.py:100-157 | A generator of a variant starts at reset. |
| TimingGen.TimingGenerator.Step | src/timing_gen.py:150-373 | One edge updates the registers to `Next` and keeps the counters in range. |
| PatternGen.PatternTimings | src/pattern_gen.py:19-80 | The lookup succeeds exactly for the four formats, with H_TOTAL 2200 (1080p60/30) or 2640 (1080p50/25) and V_TOTAL 1125. |
| PatternGen.Windows | src/pattern_gen.py:79-142 | `fv` holds for exactly V_ACTIVE line counts, and `lv` for exactly H_ACTIVE pixel counts of a frame-valid line. |
| PatternGen.ResetSatisfiesInv | src/pattern_gen.py:100-164 | The reset registers meet the invariant: the colour counters stand for the position in the active line. |
| PatternGen.NextPreservesInv | src/pattern_gen.py:110-176 | Every edge keeps the counters in range, without wrapping, and keeps `color_cnt_r` and `color_r` equal to the offset and index of the current stripe. |
| PatternGen.StripeBound | src/pattern_gen.py:162-176 | A line-valid cycle never reaches the eighth stripe, so the 3-bit `color_r` never wraps. |
| PatternGen.PixelOutput | src/pattern_gen.py:104-217 | In a line-valid cycle, the next edge raises `lv_o` and loads `data_o` with the word of active pixel `pixcnt - H_SYNC - H_BACK_PORCH`; outside, `data_o` becomes 0. |
| PatternGen.ColorInRange | src/pattern_gen.py:162-176 | When H_ACTIVE is a multiple of six, `color_r < 6` while line-valid is high. |
| PatternGen.Pattern1080p60 | tests/test_pattern_gen.py:48-61 | At 1080p60 pixel i carries `Y_VAL[i // 320]` high and `U_VAL[i // 320]` (even i) or `V_VAL[i // 320]` (odd i) low. |
| PatternGen.TableWellFormed | src/pattern_gen.py:19-60 | All four formats meet the generator's assumptions. |
| PatternGen.PixelCounterCycles | src/pattern_gen.py:119-125 | After n edges the pixel counter has advanced by n modulo H_TOTAL within [1, H_TOTAL]. |
| PatternGen.LineCounterSteps | src/pattern_gen.py:110-116 | The line counter advances at the edge that wraps the pixel counter, and falls from V_TOTAL back to 0. |
| PatternGen.Edge | src/pattern_gen.py:103-217 | The imperative edge equals `Next`. |
| PatternGen.PatternGenerator.constructor | src/pattern_gen.py:68-80 | A generator takes its format's timings and starts at reset. |
| PatternGen.PatternGenerator.Step | src/pattern_gen.py:103-217 | One edge updates every register to `Next` and keeps the invariant. |
| Detector.ResetSatisfiesInv | src/detector.py:57-59 | The reset counters are within bounds. |
| Detector.NextPreservesInv | src/detector.py:57-181 | Every edge keeps s1 ≤ 1, s2 ≤ 3 and s3 ≤ 1. |
| Detector.SearchRestarts | src/detector.py:91-176 | A byte with `lv_i` high in FIRST/SECOND/THIRD_OK restarts in FIRST_OK with every counter 0, and a 0xFF byte that breaks a later group restarts with s1 = 1. |
| Detector.DoneEntryAndAbsorbing | src/detector.py:148-181 | DONE is entered only from THIRD_OK on a second XY byte and is never left. |
| Detector.Edge | src/detector.py:65-184 | The imperative edge equals `Next`. |
| Detector.SearchTracksInput | src/detector.py:65-177 | Until DONE, the state and counters stand for exactly the last bytes received, which are a prefix of the preamble. |
| Detector.DoneOnlyAfterPreamble | src/detector.py:60-177 | DONE is entered only after the eight bytes FF FF 00 00 00 00 XY XY, all with `lv_i` low. |
| Detector.PreambleReachesDone | src/detector.py:60-177 | Conversely, those eight bytes lead from FIRST_OK to DONE on the eighth edge and not before, with F1-F3 holding the pixel clock levels seen at each group's last byte. |
| Detector.DoneIsFinal | src/detector.py:179-181 | Once DONE, always DONE, with the flags unchanged. |
| Detector.AlignedIsSticky | src/detector.py:184 | `n_align_o` rises one edge after DONE with F1, F2 and F3 set, and no edge of a run without reset clears it. |
| Detector.OnlyResetClearsAlign | src/detector.py:36-43 | An edge with `det.rst` high returns every register to reset; an edge that clears `n_align_o` or leaves DONE had `det.rst` high; the invariant holds either way. |
| Detector.AlignedOnlyFromDone | src/detector.py:184 | An edge sets `n_align_o` exactly when it was set or DONE holds with all three flags. |
| Detector.DetectTRS.constructor | src/detector.py:51-61 | The detector starts in FIRST_OK with everything cleared. |
| Detector.DetectTRS.Reset | src/detector.py:36-43 | An edge with `det.rst` high puts every register of the `det` domain back to its reset value. |
| Detector.DetectTRS.Step | src/detector.py:65-184 | One edge updates every register to `Next` and keeps the invariant. |
| Aligner.ResetSatisfiesInv | src/aligner.py:37 | The reset counter is within [0, 5]. |
| Aligner.NextPreservesInv | src/aligner.py:46-59 | Every edge keeps `align_cnt` within [0, 5] and its 3-bit increment never wraps. |
| Aligner.NotAlignedHoldsReset | src/aligner.py:55-58 | While `n_align_i` is low, `align_cnt` is 0 and `detector_rst_c` is 1. |
| Aligner.Edge | src/aligner.py:42-67 | The imperative edge equals `Next`. |
| Aligner.ResetOutputDelayed | src/aligner.py:67 | `detector_rst_o` is `detector_rst_c` one cycle late. |
| Aligner.AlignedCountCycle | src/aligner.py:46-54 | With `n_align_i` high from a cleared counter, `align_cnt` reads 1, 2, 3, 4, 5, 1, … and `detector_rst_c` pulses on every fifth edge, first on the sixth. |
| Aligner.AlignToggles | src/aligner.py:42-65 | From reset, `align_o` is high exactly when `n_align_i` has had an odd number of rising edges. |
| Aligner.ToggleOnRisingEdge | src/aligner.py:42-65 | `align_o` toggles exactly in the cycle after a rising edge of `n_align_i`. |
| Aligner.AlignerBlock.constructor | src/aligner.py:25-40 | The controller starts with every register cleared. |
| Aligner.AlignerBlock.Step | src/aligner.py:42-67 | One edge updates every register to `Next` and keeps the invariant. |

## Left out

- src/crc16.py is not part of this model. The formatter's checksum generator is taken as the CSI-2 checksum `Crc16.Step`; the formatter itself only assumes a function from the running checksum and a payload word to the next checksum.
- The `TXDPHY` wrapper and its hardened D-PHY primitive (src/mipi_dphy.py:220-478) are a vendor block with no logic to model.
- `byte2dphy_instance` (src/cmos2dphy.py:247-273) is a black box. Its outputs `d_hs_rdy`, `c2d_ready`, `phdr_xfr_done` and `ld_pyld` are free inputs of every byte-clock edge.
- The `AsyncFIFO` internals (gray-code pointers, synchronisers, metastability) are library code. The FIFO is a bounded sequence of depth 128 that both clock domains change directly.
- The two clock domains of `CMOS2DPHY` are two operations, `PixelStep` and `ByteStep`, that may interleave in any order. Clock ratios and metastability are not modelled.
- Cmos2Dphy.ByteOutput: `byteData` is 0 while the FIFO is empty. In the source `w_byte_data` is then the stale RAM word at the read pointer (the RAM is not cleared by the reset), a value that does not matter because `w_byte_data_en` is low in such a cycle.
- `fv_i` and `lv_i` reach the byte-clock FSM directly, as inputs of each byte-clock edge; the model does not relate them to the pixel-clock samples.
- Cmos2Dphy.Converter and TimingGen.TimingGenerator keep their register file as a single record-valued field that `Step` replaces, instead of one field per register. Their contracts still give the whole new register set.
- The D-PHY data lane vectors `lp_tx_data_p_o`/`lp_tx_data_n_o` are always `Replicate(x, LANES)`, so each is one boolean in the model; four-lane packet geometry has no code behind it beyond `hs_init_seq`, whose 16-bit truncation is modelled.
- PatternGen.ColorInRange: requires H_ACTIVE to be a multiple of six, as every `hv_timings` entry is; at 720p60 (only reachable through the copy in src/timing_gen.py:376-538) `color_r` does reach 6, and `TimingGen.Pattern720p60Tail` states what is then sent.
- TimingGen.FvExtendWindow: requires `fv_extend_cnt` below 1023; the 10-bit wrap itself is modelled in `Next`.
- PatternGen.PatternGenerator.constructor: requires a format with an `hv_timings` entry; the `KeyError` for any other format is `PatternTimings` returning `None`.
- The `PatternGenerator` class of src/timing_gen.py:376-538 duplicates src/pattern_gen.py. It is modelled by `PatternGen` applied to the `get_timings` table (`TimingGen.TableWellFormed`, `TimingGen.Pattern720p60Tail`).
- The unused register `yuv_cnt_d` of the pattern generator and the unused `compute_crc` strobe of the formatter drive nothing and are not modelled. `linecnt_d`, which also drives nothing, is kept as `PatternGen.Regs.linecntD`.
- The expression `detect_trs.eq(detect.ongoing("DONE"))` at src/detector.py:63 is built but never added to the module, so it has no effect. `detect_trs` is modelled as driven by the FSM states alone, which gives the same value. `detector_rst` (src/detector.py:32) is connected to nothing.
- Synchronous resets: the detector's `det.rst`, which the aligner's `detector_rst_o` drives in src/sdi2mipi.py, is modelled (`Detector.ClockedNext`, `Detector.DetectTRS.Reset`); the system reset of the other blocks is only their constructors' reset state, not an operation in mid-run, and the run lemmas of every block describe runs without a reset.
- Wiring and glue are not modelled: src/top.py, src/sdi2mipi.py, src/divider.py, generate.py and the Verilog `convert` calls.
- The test harness (cocotb, `reset_module`) is not modelled; from the tests only the golden values are restated (`Crc16.ReferenceLineStartChecksum`, `PatternGen.Pattern1080p60`). tests/test_packet_formatter_4lanes.py expects a 32-bit output that the formatter does not have.
