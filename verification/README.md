# Control logic and ROM bank generators of the OpenRAM memory compiler, in Dafny

This project models two parameter-to-structure generators of the OpenRAM
memory compiler.

**The delay-based control logic** (`compiler/modules/control_logic_delay.py`).
From the port type (read-write `rw`, read-only `r`, write-only `w`) and a few
counts, the generator:

- picks its signal lists and pins;
- creates the control flops, the clock buffers, the tapped delay chain, three
  glitch nands, and the enable gates for precharge, wordline, sense and
  write;
- places these cells in abutting rows, alternately mirrored, to the right of a
  vertical bus;
- sizes a delay chain by logical effort. There are two estimators: one for
  a fixed fanout, and one for rise and fall fanouts, interleaved.

**The ROM data bank** (`compiler/modules/rom_base_bank.py`). It:

- derives its address bits by ceil(log2) of the rows and of the words per row;
- declares its top-level pins;
- generates the net families `bl_i`, `bl_b_i`, `wl_i`, `addr_i`, `word_sel_i`,
  `rom_out_prebuf_i` and `rom_out_i`;
- connects seven sub-instances;
- copies the decoder, output and control pins to the top level.

Modules, one per concern:

- `Results`: `Option` and `Result`.
- `Arith`: ceiling, powers of two, exact ceil(log2), maximum.
- `Circuit`: pins, directions, distinctness.
- `Geometry`:
  - row offsets and mirroring (`get_offset`);
  - abutment (`place_util`);
  - row bands.
- `ControlSignals`: port type, derived counts, signal lists, pins.
- `ControlNetlist`: the control logic's instances and connection lists.
- `ControlPlacement`: the control logic's floorplan.
- `DelaySizing`: the stage-count estimators.
- `RomBank`: the ROM bank's counts, pins, nets and instances.
- `RomTopLevel`: the ROM bank's top-level pin copies and supply copies.

Cells of the library are opaque records with a width and a height (`Dims`).
Net names are enumerations, or (family, index) pairs, rather than formatted
strings. Integers are unbounded. The parasitic inverter delay `pinv` and all
delays are exact reals.

## Model

| member | source | states |
|---|---|---|
| ControlSignals.ModuleName | compiler/modules/control_logic_delay.py:25 | the module is named `control_logic_` followed by the port tag |
| ControlSignals.ModuleNameInjective | compiler/modules/control_logic_delay.py:25 | different port types give different module names |
| ControlSignals.NetName | compiler/modules/control_logic_delay.py:251-278 | each net's spelling (`csb`, `cs_bar`, `gated_clk_bar`, ...) reads back as that net |
| ControlSignals.NetNameInjective | compiler/modules/control_logic_delay.py:251-278 | different nets are never spelled the same, so distinct nets are distinct strings |
| ControlSignals.NumSpareCols | compiler/modules/control_logic_delay.py:38-41 | no spare columns when none are given, otherwise the given number |
| ControlSignals.NumColsSpares | compiler/modules/control_logic_delay.py:38-43 | the column count is exactly the data columns iff no spare count or 0 is given; a positive count adds that many columns |
| ControlSignals.NumWords | compiler/modules/control_logic_delay.py:44 | with at least one word per row there are at least as many words as rows |
| ControlSignals.NumControlSignals | compiler/modules/control_logic_delay.py:55-58 | two control signals exactly for `rw`, otherwise one |
| ControlSignals.InputList | compiler/modules/control_logic_delay.py:251-254 | starts with `csb`; holds exactly `csb`, plus `web` iff the port is `rw`; `num_control_signals` distinct names |
| ControlSignals.DffOutputList | compiler/modules/control_logic_delay.py:256-259 | twice as long as the input list; starts `cs_bar, cs`; holds exactly those, plus `we`/`we_bar` iff `rw`; distinct |
| ControlSignals.InternalBusList | compiler/modules/control_logic_delay.py:262-265 | 13 distinct names for `rw`, 11 otherwise; exactly the common names plus `we, we_bar` for `rw`; every flop output except `cs_bar` is on the bus |
| ControlSignals.InternalBusWidth | compiler/modules/control_logic_delay.py:266-267 | one m2 track per bus name plus a spare: 14 or 12 pitches |
| ControlSignals.OutputList | compiler/modules/control_logic_delay.py:269-278 | holds exactly `p_en_bar, wl_en, clk_buf`, plus `s_en` iff the port reads and `w_en` iff it writes; ends `p_en_bar, wl_en, clk_buf`; distinct |
| ControlSignals.PinNameList | compiler/modules/control_logic_delay.py:78-83 | holds exactly the control inputs, `clk`, the outputs and the two supplies, with no name twice |
| ControlSignals.Pins | compiler/modules/control_logic_delay.py:78-83 | inputs then `clk` as INPUT, the outputs as OUTPUT, then `vdd` POWER and `gnd` GROUND, in that order, distinct |
| ControlSignals.ReadWriteScenario | compiler/modules/control_logic_delay.py:251-278 | an `rw` port registers `csb, web` and exposes `s_en, w_en, p_en_bar, wl_en, clk_buf` |
| ControlSignals.ReadOnlyHasNoWritePins | compiler/modules/control_logic_delay.py:251-278 | a read-only port has neither `web` nor `w_en` |
| ControlNetlist.NamesAppend | compiler/modules/control_logic_delay.py:292-305 | names of consecutively created instances concatenate |
| ControlNetlist.CtrlDffs | compiler/modules/control_logic_delay.py:675-679 | the flops take the inputs first and the clock buffer third from last; 3 connections per control signal plus 3 |
| ControlNetlist.WEnGate | compiler/modules/control_logic_delay.py:632-644 | the write-enable and3 is gated by `we` on `rw` and by `cs` otherwise, always a flop output, and drives `w_en` |
| ControlNetlist.SEnGate | compiler/modules/control_logic_delay.py:603-611 | the sense-enable and3 is gated by `we_bar` on `rw` and by `cs` otherwise, always a flop output, and drives `s_en` |
| ControlNetlist.Build | compiler/modules/control_logic_delay.py:376-679 | each created instance carries its own name |
| ControlNetlist.InstName | compiler/modules/control_logic_delay.py:378-676 | each instance's name (`ctrl_dffs`, `clkbuf`, `and_w_en`, ...) reads back as that instance |
| ControlNetlist.InstNameInjective | compiler/modules/control_logic_delay.py:378-676 | different instances are never added under the same name |
| ControlNetlist.CommonIdsMembers | compiler/modules/control_logic_delay.py:292-305 | the rows every port type creates are all instances but the two write-enable gates, the sense-enable gate and the precharge driver, none twice |
| ControlNetlist.LaterRows | compiler/modules/control_logic_delay.py:301-305 | after the wordline-enable row: the write-enable row iff the port writes, the sense gate iff it reads, and always the precharge driver; none twice |
| ControlNetlist.CreationOrder | compiler/modules/control_logic_delay.py:292-305 | 15, 13 or 14 instances for `rw`, `r`, `w`; the flops first; no instance twice |
| ControlNetlist.CreatedIffPresent | compiler/modules/control_logic_delay.py:292-305 | an instance is created iff its row exists for the port type |
| ControlNetlist.CreateInstances | compiler/modules/control_logic_delay.py:292-305 | creation order as above, distinct names, exactly the present instances, each with its own connection list |
| ControlNetlist.OptionalInstances | compiler/modules/control_logic_delay.py:301-304 | `and_w_en` and `inv_glitch3_bar` exist iff the port writes; `and_s_en` iff it reads |
| ControlNetlist.NetsOfPresentInstances | compiler/modules/control_logic_delay.py:376-679 | the nets a created instance connects exist for that port type (`web`, `we`, `we_bar` only for `rw`, and so on); `cs_bar` is on the flops only; without a sense gate, `gated_clk_bar` is only on the and2 that drives it |
| ControlNetlist.Orphans | compiler/modules/control_logic_delay.py:603-679 | `cs_bar` always, and `gated_clk_bar` exactly on ports without a sense path, reach a single instance |
| ControlNetlist.SharersValid | compiler/modules/control_logic_delay.py:376-679 | for every net that is not a pin or an orphan, two distinct created instances both connect it |
| ControlNetlist.SharersValidReadWrite | compiler/modules/control_logic_delay.py:376-679 | the same, for `rw` ports |
| ControlNetlist.SharersValidReadOnly | compiler/modules/control_logic_delay.py:376-679 | the same, for `r` ports |
| ControlNetlist.SharersValidWriteOnly | compiler/modules/control_logic_delay.py:376-679 | the same, for `w` ports |
| ControlNetlist.InternalNetsShared | compiler/modules/control_logic_delay.py:376-679 | any non-pin, non-orphan net on a created instance also appears on another created instance |
| ControlNetlist.OrphansReachOneInstance | compiler/modules/control_logic_delay.py:603-679 | an orphan is not a pin and reaches only the flops (`cs_bar`) or the gated-clock-bar and2 |
| ControlNetlist.OutputsDriven | compiler/modules/control_logic_delay.py:439-649 | every output pin has a created driver whose output position carries it |
| Geometry.GetOffset | compiler/modules/control_logic_delay.py:706-715 | mirrored (MX) exactly on odd rows; the cell's band is `[row*h, (row+1)*h]` either way |
| Geometry.PlaceUtil | compiler/modules/control_logic_delay.py:795-801 | places at the given x offset, returns the cell's right edge, and a cell no taller than the row stays in the row's band |
| Geometry.PlaceRow | compiler/modules/control_logic_delay.py:445-450 | a row of cells placed one after another ends at the offset plus the row's total width |
| Geometry.RowNoOverlap | compiler/modules/control_logic_delay.py:795-801 | later cells of a row start at or right of where earlier ones end |
| Geometry.RowStartsAtOffset | compiler/modules/control_logic_delay.py:317 | no cell of a row starts left of the row's x offset |
| Geometry.RowInBand | compiler/modules/control_logic_delay.py:706-715 | every cell of a row that fits the row height lies in the row's band |
| Geometry.FullHeightCell | compiler/modules/control_logic_delay.py:706-715 | a cell exactly one row high spans its row's band from `row*h` to `(row+1)*h` |
| Geometry.BandsOrdered | compiler/modules/control_logic_delay.py:706-715 | a lower row's band ends at or below the start of a higher row's band |
| Geometry.RowsDisjoint | compiler/modules/control_logic_delay.py:706-715 | cells in the bands of different rows do not overlap |
| ControlPlacement.RowPlan | compiler/modules/control_logic_delay.py:319-340 | 9 rows for `rw`, 8 otherwise, none empty, the glitch3 nand alone on top |
| ControlPlacement.PlaceDelay | compiler/modules/control_logic_delay.py:382-391 | fails on odd rows; otherwise the chain is mirrored at x 0 and spans `[row*h, row*h + chain height]` |
| ControlPlacement.DelayPlaced | compiler/modules/control_logic_delay.py:344-345 | the chain placed at row 4 succeeds, at x 0, its bottom on the boundary of row 4 |
| ControlPlacement.PlaceRows | compiler/modules/control_logic_delay.py:319-340 | one placed row per planned row, with as many cells |
| ControlPlacement.RowPlaced | compiler/modules/control_logic_delay.py:445-655 | each row is abutted from the control offset in its own band |
| ControlPlacement.LayoutWidth | compiler/modules/control_logic_delay.py:354-358 | at least one m2 pitch right of every row end and, on ports that read, of the delay chain; attained by one of them |
| ControlPlacement.PlanCellsInRows | compiler/modules/control_logic_delay.py:292-340 | every planned row cell is created for the port and is neither the flops nor the chain |
| ControlPlacement.OptionalRowsPlaced | compiler/modules/control_logic_delay.py:326-332 | the write-enable row is placed iff the port writes, the sense-enable row iff it reads |
| ControlPlacement.RowCellFits | compiler/modules/control_logic_delay.py:795-801 | with row cells no taller than the and2, every placed cell fits its row's height |
| ControlPlacement.RowCellsDisjoint | compiler/modules/control_logic_delay.py:319-340 | any two distinct placed row cells do not overlap |
| ControlPlacement.RowsClearOfBus | compiler/modules/control_logic_delay.py:314-317 | every row cell starts right of the flops and the bus |
| ControlPlacement.RowEndBound | compiler/modules/control_logic_delay.py:354 | no cell of a row extends beyond the row end |
| ControlPlacement.WidthEnclosesRows | compiler/modules/control_logic_delay.py:354-358 | every row cell ends at least one m2 pitch left of the module's right edge |
| ControlPlacement.WidthAndDelay | compiler/modules/control_logic_delay.py:354-358 | on ports that read the width covers the delay chain; on a write-only port it does iff some row reaches as far |
| ControlPlacement.TopRowCellReachesTop | compiler/modules/control_logic_delay.py:342 | the top glitch nand's top edge is the top of the last row band |
| ControlPlacement.CenterAboveRows | compiler/modules/control_logic_delay.py:342-349 | the alignment point sits on the flops' right edge, one m3 pitch above the last row |
| ControlPlacement.HeightCoversRowsIff | compiler/modules/control_logic_delay.py:344-352 | the height is the chain top plus two m1 pitches; it covers every row cell iff the rows reach no higher |
| ControlPlacement.LayoutHeight | compiler/modules/control_logic_delay.py:344-352 | the height is row 4's boundary plus the chain height plus two m1 pitches |
| ControlPlacement.DelayClear | compiler/modules/control_logic_delay.py:382-391 | a chain no wider than the flops, above flops lower than row 4, overlaps neither the flops, the bus nor any row cell |
| DelaySizing.StageDelay | compiler/modules/control_logic_delay.py:243 | one stage costs fanout + 1 + pinv, at least one unit |
| DelaySizing.RequiredDelay | compiler/modules/control_logic_delay.py:168 | the requirement is positive iff the sense-enable delay is below the wordline delay (times the tolerance) plus the earlier chain |
| DelaySizing.RequiredDelayMonotone | compiler/modules/control_logic_delay.py:168 | the requirement grows with the wordline delay and the earlier chain, and shrinks as the sense-enable delay grows |
| DelaySizing.EdgeRequirement | compiler/modules/control_logic_delay.py:190-193 | each edge credits half the earlier chain, so its requirement never exceeds the whole-chain requirement and equals it iff there is no earlier chain |
| DelaySizing.CalculateStagesWithFixedFanout | compiler/modules/control_logic_delay.py:237-245 | 1 when the requirement is within 3 + pinv; otherwise the least stage count whose delay reaches the requirement |
| DelaySizing.StagesLeast | compiler/modules/control_logic_delay.py:237-245 | any stage count that covers the requirement is at least the computed one |
| DelaySizing.StagesAntitone | compiler/modules/control_logic_delay.py:237-245 | a larger fanout never needs more stages |
| DelaySizing.SeveralStagesBoundFanout | compiler/modules/control_logic_delay.py:237-245 | while more than one stage is needed, the fanout is below the requirement, so raising it must stop |
| DelaySizing.DynamicDelayChainSize | compiler/modules/control_logic_delay.py:158-177 | fails iff the requirement is not positive; otherwise fanout 3 and the least even stage count, at least 2, whose delay reaches the requirement |
| DelaySizing.Balance | compiler/modules/control_logic_delay.py:198-226 | unless it falls back, the loop ends with equal stage counts matching its final fanouts, and neither fanout below its start; a fall-back ends with counts one apart |
| DelaySizing.DynamicDelayFanoutListAsWritten | compiler/modules/control_logic_delay.py:180-234 | twice the larger of the loop's last stage counts, interleaving the loop's final fanouts |
| DelaySizing.DynamicDelayFanoutList | compiler/modules/control_logic_delay.py:180-234 | an even-length list interleaving the final fanouts, with stage counts recomputed for them |
| DelaySizing.EdgeDelayInterleave | compiler/modules/control_logic_delay.py:233 | in an interleaved list of 2n stages each edge passes n stages of its own fanout |
| DelaySizing.InterleaveCovers | compiler/modules/control_logic_delay.py:229-233 | enough stage pairs for each edge give a list that covers both requirements |
| DelaySizing.EdgeCovers | compiler/modules/control_logic_delay.py:237-245 | at least the computed number of stages covers an edge's requirement |
| DelaySizing.FanoutListCovers | compiler/modules/control_logic_delay.py:180-234 | the corrected list always covers both edge requirements |
| DelaySizing.AsWrittenCoversUnlessRestored | compiler/modules/control_logic_delay.py:180-234 | the list as written covers both requirements whenever the loop did not fall back |
| DelaySizing.AsWrittenFallChainTooShort | compiler/modules/control_logic_delay.py:216-229 | a concrete input where the loop falls back and the list as written misses the fall requirement; the corrected list covers it |
| Arith.Ceil | compiler/modules/control_logic_delay.py:171 | the least integer not below x |
| Arith.CeilLog2 | compiler/modules/rom_base_bank.py:34-35 | the least k with n <= 2^k |
| Arith.CeilLog2Unique | compiler/modules/rom_base_bank.py:34-35 | that k is unique |
| Arith.CeilLog2OfPow2 | compiler/modules/rom_base_bank.py:34-35 | ceil(log2 2^k) is k |
| RomBank.Configure | compiler/modules/rom_base_bank.py:30-36 | fails iff there are no rows or no words per row; otherwise row bits and input count are ceil(log2 rows), column bits ceil(log2 words per row), outputs = rows |
| RomBank.ConfigureValid | compiler/modules/rom_base_bank.py:30-36 | a configuration with rows and words per row yields a consistent bank |
| RomBank.PowerOfTwoBits | compiler/modules/rom_base_bank.py:34-36 | with power-of-two dimensions the address bits exactly address rows times words per row |
| RomBank.InNets | compiler/modules/rom_base_bank.py:204-214 | a family range holds exactly the indices it spans |
| RomBank.NetsSplit | compiler/modules/rom_base_bank.py:207-208 | adjacent ranges of one family concatenate into one |
| RomBank.AddrSplit | compiler/modules/rom_base_bank.py:114-115 | the column-decoder low bits and row-decoder high bits are disjoint and together are the address pins, low first |
| RomBank.AddPins | compiler/modules/rom_base_bank.py:109-123 | `clk`, `CS`, `addr_0..`, `rom_out_0..`, `vdd`, `gnd` in that order with their directions; length 4 + row bits + column bits + word size |
| RomBank.PinsExact | compiler/modules/rom_base_bank.py:109-123 | a net is in the pin list iff it is one of the bank's pins |
| RomBank.PinListed | compiler/modules/rom_base_bank.py:109-123 | every pin of the bank is declared |
| RomBank.PinAt | compiler/modules/rom_base_bank.py:109-123 | which pin stands at each position of the list |
| RomBank.PinsDistinct | compiler/modules/rom_base_bank.py:109-123 | no pin is declared twice |
| RomBank.Conns | compiler/modules/rom_base_bank.py:216-226 | connection-list lengths: array cols+rows+3, row decoder row bits+rows+4, control 6, column mux cols+words per row+word size+1, column decoder column bits+words per row+4, bitline inverter 2 cols+2, output inverter 2 word size+2 |
| RomBank.CreateInstances | compiler/modules/rom_base_bank.py:228-247 | exactly seven instances, in creation order, each with its connection list |
| RomBank.InstNameInjective | compiler/modules/rom_base_bank.py:228-247 | the seven instance names differ |
| RomBank.CreatedOnce | compiler/modules/rom_base_bank.py:228-247 | every kind of sub-instance is created |
| RomBank.InternalNetsShared | compiler/modules/rom_base_bank.py:204-247 | each internal net (`wl_i`, `bl_i`, `bl_b_i`, `word_sel_i`, `rom_out_prebuf_i`, `precharge`, `clk_int`) is connected by two distinct instances |
| RomBank.ConnsAreKnown | compiler/modules/rom_base_bank.py:204-247 | every connected net is a pin or an in-range internal net |
| RomBank.PinsConnected | compiler/modules/rom_base_bank.py:204-247 | every pin of the bank reaches some instance |
| RomBank.SupplyConnections | compiler/modules/rom_base_bank.py:216-226 | every instance connects `gnd`; all but the column mux connect `vdd` |
| RomTopLevel.PlaceTopLevelPins | compiler/modules/rom_base_bank.py:443-456 | `CS` and `clk` from the control, `rom_out_i` from `out_i`, `addr_i` from the column decoder's `A{i}` below the column bits and from the row decoder's `A{i-col_bits}` above |
| RomTopLevel.TopLevelPinsExact | compiler/modules/rom_base_bank.py:443-456 | exactly the non-supply pins of the bank are copied |
| RomTopLevel.TopLevelPinsDistinct | compiler/modules/rom_base_bank.py:443-456 | no top-level pin is copied twice |
| RomTopLevel.PinPosition | compiler/modules/rom_base_bank.py:217-235 | a copied child pin's position lies within its instance's connection list |
| RomTopLevel.ExportsAgreeWithNetlist | compiler/modules/rom_base_bank.py:447-456 | each copied child pin is connected in the netlist to the same top-level net |
| RomTopLevel.OutputExported | compiler/modules/rom_base_bank.py:447-448 | the output inverter's `out_i` carries `rom_out_i` |
| RomTopLevel.LsbExported | compiler/modules/rom_base_bank.py:449-451 | the column decoder's `A{i}` carries `addr_i` |
| RomTopLevel.MsbExported | compiler/modules/rom_base_bank.py:453-456 | the row decoder's `A{i}` carries `addr_{i+col_bits}` |
| RomTopLevel.Contains | compiler/modules/rom_base_bank.py:461 | the substring test holds iff the pattern occurs at some position |
| RomTopLevel.SupplyCopies | compiler/modules/rom_base_bank.py:458-463 | `vdd` and `gnd` are copied from exactly the instances whose module name does not contain "contact" |
| RomTopLevel.SupplyCopiesOrdered | compiler/modules/rom_base_bank.py:460-463 | supply copies follow the instance order |

## Left out

- Routing in both files is left out: `route_*`, the vertical bus, via stacks, channel routes, and the jogged outputs. It depends on pin geometry of opaque library cells and on base-class routers.
- `add_modules` and factory cell selection are left out. So are the ROM effort arithmetic and the library cell sizes. Cell sizes and routing pitches are parameters (`Library` and `Dims`).
- Python's floating-point `math.log(x, 2)` and `ceil` are modelled exactly: ceil(log2) on integers and `Ceil` on reals. Float rounding is not modelled.
- DRC/LVS checks, boundaries, timing printouts, debug output, the global options and the commented-out binary reader are left out.
- The source accepts any port tag. The model's port type is the closed set `rw`, `r`, `w`.
- `wl_delay`, `sen_delay` and `pinv` come from timing analysis that is not part of this model. They are parameters, and `pinv` is taken to be non-negative.
- DelaySizing.DynamicDelayFanoutList, DelaySizing.DynamicDelayFanoutListAsWritten: these take the two edge requirements directly. `EdgeRequirement` states how the source derives them from the wordline and sense delays and the earlier chain.
- DelaySizing.Balance: the source loop has no explicit bound. The model proves it terminates, using a measure over the stage counts and the fanout gap.
- Line 649 of `control_logic_delay.py` is tab-indented. The model reads it as its evident intent: the glitch3 inverter is placed first in the write-enable row.
- The ROM sub-instances' own pin orders are not part of this model. `RomTopLevel.PinPosition` assumes:
  - the control lists `clk_in` and `CS` first;
  - each decoder lists `A0, A1, ...` first;
  - the output inverter lists its inputs before `out_0, ...`.

  These match the connection lists the bank builds.
- The ROM instances' module names come from the factory. `RomTopLevel.SupplyCopies` takes them as a parameter.
- The column mux connects no `vdd` (RomBank.SupplyConnections), yet `route_supplies` copies a `vdd` pin from it. Whether the mux cell has such a pin is outside this model.
- ControlPlacement.PlaceDelay: the source comment calls the chain "to the right of the control rows". The code places it at x = 0, above the flops. The model follows the code.
- ControlPlacement.LayoutWidth: on write-only ports the width ignores the delay chain, as the code does (the source marks it with a TODO). `WidthAndDelay` states when the chain is still covered.
- ControlPlacement.RowEnds: the model gives an empty row the end 0. No planned row is empty (`RowPlan`), so this case never arises in `PlaceInstances`.
- ControlNetlist.OutputsDriven: the output position is stated as the third from last connection. This is where every driver in the source puts it.

## Findings

| source | as written | input that shows it | evidently intended | confidence | as-written member | corrected member |
|---|---|---|---|---|---|---|
| compiler/modules/control_logic_delay.py:216-229 | After the loop falls back to the recorded safe fanouts, the list length still comes from the stage counts computed with the larger fanouts. | pinv 0.5, fall requirement 161.5, rise requirement 63. The loop falls back to fanouts (7, 2) with 17 and 18 stages. The list has 36 entries, and the 18 fall stages of fanout 7 give 153 < 161.5. | Recompute the stage counts for the fanouts the list is built from, so each edge's stages reach its requirement. | not executed | DelaySizing.AsWrittenFallChainTooShort | DelaySizing.FanoutListCovers |
