/** The instances of the delay-based control logic and the nets on their
    connection lists (`create_instances` and its `create_*` helpers). */
module ControlNetlist {
  import opened Circuit
  import opened ControlSignals
  import opened Results

  /** Opaque library cells the control logic instantiates. */
  datatype Cell =
    | CtrlDffArray    // control flops, one per control input
    | ClkBufDriver    // clock buffer
    | Inv             // minimum inverter
    | And2            // gated-clock and2
    | WlEnAnd         // weak and2 producing wl_en_unbuf
    | WlEnDriver      // wordline-enable driver
    | WenAnd          // and3 producing w_en
    | SenAnd3         // and3 producing s_en
    | PEnBarDriver    // precharge-enable driver
    | Nand2           // glitch nand2
    | MultiDelayChain // tapped delay chain

  /** The instances `create_instances` may add; InstName gives the name
      each is added under. */
  datatype InstId =
    | CtrlDffsId | ClkBufId | ClkBarId | GatedClkBarId | GatedClkBufId | DelayId
    | Glitch1Id | Glitch2Id | Glitch3Id | WlEnUnbufId | WlEnBufId
    | Glitch3BarId | WEnGateId | SEnGateId | PEnBarId

  /** Instance name; it reads back as the same instance, so no two
      instances are added under one name. */
  function InstName(id: InstId): (r: string)
    ensures InstOfName(r) == Some(id)
  {
    match id
    case CtrlDffsId => "ctrl_dffs"
    case ClkBufId => "clkbuf"
    case ClkBarId => "inv_clk_bar"
    case GatedClkBarId => "and2_gated_clk_bar"
    case GatedClkBufId => "and2_gated_clk_buf"
    case DelayId => "multi_delay_chain"
    case Glitch1Id => "nand2_glitch1"
    case Glitch2Id => "nand2_glitch2"
    case Glitch3Id => "nand2_glitch3"
    case WlEnUnbufId => "and_wl_en_unbuf"
    case WlEnBufId => "buf_wl_en"
    case Glitch3BarId => "inv_glitch3_bar"
    case WEnGateId => "and_w_en"
    case SEnGateId => "and_s_en"
    case PEnBarId => "buf_p_en_bar"
  }

  /** Reads an instance name back; names the control logic never adds
      give `None`. */
  function InstOfName(s: string): (r: Option<InstId>)
  {
    if s == "ctrl_dffs" then Some(CtrlDffsId)
    else if s == "clkbuf" then Some(ClkBufId)
    else if s == "inv_clk_bar" then Some(ClkBarId)
    else if s == "and2_gated_clk_bar" then Some(GatedClkBarId)
    else if s == "and2_gated_clk_buf" then Some(GatedClkBufId)
    else if s == "multi_delay_chain" then Some(DelayId)
    else if s == "nand2_glitch1" then Some(Glitch1Id)
    else if s == "nand2_glitch2" then Some(Glitch2Id)
    else if s == "nand2_glitch3" then Some(Glitch3Id)
    else if s == "and_wl_en_unbuf" then Some(WlEnUnbufId)
    else if s == "buf_wl_en" then Some(WlEnBufId)
    else if s == "inv_glitch3_bar" then Some(Glitch3BarId)
    else if s == "and_w_en" then Some(WEnGateId)
    else if s == "and_s_en" then Some(SEnGateId)
    else if s == "buf_p_en_bar" then Some(PEnBarId)
    else None
  }

  /** Distinct instances have distinct names. */
  lemma InstNameInjective(a: InstId, b: InstId)
    requires InstName(a) == InstName(b)
    ensures a == b
  {
  }

  /** An instance: its identity, child cell, and the nets bound
      positionally to the child's pins. */
  datatype Instance = Instance(name: InstId, cell: Cell, conns: seq<Net>)

  function Names(insts: seq<Instance>): (r: seq<InstId>)
    ensures |r| == |insts|
    ensures forall i :: 0 <= i < |r| ==> r[i] == insts[i].name
  {
    seq(|insts|, i requires 0 <= i < |insts| => insts[i].name)
  }

  lemma NamesAppend(a: seq<Instance>, b: seq<Instance>)
    ensures Names(a + b) == Names(a) + Names(b)
  {
  }

  predicate HasInstance(insts: seq<Instance>, name: InstId) {
    name in Names(insts)
  }

  /** Control flops: data inputs, then (true, complement) outputs per flop,
      then the clock, then the supplies. */
  function CtrlDffs(p: PortType): (inst: Instance)
    ensures |inst.conns| == 3 * NumControlSignals(p) + 3
    ensures inst.conns[..NumControlSignals(p)] == InputList(p)
    ensures inst.conns[|inst.conns| - 3] == ClkBuf
  {
    Instance(CtrlDffsId, CtrlDffArray, InputList(p) + DffOutputList(p) + [ClkBuf] + SupplyList)
  }

  const ClkBufInst := Instance(ClkBufId, ClkBufDriver, [Clk, ClkBuf, Vdd, Gnd])
  const ClkBarInst := Instance(ClkBarId, Inv, [ClkBuf, ClkBar, Vdd, Gnd])
  const GatedClkBarInst := Instance(GatedClkBarId, And2, [ClkBar, Cs, GatedClkBar, Vdd, Gnd])
  const GatedClkBufInst := Instance(GatedClkBufId, And2, [ClkBuf, Cs, GatedClkBuf, Vdd, Gnd])
  const DelayInst := Instance(DelayId, MultiDelayChain,
                              [GatedClkBuf, Delay1, Delay2, Delay3, Delay4, Delay5, Vdd, Gnd])
  const Glitch1Inst := Instance(Glitch1Id, Nand2, [Delay1, Delay3, Glitch1, Vdd, Gnd])
  const Glitch2Inst := Instance(Glitch2Id, Nand2, [GatedClkBuf, Delay4, Glitch2, Vdd, Gnd])
  const Glitch3Inst := Instance(Glitch3Id, Nand2, [Delay2, Delay5, Glitch3, Vdd, Gnd])
  const WlEnUnbufInst := Instance(WlEnUnbufId, WlEnAnd, [Cs, Glitch2, WlEnUnbuf, Vdd, Gnd])
  const WlEnBufInst := Instance(WlEnBufId, WlEnDriver, [WlEnUnbuf, WlEn, Vdd, Gnd])
  const Glitch3BarInst := Instance(Glitch3BarId, Inv, [Glitch3, Glitch3Bar, Vdd, Gnd])
  const PEnBarInst := Instance(PEnBarId, PEnBarDriver, [Glitch1, PEnBar, Vdd, Gnd])

  /** The write-enable and3: a read-write port qualifies it with the
      registered write enable, a write-only port with chip select. */
  function WEnGate(p: PortType): (inst: Instance)
    ensures |inst.conns| == 6
    ensures inst.conns[0] == (if p == RW then We else Cs)
    ensures inst.conns[0] in DffOutputList(p)
    ensures inst.conns[|inst.conns| - 3] == WEn
  {
    Instance(WEnGateId, WenAnd, [if p == RW then We else Cs, Glitch2, Glitch3Bar, WEn, Vdd, Gnd])
  }

  /** The sense-enable and3: a read-write port qualifies it with the
      registered write-enable complement, a read-only port with chip
      select. */
  function SEnGate(p: PortType): (inst: Instance)
    ensures |inst.conns| == 6
    ensures inst.conns[2] == (if p == RW then WeBar else Cs)
    ensures inst.conns[2] in DffOutputList(p)
    ensures inst.conns[|inst.conns| - 3] == SEn
  {
    Instance(SEnGateId, SenAnd3, [Glitch3, GatedClkBar, if p == RW then WeBar else Cs, SEn, Vdd, Gnd])
  }

  /** The instance an identity stands for: its cell and connection list
      (the `create_*` helpers). */
  function Build(id: InstId, p: PortType): (inst: Instance)
    ensures inst.name == id
  {
    match id
    case CtrlDffsId => CtrlDffs(p)
    case ClkBufId => ClkBufInst
    case ClkBarId => ClkBarInst
    case GatedClkBarId => GatedClkBarInst
    case GatedClkBufId => GatedClkBufInst
    case DelayId => DelayInst
    case Glitch1Id => Glitch1Inst
    case Glitch2Id => Glitch2Inst
    case Glitch3Id => Glitch3Inst
    case WlEnUnbufId => WlEnUnbufInst
    case WlEnBufId => WlEnBufInst
    case Glitch3BarId => Glitch3BarInst
    case WEnGateId => WEnGate(p)
    case SEnGateId => SEnGate(p)
    case PEnBarId => PEnBarInst
  }

  /** Which instances a port type has: the write-enable row only on ports
      that write, the sense-enable gate only on ports that read. */
  predicate Present(id: InstId, p: PortType) {
    match id
    case Glitch3BarId | WEnGateId => Writes(p)
    case SEnGateId => Reads(p)
    case _ => true
  }

  /** The instances every port type has, in creation order. */
  const CommonIds := [CtrlDffsId, ClkBufId, ClkBarId, GatedClkBarId, GatedClkBufId, DelayId,
                      Glitch1Id, Glitch2Id, Glitch3Id, WlEnUnbufId, WlEnBufId]

  /** Every instance but the enable gates and the precharge-enable driver
      is common to all port types, once each. */
  lemma CommonIdsMembers(id: InstId)
    ensures id in CommonIds <==>
      !(id == Glitch3BarId || id == WEnGateId || id == SEnGateId || id == PEnBarId)
    ensures Distinct(CommonIds)
  {
  }

  /** The instances created after the wordline-enable row: the write-enable
      row on ports that write, the sense-enable gate on ports that read, and
      the precharge-enable driver. */
  function LaterRows(p: PortType): (r: seq<InstId>)
    ensures forall id :: id in r <==>
      id == PEnBarId || ((id == Glitch3BarId || id == WEnGateId) && Writes(p)) || (id == SEnGateId && Reads(p))
    ensures Distinct(r)
  {
    match p
    case RW => [Glitch3BarId, WEnGateId, SEnGateId, PEnBarId]
    case R => [SEnGateId, PEnBarId]
    case W => [Glitch3BarId, WEnGateId, PEnBarId]
  }

  /** Creation order of `create_instances`: flops, clock buffer row, gated
      clock rows, delay chain, glitch nands, wordline-enable row, then the
      write-enable row, the sense-enable gate and the precharge-enable
      driver, skipping the rows the port type lacks. */
  function CreationOrder(p: PortType): (r: seq<InstId>)
    ensures |r| == match p { case RW => 15 case R => 13 case W => 14 }
    ensures r[0] == CtrlDffsId
    ensures Distinct(r)
  {
    CommonIdsMembers(CtrlDffsId);
    forall id | id in CommonIds
      ensures id !in LaterRows(p)
    {
      CommonIdsMembers(id);
    }
    DistinctConcat(CommonIds, LaterRows(p));
    CommonIds + LaterRows(p)
  }

  /** An instance is created exactly when the port type has it. */
  lemma CreatedIffPresent(p: PortType, id: InstId)
    ensures id in CreationOrder(p) <==> Present(id, p)
  {
    CommonIdsMembers(id);
    assert id in CreationOrder(p) <==> id in CommonIds || id in LaterRows(p);
  }

  /** `create_instances`: every instance, in creation order. */
  function CreateInstances(p: PortType): (r: seq<Instance>)
    ensures Names(r) == CreationOrder(p)
    ensures r[0] == CtrlDffs(p)
    ensures forall id :: HasInstance(r, id) <==> Present(id, p)
    ensures forall i :: 0 <= i < |r| ==> r[i] == Build(r[i].name, p)
  {
    var ids := CreationOrder(p);
    var r := seq(|ids|, i requires 0 <= i < |ids| => Build(ids[i], p));
    assert Names(r) == ids;
    forall id
      ensures HasInstance(r, id) <==> Present(id, p)
    {
      CreatedIffPresent(p, id);
    }
    r
  }

  /** A read-only port has no write-enable gate or glitch inverter, a
      write-only port no sense-enable gate. */
  lemma OptionalInstances(p: PortType, id: InstId)
    ensures id == WEnGateId || id == Glitch3BarId ==>
      (HasInstance(CreateInstances(p), id) <==> Writes(p))
    ensures id == SEnGateId ==> (HasInstance(CreateInstances(p), id) <==> Reads(p))
  {
    HasInstanceIffPresent(p, id);
  }

  lemma HasInstanceIffPresent(p: PortType, id: InstId)
    ensures HasInstance(CreateInstances(p), id) <==> Present(id, p)
  {
  }

  /** Which nets a port type's netlist has: the write-enable flop outputs
      only on read-write ports, the write-enable chain only on ports that
      write, the sense enable only on ports that read. */
  predicate NetPresent(n: Net, p: PortType) {
    match n
    case Web | We | WeBar => p == RW
    case Glitch3Bar | WEn => Writes(p)
    case SEn => Reads(p)
    case _ => true
  }

  /** Every net on a created instance belongs to the port type's netlist;
      the complement chip select is on the control flops only, and without a
      sense-enable gate the gated inverted clock is on its own and2 only. */
  lemma NetsOfPresentInstances(p: PortType, a: InstId, n: Net)
    requires Present(a, p) && n in Build(a, p).conns
    ensures NetPresent(n, p)
    ensures n == CsBar ==> a == CtrlDffsId
    ensures n == GatedClkBar && !Reads(p) ==> a == GatedClkBarId
  {
    if a == CtrlDffsId {
      assert n in InputList(p) || n in DffOutputList(p) || n == ClkBuf || n in SupplyList;
    } else if ClockRow(a) {
      ClockRowNets(p, a, n);
    } else if DelayRow(a) {
      DelayRowNets(p, a, n);
    } else if WordlineRow(a) {
      WordlineRowNets(p, a, n);
    } else {
      EnableGateNets(p, a, n);
    }
  }

  /** The clock buffer and the two gated-clock and2s. */
  predicate ClockRow(a: InstId) {
    a == ClkBufId || a == ClkBarId || a == GatedClkBarId || a == GatedClkBufId
  }

  lemma ClockRowNets(p: PortType, a: InstId, n: Net)
    requires ClockRow(a) && n in Build(a, p).conns
    ensures NetPresent(n, p)
    ensures n == CsBar ==> a == CtrlDffsId
    ensures n == GatedClkBar && !Reads(p) ==> a == GatedClkBarId
  {
    match a
    case ClkBufId =>
    case ClkBarId =>
    case GatedClkBarId =>
    case GatedClkBufId =>
  }

  /** The delay chain and the three glitch nands. */
  predicate DelayRow(a: InstId) {
    a == DelayId || a == Glitch1Id || a == Glitch2Id || a == Glitch3Id
  }

  lemma DelayRowNets(p: PortType, a: InstId, n: Net)
    requires DelayRow(a) && n in Build(a, p).conns
    ensures NetPresent(n, p)
    ensures n == CsBar ==> a == CtrlDffsId
    ensures n == GatedClkBar && !Reads(p) ==> a == GatedClkBarId
  {
    match a
    case DelayId =>
    case Glitch1Id =>
    case Glitch2Id =>
    case Glitch3Id =>
  }

  /** The wordline-enable and2 and driver, and the precharge-enable driver. */
  predicate WordlineRow(a: InstId) {
    a == WlEnUnbufId || a == WlEnBufId || a == PEnBarId
  }

  lemma WordlineRowNets(p: PortType, a: InstId, n: Net)
    requires WordlineRow(a) && n in Build(a, p).conns
    ensures NetPresent(n, p)
    ensures n == CsBar ==> a == CtrlDffsId
    ensures n == GatedClkBar && !Reads(p) ==> a == GatedClkBarId
  {
    match a
    case WlEnUnbufId =>
    case WlEnBufId =>
    case PEnBarId =>
  }

  /** The gates a port type may lack: the glitch inverter, the write-enable and3, the sense-enable and3. */
  predicate EnableGate(a: InstId) {
    a == Glitch3BarId || a == WEnGateId || a == SEnGateId
  }

  lemma EnableGateNets(p: PortType, a: InstId, n: Net)
    requires (a == Glitch3BarId || a == WEnGateId || a == SEnGateId) && Present(a, p) && n in Build(a, p).conns
    ensures NetPresent(n, p)
    ensures n == CsBar ==> a == CtrlDffsId
    ensures n == GatedClkBar && !Reads(p) ==> a == GatedClkBarId
  {
    match a
    case Glitch3BarId =>
    case WEnGateId =>
    case SEnGateId =>
  }

  /** Nets that reach exactly one instance and no pin: the complement chip
      select, and the gated inverted clock when no sense-enable gate
      consumes it. */
  function Orphans(p: PortType): (r: set<Net>)
    ensures CsBar in r
    ensures GatedClkBar in r <==> !Reads(p)
  {
    if Reads(p) then {CsBar} else {CsBar, GatedClkBar}
  }

  /** Two distinct created instances that both carry a net; used as the
      witness that an internal net is shared. */
  function Sharers(n: Net, p: PortType): (InstId, InstId) {
    match n
    case Cs | Web | We | WeBar | Csb | CsBar =>
      (CtrlDffsId, if n == WeBar then SEnGateId else if n == We then WEnGateId else GatedClkBarId)
    case Clk | ClkBuf => (ClkBufId, CtrlDffsId)
    case ClkBar => (ClkBarId, GatedClkBarId)
    case GatedClkBar => (GatedClkBarId, SEnGateId)
    case GatedClkBuf => (GatedClkBufId, DelayId)
    case Delay1 | Delay3 => (DelayId, Glitch1Id)
    case Delay2 | Delay5 => (DelayId, Glitch3Id)
    case Delay4 => (DelayId, Glitch2Id)
    case Glitch1 => (Glitch1Id, PEnBarId)
    case Glitch2 => (Glitch2Id, WlEnUnbufId)
    case Glitch3 => (Glitch3Id, if Reads(p) then SEnGateId else Glitch3BarId)
    case Glitch3Bar => (Glitch3BarId, WEnGateId)
    case WlEnUnbuf => (WlEnUnbufId, WlEnBufId)
    case SEn => (SEnGateId, SEnGateId)
    case WEn => (WEnGateId, WEnGateId)
    case PEnBar => (PEnBarId, PEnBarId)
    case WlEn => (WlEnBufId, WlEnBufId)
    case Vdd | Gnd => (CtrlDffsId, ClkBufId)
  }

  /** The witnesses Sharers names are two distinct created instances
      carrying the net, for every internal net that is not an orphan. */
  lemma SharersValid(n: Net, p: PortType)
    requires NetPresent(n, p) && n !in PinNameList(p) && n !in Orphans(p)
    ensures Sharers(n, p).0 != Sharers(n, p).1
    ensures Present(Sharers(n, p).0, p) && n in Build(Sharers(n, p).0, p).conns
    ensures Present(Sharers(n, p).1, p) && n in Build(Sharers(n, p).1, p).conns
  {
    match p
    case RW => SharersValidReadWrite(n);
    case R => SharersValidReadOnly(n);
    case W => SharersValidWriteOnly(n);
  }

  /** SharersValid on a read-write port. */
  lemma SharersValidReadWrite(n: Net)
    requires NetPresent(n, RW) && n !in PinNameList(RW) && n !in Orphans(RW)
    ensures Sharers(n, RW).0 != Sharers(n, RW).1
    ensures Present(Sharers(n, RW).0, RW) && n in Build(Sharers(n, RW).0, RW).conns
    ensures Present(Sharers(n, RW).1, RW) && n in Build(Sharers(n, RW).1, RW).conns
  {
    match n
    case Csb =>
    case Web =>
    case Clk =>
    case CsBar =>
    case Cs =>
    case WeBar =>
    case We =>
    case ClkBuf =>
    case ClkBar =>
    case GatedClkBar =>
    case GatedClkBuf =>
    case Delay1 =>
    case Delay2 =>
    case Delay3 =>
    case Delay4 =>
    case Delay5 =>
    case Glitch1 =>
    case Glitch2 =>
    case Glitch3 =>
    case Glitch3Bar =>
    case WlEnUnbuf =>
    case SEn =>
    case WEn =>
    case PEnBar =>
    case WlEn =>
    case Vdd =>
    case Gnd =>
  }

  /** SharersValid on a read-only port. */
  lemma SharersValidReadOnly(n: Net)
    requires NetPresent(n, R) && n !in PinNameList(R) && n !in Orphans(R)
    ensures Sharers(n, R).0 != Sharers(n, R).1
    ensures Present(Sharers(n, R).0, R) && n in Build(Sharers(n, R).0, R).conns
    ensures Present(Sharers(n, R).1, R) && n in Build(Sharers(n, R).1, R).conns
  {
    match n
    case Csb =>
    case Web =>
    case Clk =>
    case CsBar =>
    case Cs =>
    case WeBar =>
    case We =>
    case ClkBuf =>
    case ClkBar =>
    case GatedClkBar =>
    case GatedClkBuf =>
    case Delay1 =>
    case Delay2 =>
    case Delay3 =>
    case Delay4 =>
    case Delay5 =>
    case Glitch1 =>
    case Glitch2 =>
    case Glitch3 =>
    case Glitch3Bar =>
    case WlEnUnbuf =>
    case SEn =>
    case WEn =>
    case PEnBar =>
    case WlEn =>
    case Vdd =>
    case Gnd =>
  }

  /** SharersValid on a write-only port. */
  lemma SharersValidWriteOnly(n: Net)
    requires NetPresent(n, W) && n !in PinNameList(W) && n !in Orphans(W)
    ensures Sharers(n, W).0 != Sharers(n, W).1
    ensures Present(Sharers(n, W).0, W) && n in Build(Sharers(n, W).0, W).conns
    ensures Present(Sharers(n, W).1, W) && n in Build(Sharers(n, W).1, W).conns
  {
    match n
    case Csb =>
    case Web =>
    case Clk =>
    case CsBar =>
    case Cs =>
    case WeBar =>
    case We =>
    case ClkBuf =>
    case ClkBar =>
    case GatedClkBar =>
    case GatedClkBuf =>
    case Delay1 =>
    case Delay2 =>
    case Delay3 =>
    case Delay4 =>
    case Delay5 =>
    case Glitch1 =>
    case Glitch2 =>
    case Glitch3 =>
    case Glitch3Bar =>
    case WlEnUnbuf =>
    case SEn =>
    case WEn =>
    case PEnBar =>
    case WlEn =>
    case Vdd =>
    case Gnd =>
  }

  /** No dangling internal nets: a net on a created instance that is not a
      module pin and not one of the orphans reaches a second created
      instance. */
  lemma InternalNetsShared(p: PortType, a: InstId, n: Net)
    requires Present(a, p) && n in Build(a, p).conns
    requires n !in PinNameList(p) && n !in Orphans(p)
    ensures exists b :: Present(b, p) && b != a && n in Build(b, p).conns
  {
    NetsOfPresentInstances(p, a, n);
    SharersValid(n, p);
    var (x, y) := Sharers(n, p);
    var b := if a == x then y else x;
    assert Present(b, p) && b != a && n in Build(b, p).conns;
  }

  /** An orphan net is not a pin and reaches only the instance that
      produces it: the complement chip select only the control flops, the
      gated inverted clock only its and2. */
  lemma OrphansReachOneInstance(p: PortType, n: Net, b: InstId)
    requires n in Orphans(p) && Present(b, p) && n in Build(b, p).conns
    ensures b == (if n == CsBar then CtrlDffsId else GatedClkBarId)
    ensures n !in PinNameList(p)
  {
    assert n == CsBar || (n == GatedClkBar && !Reads(p));
    OrphanNotPin(p, n);
    NetsOfPresentInstances(p, b, n);
  }

  lemma OrphanNotPin(p: PortType, n: Net)
    requires n == CsBar || (n == GatedClkBar && !Reads(p))
    ensures n !in PinNameList(p)
  {
    assert n !in InputList(p) && n !in OutputList(p);
  }

  /** The instance whose output drives each output pin. */
  function Driver(n: Net): InstId {
    match n
    case SEn => SEnGateId
    case WEn => WEnGateId
    case PEnBar => PEnBarId
    case WlEn => WlEnBufId
    case _ => ClkBufId
  }

  /** Every output pin of the module is driven: its driver is created for
      the port type and binds the net to its output, the position just
      before the two supplies. */
  lemma OutputsDriven(p: PortType, n: Net)
    requires n in OutputList(p)
    ensures Present(Driver(n), p)
    ensures var c := Build(Driver(n), p).conns; |c| >= 3 && c[|c| - 3] == n
  {
    assert n == PEnBar || n == WlEn || n == ClkBuf || (n == SEn && Reads(p)) || (n == WEn && Writes(p));
    DriverOutput(p, n);
  }

  lemma DriverOutput(p: PortType, n: Net)
    requires n == PEnBar || n == WlEn || n == ClkBuf || (n == SEn && Reads(p)) || (n == WEn && Writes(p))
    ensures Present(Driver(n), p)
    ensures var c := Build(Driver(n), p).conns; |c| >= 3 && c[|c| - 3] == n
  {
  }
}
