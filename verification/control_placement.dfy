/** Floorplan of the delay-based control logic (`place_instances`): the
    control flops at the origin, the vertical bus to their right, the logic
    rows to the right of the bus, and the tapped delay chain above the
    flops. */
module ControlPlacement {
  import opened Results
  import opened Circuit
  import opened Arith
  import opened Geometry
  import opened ControlSignals
  import opened ControlNetlist

  /** Sizes of the library cells and the routing pitches the floorplan
      reads.  Rows are as high as the and2 cell. */
  datatype Library = Library(
    dff: Dims, clkBuf: Dims, inv: Dims, and2: Dims, wlEnAnd: Dims, wlEnDriver: Dims,
    wenAnd: Dims, senAnd3: Dims, pEnBarDriver: Dims, nand2: Dims, delayChain: Dims,
    m1Pitch: nat, m2Pitch: nat, m3Pitch: nat)
  {
    function RowHeight(): nat { and2.height }

    function Size(c: Cell): Dims {
      match c
      case CtrlDffArray => dff
      case ClkBufDriver => clkBuf
      case Inv => inv
      case And2 => and2
      case WlEnAnd => wlEnAnd
      case WlEnDriver => wlEnDriver
      case WenAnd => wenAnd
      case SenAnd3 => senAnd3
      case PEnBarDriver => pEnBarDriver
      case Nand2 => nand2
      case MultiDelayChain => delayChain
    }
  }

  /** Instances the rows hold: everything created except the flops and
      the delay chain, which are placed on their own. */
  predicate InRows(id: InstId, p: PortType) {
    Present(id, p) && id != CtrlDffsId && id != DelayId
  }

  /** The logic rows bottom-up, each left to right: clock buffer; clock
      inverter and gated inverted clock; gated clock; the sense-enable gate
      (ports that read); the write-enable row (ports that write); the
      precharge row; the wordline-enable row; the two remaining glitch
      nands. */
  function RowPlan(p: PortType): (plan: seq<seq<InstId>>)
    ensures |plan| == if p == RW then 9 else 8
    ensures forall k :: 0 <= k < |plan| ==> |plan[k]| > 0
    ensures plan[|plan| - 1] == [Glitch3Id]
  {
    match p
    case RW =>
      [[ClkBufId], [ClkBarId, GatedClkBarId], [GatedClkBufId], [SEnGateId],
       [Glitch3BarId, WEnGateId], [Glitch1Id, PEnBarId], [WlEnUnbufId, WlEnBufId],
       [Glitch2Id], [Glitch3Id]]
    case R =>
      [[ClkBufId], [ClkBarId, GatedClkBarId], [GatedClkBufId], [SEnGateId],
       [Glitch1Id, PEnBarId], [WlEnUnbufId, WlEnBufId], [Glitch2Id], [Glitch3Id]]
    case W =>
      [[ClkBufId], [ClkBarId, GatedClkBarId], [GatedClkBufId],
       [Glitch3BarId, WEnGateId], [Glitch1Id, PEnBarId], [WlEnUnbufId, WlEnBufId],
       [Glitch2Id], [Glitch3Id]]
  }

  /** The cells of one planned row with their library sizes. */
  function RowCells(lib: Library, p: PortType, ids: seq<InstId>): (r: RowSpec<InstId>)
    ensures |r| == |ids|
    ensures forall i :: 0 <= i < |ids| ==> r[i] == (ids[i], lib.Size(Build(ids[i], p).cell))
  {
    seq(|ids|, i requires 0 <= i < |ids| => (ids[i], lib.Size(Build(ids[i], p).cell)))
  }

  /** `place_delay`: the delay chain is mirrored about x at the left edge,
      its bottom on the boundary of row `row`; the row must be even so that
      the chain's supply rails line up with the rows'. */
  function PlaceDelay(lib: Library, row: nat): (r: Result<Placed<InstId>, string>)
    ensures r.Success? <==> row % 2 == 0
    ensures r.Success? ==> r.value.name == DelayId && r.value.dims == lib.delayChain
    ensures r.Success? ==> r.value.mirror == MX && r.value.Lx() == 0
    ensures r.Success? ==> r.value.By() == row * lib.RowHeight()
    ensures r.Success? ==> r.value.Uy() == row * lib.RowHeight() + lib.delayChain.height
  {
    if row % 2 != 0 then Failure("Must place delay chain at even row for supply alignment.")
    else Success(Placed(DelayId, 0, row * lib.RowHeight() + lib.delayChain.height, MX, lib.delayChain))
  }

  /** The row the delay chain is always placed at. */
  const DelayRow: nat := 4

  /** A finished floorplan: the flops, the logic rows bottom-up, the delay
      chain, the module's width and height, and the point the enclosing
      memory aligns the control logic by. */
  datatype Layout = Layout(dffs: Placed<InstId>, rows: seq<seq<Placed<InstId>>>,
                           delay: Placed<InstId>, width: int, height: int,
                           center: (int, int))

  /** Left edge of the logic rows: right of the flops and the bus. */
  function ControlX(p: PortType, lib: Library): (x: nat)
    ensures x == lib.dff.width + InternalBusWidth(p, lib.m2Pitch)
  {
    lib.dff.width + InternalBusWidth(p, lib.m2Pitch)
  }

  /** The first cell of the topmost row (the third glitch nand). */
  function TopRowCell(rows: seq<seq<Placed<InstId>>>): Placed<InstId> {
    if |rows| > 0 && |rows[|rows| - 1]| > 0 then rows[|rows| - 1][0] else Placed(Glitch3Id, 0, 0, R0, Dims(0, 0))
  }

  /** Right edge of the last cell of each row: the cells `row_end_inst`
      collects. */
  function RowEnds(rows: seq<seq<Placed<InstId>>>): (r: seq<int>)
    ensures |r| == |rows|
    ensures forall k :: 0 <= k < |rows| && |rows[k]| > 0 ==> r[k] == rows[k][|rows[k]| - 1].Rx()
  {
    seq(|rows|, k requires 0 <= k < |rows| => RowEnd(rows[k]))
  }

  /** Right edge of a row's last cell; a row is never empty. */
  function RowEnd(row: seq<Placed<InstId>>): int {
    if |row| > 0 then row[|row| - 1].Rx() else 0
  }

  /** Each planned row placed with successive `place_util` calls from
      the left edge of the logic area. */
  function PlaceRows(p: PortType, lib: Library): (rows: seq<seq<Placed<InstId>>>)
    ensures |rows| == |RowPlan(p)|
    ensures forall k :: 0 <= k < |rows| ==> |rows[k]| == |RowPlan(p)[k]| > 0
  {
    var plan := RowPlan(p);
    seq(|plan|, k requires 0 <= k < |plan| =>
      PlaceRow(RowCells(lib, p, plan[k]), ControlX(p, lib), k, lib.RowHeight()))
  }

  /** Row `k` of the floorplan holds the planned cells, abutting, from the
      left edge of the logic area, in row `k`'s orientation. */
  lemma RowPlaced(p: PortType, lib: Library, k: nat)
    requires k < |RowPlan(p)|
    ensures PlacedAsRow(PlaceRows(p, lib)[k], RowCells(lib, p, RowPlan(p)[k]), ControlX(p, lib), k, lib.RowHeight())
  {
  }

  /** Module width: the rightmost row end, widened to the delay chain on
      ports that read, plus one m2 pitch. */
  function LayoutWidth(p: PortType, ends: seq<int>, delayRx: int, m2Pitch: nat): (w: int)
    requires |ends| > 0
    ensures forall k :: 0 <= k < |ends| ==> ends[k] + m2Pitch <= w
    ensures Reads(p) ==> delayRx + m2Pitch <= w
    ensures w - m2Pitch in ends || (Reads(p) && w == delayRx + m2Pitch)
  {
    var rowMax := Max(ends);
    (if Reads(p) && delayRx > rowMax then delayRx else rowMax) + m2Pitch
  }

  /** `place_instances`.  The delay chain's row is even, so its placement
      check always passes. */
  function PlaceInstances(p: PortType, lib: Library): (l: Layout)
    ensures l.dffs == Placed(CtrlDffsId, 0, 0, R0, lib.dff)
    ensures l.rows == PlaceRows(p, lib)
    ensures Success(l.delay) == PlaceDelay(lib, DelayRow)
    ensures l.width == LayoutWidth(p, RowEnds(l.rows), l.delay.Rx(), lib.m2Pitch)
    ensures l.height == l.delay.Uy() + 2 * lib.m1Pitch
    ensures l.center.0 == lib.dff.width
    ensures l.center.1 == TopRowCell(l.rows).Uy() + lib.m3Pitch
  {
    var placed := PlaceDelay(lib, DelayRow);
    assert placed.Success?;
    var delay := placed.value;
    var dffs := Placed(CtrlDffsId, 0, 0, R0, lib.dff);
    var rows := PlaceRows(p, lib);
    var width := LayoutWidth(p, RowEnds(rows), delay.Rx(), lib.m2Pitch);
    Layout(dffs, rows, delay, width, delay.Uy() + 2 * lib.m1Pitch,
           (dffs.Rx(), TopRowCell(rows).Uy() + lib.m3Pitch))
  }

  /** The rows hold only created instances, and neither the flops nor the
      delay chain. */
  lemma PlanCellsInRows(p: PortType, k: nat, i: nat)
    requires k < |RowPlan(p)| && i < |RowPlan(p)[k]|
    ensures InRows(RowPlan(p)[k][i], p)
  {
  }

  /** The write-enable row is placed exactly on ports that write, the
      sense-enable row exactly on ports that read; the same rows exist in
      the netlist. */
  lemma OptionalRowsPlaced(p: PortType)
    ensures [Glitch3BarId, WEnGateId] in RowPlan(p) <==> Writes(p)
    ensures [SEnGateId] in RowPlan(p) <==> Reads(p)
    ensures Present(WEnGateId, p) <==> Writes(p)
    ensures Present(SEnGateId, p) <==> Reads(p)
  {
  }

  /** Row cells are no taller than a row: every cell except the flops and
      the delay chain. */
  predicate RowCellsFit(lib: Library) {
    forall c: Cell :: c != CtrlDffArray && c != MultiDelayChain ==> lib.Size(c).height <= lib.RowHeight()
  }

  lemma RowCellFits(p: PortType, lib: Library, k: nat, i: nat)
    requires RowCellsFit(lib)
    requires k < |RowPlan(p)| && i < |RowPlan(p)[k]|
    ensures PlaceRows(p, lib)[k][i].dims.height <= lib.RowHeight()
  {
    RowPlaced(p, lib, k);
    var id := RowPlan(p)[k][i];
    PlanCellsInRows(p, k, i);
    var c := Build(id, p).cell;
    assert c != CtrlDffArray && c != MultiDelayChain by {
      match id
      case CtrlDffsId =>
      case ClkBufId =>
      case ClkBarId =>
      case GatedClkBarId =>
      case GatedClkBufId =>
      case DelayId =>
      case Glitch1Id =>
      case Glitch2Id =>
      case Glitch3Id =>
      case WlEnUnbufId =>
      case WlEnBufId =>
      case Glitch3BarId =>
      case WEnGateId =>
      case SEnGateId =>
      case PEnBarId =>
    }
  }

  /** No two row cells overlap: cells of one row abut left to right, and
      different rows occupy different bands. */
  lemma RowCellsDisjoint(p: PortType, lib: Library, k1: nat, i1: nat, k2: nat, i2: nat)
    requires RowCellsFit(lib)
    requires k1 < |RowPlan(p)| && i1 < |RowPlan(p)[k1]|
    requires k2 < |RowPlan(p)| && i2 < |RowPlan(p)[k2]|
    requires (k1, i1) != (k2, i2)
    ensures Disjoint(PlaceRows(p, lib)[k1][i1], PlaceRows(p, lib)[k2][i2])
  {
    var rows := PlaceRows(p, lib);
    var h := lib.RowHeight();
    var x := ControlX(p, lib);
    RowPlaced(p, lib, k1);
    RowPlaced(p, lib, k2);
    if k1 == k2 {
      if i1 < i2 {
        RowNoOverlap(rows[k1], RowCells(lib, p, RowPlan(p)[k1]), x, k1, h, i1, i2);
      } else {
        RowNoOverlap(rows[k1], RowCells(lib, p, RowPlan(p)[k1]), x, k1, h, i2, i1);
      }
    } else {
      RowCellFits(p, lib, k1, i1);
      RowCellFits(p, lib, k2, i2);
      RowInBand(rows[k1], RowCells(lib, p, RowPlan(p)[k1]), x, k1, h, i1);
      RowInBand(rows[k2], RowCells(lib, p, RowPlan(p)[k2]), x, k2, h, i2);
      RowsDisjoint(rows[k1][i1], k1, rows[k2][i2], k2, h);
    }
  }

  /** Every row cell lies right of the flops and the vertical bus. */
  lemma RowsClearOfBus(p: PortType, lib: Library, k: nat, i: nat)
    requires k < |RowPlan(p)| && i < |RowPlan(p)[k]|
    ensures PlaceRows(p, lib)[k][i].Lx() >= lib.dff.width + InternalBusWidth(p, lib.m2Pitch)
  {
    RowPlaced(p, lib, k);
    RowStartsAtOffset(PlaceRows(p, lib)[k], RowCells(lib, p, RowPlan(p)[k]),
                      ControlX(p, lib), k, lib.RowHeight(), i);
  }

  /** Every cell of a row ends at or before the row's last cell. */
  lemma RowEndBound(p: PortType, lib: Library, k: nat, i: nat)
    requires k < |RowPlan(p)| && i < |RowPlan(p)[k]|
    ensures PlaceRows(p, lib)[k][i].Rx() <= RowEnds(PlaceRows(p, lib))[k]
  {
    var rows := PlaceRows(p, lib);
    var last := |rows[k]| - 1;
    RowPlaced(p, lib, k);
    if i < last {
      RowNoOverlap(rows[k], RowCells(lib, p, RowPlan(p)[k]), ControlX(p, lib), k, lib.RowHeight(), i, last);
    }
  }

  /** The module width leaves one m2 pitch right of every row cell. */
  lemma WidthEnclosesRows(p: PortType, lib: Library, k: nat, i: nat)
    requires k < |RowPlan(p)| && i < |RowPlan(p)[k]|
    ensures PlaceRows(p, lib)[k][i].Rx() + lib.m2Pitch <= PlaceInstances(p, lib).width
  {
    RowEndBound(p, lib, k, i);
  }

  /** On ports that read, the width also covers the delay chain; on a
      write-only port it covers the chain only if some row happens to
      reach as far right. */
  lemma WidthAndDelay(p: PortType, lib: Library)
    ensures var l := PlaceInstances(p, lib);
      Reads(p) ==> l.delay.Rx() + lib.m2Pitch <= l.width
    ensures var l := PlaceInstances(p, lib);
      !Reads(p) ==> (l.delay.Rx() + lib.m2Pitch <= l.width <==>
                     exists k :: 0 <= k < |l.rows| && lib.delayChain.width <= RowEnds(l.rows)[k])
  {
  }

  /** The glitch nand alone in the top row reaches the top of the row
      band when it is a full row high. */
  lemma TopRowCellReachesTop(p: PortType, lib: Library)
    requires lib.nand2.height == lib.RowHeight()
    ensures TopRowCell(PlaceRows(p, lib)).Uy() == |RowPlan(p)| * lib.RowHeight()
  {
    var n := |RowPlan(p)|;
    TopRowCellEdge(p, lib, n);
    assert TopRowCell(PlaceRows(p, lib)) == PlaceRows(p, lib)[n - 1][0];
  }

  lemma TopRowCellEdge(p: PortType, lib: Library, n: nat)
    requires n == |RowPlan(p)|
    requires lib.nand2.height == lib.RowHeight()
    ensures PlaceRows(p, lib)[n - 1][0].Uy() == n * lib.RowHeight()
  {
    var cells := RowCells(lib, p, RowPlan(p)[n - 1]);
    RowPlaced(p, lib, n - 1);
    TopRowCellSize(p, lib);
    FullHeightCell(PlaceRows(p, lib)[n - 1], cells, ControlX(p, lib), n - 1, lib.RowHeight(), 0);
  }

  /** The top row holds the third glitch nand, at the nand2 size. */
  lemma TopRowCellSize(p: PortType, lib: Library)
    ensures RowCells(lib, p, RowPlan(p)[|RowPlan(p)| - 1])[0].1 == lib.nand2
  {
    assert RowPlan(p)[|RowPlan(p)| - 1][0] == Glitch3Id;
  }

  /** The alignment point sits on the flop/bus boundary, one m3 pitch
      above the topmost row when the glitch nand fills its row. */
  lemma CenterAboveRows(p: PortType, lib: Library)
    requires lib.nand2.height == lib.RowHeight()
    ensures PlaceInstances(p, lib).center.0 == PlaceInstances(p, lib).dffs.Rx()
    ensures PlaceInstances(p, lib).center.1 == |RowPlan(p)| * lib.RowHeight() + lib.m3Pitch
  {
    TopRowCellReachesTop(p, lib);
  }

  /** The height is the top of the delay chain plus two m1 pitches; it
      covers every row exactly when the rows reach no higher, which the
      floorplan does not check. */
  lemma HeightCoversRowsIff(p: PortType, lib: Library)
    requires RowCellsFit(lib)
    requires lib.nand2.height == lib.RowHeight()
    ensures var l := PlaceInstances(p, lib);
      l.height == DelayRow * lib.RowHeight() + lib.delayChain.height + 2 * lib.m1Pitch
    ensures var l := PlaceInstances(p, lib);
      (forall k, i :: 0 <= k < |l.rows| && 0 <= i < |l.rows[k]| ==> l.rows[k][i].Uy() <= l.height)
      <==> |RowPlan(p)| * lib.RowHeight() <= l.height
  {
    var l := PlaceInstances(p, lib);
    var n := |RowPlan(p)|;
    var top := n * lib.RowHeight();
    LayoutHeight(p, lib);
    TopRowCellReachesTop(p, lib);
    assert TopRowCell(l.rows) == l.rows[n - 1][0];
    forall k, i | 0 <= k < |l.rows| && 0 <= i < |l.rows[k]|
      ensures l.rows[k][i].Uy() <= top
    {
      RowCellBelowTop(p, lib, k, i);
    }
    HighestCellBounds(l.rows, top, l.height, n - 1, 0);
  }

  lemma LayoutHeight(p: PortType, lib: Library)
    ensures PlaceInstances(p, lib).height
         == DelayRow * lib.RowHeight() + lib.delayChain.height + 2 * lib.m1Pitch
  {
  }

  /** When one cell reaches `top` and none reaches higher, all cells stay
      within `bound` exactly when `top` does. */
  lemma HighestCellBounds(rows: seq<seq<Placed<InstId>>>, top: int, bound: int, k0: nat, i0: nat)
    requires forall k, i :: 0 <= k < |rows| && 0 <= i < |rows[k]| ==> rows[k][i].Uy() <= top
    requires k0 < |rows| && i0 < |rows[k0]| && rows[k0][i0].Uy() == top
    ensures (forall k, i :: 0 <= k < |rows| && 0 <= i < |rows[k]| ==> rows[k][i].Uy() <= bound)
            <==> top <= bound
  {
  }

  /** Every row cell that fits its row lies below the top of the topmost
      row band. */
  lemma RowCellBelowTop(p: PortType, lib: Library, k: nat, i: nat)
    requires RowCellsFit(lib)
    requires k < |RowPlan(p)| && i < |RowPlan(p)[k]|
    ensures PlaceRows(p, lib)[k][i].Uy() <= |RowPlan(p)| * lib.RowHeight()
  {
    var h := lib.RowHeight();
    RowPlaced(p, lib, k);
    RowCellFits(p, lib, k, i);
    RowInBand(PlaceRows(p, lib)[k], RowCells(lib, p, RowPlan(p)[k]), ControlX(p, lib), k, h, i);
    if k + 1 < |RowPlan(p)| {
      BandsOrdered(k, |RowPlan(p)|, h);
    }
  }

  /** When the delay chain is no wider than the flops and the flops stay
      below the chain's row, the chain overlaps neither the flops, the bus
      nor any row cell. */
  lemma DelayClear(p: PortType, lib: Library, k: nat, i: nat)
    requires lib.delayChain.width <= lib.dff.width
    requires lib.dff.height <= DelayRow * lib.RowHeight()
    requires k < |RowPlan(p)| && i < |RowPlan(p)[k]|
    ensures var l := PlaceInstances(p, lib); Disjoint(l.delay, l.dffs)
    ensures var l := PlaceInstances(p, lib); l.delay.Rx() <= l.dffs.Rx()
    ensures var l := PlaceInstances(p, lib); Disjoint(l.delay, l.rows[k][i])
  {
    var l := PlaceInstances(p, lib);
    FlopsAndDelayPlaced(p, lib);
    RowsClearOfBus(p, lib, k, i);
    assert l.rows[k][i] == PlaceRows(p, lib)[k][i];
  }

  /** Where the flops and the delay chain end up. */
  lemma FlopsAndDelayPlaced(p: PortType, lib: Library)
    ensures var l := PlaceInstances(p, lib);
      l.dffs.Lx() == 0 && l.dffs.Rx() == lib.dff.width && l.dffs.By() == 0 && l.dffs.Uy() == lib.dff.height
    ensures var l := PlaceInstances(p, lib);
      l.delay.Lx() == 0 && l.delay.Rx() == lib.delayChain.width && l.delay.By() == DelayRow * lib.RowHeight()
  {
    DelayPlaced(lib);
  }

  lemma DelayPlaced(lib: Library)
    ensures PlaceDelay(lib, DelayRow).Success?
    ensures var d := PlaceDelay(lib, DelayRow).value;
      d.Lx() == 0 && d.Rx() == lib.delayChain.width && d.By() == DelayRow * lib.RowHeight()
  {
  }
}
