/** Placement of opaque cells into abutting rows that alternate between
    upright (R0) and mirrored-about-x (MX) orientation. */
module Geometry {

  /** The two orientations the control rows use. */
  datatype Mirror = R0 | MX

  /** Width and height of an opaque library cell, in layout grid units. */
  datatype Dims = Dims(width: nat, height: nat)

  /** Bottom and top edge of a cell of height `height` placed at y-offset
      `y`: an MX cell is flipped about the x-axis at its offset, so it
      extends below the offset rather than above it. */
  function Bottom(y: int, mirror: Mirror, height: nat): int {
    if mirror == MX then y - height else y
  }

  function Top(y: int, mirror: Mirror, height: nat): int {
    if mirror == MX then y else y + height
  }

  /** A placed instance, named by `N`: its offset, orientation and cell
      size. */
  datatype Placed<N> = Placed(name: N, x: int, y: int, mirror: Mirror, dims: Dims) {
    function Lx(): int { x }
    function Rx(): int { x + dims.width }
    function By(): int { Bottom(y, mirror, dims.height) }
    function Uy(): int { Top(y, mirror, dims.height) }
  }

  /** The horizontal band of row `row` when every row is `h` high. */
  predicate InBand<N>(p: Placed<N>, row: nat, h: nat) {
    row * h <= p.By() && p.Uy() <= (row + 1) * h
  }

  /** Two placed boxes share no interior point. */
  predicate Disjoint<N>(a: Placed<N>, b: Placed<N>) {
    a.Rx() <= b.Lx() || b.Rx() <= a.Lx() || a.Uy() <= b.By() || b.Uy() <= a.By()
  }

  /** `get_offset`: the y-offset and orientation of row `row`.  Odd rows
      are mirrored and shifted up by one row so that a cell of the row
      height fills exactly the row's band either way. */
  function GetOffset(row: nat, h: nat): (r: (int, Mirror))
    ensures r.1 == MX <==> row % 2 == 1
    ensures Bottom(r.0, r.1, h) == row * h
    ensures Top(r.0, r.1, h) == (row + 1) * h
  {
    var yOff := row * h;
    if row % 2 == 1 then (yOff + h, MX) else (yOff, R0)
  }

  /** `place_util`: place one cell at `xOffset` in row `row` and return it
      with the x-offset at which the next cell of the row starts. */
  function PlaceUtil<N>(name: N, dims: Dims, xOffset: int, row: nat, h: nat): (r: (Placed<N>, int))
    ensures r.0.name == name && r.0.dims == dims
    ensures r.0.Lx() == xOffset
    ensures r.1 == r.0.Rx()
    ensures r.0.mirror == MX <==> row % 2 == 1
    ensures dims.height <= h ==> InBand(r.0, row, h)
  {
    var (yOff, mirror) := GetOffset(row, h);
    var p := Placed(name, xOffset, yOff, mirror, dims);
    (p, xOffset + dims.width)
  }

  /** A row is a left-to-right list of named cells. */
  type RowSpec<N> = seq<(N, Dims)>

  function RowWidth<N>(cells: RowSpec<N>): nat {
    if |cells| == 0 then 0 else cells[0].1.width + RowWidth(cells[1..])
  }

  /** Predicate form of "these cells were placed as row `row` starting at
      `xOffset`": same names and sizes in order, the first at `xOffset`,
      each starting where the previous ends, all in the row's orientation. */
  ghost predicate PlacedAsRow<N>(r: seq<Placed<N>>, cells: RowSpec<N>, xOffset: int, row: nat, h: nat) {
    && |r| == |cells|
    && (forall i :: 0 <= i < |r| ==> r[i].name == cells[i].0 && r[i].dims == cells[i].1)
    && (forall i :: 0 <= i < |r| ==> r[i].y == GetOffset(row, h).0 && r[i].mirror == GetOffset(row, h).1)
    && (|r| > 0 ==> r[0].Lx() == xOffset)
    && (forall i :: 0 <= i < |r| - 1 ==> r[i].Rx() == r[i + 1].Lx())
  }

  /** Successive `place_util` calls over one row. */
  function PlaceRow<N>(cells: RowSpec<N>, xOffset: int, row: nat, h: nat): (r: seq<Placed<N>>)
    ensures PlacedAsRow(r, cells, xOffset, row, h)
    ensures |r| > 0 ==> r[|r| - 1].Rx() == xOffset + RowWidth(cells)
    decreases |cells|
  {
    if |cells| == 0 then []
    else
      var (p, next) := PlaceUtil(cells[0].0, cells[0].1, xOffset, row, h);
      [p] + PlaceRow(cells[1..], next, row, h)
  }

  /** Cells of one row never overlap: every cell ends at or before the
      start of every later cell. */
  lemma {:induction false} RowNoOverlap<N>(r: seq<Placed<N>>, cells: RowSpec<N>, xOffset: int, row: nat, h: nat, i: int, j: int)
    requires PlacedAsRow(r, cells, xOffset, row, h)
    requires 0 <= i < j < |r|
    ensures r[i].Rx() <= r[j].Lx()
    decreases j - i
  {
    if i + 1 < j {
      RowNoOverlap(r, cells, xOffset, row, h, i + 1, j);
    }
  }

  /** Every cell of a row starts at or after the row's x-offset. */
  lemma {:induction false} RowStartsAtOffset<N>(r: seq<Placed<N>>, cells: RowSpec<N>, xOffset: int, row: nat, h: nat, j: int)
    requires PlacedAsRow(r, cells, xOffset, row, h)
    requires 0 <= j < |r|
    ensures xOffset <= r[j].Lx()
  {
    if j > 0 {
      RowNoOverlap(r, cells, xOffset, row, h, 0, j);
    }
  }

  /** Every cell no taller than the row height lies in the row's band. */
  lemma RowInBand<N>(r: seq<Placed<N>>, cells: RowSpec<N>, xOffset: int, row: nat, h: nat, j: int)
    requires PlacedAsRow(r, cells, xOffset, row, h)
    requires 0 <= j < |r|
    requires r[j].dims.height <= h
    ensures InBand(r[j], row, h)
  {
  }

  /** A cell exactly a row high spans the whole band of its row. */
  lemma FullHeightCell<N>(r: seq<Placed<N>>, cells: RowSpec<N>, xOffset: int, row: nat, h: nat, j: int)
    requires PlacedAsRow(r, cells, xOffset, row, h)
    requires 0 <= j < |r|
    requires r[j].dims.height == h
    ensures r[j].By() == row * h && r[j].Uy() == (row + 1) * h
  {
    var (y, m) := GetOffset(row, h);
    assert r[j].y == y && r[j].mirror == m;
  }

  /** Bands of different rows are stacked without overlap. */
  lemma {:induction false} BandsOrdered(lower: nat, upper: nat, h: nat)
    requires lower < upper
    ensures (lower + 1) * h <= upper * h
  {
    var d := upper - (lower + 1);
    assert upper * h == (lower + 1) * h + d * h;
  }

  /** Consequently, cells in different rows never overlap. */
  lemma RowsDisjoint<N>(a: Placed<N>, ra: nat, b: Placed<N>, rb: nat, h: nat)
    requires ra != rb
    requires InBand(a, ra, h) && InBand(b, rb, h)
    ensures Disjoint(a, b)
  {
    if ra < rb {
      BandsOrdered(ra, rb, h);
    } else {
      BandsOrdered(rb, ra, h);
    }
  }
}
