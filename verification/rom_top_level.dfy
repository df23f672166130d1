/** Which sub-instance pin each top-level pin of the ROM bank is copied
    from, and which instances have their supply pins copied. */
module RomTopLevel {
  import opened Results
  import opened Circuit
  import opened RomBank

  /** Pins of the sub-instances that are copied to the top level: the
      control's `CS` and `clk_in`, the output inverter's `out_i`, a
      decoder's `A_i`. */
  datatype ChildPin = CsIn | ClkIn | Out(index: nat) | A(index: nat)

  /** `copy_layout_pin(inst, pin, top)`. */
  datatype Copy = Copy(inst: RomInst, pin: ChildPin, top: Net)

  function Tops(cs: seq<Copy>): (r: seq<Net>)
    ensures |r| == |cs|
    ensures forall k :: 0 <= k < |r| ==> r[k] == cs[k].top
  {
    seq(|cs|, k requires 0 <= k < |cs| => cs[k].top)
  }

  /** The top-level pin copies, in order: `CS`, `clk`, the data outputs,
      the low address bits from the column decoder, the high ones from the
      row decoder. */
  function PlaceTopLevelPins(b: Bank): (r: seq<Copy>)
    ensures |r| == 2 + b.wordSize + b.colBits + b.rowBits
    ensures r[0] == Copy(Control, CsIn, CS) && r[1] == Copy(Control, ClkIn, Clk)
    ensures forall i :: 0 <= i < b.wordSize ==>
      r[2 + i] == Copy(OutputInverter, Out(i), Indexed(RomOut, i))
    ensures forall i :: 0 <= i < b.colBits ==>
      r[2 + b.wordSize + i] == Copy(ColumnDecoder, A(i), Indexed(Addr, i))
    ensures forall i :: b.colBits <= i < b.colBits + b.rowBits ==>
      r[2 + b.wordSize + i] == Copy(RowDecoder, A(i - b.colBits), Indexed(Addr, i))
  {
    seq(2 + b.wordSize + b.colBits + b.rowBits, k requires k >= 0 => CopyAt(b, k))
  }

  /** The `k`-th copy `place_top_level_pins` makes: the two control pins,
      then one per data output, then one per address bit. */
  function CopyAt(b: Bank, k: nat): Copy {
    var ws, cb := b.wordSize, b.colBits;
    if k == 0 then Copy(Control, CsIn, CS)
    else if k == 1 then Copy(Control, ClkIn, Clk)
    else if k < 2 + ws then Copy(OutputInverter, Out(k - 2), Indexed(RomOut, k - 2))
    else if k < 2 + ws + cb then Copy(ColumnDecoder, A(k - 2 - ws), Indexed(Addr, k - 2 - ws))
    else Copy(RowDecoder, A(k - 2 - ws - cb), Indexed(Addr, k - 2 - ws))
  }

  /** Every signal pin of the bank (all but the supplies) is copied from
      exactly one place. */
  lemma TopLevelPinsExact(b: Bank, n: Net)
    ensures n in Tops(PlaceTopLevelPins(b)) <==> IsPin(n, b) && n != Vdd && n != Gnd
  {
    var r := PlaceTopLevelPins(b);
    var ws, cb := b.wordSize, b.colBits;
    if IsPin(n, b) && n != Vdd && n != Gnd {
      match n
      case Clk => assert Tops(r)[1] == n;
      case CS => assert Tops(r)[0] == n;
      case Indexed(f, i) =>
        if f == RomOut {
          assert Tops(r)[2 + i] == n;
        } else {
          assert Tops(r)[2 + ws + i] == n;
        }
    }
    if n in Tops(r) {
      var k :| 0 <= k < |r| && Tops(r)[k] == n;
      if 2 <= k < 2 + ws {
        assert r[2 + (k - 2)].top == n;
      } else if 2 + ws <= k {
        assert r[2 + ws + (k - 2 - ws)].top == n;
      }
    }
  }

  lemma TopLevelPinsDistinct(b: Bank)
    ensures Distinct(Tops(PlaceTopLevelPins(b)))
  {
    var r := PlaceTopLevelPins(b);
    var ws := b.wordSize;
    forall i, j | 0 <= i < j < |r|
      ensures Tops(r)[i] != Tops(r)[j]
    {
      if 2 <= i < 2 + ws {
        assert r[2 + (i - 2)].top == Indexed(RomOut, i - 2);
      }
      if 2 <= j < 2 + ws {
        assert r[2 + (j - 2)].top == Indexed(RomOut, j - 2);
      }
      if 2 + ws <= i {
        assert r[2 + ws + (i - 2 - ws)].top == Indexed(Addr, i - 2 - ws);
      }
      if 2 + ws <= j {
        assert r[2 + ws + (j - 2 - ws)].top == Indexed(Addr, j - 2 - ws);
      }
    }
  }

  /** The position of a child pin in its instance's port order: the control
      lists `clk_in`, `CS` first; the decoders list their address inputs
      `A_0, A_1, ...` first; the output inverter lists `in_0, ...` and then
      `out_0, ...`. */
  function PinPosition(inst: RomInst, pin: ChildPin, b: Bank): (r: Option<nat>)
    ensures r.Some? ==> r.value < |Conns(inst, b)|
  {
    match (inst, pin)
    case (Control, ClkIn) => Some(0)
    case (Control, CsIn) => Some(1)
    case (OutputInverter, Out(i)) => if i < b.wordSize then Some(b.wordSize + i) else None
    case (ColumnDecoder, A(i)) => if i < b.colBits then Some(i) else None
    case (RowDecoder, A(i)) => if i < b.rowBits then Some(i) else None
    case _ => None
  }

  /** Each copied pin is the one the netlist connects to the same top-level
      net: the column decoder's `A_i` carries `addr_i`, the row decoder's
      `A_i` carries `addr_{i + col_bits}`, `out_i` carries `rom_out_i`. */
  lemma ExportsAgreeWithNetlist(b: Bank, k: nat)
    requires k < |PlaceTopLevelPins(b)|
    ensures Exported(PlaceTopLevelPins(b)[k], b)
  {
    var ws, cb := b.wordSize, b.colBits;
    if k < 2 {
    } else if k < 2 + ws {
      OutputExported(b, k - 2);
    } else if k < 2 + ws + cb {
      LsbExported(b, k - 2 - ws);
    } else {
      MsbExported(b, k - 2 - ws - cb);
    }
  }

  /** The copied child pin exists and carries the top-level net. */
  predicate Exported(c: Copy, b: Bank) {
    var pos := PinPosition(c.inst, c.pin, b);
    pos.Some? && Conns(c.inst, b)[pos.value] == c.top
  }

  lemma OutputExported(b: Bank, i: nat)
    requires i < b.wordSize
    ensures Exported(PlaceTopLevelPins(b)[2 + i], b)
  {
    var ws := b.wordSize;
    assert PlaceTopLevelPins(b)[2 + i] == Copy(OutputInverter, Out(i), Indexed(RomOut, i));
    assert Conns(OutputInverter, b)[ws + i] == Nets(RomOut, 0, ws)[i];
  }

  lemma LsbExported(b: Bank, i: nat)
    requires i < b.colBits
    ensures Exported(PlaceTopLevelPins(b)[2 + b.wordSize + i], b)
  {
    assert PlaceTopLevelPins(b)[2 + b.wordSize + i] == Copy(ColumnDecoder, A(i), Indexed(Addr, i));
    assert Conns(ColumnDecoder, b)[i] == AddrLsb(b)[i];
  }

  lemma MsbExported(b: Bank, i: nat)
    requires i < b.rowBits
    ensures Exported(PlaceTopLevelPins(b)[2 + b.wordSize + b.colBits + i], b)
  {
    var cb := b.colBits;
    assert PlaceTopLevelPins(b)[2 + b.wordSize + (cb + i)]
      == Copy(RowDecoder, A(i), Indexed(Addr, cb + i));
    assert Conns(RowDecoder, b)[i] == AddrMsb(b)[i];
  }

  /** `t` occurs in `s` starting at position `k`. */
  predicate OccursAt(s: string, t: string, k: int) {
    0 <= k && k + |t| <= |s| && s[k..k + |t|] == t
  }

  /** Python's substring test `t in s`. */
  function Contains(s: string, t: string): (r: bool)
    ensures r <==> exists k :: OccursAt(s, t, k)
    decreases |s|
  {
    if |s| < |t| then false
    else if s[..|t|] == t then
      assert OccursAt(s, t, 0);
      true
    else
      forall k | OccursAt(s, t, k) && k > 0
        ensures OccursAt(s[1..], t, k - 1)
      {
        ShiftSlice(s, k, |t|);
      }
      forall k | OccursAt(s[1..], t, k)
        ensures OccursAt(s, t, k + 1)
      {
        ShiftSlice(s, k + 1, |t|);
      }
      Contains(s[1..], t)
  }

  /** Slicing after dropping the first element shifts positions by one. */
  lemma ShiftSlice(s: string, k: int, n: nat)
    requires 1 <= k && k + n <= |s|
    ensures s[1..][k - 1..k - 1 + n] == s[k..k + n]
  {
    var a, c := s[1..][k - 1..k - 1 + n], s[k..k + n];
    assert |a| == |c|;
    forall i | 0 <= i < n
      ensures a[i] == c[i]
    {
      assert a[i] == s[1..][k - 1 + i] == s[k + i];
    }
  }

  const ContactTag := "contact"

  /** The supply copies of `route_supplies`: for each instance, by its
      position, whose module name does not contain "contact", its `vdd` and
      then its `gnd`. */
  function SupplyCopies(modNames: seq<string>): (r: seq<(nat, Net)>)
    ensures |r| % 2 == 0 && |r| <= 2 * |modNames|
    ensures forall p :: p in r ==>
      p.0 < |modNames| && !Contains(modNames[p.0], ContactTag) && (p.1 == Vdd || p.1 == Gnd)
    ensures forall k :: 0 <= k < |modNames| && !Contains(modNames[k], ContactTag) ==>
      (k, Vdd) in r && (k, Gnd) in r
    decreases |modNames|
  {
    if |modNames| == 0 then []
    else
      var last := |modNames| - 1;
      var front := SupplyCopies(modNames[..last]);
      if Contains(modNames[last], ContactTag) then front
      else front + [(last, Vdd), (last, Gnd)]
  }

  /** The supply copies keep the instances' order. */
  lemma {:induction false} SupplyCopiesOrdered(modNames: seq<string>, i: nat, j: nat)
    requires i < j < |SupplyCopies(modNames)|
    ensures SupplyCopies(modNames)[i].0 <= SupplyCopies(modNames)[j].0
    decreases |modNames|
  {
    var last := |modNames| - 1;
    var front := SupplyCopies(modNames[..last]);
    if Contains(modNames[last], ContactTag) {
      SupplyCopiesOrdered(modNames[..last], i, j);
    } else if j < |front| {
      SupplyCopiesOrdered(modNames[..last], i, j);
    } else if i < |front| {
      assert front[i] in front;
      assert SupplyCopies(modNames)[i] == front[i];
    }
  }
}
