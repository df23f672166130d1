/** The ROM data bank netlist: address-bit derivation, the top-level pin
    list, the generated net families and the connection lists of the seven
    sub-instances (bit array, row decoder, control, column mux, column
    decoder, bitline inverter, output inverter). */
module RomBank {
  import opened Results
  import opened Arith
  import opened Circuit

  /** The indexed net families the bank generates: `bl_i`, `bl_b_i`,
      `wl_i`, `addr_i`, `word_sel_i`, `rom_out_prebuf_i`, `rom_out_i`. */
  datatype Family = Bl | BlB | Wl | Addr | WordSel | RomOutPrebuf | RomOut

  /** A net name: one of the fixed names, or a (family, index) pair standing
      for the formatted name `<family>_<index>`. */
  datatype Net = Clk | CS | Vdd | Gnd | Precharge | ClkInt | Indexed(family: Family, index: nat)

  /** The ROM configuration the bank reads: rows, bit columns, words per
      row and word size in bits. */
  datatype RomConfig = RomConfig(rows: nat, cols: nat, wordsPerRow: nat, wordBits: nat)

  /** The bank's derived counts. */
  datatype Bank = Bank(rows: nat, cols: nat, wordsPerRow: nat, wordSize: nat,
                       numOutputs: nat, numInputs: nat, rowBits: nat, colBits: nat)

  /** `k` is the least exponent with `n <= 2^k`, i.e. ceil(log2 n). */
  predicate IsCeilLog2(n: nat, k: nat) {
    n <= Pow2(k) && (k == 0 || Pow2(k - 1) < n)
  }

  /** Derives the bank's counts; a logarithm of zero rows or zero words per
      row is a configuration error. */
  function Configure(c: RomConfig): (r: Result<Bank, string>)
    ensures r.Success? <==> c.rows >= 1 && c.wordsPerRow >= 1
    ensures r.Success? ==> r.value.rows == c.rows && r.value.cols == c.cols
    ensures r.Success? ==> r.value.wordsPerRow == c.wordsPerRow && r.value.wordSize == c.wordBits
    ensures r.Success? ==> r.value.numOutputs == c.rows
    ensures r.Success? ==> r.value.rowBits == r.value.numInputs
    ensures r.Success? ==> IsCeilLog2(c.rows, r.value.rowBits)
    ensures r.Success? ==> IsCeilLog2(c.wordsPerRow, r.value.colBits)
  {
    if c.rows == 0 then Failure("math domain error: log of zero rows")
    else if c.wordsPerRow == 0 then Failure("math domain error: log of zero words per row")
    else
      var inputs := CeilLog2(c.rows);
      Success(Bank(c.rows, c.cols, c.wordsPerRow, c.wordBits,
                   c.rows, inputs, inputs, CeilLog2(c.wordsPerRow)))
  }

  /** A bank as `Configure` produces it. */
  predicate Valid(b: Bank) {
    b.rows >= 1 && b.wordsPerRow >= 1 && b.numOutputs == b.rows
    && b.rowBits == b.numInputs
    && IsCeilLog2(b.rows, b.rowBits) && IsCeilLog2(b.wordsPerRow, b.colBits)
  }

  lemma ConfigureValid(c: RomConfig)
    requires c.rows >= 1 && c.wordsPerRow >= 1
    ensures Configure(c).Success? && Valid(Configure(c).value)
  {
  }

  /** With power-of-two dimensions the bit counts are the exact exponents;
      the bank then addresses exactly `rows * words_per_row` words. */
  lemma {:induction false} PowerOfTwoBits(c: RomConfig, i: nat, j: nat)
    requires c.rows == Pow2(i) && c.wordsPerRow == Pow2(j)
    ensures Configure(c).Success?
    ensures Configure(c).value.rowBits == i && Configure(c).value.colBits == j
    ensures Pow2(Configure(c).value.rowBits + Configure(c).value.colBits) == c.rows * c.wordsPerRow
  {
    CeilLog2OfPow2(i);
    CeilLog2OfPow2(j);
    Pow2Add(i, j);
  }

  lemma {:induction false} Pow2Add(i: nat, j: nat)
    ensures Pow2(i + j) == Pow2(i) * Pow2(j)
  {
    if i > 0 {
      Pow2Add(i - 1, j);
    }
  }

  /** `count` consecutive members of a family, starting at index `start`. */
  function Nets(f: Family, start: nat, count: nat): (r: seq<Net>)
    ensures |r| == count
    ensures forall k :: 0 <= k < count ==> r[k] == Indexed(f, start + k)
  {
    seq(count, k requires 0 <= k < count => Indexed(f, start + k))
  }

  /** A family range holds exactly the indices it spans. */
  lemma InNets(f: Family, start: nat, count: nat, n: Net)
    ensures n in Nets(f, start, count) <==>
      n.Indexed? && n.family == f && start <= n.index < start + count
  {
    if n.Indexed? && n.family == f && start <= n.index < start + count {
      assert Nets(f, start, count)[n.index - start] == n;
    }
  }

  /** Adjacent ranges of a family concatenate into one range. */
  lemma {:induction false} NetsSplit(f: Family, start: nat, a: nat, b: nat)
    ensures Nets(f, start, a) + Nets(f, start + a, b) == Nets(f, start, a + b)
  {
    var l, rr := Nets(f, start, a) + Nets(f, start + a, b), Nets(f, start, a + b);
    assert |l| == |rr|;
    forall k | 0 <= k < |l|
      ensures l[k] == rr[k]
    {
      if k < a {
        assert l[k] == Nets(f, start, a)[k];
      } else {
        assert l[k] == Nets(f, start + a, b)[k - a];
      }
    }
  }

  lemma NetsDistinct(f: Family, start: nat, count: nat)
    ensures Distinct(Nets(f, start, count))
  {
  }

  // Address and data nets of the top level.

  function AddrPins(b: Bank): seq<Net> { Nets(Addr, 0, b.rowBits + b.colBits) }

  /** Column-decoder address inputs: the low `col_bits` address bits. */
  function AddrLsb(b: Bank): seq<Net> { Nets(Addr, 0, b.colBits) }

  /** Row-decoder address inputs: the next `row_bits` address bits. */
  function AddrMsb(b: Bank): seq<Net> { Nets(Addr, b.colBits, b.rowBits) }

  /** The two address halves are disjoint and, low half first, they are
      exactly the address pins of the bank. */
  lemma AddrSplit(b: Bank)
    ensures AddrLsb(b) + AddrMsb(b) == AddrPins(b)
    ensures forall n :: n in AddrLsb(b) ==> n !in AddrMsb(b)
  {
    NetsSplit(Addr, 0, b.colBits, b.rowBits);
    forall n | n in AddrLsb(b)
      ensures n !in AddrMsb(b)
    {
      InNets(Addr, 0, b.colBits, n);
      InNets(Addr, b.colBits, b.rowBits, n);
    }
  }

  /** The top-level pins: `clk`, `CS`, the address bits, the data outputs,
      `vdd`, `gnd`, in that order. */
  function AddPins(b: Bank): (r: seq<Pin<Net>>)
    ensures |r| == 4 + b.rowBits + b.colBits + b.wordSize
    ensures r[0] == Pin(Clk, Input) && r[1] == Pin(CS, Input)
    ensures forall i :: 0 <= i < b.rowBits + b.colBits ==> r[2 + i] == Pin(Indexed(Addr, i), Input)
    ensures forall j :: 0 <= j < b.wordSize ==>
      r[2 + b.rowBits + b.colBits + j] == Pin(Indexed(RomOut, j), Output)
    ensures r[|r| - 2] == Pin(Vdd, Power) && r[|r| - 1] == Pin(Gnd, Ground)
  {
    seq(4 + b.rowBits + b.colBits + b.wordSize, k requires k >= 0 => PinSlot(b, k))
  }

  /** The `k`-th pin `add_pins` declares: `clk`, `CS`, one per address bit,
      one per data output, then the supplies. */
  function PinSlot(b: Bank, k: nat): Pin<Net> {
    var ab := b.rowBits + b.colBits;
    if k == 0 then Pin(Clk, Input)
    else if k == 1 then Pin(CS, Input)
    else if k < 2 + ab then Pin(Indexed(Addr, k - 2), Input)
    else if k < 2 + ab + b.wordSize then Pin(Indexed(RomOut, k - 2 - ab), Output)
    else if k == 2 + ab + b.wordSize then Pin(Vdd, Power)
    else Pin(Gnd, Ground)
  }

  /** A net is a top-level pin of the bank. */
  predicate IsPin(n: Net, b: Bank) {
    match n
    case Clk | CS | Vdd | Gnd => true
    case Precharge | ClkInt => false
    case Indexed(f, i) =>
      (f == Addr && i < b.rowBits + b.colBits) || (f == RomOut && i < b.wordSize)
  }

  /** The pin list names every pin and nothing else. */
  lemma PinsExact(b: Bank, n: Net)
    ensures n in PinNames(AddPins(b)) <==> IsPin(n, b)
  {
    if IsPin(n, b) {
      PinListed(b, n);
    }
    if n in PinNames(AddPins(b)) {
      var k :| 0 <= k < |PinNames(AddPins(b))| && PinNames(AddPins(b))[k] == n;
      PinAt(b, k);
    }
  }

  lemma PinListed(b: Bank, n: Net)
    requires IsPin(n, b)
    ensures n in PinNames(AddPins(b))
  {
    var ab := b.rowBits + b.colBits;
    match n
    case Clk => PinAt(b, 0);
    case CS => PinAt(b, 1);
    case Indexed(f, i) => if f == Addr { PinAt(b, 2 + i); } else { PinAt(b, 2 + ab + i); }
    case Vdd => PinAt(b, 2 + ab + b.wordSize);
    case Gnd => PinAt(b, 3 + ab + b.wordSize);
  }

  /** What stands at each position of the pin list. */
  lemma PinAt(b: Bank, k: nat)
    requires k < 4 + b.rowBits + b.colBits + b.wordSize
    ensures k == 0 ==> PinNames(AddPins(b))[k] == Clk
    ensures k == 1 ==> PinNames(AddPins(b))[k] == CS
    ensures 2 <= k < 2 + b.rowBits + b.colBits ==>
      PinNames(AddPins(b))[k] == Indexed(Addr, k - 2)
    ensures 2 + b.rowBits + b.colBits <= k < 2 + b.rowBits + b.colBits + b.wordSize ==>
      PinNames(AddPins(b))[k] == Indexed(RomOut, k - 2 - b.rowBits - b.colBits)
    ensures k == 2 + b.rowBits + b.colBits + b.wordSize ==> PinNames(AddPins(b))[k] == Vdd
    ensures k == 3 + b.rowBits + b.colBits + b.wordSize ==> PinNames(AddPins(b))[k] == Gnd
  {
    assert PinNames(AddPins(b))[k] == PinSlot(b, k).name;
  }

  /** No pin is declared twice. */
  lemma PinsDistinct(b: Bank)
    ensures Distinct(PinNames(AddPins(b)))
  {
    var names := PinNames(AddPins(b));
    forall i, j | 0 <= i < j < |names|
      ensures names[i] != names[j]
    {
      PinAt(b, i);
      PinAt(b, j);
    }
  }

  /** The seven sub-instances, in creation order. */
  datatype RomInst = BitArray | RowDecoder | Control | ColumnMux | ColumnDecoder
                   | BitlineInverter | OutputInverter

  function InstName(i: RomInst): string {
    match i
    case BitArray => "rom_bit_array"
    case RowDecoder => "rom_row_decoder"
    case Control => "rom_control"
    case ColumnMux => "rom_column_mux"
    case ColumnDecoder => "rom_column_decoder"
    case BitlineInverter => "rom_bitline_inverter"
    case OutputInverter => "rom_output_inverter"
  }

  datatype Instance = Instance(name: RomInst, conns: seq<Net>)

  /** The connection list of one sub-instance. */
  function Conns(i: RomInst, b: Bank): (r: seq<Net>)
    ensures i == BitArray ==> |r| == b.cols + b.rows + 3
    ensures i == RowDecoder ==> |r| == b.rowBits + b.rows + 4
    ensures i == Control ==> |r| == 6
    ensures i == ColumnMux ==> |r| == b.cols + b.wordsPerRow + b.wordSize + 1
    ensures i == ColumnDecoder ==> |r| == b.colBits + b.wordsPerRow + 4
    ensures i == BitlineInverter ==> |r| == 2 * b.cols + 2
    ensures i == OutputInverter ==> |r| == 2 * b.wordSize + 2
  {
    var bitlines := Nets(Bl, 0, b.cols);
    var wordlines := Nets(Wl, 0, b.rows);
    var selects := Nets(WordSel, 0, b.wordsPerRow);
    var bitlineBar := Nets(BlB, 0, b.cols);
    var preBuf := Nets(RomOutPrebuf, 0, b.wordSize);
    match i
    case BitArray => bitlines + wordlines + [Precharge, Vdd, Gnd]
    case RowDecoder => AddrMsb(b) + wordlines + [ClkInt, ClkInt, Vdd, Gnd]
    case Control => [Clk, CS, Precharge, ClkInt, Vdd, Gnd]
    case ColumnMux => bitlineBar + selects + preBuf + [Gnd]
    case ColumnDecoder => AddrLsb(b) + selects + [Precharge, Precharge, Vdd, Gnd]
    case BitlineInverter => bitlines + bitlineBar + [Vdd, Gnd]
    case OutputInverter => preBuf + Nets(RomOut, 0, b.wordSize) + [Vdd, Gnd]
  }

  const CreationOrder: seq<RomInst> :=
    [BitArray, RowDecoder, Control, ColumnMux, ColumnDecoder, BitlineInverter, OutputInverter]

  /** The bank's sub-instances with their connections, in creation order. */
  function CreateInstances(b: Bank): (r: seq<Instance>)
    ensures |r| == 7
    ensures forall k :: 0 <= k < 7 ==> r[k].name == CreationOrder[k]
    ensures forall k :: 0 <= k < 7 ==> r[k].conns == Conns(r[k].name, b)
    ensures Distinct(CreationOrder)
  {
    seq(7, k requires 0 <= k < 7 => Instance(CreationOrder[k], Conns(CreationOrder[k], b)))
  }

  /** Instance names are distinct strings. */
  lemma InstNameInjective(i: RomInst, j: RomInst)
    ensures InstName(i) == InstName(j) ==> i == j
  {
  }

  /** Each of the seven instances is created exactly once. */
  lemma CreatedOnce(i: RomInst)
    ensures i in CreationOrder
  {
    match i
    case BitArray => assert CreationOrder[0] == i;
    case RowDecoder => assert CreationOrder[1] == i;
    case Control => assert CreationOrder[2] == i;
    case ColumnMux => assert CreationOrder[3] == i;
    case ColumnDecoder => assert CreationOrder[4] == i;
    case BitlineInverter => assert CreationOrder[5] == i;
    case OutputInverter => assert CreationOrder[6] == i;
  }

  /** A net is one the bank generates internally: the control nets and the
      in-range members of the internal families. */
  predicate IsInternal(n: Net, b: Bank) {
    match n
    case Clk | CS | Vdd | Gnd => false
    case Precharge | ClkInt => true
    case Indexed(f, i) =>
      match f
      case Bl | BlB => i < b.cols
      case Wl => i < b.rows
      case WordSel => i < b.wordsPerRow
      case RomOutPrebuf => i < b.wordSize
      case Addr | RomOut => false
  }

  /** Two instances that both connect an internal net. */
  function Sharers(n: Net): (RomInst, RomInst) {
    match n
    case Clk | CS | Vdd | Gnd => (Control, Control)
    case Precharge => (BitArray, Control)
    case ClkInt => (RowDecoder, Control)
    case Indexed(f, _) =>
      match f
      case Bl => (BitArray, BitlineInverter)
      case BlB => (BitlineInverter, ColumnMux)
      case Wl => (BitArray, RowDecoder)
      case WordSel => (ColumnMux, ColumnDecoder)
      case RomOutPrebuf => (ColumnMux, OutputInverter)
      case Addr | RomOut => (Control, Control)
  }

  /** Every internal net connects at least two distinct instances. */
  lemma InternalNetsShared(b: Bank, n: Net)
    requires IsInternal(n, b)
    ensures Sharers(n).0 != Sharers(n).1
    ensures n in Conns(Sharers(n).0, b) && n in Conns(Sharers(n).1, b)
  {
    match n
    case Precharge =>
    case ClkInt =>
    case Indexed(f, i) =>
      InNets(f, 0, i + 1, n);
      match f
      case Bl =>
        InNets(Bl, 0, b.cols, n);
      case BlB =>
        InNets(BlB, 0, b.cols, n);
      case Wl =>
        InNets(Wl, 0, b.rows, n);
      case WordSel =>
        InNets(WordSel, 0, b.wordsPerRow, n);
      case RomOutPrebuf =>
        InNets(RomOutPrebuf, 0, b.wordSize, n);
  }

  /** Every net an instance connects is a top-level pin or an internal net:
      no connection names an out-of-range or foreign net. */
  lemma ConnsAreKnown(b: Bank, i: RomInst, n: Net)
    requires n in Conns(i, b)
    ensures IsPin(n, b) || IsInternal(n, b)
  {
    InNets(Bl, 0, b.cols, n);
    InNets(Wl, 0, b.rows, n);
    InNets(WordSel, 0, b.wordsPerRow, n);
    InNets(BlB, 0, b.cols, n);
    InNets(RomOutPrebuf, 0, b.wordSize, n);
    InNets(RomOut, 0, b.wordSize, n);
    InNets(Addr, 0, b.colBits, n);
    InNets(Addr, b.colBits, b.rowBits, n);
  }

  /** Every top-level pin reaches some instance: `clk` and `CS` the control,
      low address bits the column decoder, high ones the row decoder, data
      outputs the output inverter, supplies the bit array. */
  function PinUser(n: Net, b: Bank): RomInst {
    match n
    case Clk | CS => Control
    case Indexed(f, i) =>
      if f == RomOut then OutputInverter
      else if i < b.colBits then ColumnDecoder
      else RowDecoder
    case _ => BitArray
  }

  lemma PinsConnected(b: Bank, n: Net)
    requires IsPin(n, b)
    ensures n in Conns(PinUser(n, b), b)
  {
    match n
    case Indexed(f, i) =>
      if f == RomOut {
        InNets(RomOut, 0, b.wordSize, n);
      } else if i < b.colBits {
        InNets(Addr, 0, b.colBits, n);
      } else {
        InNets(Addr, b.colBits, b.rowBits, n);
      }
    case _ =>
  }

  /** Supply nets: every instance but the column mux connects `vdd`; every
      instance connects `gnd`. */
  lemma SupplyConnections(b: Bank, i: RomInst)
    ensures Gnd in Conns(i, b)
    ensures Vdd in Conns(i, b) <==> i != ColumnMux
  {
    InNets(BlB, 0, b.cols, Vdd);
    InNets(WordSel, 0, b.wordsPerRow, Vdd);
    InNets(RomOutPrebuf, 0, b.wordSize, Vdd);
  }
}
