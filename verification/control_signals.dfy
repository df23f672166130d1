/** Port-type-dependent signal lists and derived counts of the delay-based
    control logic (`control_logic_delay`): its constructor and
    `setup_signal_busses`, plus the pins that `add_pins` declares. */
module ControlSignals {
  import opened Circuit
  import opened Results

  /** The port-type tag: read-write, read-only or write-only. */
  datatype PortType = RW | R | W

  /** The port has a sense-enable (read) path. */
  predicate Reads(p: PortType) {
    p == RW || p == R
  }

  /** The port has a write-enable path. */
  predicate Writes(p: PortType) {
    p == RW || p == W
  }

  function PortName(p: PortType): string {
    match p
    case RW => "rw"
    case R => "r"
    case W => "w"
  }

  /** Every net the control logic names; NetName gives its spelling. */
  datatype Net =
    | Csb | Web | Clk                         // registered inputs and the clock
    | CsBar | Cs | WeBar | We                 // control flop outputs
    | ClkBuf | ClkBar | GatedClkBar | GatedClkBuf
    | Delay1 | Delay2 | Delay3 | Delay4 | Delay5
    | Glitch1 | Glitch2 | Glitch3 | Glitch3Bar | WlEnUnbuf
    | SEn | WEn | PEnBar | WlEn                // enables to the bank
    | Vdd | Gnd

  /** Net spelling; it reads back as the same net, so distinct nets
      are never written the same. */
  function NetName(n: Net): (r: string)
    ensures NetOfName(r) == Some(n)
  {
    match n
    case Csb => "csb"                 case Web => "web"
    case Clk => "clk"                 case CsBar => "cs_bar"
    case Cs => "cs"                   case WeBar => "we_bar"
    case We => "we"                   case ClkBuf => "clk_buf"
    case ClkBar => "clk_bar"          case GatedClkBar => "gated_clk_bar"
    case GatedClkBuf => "gated_clk_buf"
    case Delay1 => "delay1"           case Delay2 => "delay2"
    case Delay3 => "delay3"           case Delay4 => "delay4"
    case Delay5 => "delay5"           case Glitch1 => "glitch1"
    case Glitch2 => "glitch2"         case Glitch3 => "glitch3"
    case Glitch3Bar => "glitch3_bar"  case WlEnUnbuf => "wl_en_unbuf"
    case SEn => "s_en"                case WEn => "w_en"
    case PEnBar => "p_en_bar"         case WlEn => "wl_en"
    case Vdd => "vdd"                 case Gnd => "gnd"
  }

  /** Reads a net name back; names the control logic never uses give
      `None`. */
  function NetOfName(s: string): (r: Option<Net>)
  {
    if s == "csb" then Some(Csb)
    else if s == "web" then Some(Web)
    else if s == "clk" then Some(Clk)
    else if s == "cs_bar" then Some(CsBar)
    else if s == "cs" then Some(Cs)
    else if s == "we_bar" then Some(WeBar)
    else if s == "we" then Some(We)
    else if s == "clk_buf" then Some(ClkBuf)
    else if s == "clk_bar" then Some(ClkBar)
    else if s == "gated_clk_bar" then Some(GatedClkBar)
    else if s == "gated_clk_buf" then Some(GatedClkBuf)
    else if s == "delay1" then Some(Delay1)
    else if s == "delay2" then Some(Delay2)
    else if s == "delay3" then Some(Delay3)
    else if s == "delay4" then Some(Delay4)
    else if s == "delay5" then Some(Delay5)
    else if s == "glitch1" then Some(Glitch1)
    else if s == "glitch2" then Some(Glitch2)
    else if s == "glitch3" then Some(Glitch3)
    else if s == "glitch3_bar" then Some(Glitch3Bar)
    else if s == "wl_en_unbuf" then Some(WlEnUnbuf)
    else if s == "s_en" then Some(SEn)
    else if s == "w_en" then Some(WEn)
    else if s == "p_en_bar" then Some(PEnBar)
    else if s == "wl_en" then Some(WlEn)
    else if s == "vdd" then Some(Vdd)
    else if s == "gnd" then Some(Gnd)
    else None
  }

  /** Distinct nets have distinct spellings. */
  lemma NetNameInjective(a: Net, b: Net)
    requires NetName(a) == NetName(b)
    ensures a == b
  {
  }

  /** The constructor's parameters.  `spareColumns` is `None` when the
      caller passes nothing. */
  datatype Config = Config(numRows: nat, wordsPerRow: nat, wordSize: nat,
                           spareColumns: Option<nat>, portType: PortType)

  /** Module name: "control_logic_" followed by the port tag. */
  function ModuleName(p: PortType): (r: string)
    ensures |r| > 14 && r[..14] == "control_logic_"
  {
    "control_logic_" + PortName(p)
  }

  /** Different port types never share a module name. */
  lemma ModuleNameInjective(p: PortType, q: PortType)
    requires ModuleName(p) == ModuleName(q)
    ensures p == q
  {
    assert ModuleName(p)[14..] == PortName(p);
    assert ModuleName(q)[14..] == PortName(q);
  }

  /** Missing or zero spare columns both count as none. */
  function NumSpareCols(c: Config): (r: nat)
    ensures c.spareColumns.None? ==> r == 0
    ensures c.spareColumns.Some? ==> r == c.spareColumns.value
  {
    match c.spareColumns
    case None => 0
    case Some(n) => if n == 0 then 0 else n
  }

  /** Bitline columns served: the data columns plus the spare ones. */
  function NumCols(c: Config): (r: nat)
    ensures r >= c.wordSize * c.wordsPerRow
    ensures r - c.wordSize * c.wordsPerRow == NumSpareCols(c)
  {
    c.wordSize * c.wordsPerRow + NumSpareCols(c)
  }

  /** Spare columns widen the array only when a positive count is given:
      `None` and 0 both leave exactly the data columns, and a positive
      count adds that many columns to them. */
  lemma NumColsSpares(c: Config)
    ensures NumCols(c) == c.wordSize * c.wordsPerRow
            <==> c.spareColumns.None? || c.spareColumns.value == 0
    ensures c.spareColumns.Some? ==> NumCols(c) == c.wordSize * c.wordsPerRow + c.spareColumns.value
  {
  }

  /** Words stored: rows times words per row. */
  function NumWords(c: Config): (r: nat)
    ensures c.wordsPerRow >= 1 ==> r >= c.numRows
  {
    c.numRows * c.wordsPerRow
  }

  /** One registered control input per port capability: chip select,
      plus write enable on a read-write port. */
  function NumControlSignals(p: PortType): (n: nat)
    ensures 1 <= n <= 2
    ensures n == 2 <==> p == RW
  {
    if p == RW then 2 else 1
  }

  /** Control inputs registered by the control flops. */
  function InputList(p: PortType): (r: seq<Net>)
    ensures |r| == NumControlSignals(p)
    ensures r[0] == Csb
    ensures forall n :: n in r <==> n == Csb || (n == Web && p == RW)
    ensures Distinct(r)
  {
    if p == RW then [Csb, Web] else [Csb]
  }

  /** The two buffered outputs (true, complement) of each control flop. */
  function DffOutputList(p: PortType): (r: seq<Net>)
    ensures |r| == 2 * |InputList(p)|
    ensures r[0] == CsBar && r[1] == Cs
    ensures forall n :: n in r <==> n == CsBar || n == Cs || ((n == We || n == WeBar) && p == RW)
    ensures Distinct(r)
  {
    if p == RW then [CsBar, Cs, WeBar, We] else [CsBar, Cs]
  }

  /** Bus nets every port type routes on the vertical bus. */
  const CommonBusNets: set<Net> :=
    {Glitch2, Glitch3, Delay1, Delay2, Delay3, Delay4, Delay5, GatedClkBar, GatedClkBuf, ClkBuf, Cs}

  /** Nets of the vertical internal bus, one track each. */
  function InternalBusList(p: PortType): (r: seq<Net>)
    ensures |r| == if p == RW then 13 else 11
    ensures Distinct(r)
    ensures forall n :: n in r <==> n in CommonBusNets || (p == RW && (n == We || n == WeBar))
    ensures forall n :: n in DffOutputList(p) && n != CsBar ==> n in r
  {
    if p == RW then
      [Glitch2, Glitch3, Delay1, Delay2, Delay3, Delay4, Delay5,
       GatedClkBar, GatedClkBuf, We, WeBar, ClkBuf, Cs]
    else
      [Glitch2, Glitch3, Delay1, Delay2, Delay3, Delay4, Delay5,
       GatedClkBar, GatedClkBuf, ClkBuf, Cs]
  }

  /** Width reserved for the vertical bus: one m2 track per bus net plus
      one spare track. */
  function InternalBusWidth(p: PortType, m2Pitch: nat): (w: nat)
    ensures w == |InternalBusList(p)| * m2Pitch + m2Pitch
    ensures w == (if p == RW then 14 else 12) * m2Pitch
  {
    var tracks := |InternalBusList(p)| + 1;
    assert tracks == if p == RW then 14 else 12;
    tracks * m2Pitch
  }

  /** Enables driven out to the bank. */
  function OutputList(p: PortType): (r: seq<Net>)
    ensures forall n :: n in r <==>
      n == PEnBar || n == WlEn || n == ClkBuf || (n == SEn && Reads(p)) || (n == WEn && Writes(p))
    ensures |r| == if p == RW then 5 else 4
    ensures r[|r| - 3..] == [PEnBar, WlEn, ClkBuf]
    ensures Distinct(r)
  {
    var enables := if p == RW then [SEn, WEn] else if p == R then [SEn] else [WEn];
    enables + [PEnBar, WlEn, ClkBuf]
  }

  const SupplyList: seq<Net> := [Vdd, Gnd]

  /** The pin names `add_pins` declares, in order: the control inputs,
      `clk`, the enables, the supplies; none twice. */
  function PinNameList(p: PortType): (r: seq<Net>)
    ensures forall n :: n in r <==> n in InputList(p) || n == Clk || n in OutputList(p) || n in SupplyList
    ensures Distinct(r)
  {
    var ins, outs := InputList(p) + [Clk], OutputList(p) + SupplyList;
    DistinctConcat(InputList(p), [Clk]);
    DistinctConcat(OutputList(p), SupplyList);
    DistinctConcat(ins, outs);
    ins + outs
  }

  /** `add_pins`: control inputs and `clk`, then the outputs, then the
      supplies. */
  function Pins(p: PortType): (r: seq<Pin<Net>>)
    ensures |r| == |InputList(p)| + |OutputList(p)| + 3
    ensures forall i :: 0 <= i < |InputList(p)| ==> r[i] == Pin(InputList(p)[i], Input)
    ensures r[|InputList(p)|] == Pin(Clk, Input)
    ensures forall j :: 0 <= j < |OutputList(p)| ==> r[|InputList(p)| + 1 + j] == Pin(OutputList(p)[j], Output)
    ensures r[|r| - 2] == Pin(Vdd, Power) && r[|r| - 1] == Pin(Gnd, Ground)
    ensures PinNames(r) == PinNameList(p)
    ensures Distinct(PinNames(r))
  {
    var r := PinList(InputList(p) + [Clk], Input) + PinList(OutputList(p), Output)
             + [Pin(Vdd, Power), Pin(Gnd, Ground)];
    PinNamesAppend(PinList(InputList(p) + [Clk], Input), PinList(OutputList(p), Output));
    PinNamesAppend(PinList(InputList(p) + [Clk], Input) + PinList(OutputList(p), Output),
                   [Pin(Vdd, Power), Pin(Gnd, Ground)]);
    PinListNames(InputList(p) + [Clk], Input);
    PinListNames(OutputList(p), Output);
    assert PinNames([Pin(Vdd, Power), Pin(Gnd, Ground)]) == SupplyList;
    r
  }

  /** A read-write port with 4 rows, 1 word per row and 9-bit words: two
      control inputs and all five enables. */
  lemma ReadWriteScenario(c: Config)
    requires c.numRows == 4 && c.wordsPerRow == 1 && c.wordSize == 9 && c.portType == RW
    ensures InputList(c.portType) == [Csb, Web]
    ensures NumControlSignals(c.portType) == 2
    ensures forall n :: n in [SEn, WEn, PEnBar, WlEn, ClkBuf] ==> n in PinNames(Pins(c.portType))
  {
  }

  /** A read-only port exposes no write-enable input or output. */
  lemma ReadOnlyHasNoWritePins()
    ensures Web !in PinNames(Pins(R))
    ensures WEn !in PinNames(Pins(R))
  {
  }
}
