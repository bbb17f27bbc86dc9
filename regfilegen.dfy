/**
  The address-space planner of the AXI memory-mapped register-file
  generator.  Given the registers of one file and the register bit width it
  derives the parameters handed to the VHDL template: the byte width of a
  register and its log2, the number of address bits needed for the highest
  register index, the register count padded to a power of two, the AXI
  address width and the label column width.

  `Plan` is the computation on inputs that get through every check;
  `Regfilegen` is the whole entry point, which fails where the generator
  script fails, in the same order (leaving aside float rounding of
  `log2` and an assertion removed by `python -O`, which it does not model).
 */
module RegisterFile {
  import opened Pow2Math

  /** One register of a register file.  Every field is kept as given; the
      reset value defaults to 0.  Nothing is checked: not the sign of the
      address, not the label, not that the reset value fits the width. */
  datatype Register = Register(address: int, name: string, mode: string, initval: int := 0)

  /** The parameters the template is rendered with. */
  datatype Descriptor = Descriptor(
    moduleName: string,
    registers: seq<Register>,
    justWidth: nat,
    numRegisters: nat,
    axiAddrWidth: nat,
    registerWidth: int,
    registerByteWidth: nat,
    log2RegisterByteWidth: nat)

  /** Where and why a generation request fails. */
  datatype PlanError =
    | WidthNotPositive(width: int)          // log2 of a width <= 0 is a domain error
    | WidthNotPowerOfTwo(width: int)        // the power-of-two assertion fails
    | ByteWidthZero(width: int)             // width // 8 == 0, and log2(0) is a domain error
    | NoRegisters                           // max() over no registers
    | AddressSpaceUndefined(maxAddress: int) // log2(max address + 1) with max address + 1 <= 0

  datatype Result<T> = Ok(value: T) | Err(error: PlanError)

  /** The default register width of the generator. */
  const DefaultRegisterWidth: int := 32

  /** The highest register address (Python's max over the addresses). */
  function MaxAddress(regs: seq<Register>): (m: int)
    requires |regs| > 0
    ensures forall i :: 0 <= i < |regs| ==> regs[i].address <= m
    ensures exists i :: 0 <= i < |regs| && regs[i].address == m
  {
    if |regs| == 1 then regs[0].address
    else
      var rest := MaxAddress(regs[1..]);
      assert forall i :: 1 <= i < |regs| ==> regs[i] == regs[1..][i - 1];
      if regs[0].address >= rest then regs[0].address else rest
  }

  /** The length of the longest label (Python's max over the label lengths). */
  function MaxLabelLength(regs: seq<Register>): (w: nat)
    requires |regs| > 0
    ensures forall i :: 0 <= i < |regs| ==> |regs[i].name| <= w
    ensures exists i :: 0 <= i < |regs| && |regs[i].name| == w
  {
    if |regs| == 1 then |regs[0].name|
    else
      var rest := MaxLabelLength(regs[1..]);
      assert forall i :: 1 <= i < |regs| ==> regs[i] == regs[1..][i - 1];
      if |regs[0].name| >= rest then |regs[0].name| else rest
  }

  /** The addresses that occur in a register list. */
  function Addresses(regs: seq<Register>): set<int> {
    set r | r in regs :: r.address
  }

  /** The label lengths that occur in a register list. */
  function LabelLengths(regs: seq<Register>): set<nat> {
    set r | r in regs :: |r.name|
  }

  /** The register bit widths the planner can work with: a power of two
      whose byte width is not 0. */
  predicate ValidWidth(width: int) {
    IsPowerOfTwo(width) && width >= 8
  }

  /** The inputs on which every check of the generator passes. */
  predicate Plannable(regs: seq<Register>, width: int) {
    |regs| > 0 && ValidWidth(width) && MaxAddress(regs) >= 0
  }

  /** ceil_log2_num_regs: the bits needed to index every register.  2^k is
      above every address, and (unless k is 0) 2^(k-1) is not. */
  function AddrBits(regs: seq<Register>): (k: nat)
    requires |regs| > 0 && MaxAddress(regs) >= 0
    ensures forall i :: 0 <= i < |regs| ==> regs[i].address < Pow2(k)
    ensures k == 0 || exists i :: 0 <= i < |regs| && Pow2(k - 1) <= regs[i].address
  {
    CeilLog2(MaxAddress(regs) + 1)
  }

  /** The parameters derived for inputs that pass every check. */
  function Plan(regs: seq<Register>, moduleName: string, width: int): (d: Descriptor)
    requires Plannable(regs, width)
    // the pass-through values, the register list unchanged and in order
    ensures d.moduleName == moduleName && d.registers == regs && d.registerWidth == width
    // byte width and its exact log2
    ensures d.registerByteWidth == width / 8 && d.registerByteWidth * 8 == width
    ensures Pow2(d.log2RegisterByteWidth) == d.registerByteWidth
    // the padded register count: a power of two above every address, and minimal
    ensures IsPowerOfTwo(d.numRegisters)
    ensures forall i :: 0 <= i < |regs| ==> regs[i].address < d.numRegisters
    ensures d.numRegisters < 2 * (MaxAddress(regs) + 1)
    // the byte address space is exactly the padded register array
    ensures Pow2(d.axiAddrWidth) == d.numRegisters * d.registerByteWidth
    ensures d.axiAddrWidth == Log2Exact(d.numRegisters) + d.log2RegisterByteWidth
    // the label column is as wide as the longest label
    ensures forall i :: 0 <= i < |regs| ==> |regs[i].name| <= d.justWidth
    ensures exists i :: 0 <= i < |regs| && |regs[i].name| == d.justWidth
  {
    EighthOfPowerOfTwo(width);
    var byteWidth := width / 8;
    var log2ByteWidth := Log2Exact(byteWidth);
    var addrBits := AddrBits(regs);
    Pow2Add(addrBits, log2ByteWidth);
    Pow2IsPowerOfTwo(addrBits);
    var numRegs := Pow2(addrBits);
    Pow2Injective(Log2Exact(numRegs), addrBits);
    Descriptor(
      moduleName, regs, MaxLabelLength(regs), numRegs,
      addrBits + log2ByteWidth, width, byteWidth, log2ByteWidth)
  }

  /** The generator's computation, failing where the generator script fails: the
      width is checked first (its log2, then the power-of-two test, then the
      log2 of its byte width), then the registers (max over none, then the
      log2 of the highest address plus one). */
  function Regfilegen(regs: seq<Register>, moduleName: string, width: int := DefaultRegisterWidth): (r: Result<Descriptor>)
    ensures r.Ok? <==> Plannable(regs, width)
    ensures r.Ok? ==> r.value == Plan(regs, moduleName, width)
    ensures r.Err? ==> (r.error.WidthNotPositive? <==> width <= 0)
    ensures r.Err? ==> (r.error.WidthNotPowerOfTwo? <==> width > 0 && !IsPowerOfTwo(width))
    ensures r.Err? ==> (r.error.ByteWidthZero? <==> IsPowerOfTwo(width) && width < 8)
    ensures r.Err? ==> (r.error.NoRegisters? <==> ValidWidth(width) && |regs| == 0)
    ensures r.Err? ==> (r.error.AddressSpaceUndefined? <==>
                          ValidWidth(width) && |regs| > 0 && MaxAddress(regs) < 0)
  {
    if width <= 0 then Err(WidthNotPositive(width))
    else if !IsPowerOfTwo(width) then Err(WidthNotPowerOfTwo(width))
    else if width / 8 == 0 then Err(ByteWidthZero(width))
    else if |regs| == 0 then Err(NoRegisters)
    else if MaxAddress(regs) + 1 <= 0 then Err(AddressSpaceUndefined(MaxAddress(regs)))
    else Ok(Plan(regs, moduleName, width))
  }

  /** A register built without a reset value resets to 0. */
  lemma RegisterDefaultInitval(address: int, name: string, mode: string)
    ensures Register(address, name, mode).initval == 0
    ensures Register(address, name, mode) == Register(address, name, mode, 0)
  {
  }

  /** Every register's byte range [addr * bytes, (addr + 1) * bytes) lies in
      the AXI address space 2^axiAddrWidth. */
  lemma {:induction false} PlanCoversByteAddresses(regs: seq<Register>, moduleName: string, width: int, i: int)
    requires Plannable(regs, width) && 0 <= i < |regs| && regs[i].address >= 0
    ensures 0 <= regs[i].address * Plan(regs, moduleName, width).registerByteWidth
    ensures (regs[i].address + 1) * Plan(regs, moduleName, width).registerByteWidth
            <= Pow2(Plan(regs, moduleName, width).axiAddrWidth)
  {
    var d := Plan(regs, moduleName, width);
    var a := regs[i].address;
    var n, b := d.numRegisters, d.registerByteWidth;
    assert a + 1 <= n;
    MulMonotone(0, a, b);
    MulMonotone(a + 1, n, b);
  }

  /** The padded register count is the least power of two above every
      address. */
  lemma {:induction false} NumRegistersLeast(regs: seq<Register>, moduleName: string, width: int, j: nat)
    requires Plannable(regs, width)
    requires forall i :: 0 <= i < |regs| ==> regs[i].address < Pow2(j)
    ensures Plan(regs, moduleName, width).numRegisters <= Pow2(j)
  {
    var m := MaxAddress(regs);
    CeilLog2Least(m + 1, j);
    Pow2Monotone(AddrBits(regs), j);
  }

  /** ceil_log2_num_regs is 0, and a single register slot is generated,
      exactly when the highest address is 0. */
  lemma AddrBitsZeroIff(regs: seq<Register>, moduleName: string, width: int)
    requires Plannable(regs, width)
    ensures AddrBits(regs) == 0 <==> MaxAddress(regs) == 0
    ensures Plan(regs, moduleName, width).numRegisters == 1 <==> MaxAddress(regs) == 0
  {
    CeilLog2ZeroIff(MaxAddress(regs) + 1);
    var k := AddrBits(regs);
    if Pow2(k) == 1 {
      Pow2Injective(k, 0);
    }
  }

  /** The AXI address width is the least number of bits that addresses every
      byte of every register. */
  lemma {:induction false} AxiAddrWidthLeast(regs: seq<Register>, moduleName: string, width: int, j: nat)
    requires Plannable(regs, width)
    requires (MaxAddress(regs) + 1) * (width / 8) <= Pow2(j)
    ensures Plan(regs, moduleName, width).axiAddrWidth <= j
  {
    var n := MaxAddress(regs) + 1;
    var b := Plan(regs, moduleName, width).log2RegisterByteWidth;
    assert Plan(regs, moduleName, width).axiAddrWidth == AddrBits(regs) + b;
    assert n * Pow2(b) <= Pow2(j) by {
      assert width / 8 == Pow2(b);
    }
    CeilLog2ScaledLeast(n, b, j);
  }

  /** The derived numbers depend only on the set of addresses and the set
      of label lengths: not on the order of the registers, their modes,
      their reset values, or how often an address or label occurs. */
  lemma {:induction false} PlanGeometryDependsOnlyOnAddressesAndLabels(
    regs1: seq<Register>, regs2: seq<Register>, moduleName: string, width: int)
    requires Plannable(regs1, width) && |regs2| > 0
    requires Addresses(regs1) == Addresses(regs2)
    requires LabelLengths(regs1) == LabelLengths(regs2)
    ensures Plannable(regs2, width)
    ensures var d1, d2 := Plan(regs1, moduleName, width), Plan(regs2, moduleName, width);
            d1.numRegisters == d2.numRegisters && d1.axiAddrWidth == d2.axiAddrWidth &&
            d1.justWidth == d2.justWidth && d1.registerByteWidth == d2.registerByteWidth &&
            d1.log2RegisterByteWidth == d2.log2RegisterByteWidth
  {
    SameAddressesSameMax(regs1, regs2);
    SameAddressesSameMax(regs2, regs1);
    SameLabelsSameMax(regs1, regs2);
    SameLabelsSameMax(regs2, regs1);
  }

  lemma SameAddressesSameMax(regs1: seq<Register>, regs2: seq<Register>)
    requires |regs1| > 0 && |regs2| > 0
    requires Addresses(regs1) == Addresses(regs2)
    ensures MaxAddress(regs1) <= MaxAddress(regs2)
  {
    var i :| 0 <= i < |regs1| && regs1[i].address == MaxAddress(regs1);
    var a := regs1[i].address;
    assert regs1[i] in regs1;
    assert a in Addresses(regs1);
    assert a in Addresses(regs2);
    var r :| r in regs2 && r.address == a;
  }

  lemma SameLabelsSameMax(regs1: seq<Register>, regs2: seq<Register>)
    requires |regs1| > 0 && |regs2| > 0
    requires LabelLengths(regs1) == LabelLengths(regs2)
    ensures MaxLabelLength(regs1) <= MaxLabelLength(regs2)
  {
    var i :| 0 <= i < |regs1| && |regs1[i].name| == MaxLabelLength(regs1);
    var w := |regs1[i].name|;
    assert regs1[i] in regs1;
    assert w in LabelLengths(regs1);
    assert w in LabelLengths(regs2);
    var r :| r in regs2 && |r.name| == w;
  }

  /** Duplicate addresses and labels are accepted: appending a copy of a
      register (same address, same label) leaves every derived number as
      it was. */
  lemma DuplicateRegisterAccepted(regs: seq<Register>, moduleName: string, width: int, i: int, mode: string, initval: int)
    requires Plannable(regs, width) && 0 <= i < |regs|
    ensures var dup := regs + [Register(regs[i].address, regs[i].name, mode, initval)];
            Regfilegen(dup, moduleName, width).Ok? &&
            Plan(dup, moduleName, width).numRegisters == Plan(regs, moduleName, width).numRegisters &&
            Plan(dup, moduleName, width).axiAddrWidth == Plan(regs, moduleName, width).axiAddrWidth &&
            Plan(dup, moduleName, width).justWidth == Plan(regs, moduleName, width).justWidth
  {
    var dup := regs + [Register(regs[i].address, regs[i].name, mode, initval)];
    assert forall r :: r in dup <==> r in regs || r == dup[|regs|];
    assert Addresses(regs) == Addresses(dup);
    assert LabelLengths(regs) == LabelLengths(dup);
    PlanGeometryDependsOnlyOnAddressesAndLabels(regs, dup, moduleName, width);
  }

  /** With the default width of 32 bits a register is 4 bytes wide, so the
      AXI address has two more bits than the register index. */
  lemma DefaultWidthPlan(regs: seq<Register>, moduleName: string)
    requires |regs| > 0 && MaxAddress(regs) >= 0
    ensures Regfilegen(regs, moduleName).Ok?
    ensures var d := Regfilegen(regs, moduleName).value;
            d.registerWidth == 32 && d.registerByteWidth == 4 &&
            d.log2RegisterByteWidth == 2 && d.axiAddrWidth == AddrBits(regs) + 2
  {
    assert Pow2(5) == 32;
    Pow2IsPowerOfTwo(5);
    var d := Plan(regs, moduleName, 32);
    assert Pow2(2) == 4;
    Pow2Injective(d.log2RegisterByteWidth, 2);
  }
}
