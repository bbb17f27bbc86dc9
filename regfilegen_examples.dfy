/**
  Concrete generation requests: the demo register file of the generator
  and the boundary cases of its address-space derivation.
 */
module RegisterFileExamples {
  import opened Pow2Math
  import opened RegisterFile

  /** The demo register file: a status, a trigger and a control register. */
  function DemoRegisters(): seq<Register> {
    [Register(0, "status", "stat"), Register(1, "start", "trig"), Register(2, "ctrl1", "ctrl")]
  }

  /** Addresses {0, 1, 2} at 32 bits: 4 register slots of 4 bytes, a 4-bit
      AXI address, and a label column 6 wide (from "status"). */
  lemma DemoPlan()
    ensures Regfilegen(DemoRegisters(), "regfile", 32)
            == Ok(Descriptor("regfile", DemoRegisters(), 6, 4, 4, 32, 4, 2))
  {
    var regs := DemoRegisters();
    assert MaxAddress(regs) == 2;
    assert MaxLabelLength(regs) == 6;
    assert CeilLog2(3) == 2 by {
      assert CeilLog2(2) == 1;
    }
    assert Pow2(5) == 32;
    Pow2IsPowerOfTwo(5);
    assert Log2Exact(4) == 2 by {
      assert Log2Exact(2) == 1;
    }
  }

  /** Addresses {0, 1, 2} at 16 bits: 2 address bits, 4 slots of 2 bytes,
      a 3-bit AXI address. */
  lemma Width16Plan()
    ensures var d := Regfilegen(DemoRegisters(), "regfile", 16);
            d.Ok? && AddrBits(DemoRegisters()) == 2 && d.value.numRegisters == 4 &&
            d.value.registerByteWidth == 2 && d.value.axiAddrWidth == 3
  {
    var regs := DemoRegisters();
    assert MaxAddress(regs) == 2;
    assert CeilLog2(3) == 2 by {
      assert CeilLog2(2) == 1;
    }
    assert Pow2(4) == 16;
    Pow2IsPowerOfTwo(4);
    assert Log2Exact(2) == 1;
  }

  /** A single register at address 0 gives 0 address bits and one slot. */
  lemma SingleRegisterAtZero(name: string, mode: string)
    ensures var d := Regfilegen([Register(0, name, mode)], "regfile");
            d.Ok? && AddrBits([Register(0, name, mode)]) == 0 && d.value.numRegisters == 1
  {
    assert Pow2(5) == 32;
    Pow2IsPowerOfTwo(5);
  }

  /** Two registers at address 5 are accepted (no duplicate check): 3 address
      bits, 8 slots. */
  lemma DuplicateAddressesAccepted()
    ensures var regs := [Register(5, "a", "ctrl"), Register(5, "b", "ctrl")];
            var d := Regfilegen(regs, "regfile");
            d.Ok? && d.value.numRegisters == 8
  {
    var regs := [Register(5, "a", "ctrl"), Register(5, "b", "ctrl")];
    assert MaxAddress(regs) == 5;
    assert CeilLog2(6) == 3 by {
      assert CeilLog2(3) == 2 by {
        assert CeilLog2(2) == 1;
      }
    }
    assert Pow2(5) == 32;
    Pow2IsPowerOfTwo(5);
  }

  /** A width of 24 bits fails the power-of-two test. */
  lemma Width24Rejected()
    ensures Regfilegen(DemoRegisters(), "regfile", 24) == Err(WidthNotPowerOfTwo(24))
  {
    assert !IsPowerOfTwo(3);
    assert !IsPowerOfTwo(24) by {
      assert !IsPowerOfTwo(6);
      assert !IsPowerOfTwo(12);
    }
  }

  /** A width of 4 bits is a power of two but has no whole byte. */
  lemma Width4Rejected()
    ensures Regfilegen(DemoRegisters(), "regfile", 4) == Err(ByteWidthZero(4))
  {
    assert IsPowerOfTwo(4) by {
      assert IsPowerOfTwo(2);
    }
  }

  /** No registers: the max over addresses fails. */
  lemma EmptyRegistersRejected()
    ensures Regfilegen([], "regfile") == Err(NoRegisters)
  {
    assert Pow2(5) == 32;
    Pow2IsPowerOfTwo(5);
  }

  /** The width is checked before the registers: an empty list with a bad
      width reports the width. */
  lemma WidthCheckedFirst()
    ensures Regfilegen([], "regfile", 0) == Err(WidthNotPositive(0))
    ensures Regfilegen([], "regfile", 24) == Err(WidthNotPowerOfTwo(24))
  {
    assert !IsPowerOfTwo(24) by {
      assert !IsPowerOfTwo(3);
      assert !IsPowerOfTwo(6);
      assert !IsPowerOfTwo(12);
    }
  }
}
