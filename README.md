# AXI register-file generator: address-space planner

This project models the computational core of `regfilegen`, a script that
generates a VHDL AXI memory-mapped register file from a list of registers.
A register has an address (a register index), a label, an access mode and a
reset value. From the registers and the register bit width, the generator
derives the parameters it renders the template with:

- the register byte width, `register_width // 8`, and its log2;
- `ceil_log2_num_regs`: the bits needed to index the highest register address;
- `num_regs`: the register count padded up to a power of two;
- `axi_addr_width`: the index bits plus the byte-offset bits;
- `just_width`: the length of the longest label, used to align columns.

The generator fails on a width that is not a positive power of two. It also
fails on widths 1, 2 and 4, whose byte width is 0. It fails on an empty
register list, and on one whose highest address is negative.

Files:

- `pow2_math.dfy` (module `Pow2Math`): exact integer versions of the
  floating-point `log2` and `ceil` the script uses. `Pow2`, the
  power-of-two test `IsPowerOfTwo`, `Log2Exact` and `CeilLog2`, with the
  facts about them the planner needs.
- `regfilegen.dfy` (module `RegisterFile`): the `Register` record, the
  `Descriptor` of template parameters, `Plan` (the derivation on inputs that
  pass every check) and `Regfilegen` (the entry point). `Regfilegen` returns
  `Ok(descriptor)` or `Err(reason)`, checking things in the same order as the
  script. It also holds the lemmas about the derived values.
- `regfilegen_examples.dfy` (module `RegisterFileExamples`): the script's
  demo register file and boundary cases, as lemmas about concrete inputs.

Naming: `label` is a reserved word in Dafny, so the register's label field
is called `name`. The script's `addr` attribute is the field `address`.
`Register(address, name, mode)` leaves out the reset value, which then
defaults to 0, just as the Python constructor does.

What the code checks, and so what the model checks:

- The code checks no register field: not the sign of an address, not an
  empty label, not whether a reset value fits the width.
- The code has no duplicate-address or duplicate-label check. The model
  accepts duplicates. `DuplicateRegisterAccepted` and
  `DuplicateAddressesAccepted` state that the plan is still well defined.
- A bad width fails in one of three places, and the model has one error
  for each:
  - `WidthNotPositive`: `log2` of a width <= 0 is a domain error.
  - `WidthNotPowerOfTwo`: the power-of-two assertion fails.
  - `ByteWidthZero`: a power-of-two width below 8 fails at `log2(0)`.
- An empty register list fails at `max()` (`NoRegisters`), and only after
  the width checks have passed.
- Because addresses are not checked, the code can also fail at
  `log2(max + 1)` with max + 1 <= 0. That is `AddressSpaceUndefined`.

## Model

| member | source | states |
|---|---|---|
| `Pow2Math.Log2Exact` | regfilegen.py:22 | On a power of two n, returns the k with 2^k == n (log2 is exact there) |
| `Pow2Math.CeilLog2` | regfilegen.py:24 | For n >= 1, returns k with 2^k >= n and, when k > 0, 2^(k-1) < n |
| `Pow2Math.CeilLog2Least` | regfilegen.py:24 | CeilLog2(n) is at most every j with 2^j >= n, so it is the least such exponent |
| `Pow2Math.CeilLog2OfPowerOfTwo` | regfilegen.py:22-24 | On a power of two, ceil(log2) equals the exact log2 |
| `Pow2Math.CeilLog2Scale` | regfilegen.py:24-25 | ceil(log2(n * 2^b)) == ceil(log2(n)) + b, the step from register bits to byte-address bits |
| `Pow2Math.PowerOfTwoIff` | regfilegen.py:20 | The power-of-two test holds exactly for the values 2^k, in both directions |
| `Pow2Math.Pow2Injective` | regfilegen.py:22 | 2^a == 2^b only when a == b, so the exact log2 is unique |
| `Pow2Math.EighthOfPowerOfTwo` | regfilegen.py:21-22 | A power-of-two width >= 8 is exactly 8 times a power of two, so `width // 8` loses nothing and has an exact log2 |
| `RegisterFile.RegisterDefaultInitval` | regfilegen.py:11-16 | A register built without a reset value gets reset value 0, and every other field is kept as given |
| `RegisterFile.MaxAddress` | regfilegen.py:24 | The result is at least every register's address and equals the address of some register |
| `RegisterFile.MaxLabelLength` | regfilegen.py:28 | The result is at least every label's length and equals the length of some register's label |
| `RegisterFile.AddrBits` | regfilegen.py:24 | ceil_log2_num_regs: 2^k is above every address, and when k > 0 some address is at least 2^(k-1) (minimal) |
| `RegisterFile.Plan` | regfilegen.py:21-28 | Module name, width and register list are passed through unchanged and in order. Byte width * 8 == width, and 2^log2 byte width == byte width. num_regs is a power of two, above every address, and below 2 * (max address + 1). 2^axi_addr_width == num_regs * byte width, and axi_addr_width == log2(num_regs) + log2(byte width). just_width bounds every label length and is attained by some label |
| `RegisterFile.Regfilegen` | regfilegen.py:19-28 | Succeeds iff the width is a power of two >= 8, the list is non-empty and the highest address is >= 0. The result is then `Plan`. Each error kind occurs exactly under its own condition, and width errors take precedence over register errors |
| `RegisterFile.PlanCoversByteAddresses` | regfilegen.py:21-26 | The byte range of every register with a non-negative address lies inside the AXI address space 2^axi_addr_width |
| `RegisterFile.NumRegistersLeast` | regfilegen.py:24-26 | num_regs is at most every power of two that exceeds all addresses, so it is the least such power |
| `RegisterFile.AddrBitsZeroIff` | regfilegen.py:24-26 | ceil_log2_num_regs is 0, and num_regs is 1, exactly when the highest address is 0 |
| `RegisterFile.AxiAddrWidthLeast` | regfilegen.py:21-25 | axi_addr_width is at most every j with (max address + 1) * byte width <= 2^j, so it is the fewest bits that address every byte of every register |
| `RegisterFile.PlanGeometryDependsOnlyOnAddressesAndLabels` | regfilegen.py:24-28 | Two register lists with the same set of addresses and the same set of label lengths get the same derived numbers. Order, modes, reset values and repetitions do not matter |
| `RegisterFile.DuplicateRegisterAccepted` | regfilegen.py:24-28 | Appending a register that repeats an existing address and label still succeeds and leaves num_regs, axi_addr_width and just_width unchanged |
| `RegisterFile.DefaultWidthPlan` | regfilegen.py:19-22 | With the default width of 32 bits the call succeeds with byte width 4, log2 byte width 2 and axi_addr_width == ceil_log2_num_regs + 2 |
| `RegisterFileExamples.DemoPlan` | regfilegen.py:47-54 | The demo registers at 32 bits give just_width 6, num_regs 4, axi_addr_width 4, byte width 4 and log2 byte width 2 |
| `RegisterFileExamples.Width16Plan` | regfilegen.py:21-26 | Addresses {0, 1, 2} at 16 bits give 2 address bits, 4 slots, byte width 2 and axi_addr_width 3 |
| `RegisterFileExamples.SingleRegisterAtZero` | regfilegen.py:24-26 | A single register at address 0 gives 0 address bits and one slot |
| `RegisterFileExamples.DuplicateAddressesAccepted` | regfilegen.py:24-26 | Two registers at address 5 are accepted and give 8 slots |
| `RegisterFileExamples.Width24Rejected` | regfilegen.py:20 | A width of 24 fails the power-of-two test |
| `RegisterFileExamples.Width4Rejected` | regfilegen.py:21-22 | A width of 4 passes the power-of-two test but fails because its byte width is 0 |
| `RegisterFileExamples.EmptyRegistersRejected` | regfilegen.py:24 | An empty register list fails at the max over addresses |
| `RegisterFileExamples.WidthCheckedFirst` | regfilegen.py:20-24 | With an empty list and a bad width, the width error is reported |

## Left out

- Template loading and rendering through jinja2 (regfilegen.py:30-31, 35-44) is a call into a foreign library. The model stops at the `Descriptor` of values the template is rendered with.
- Opening and writing the output file (regfilegen.py:33-34) is I/O. For that reason the `filename` parameter is not modelled.
- The `__main__` demo (regfilegen.py:47-54) appears only as the lemma `DemoPlan`.
- Floating-point `log2` and `ceil` are replaced by exact integer functions. The model therefore accepts exactly the powers of two. It does not capture float rounding for very large values. Such rounding could let a huge non-power-of-two width pass the assertion, or make `ceil(log2(max + 1))` one too small when max + 1 is just above a power of two, from about 2^49 on, because `log2` rounds to that power's exponent.
- The assertion at regfilegen.py:20 disappears when Python runs with `-O`. The model always performs the check.
- Non-integer arguments (a float width or address) are not modelled. Widths, addresses and reset values are mathematical integers.
- `mode` is an opaque string, passed through and never interpreted. `initval` is passed through unchecked.
- RegisterFile.PlanCoversByteAddresses: covers only registers with a non-negative address. The code accepts negative addresses below the maximum, and they have no byte range in the address space.
