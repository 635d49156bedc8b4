# LPC17xx I2C register map, modelled in Dafny

The LPC17xx I2C register layer of the CoX peripheral library is a C header,
`xhw_i2c.h`. It describes one I2C peripheral instance as sixteen 32-bit
registers at fixed byte offsets from the instance's base address
(`I2Cn_BASE + offset`). It also names the bit fields of those registers as
masks built from `BIT_32_n` and `BIT_MASK(32, hi, lo)`:

- the control flags of CONSET (AA, SI, STO, STA, I2CEN at bits 2..6);
- the clear bits of CONCLR (the same positions, but none for STO);
- the status field of STAT (bits 7..3);
- the data byte of DAT and DATABUF (bits 7..0);
- the monitor-mode bits of MMCTRL (bits 0..2);
- the general-call bit and 7-bit slave address of ADR0..ADR3 (bit 0 and bits 7..1, shift 1);
- the 7-bit address mask of MASK0..MASK3 (bits 7..1, shift 1);
- the 16-bit SCL duty-cycle counts of SCLH and SCLL.

CONSET and CONCLR form a write-1-to-set / write-1-to-clear pair over one set
of control bits. A 1 written to CONSET sets the bit, a 1 written to CONCLR
clears it, and a 0 written to either leaves the bit alone.

The model has five modules:

- `Bits` (`bits.dfy`) defines the two bit macros and a few facts about the
  bits of a 32-bit word.
- `I2CRegisters` (`i2c_registers.dfy`) holds the offset table. It covers
  addresses in 32-bit unsigned arithmetic and the indexed ADRn / MASKn
  families.
- `I2CFields` (`i2c_fields.dfy`) gives every field mask its header value and
  ties it to the macro spelling. It defines reading and writing each field of
  a register value without disturbing the other bits.
- `I2CControl` (`i2c_control.dfy`) gives the CONSET / CONCLR write semantics.
  This covers the words built from named flags and what a sequence of writes
  does to the control bits.
- `Results` (`results.dfy`) holds the result and option types.

Register values are `bv32`, so every operation is in 32-bit unsigned arithmetic, as
in the C source (`unsigned long` on this target).

Source cells below are paths in the repository, with line numbers.

## Model

| member | source | states |
|---|---|---|
| Bits.Bit | CoX/CoX_Peripheral/CoX_Peripheral_LPC17xx/libcox/xhw_i2c.h:43 | `BIT_32_n` (from the included xhw_types.h) is a word with exactly one bit set, and that bit is bit n |
| Bits.BitMask | CoX/CoX_Peripheral/CoX_Peripheral_LPC17xx/libcox/xhw_i2c.h:43 | `BIT_MASK(32, hi, lo)` (from the included xhw_types.h) has bit lo set and no bit below it |
| I2CRegisters.Offset | CoX/CoX_Peripheral/CoX_Peripheral_LPC17xx/libcox/xhw_i2c.h:93-166 | every register offset is a multiple of 4 and lies in 0x00..0x3C |
| I2CRegisters.RegisterAt | CoX/CoX_Peripheral/CoX_Peripheral_LPC17xx/libcox/xhw_i2c.h:93-166 | an offset names a register exactly when it is 4-aligned and at most 0x3C, and then it is that register's offset: the map has no holes |
| I2CRegisters.OffsetRoundTrip | CoX/CoX_Peripheral/CoX_Peripheral_LPC17xx/libcox/xhw_i2c.h:93-166 | looking up a register's own offset finds that register again |
| I2CRegisters.OffsetInjective | CoX/CoX_Peripheral/CoX_Peripheral_LPC17xx/libcox/xhw_i2c.h:93-166 | the sixteen offsets are pairwise distinct |
| I2CRegisters.Address | CoX/CoX_Peripheral/CoX_Peripheral_LPC17xx/libcox/xhw_i2c.h:84-85 | a register's address is `I2Cn_BASE + offset` (mod 2^32): subtracting the base gives the offset back and decodes to the same register |
| I2CRegisters.AddressInjective | CoX/CoX_Peripheral/CoX_Peripheral_LPC17xx/libcox/xhw_i2c.h:84-85 | within one instance, two registers share an address exactly when they are the same register |
| I2CRegisters.FamilyMember | CoX/CoX_Peripheral/CoX_Peripheral_LPC17xx/libcox/xhw_i2c.h:110-166 | index i of ADRn / MASKn is accepted exactly for 0..3, otherwise `IndexOutOfRange`; MASKi sits at 0x30 + 4i, ADR0 at 0x0C and ADRi (i ≥ 1) at 0x20 + 4(i-1) |
| I2CRegisters.FamilyAddress | CoX/CoX_Peripheral/CoX_Peripheral_LPC17xx/libcox/xhw_i2c.h:84-166 | a family member's address exists exactly for index 0..3 and is the base plus that member's offset |
| I2CRegisters.FamilyMembersDistinct | CoX/CoX_Peripheral/CoX_Peripheral_LPC17xx/libcox/xhw_i2c.h:110-166 | distinct indices of a family name distinct registers |
| I2CRegisters.AdrStrideIsNotUniform | CoX/CoX_Peripheral/CoX_Peripheral_LPC17xx/libcox/xhw_i2c.h:110-131 | ADR1 lies 0x14 bytes above ADR0, not 4: the ADR family has no uniform stride |
| I2CFields.DefinedMasks | CoX/CoX_Peripheral/CoX_Peripheral_LPC17xx/libcox/xhw_i2c.h:184-223 | CONSET_DEFINED (0x7C) is the union of the five CONSET masks and CONCLR_DEFINED (0x6C) the union of the four CONCLR masks |
| I2CFields.ConsetMacros | CoX/CoX_Peripheral/CoX_Peripheral_LPC17xx/libcox/xhw_i2c.h:184-196 | CONSET_AA, _SI, _STO, _STA, _I2CEN are BIT_32_2 .. BIT_32_6 |
| I2CFields.ConclrMacros | CoX/CoX_Peripheral/CoX_Peripheral_LPC17xx/libcox/xhw_i2c.h:214-223 | CONCLR_AAC, _SIC, _STAC, _I2CENC are BIT_32_2, _3, _5, _6 |
| I2CFields.MmctrlMacros | CoX/CoX_Peripheral/CoX_Peripheral_LPC17xx/libcox/xhw_i2c.h:277-283 | MMCTRL_MM_ENA, _ENA_SCL, _MATCH_ALL are BIT_32_0 .. BIT_32_2 |
| I2CFields.FieldMaskMacros | CoX/CoX_Peripheral/CoX_Peripheral_LPC17xx/libcox/xhw_i2c.h:241-382 | STAT, DAT, DATABUF, ADR, MASK, SCLH and SCLL masks are the BIT_MASK runs the header names (0xF8, 0xFF, 0xFF, 0x01 / 0xFE, 0xFE, 0xFFFF, 0xFFFF) |
| I2CFields.ConsetBit | CoX/CoX_Peripheral/CoX_Peripheral_LPC17xx/libcox/xhw_i2c.h:184-196 | each CONSET flag mask is a single bit inside 0x7C |
| I2CFields.ConclrBit | CoX/CoX_Peripheral/CoX_Peripheral_LPC17xx/libcox/xhw_i2c.h:214-223 | each CONCLR mask is a single bit inside 0x6C (no bit 4) |
| I2CFields.Clears | CoX/CoX_Peripheral/CoX_Peripheral_LPC17xx/libcox/xhw_i2c.h:184-223 | every CONCLR bit sits at the position of a CONSET flag, and that flag is never STO |
| I2CFields.ConsetBitsDisjoint | CoX/CoX_Peripheral/CoX_Peripheral_LPC17xx/libcox/xhw_i2c.h:184-196 | two CONSET masks overlap exactly when they are the same flag |
| I2CFields.ConclrBitsDisjoint | CoX/CoX_Peripheral/CoX_Peripheral_LPC17xx/libcox/xhw_i2c.h:214-223 | two CONCLR masks overlap exactly when they are the same bit |
| I2CFields.ConclrMissesStop | CoX/CoX_Peripheral/CoX_Peripheral_LPC17xx/libcox/xhw_i2c.h:184-223 | no CONCLR mask touches CONSET_STO |
| I2CFields.ClearableFlags | CoX/CoX_Peripheral/CoX_Peripheral_LPC17xx/libcox/xhw_i2c.h:184-223 | a CONSET flag has a CONCLR bit clearing it exactly when it is not STO |
| I2CFields.MmctrlBit | CoX/CoX_Peripheral/CoX_Peripheral_LPC17xx/libcox/xhw_i2c.h:277-283 | each MMCTRL mask is a single bit inside 0x07 |
| I2CFields.MmctrlBitsDisjoint | CoX/CoX_Peripheral/CoX_Peripheral_LPC17xx/libcox/xhw_i2c.h:277-283 | the three MMCTRL bits are distinct and together fill bits 2..0 |
| I2CFields.SetFlagBit | CoX/CoX_Peripheral/CoX_Peripheral_LPC17xx/libcox/xhw_i2c.h:319 | setting a one-bit field makes that bit 1 and keeps every other bit |
| I2CFields.ClearFlagBit | CoX/CoX_Peripheral/CoX_Peripheral_LPC17xx/libcox/xhw_i2c.h:319 | clearing a one-bit field makes that bit 0 and keeps every other bit |
| I2CFields.StatusCode | CoX/CoX_Peripheral/CoX_Peripheral_LPC17xx/libcox/xhw_i2c.h:241 | the status shows bits 7..3 of STAT (it agrees with STAT under STAT_STATUS_M) and is a multiple of 8 no larger than 0xF8 |
| I2CFields.StatusIndex | CoX/CoX_Peripheral/CoX_Peripheral_LPC17xx/libcox/xhw_i2c.h:241 | the 5-bit field number is at most 31 and shifted back by 3 gives the status code |
| I2CFields.StatusIgnoresOtherBits | CoX/CoX_Peripheral/CoX_Peripheral_LPC17xx/libcox/xhw_i2c.h:241 | bits of STAT outside 7..3 do not change the status |
| I2CFields.StatusExample | CoX/CoX_Peripheral/CoX_Peripheral_LPC17xx/libcox/xhw_i2c.h:241 | STAT 0xA8 is status 0xA8, field value 21; STAT 0xAF has the same status |
| I2CFields.DataMasksAgree | CoX/CoX_Peripheral/CoX_Peripheral_LPC17xx/libcox/xhw_i2c.h:259-301 | DAT and DATABUF carry the same data-byte field |
| I2CFields.DataByte | CoX/CoX_Peripheral/CoX_Peripheral_LPC17xx/libcox/xhw_i2c.h:259 | the data byte read from DAT / DATABUF is bits 7..0 of the value (it agrees with it under DAT_DATA_M) and is at most 0xFF |
| I2CFields.WithDataByte | CoX/CoX_Peripheral/CoX_Peripheral_LPC17xx/libcox/xhw_i2c.h:259 | writing the data byte keeps bits 31..8 and stores the low byte of the value |
| I2CFields.DataByteRoundTrip | CoX/CoX_Peripheral/CoX_Peripheral_LPC17xx/libcox/xhw_i2c.h:259 | a byte that fits is read back unchanged after it is written |
| I2CFields.DataByteLossless | CoX/CoX_Peripheral/CoX_Peripheral_LPC17xx/libcox/xhw_i2c.h:259 | writing back the byte just read leaves the register value unchanged |
| I2CFields.DataByteLastWriteWins | CoX/CoX_Peripheral/CoX_Peripheral_LPC17xx/libcox/xhw_i2c.h:259 | of two writes of the data byte only the second one counts |
| I2CFields.AdrLayout | CoX/CoX_Peripheral/CoX_Peripheral_LPC17xx/libcox/xhw_i2c.h:319-325 | ADR_GC and ADR_ADDR_M are disjoint, together cover 0xFF, and the address mask is 0x7F shifted by ADR_ADDR_S |
| I2CFields.MaskLayout | CoX/CoX_Peripheral/CoX_Peripheral_LPC17xx/libcox/xhw_i2c.h:319-346 | MASKn's field has the mask and shift of ADRn's address field and misses the general-call bit |
| I2CFields.SlaveAddress | CoX/CoX_Peripheral/CoX_Peripheral_LPC17xx/libcox/xhw_i2c.h:322-325 | the slave address is at most 0x7F and shifted back by ADR_ADDR_S is exactly the bits under ADR_ADDR_M |
| I2CFields.WithSlaveAddress | CoX/CoX_Peripheral/CoX_Peripheral_LPC17xx/libcox/xhw_i2c.h:322-325 | writing the address keeps every bit outside ADR_ADDR_M |
| I2CFields.SlaveAddressKeepsGeneralCall | CoX/CoX_Peripheral/CoX_Peripheral_LPC17xx/libcox/xhw_i2c.h:319-325 | writing the address leaves the general-call setting as it was |
| I2CFields.SlaveAddressTruncates | CoX/CoX_Peripheral/CoX_Peripheral_LPC17xx/libcox/xhw_i2c.h:322-325 | the address read back is the low 7 bits of the value written |
| I2CFields.SlaveAddressRoundTrip | CoX/CoX_Peripheral/CoX_Peripheral_LPC17xx/libcox/xhw_i2c.h:322-325 | a 7-bit address is read back unchanged after it is written |
| I2CFields.SlaveAddressLossless | CoX/CoX_Peripheral/CoX_Peripheral_LPC17xx/libcox/xhw_i2c.h:322-325 | writing back the address just read leaves the register value unchanged |
| I2CFields.GeneralCall | CoX/CoX_Peripheral/CoX_Peripheral_LPC17xx/libcox/xhw_i2c.h:319 | the general call address is enabled when the ADR_GC bit is set; its meaning is stated by SetGeneralCallKeepsAddress, ClearGeneralCallKeepsAddress and SlaveAddressKeepsGeneralCall |
| I2CFields.SetGeneralCallKeepsAddress | CoX/CoX_Peripheral/CoX_Peripheral_LPC17xx/libcox/xhw_i2c.h:319-322 | setting ADR_GC enables general call and keeps the slave address |
| I2CFields.ClearGeneralCallKeepsAddress | CoX/CoX_Peripheral/CoX_Peripheral_LPC17xx/libcox/xhw_i2c.h:319-322 | clearing ADR_GC disables general call and keeps the slave address |
| I2CFields.SclMasksAgree | CoX/CoX_Peripheral/CoX_Peripheral_LPC17xx/libcox/xhw_i2c.h:364-382 | SCLH and SCLL carry the same 16-bit count field |
| I2CFields.SclCount | CoX/CoX_Peripheral/CoX_Peripheral_LPC17xx/libcox/xhw_i2c.h:364 | the SCL count is bits 15..0 of the value (it agrees with it under the count mask) and is at most 0xFFFF |
| I2CFields.WithSclCount | CoX/CoX_Peripheral/CoX_Peripheral_LPC17xx/libcox/xhw_i2c.h:364 | writing the count keeps bits 31..16 and stores the low 16 bits of the value |
| I2CFields.SclCountRoundTrip | CoX/CoX_Peripheral/CoX_Peripheral_LPC17xx/libcox/xhw_i2c.h:364 | a count that fits is read back unchanged after it is written |
| I2CFields.SclCountLossless | CoX/CoX_Peripheral/CoX_Peripheral_LPC17xx/libcox/xhw_i2c.h:364 | writing back the count just read leaves the register value unchanged |
| I2CControl.WriteConset | CoX/CoX_Peripheral/CoX_Peripheral_LPC17xx/libcox/xhw_i2c.h:90-93 | the control bits after a CONSET write; what it does is stated by ConsetSemantics and ConsetKeeps |
| I2CControl.WriteConclr | CoX/CoX_Peripheral/CoX_Peripheral_LPC17xx/libcox/xhw_i2c.h:120-123 | the control bits after a CONCLR write; what it does is stated by ConclrSemantics and ConclrKeeps |
| I2CControl.ConsetSemantics | CoX/CoX_Peripheral/CoX_Peripheral_LPC17xx/libcox/xhw_i2c.h:90-93 | a CONSET write sets every bit written 1 and leaves every bit written 0 as it was |
| I2CControl.ConclrSemantics | CoX/CoX_Peripheral/CoX_Peripheral_LPC17xx/libcox/xhw_i2c.h:120-123 | a CONCLR write clears every bit written 1 and leaves every bit written 0 as it was |
| I2CControl.ConsetIdempotent | CoX/CoX_Peripheral/CoX_Peripheral_LPC17xx/libcox/xhw_i2c.h:90-93 | writing the same word to CONSET twice has the effect of writing it once |
| I2CControl.ConclrIdempotent | CoX/CoX_Peripheral/CoX_Peripheral_LPC17xx/libcox/xhw_i2c.h:120-123 | writing the same word to CONCLR twice has the effect of writing it once |
| I2CControl.ClearAfterSet | CoX/CoX_Peripheral/CoX_Peripheral_LPC17xx/libcox/xhw_i2c.h:90-123 | a CONCLR of the bits just set through CONSET leaves them 0 and undoes nothing else |
| I2CControl.SetAfterClear | CoX/CoX_Peripheral/CoX_Peripheral_LPC17xx/libcox/xhw_i2c.h:90-123 | a CONSET of the bits just cleared through CONCLR leaves them 1 and undoes nothing else |
| I2CControl.IsSet | CoX/CoX_Peripheral/CoX_Peripheral_LPC17xx/libcox/xhw_i2c.h:184-196 | a control flag is set when its CONSET mask meets the control bits; SetWord, SetFlags and ClearFlags state it flag by flag |
| I2CControl.SetWord | CoX/CoX_Peripheral/CoX_Peripheral_LPC17xx/libcox/xhw_i2c.h:184-196 | the OR of a list of CONSET masks has no bit outside 0x7C and has a flag's bit exactly when the flag is in the list |
| I2CControl.ClearWord | CoX/CoX_Peripheral/CoX_Peripheral_LPC17xx/libcox/xhw_i2c.h:214-223 | the OR of a list of CONCLR masks has no bit outside 0x6C, never the STO bit, and has a clear bit exactly when it is in the list |
| I2CControl.SetFlags | CoX/CoX_Peripheral/CoX_Peripheral_LPC17xx/libcox/xhw_i2c.h:90-196 | after writing a flag list to CONSET, a flag is set exactly when it was set before or is in the list |
| I2CControl.ClearFlags | CoX/CoX_Peripheral/CoX_Peripheral_LPC17xx/libcox/xhw_i2c.h:120-223 | after writing a clear-bit list to CONCLR, the flag of a clear bit is set exactly when it was set before and the bit is not in the list |
| I2CControl.StopSurvivesClear | CoX/CoX_Peripheral/CoX_Peripheral_LPC17xx/libcox/xhw_i2c.h:214-223 | no CONCLR write built from the header's clear bits changes STO |
| I2CControl.ConsetKeeps | CoX/CoX_Peripheral/CoX_Peripheral_LPC17xx/libcox/xhw_i2c.h:90-93 | a CONSET write leaves alone every bit the word does not touch |
| I2CControl.ConclrKeeps | CoX/CoX_Peripheral/CoX_Peripheral_LPC17xx/libcox/xhw_i2c.h:120-123 | a CONCLR write leaves alone every bit the word does not touch |
| I2CControl.Step | CoX/CoX_Peripheral/CoX_Peripheral_LPC17xx/libcox/xhw_i2c.h:90-123 | one write to CONSET or CONCLR; StepKeeps and StepDecides state its effect |
| I2CControl.StepKeeps | CoX/CoX_Peripheral/CoX_Peripheral_LPC17xx/libcox/xhw_i2c.h:90-123 | either kind of write leaves alone the bits it writes as 0 |
| I2CControl.StepDecides | CoX/CoX_Peripheral/CoX_Peripheral_LPC17xx/libcox/xhw_i2c.h:90-123 | a single bit written 1 ends up set after a CONSET write and clear after a CONCLR write |
| I2CControl.Apply | CoX/CoX_Peripheral/CoX_Peripheral_LPC17xx/libcox/xhw_i2c.h:90-123 | a sequence of writes applied first to last; ApplyAppend, UntouchedBitsKept and LastWriteWins state its effect |
| I2CControl.ApplyAppend | CoX/CoX_Peripheral/CoX_Peripheral_LPC17xx/libcox/xhw_i2c.h:90-123 | applying two sequences of writes one after the other is applying their concatenation |
| I2CControl.UntouchedBitsKept | CoX/CoX_Peripheral/CoX_Peripheral_LPC17xx/libcox/xhw_i2c.h:90-123 | over any sequence of CONSET / CONCLR writes, bits that no write touches keep their value |
| I2CControl.LastWriteWins | CoX/CoX_Peripheral/CoX_Peripheral_LPC17xx/libcox/xhw_i2c.h:90-123 | a control flag ends up set exactly when the last write touching it went to CONSET |

## Left out

- Hardware access through `xHWREG()` (line 75) is not modelled. There are no volatile reads or writes, and no side effects of a read. Register values are plain `bv32` arguments and results.
- The included headers (lines 43-50) are not part of this model. `BIT_32_n` and `BIT_MASK(32, hi, lo)` come from xhw_types.h, so the model defines them as `1 << n` and `((1 << (hi - lo + 1)) - 1) << lo`. This is an assumption. The `I2Cn_BASE` addresses come from xhw_memmap.h and are left as a parameter.
- The meaning of each status code is not modelled. This covers the bus state machine behind the STAT values and which status leads to which action. Only the masked code and its 5-bit number are.
- Slave address matching is not modelled: how ADRn, MASKn, general call and MMCTRL_MATCH_ALL combine to decide a match.
- The automatic transfer of the received byte from DAT to DATABUF is not modelled. Only the shared byte layout of the two registers is.
- The SCL clock frequency that SCLH and SCLL produce is not modelled. Only their 16-bit count field is.
- Hardware that sets or clears control bits by itself is not modelled; for example, the interface sets SI and clears STO on its own. `I2CControl` models software writes only. Simultaneous writes are not modelled either.
- Writing 1 to bit 4 or to an undefined bit of CONCLR is not modelled specially. `WriteConclr` clears whatever the word names. The words built from the header's masks (`ClearWord`) never hold bit 4.
- An unknown register name is unrepresentable, because `Register` is a closed datatype. So there is no invalid-register error.
- `WithDataByte`, `WithSlaveAddress`, `WithSclCount`: a value wider than its field is cut down by the field's mask, as `(value << shift) & mask` with the header's masks does. The header defines no setter and no range check, so the `With*` functions truncate and there is no value-out-of-range error.
- The ADR family has no uniform stride: ADR0 is at 0x0C and ADR1 at 0x20, so the indexed family is a table (`FamilyMember`, `AdrStrideIsNotUniform`), not base plus 4 times the index.
- `BitMask`: its contract pins only the low end of the run (bit lo set, nothing below). The high end is pinned for every mask the header uses by `FieldMaskMacros`, not for arbitrary hi and lo, because the general statement with symbolic shift amounts is beyond the solver's budget.
- `BitMask` with a run of all 32 bits is excluded by its precondition. In C that would shift by 32, which is undefined. The header never asks for it.
