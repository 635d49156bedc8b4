/** The register offset map of one LPC17xx I2C peripheral instance: sixteen
    32-bit registers at fixed byte offsets from the instance's base address. */
module I2CRegisters {
  import opened Results

  datatype Register =
    | CONSET | STAT | DAT | ADR0 | SCLH | SCLL | CONCLR | MMCTRL
    | ADR1 | ADR2 | ADR3 | DATABUF | MASK0 | MASK1 | MASK2 | MASK3

  /** Byte offset of a register from the instance base (the I2C_* constants). */
  function Offset(r: Register): (o: bv32)
    ensures o % 4 == 0 && o <= 0x3C
  {
    match r
    case CONSET  => 0x00
    case STAT    => 0x04
    case DAT     => 0x08
    case ADR0    => 0x0C
    case SCLH    => 0x10
    case SCLL    => 0x14
    case CONCLR  => 0x18
    case MMCTRL  => 0x1C
    case ADR1    => 0x20
    case ADR2    => 0x24
    case ADR3    => 0x28
    case DATABUF => 0x2C
    case MASK0   => 0x30
    case MASK1   => 0x34
    case MASK2   => 0x38
    case MASK3   => 0x3C
  }

  /** The register that sits at byte offset `o`, if any. Every aligned offset
      of the 64-byte window holds a register, so the map has no holes. */
  function RegisterAt(o: bv32): (r: Option<Register>)
    ensures r.Some? <==> o % 4 == 0 && o <= 0x3C
    ensures r.Some? ==> Offset(r.value) == o
  {
    if o == 0x00 then Some(CONSET)
    else if o == 0x04 then Some(STAT)
    else if o == 0x08 then Some(DAT)
    else if o == 0x0C then Some(ADR0)
    else if o == 0x10 then Some(SCLH)
    else if o == 0x14 then Some(SCLL)
    else if o == 0x18 then Some(CONCLR)
    else if o == 0x1C then Some(MMCTRL)
    else if o == 0x20 then Some(ADR1)
    else if o == 0x24 then Some(ADR2)
    else if o == 0x28 then Some(ADR3)
    else if o == 0x2C then Some(DATABUF)
    else if o == 0x30 then Some(MASK0)
    else if o == 0x34 then Some(MASK1)
    else if o == 0x38 then Some(MASK2)
    else if o == 0x3C then Some(MASK3)
    else None
  }

  /** Reading back the register at a register's own offset finds that register:
      offsets are pairwise distinct. */
  lemma {:induction false} OffsetRoundTrip(r: Register)
    ensures RegisterAt(Offset(r)) == Some(r)
  {
    match r
    case CONSET =>
    case STAT =>
    case DAT =>
    case ADR0 =>
    case SCLH =>
    case SCLL =>
    case CONCLR =>
    case MMCTRL =>
    case ADR1 =>
    case ADR2 =>
    case ADR3 =>
    case DATABUF =>
    case MASK0 =>
    case MASK1 =>
    case MASK2 =>
    case MASK3 =>
  }

  lemma OffsetInjective(r1: Register, r2: Register)
    ensures Offset(r1) == Offset(r2) ==> r1 == r2
  {
    OffsetRoundTrip(r1);
    OffsetRoundTrip(r2);
  }

  /** Absolute address of a register: I2Cn_BASE + offset, in 32-bit unsigned
      arithmetic. */
  function Address(base: bv32, r: Register): (a: bv32)
    ensures a - base == Offset(r)
    ensures RegisterAt(a - base) == Some(r)
  {
    OffsetRoundTrip(r);
    base + Offset(r)
  }

  /** Within one instance, distinct registers have distinct addresses. */
  lemma AddressInjective(base: bv32, r1: Register, r2: Register)
    ensures Address(base, r1) == Address(base, r2) <==> r1 == r2
  {
    OffsetInjective(r1, r2);
  }

  /** The two indexed register families, ADRn and MASKn, n = 0..3. */
  datatype Family = AdrFamily | MaskFamily

  /** Member `i` of a family. ADR0 is at 0x0C and ADR1..ADR3 at 0x20.., so the
      ADR family has no uniform stride: this is a table, not a formula. */
  function FamilyMember(fam: Family, i: int): (r: Result<Register>)
    ensures r.Ok? <==> 0 <= i < 4
    ensures r.Err? ==> r.error == IndexOutOfRange
    ensures r.Ok? && fam == MaskFamily ==> Offset(r.value) as int == 0x30 + 4 * i
    ensures r.Ok? && fam == AdrFamily && i > 0 ==> Offset(r.value) as int == 0x20 + 4 * (i - 1)
    ensures r.Ok? && fam == AdrFamily && i == 0 ==> r.value == ADR0
  {
    if i < 0 || i >= 4 then Err(IndexOutOfRange)
    else match fam
      case AdrFamily => Ok([ADR0, ADR1, ADR2, ADR3][i])
      case MaskFamily => Ok([MASK0, MASK1, MASK2, MASK3][i])
  }

  /** Absolute address of member `i` of a family. */
  function FamilyAddress(base: bv32, fam: Family, i: int): (a: Result<bv32>)
    ensures a.Ok? <==> 0 <= i < 4
    ensures a.Ok? ==> a.value == Address(base, FamilyMember(fam, i).value)
  {
    match FamilyMember(fam, i)
    case Ok(r) => Ok(Address(base, r))
    case Err(e) => Err(e)
  }

  /** The members of a family are distinct registers. */
  lemma FamilyMembersDistinct(fam: Family, i: int, j: int)
    requires 0 <= i < 4 && 0 <= j < 4 && i != j
    ensures FamilyMember(fam, i).value != FamilyMember(fam, j).value
  {
  }

  /** A stride of 4 from ADR0 does not reach ADR1: the gap is 0x14 bytes. */
  lemma AdrStrideIsNotUniform()
    ensures Offset(FamilyMember(AdrFamily, 1).value) - Offset(FamilyMember(AdrFamily, 0).value) == 0x14
  {
  }
}
