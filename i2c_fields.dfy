/** The named bit fields of the LPC17xx I2C registers (the CONSET_*, CONCLR_*,
    STAT_*, DAT_*, MMCTRL_*, DATABUF_*, ADR_*, MASK_*, SCLH_* and SCLL_*
    macros), and reading and writing one field of a 32-bit register value
    without disturbing the other bits. */
module I2CFields {
  import opened Bits

  // ---------------------------------------------------------------------
  // The masks, with the value each header macro expands to. The lemmas
  // below tie every value to the BIT_32_n / BIT_MASK spelling of the header.
  // ---------------------------------------------------------------------

  const CONSET_AA: bv32    := 0x04
  const CONSET_SI: bv32    := 0x08
  const CONSET_STO: bv32   := 0x10
  const CONSET_STA: bv32   := 0x20
  const CONSET_I2CEN: bv32 := 0x40

  const CONCLR_AAC: bv32    := 0x04
  const CONCLR_SIC: bv32    := 0x08
  const CONCLR_STAC: bv32   := 0x20
  const CONCLR_I2CENC: bv32 := 0x40

  const STAT_STATUS_M: bv32 := 0xF8
  const DAT_DATA_M: bv32    := 0xFF

  const MMCTRL_MM_ENA: bv32    := 0x01
  const MMCTRL_ENA_SCL: bv32   := 0x02
  const MMCTRL_MATCH_ALL: bv32 := 0x04

  const DATABUF_DATA_M: bv32 := 0xFF

  const ADR_GC: bv32     := 0x01
  const ADR_ADDR_M: bv32 := 0xFE
  const ADR_ADDR_S: nat  := 1

  const MASK_MASK_M: bv32 := 0xFE
  const MASK_MASK_S: nat  := 1

  const SCLH_SCLH_M: bv32 := 0xFFFF
  const SCLL_SCLL_M: bv32 := 0xFFFF

  /** The union of the CONSET_* masks; a name of this model, not a macro of
      the header. */
  const CONSET_DEFINED: bv32 := 0x7C
  /** The union of the CONCLR_* masks: CONSET_DEFINED without bit 4; a name
      of this model, not a macro of the header. */
  const CONCLR_DEFINED: bv32 := 0x6C

  /** CONSET_DEFINED and CONCLR_DEFINED are the unions of their registers'
      masks. */
  lemma DefinedMasks()
    ensures CONSET_DEFINED == CONSET_AA | CONSET_SI | CONSET_STO | CONSET_STA | CONSET_I2CEN
    ensures CONCLR_DEFINED == CONCLR_AAC | CONCLR_SIC | CONCLR_STAC | CONCLR_I2CENC
  {
  }

  lemma ConsetMacros()
    ensures CONSET_AA == Bit(2)
    ensures CONSET_SI == Bit(3)
    ensures CONSET_STO == Bit(4)
    ensures CONSET_STA == Bit(5)
    ensures CONSET_I2CEN == Bit(6)
  {
  }

  lemma ConclrMacros()
    ensures CONCLR_AAC == Bit(2)
    ensures CONCLR_SIC == Bit(3)
    ensures CONCLR_STAC == Bit(5)
    ensures CONCLR_I2CENC == Bit(6)
  {
  }

  lemma MmctrlMacros()
    ensures MMCTRL_MM_ENA == Bit(0)
    ensures MMCTRL_ENA_SCL == Bit(1)
    ensures MMCTRL_MATCH_ALL == Bit(2)
  {
  }

  lemma FieldMaskMacros()
    ensures STAT_STATUS_M == BitMask(7, 3)
    ensures DAT_DATA_M == BitMask(7, 0)
    ensures DATABUF_DATA_M == BitMask(7, 0)
    ensures ADR_GC == Bit(0)
    ensures ADR_ADDR_M == BitMask(7, 1)
    ensures MASK_MASK_M == BitMask(7, 1)
    ensures SCLH_SCLH_M == BitMask(15, 0)
    ensures SCLL_SCLL_M == BitMask(15, 0)
  {
  }

  // ---------------------------------------------------------------------
  // CONSET and CONCLR
  // ---------------------------------------------------------------------

  /** The bits of the I2C control register that CONSET sets. */
  datatype ControlFlag = AA | SI | STO | STA | I2CEN

  /** The bits of CONCLR. There is none for STO. */
  datatype ClearBit = AAC | SIC | STAC | I2CENC

  /** The CONSET_* mask of a control flag: a single bit among bits 6..2. */
  function ConsetBit(f: ControlFlag): (b: bv32)
    ensures SingleBit(b)
    ensures b & !CONSET_DEFINED == 0
  {
    match f
    case AA    => CONSET_AA
    case SI    => CONSET_SI
    case STO   => CONSET_STO
    case STA   => CONSET_STA
    case I2CEN => CONSET_I2CEN
  }

  /** The CONCLR_* mask of a clear bit: a single bit among bits 6, 5, 3, 2. */
  function ConclrBit(c: ClearBit): (b: bv32)
    ensures SingleBit(b)
    ensures b & !CONCLR_DEFINED == 0
  {
    match c
    case AAC    => CONCLR_AAC
    case SIC    => CONCLR_SIC
    case STAC   => CONCLR_STAC
    case I2CENC => CONCLR_I2CENC
  }

  /** The control flag a CONCLR bit clears: the one at the same bit position.
      No CONCLR bit reaches STO. */
  function Clears(c: ClearBit): (f: ControlFlag)
    ensures ConsetBit(f) == ConclrBit(c)
    ensures f != STO
  {
    match c
    case AAC    => AA
    case SIC    => SI
    case STAC   => STA
    case I2CENC => I2CEN
  }

  /** Distinct control flags occupy disjoint bits, so each CONSET mask names
      exactly one flag. */
  lemma ConsetBitsDisjoint(f: ControlFlag, g: ControlFlag)
    ensures ConsetBit(f) & ConsetBit(g) != 0 <==> f == g
  {
  }

  /** Distinct CONCLR bits are disjoint. */
  lemma ConclrBitsDisjoint(c: ClearBit, d: ClearBit)
    ensures ConclrBit(c) & ConclrBit(d) != 0 <==> c == d
  {
  }

  /** No CONCLR mask touches CONSET_STO: each sits at the position of the
      flag it clears, which is never STO. */
  lemma ConclrMissesStop(c: ClearBit)
    ensures ConclrBit(c) & CONSET_STO == 0
  {
    ConsetBitsDisjoint(Clears(c), STO);
  }

  /** A control flag has a CONCLR bit exactly when it is not STO. */
  lemma ClearableFlags(f: ControlFlag)
    ensures f != STO <==> exists c :: Clears(c) == f
  {
    match f
    case AA    => assert Clears(AAC) == f;
    case SI    => assert Clears(SIC) == f;
    case STO   =>
    case STA   => assert Clears(STAC) == f;
    case I2CEN => assert Clears(I2CENC) == f;
  }

  // ---------------------------------------------------------------------
  // MMCTRL
  // ---------------------------------------------------------------------

  /** The bits of MMCTRL. */
  datatype MonitorFlag = MonitorEnable | SclOutputEnable | MatchAll

  /** The MMCTRL_* mask of a monitor-mode flag: a single bit among bits 2..0. */
  function MmctrlBit(m: MonitorFlag): (b: bv32)
    ensures SingleBit(b)
    ensures b & !0x07 == 0
  {
    match m
    case MonitorEnable   => MMCTRL_MM_ENA
    case SclOutputEnable => MMCTRL_ENA_SCL
    case MatchAll        => MMCTRL_MATCH_ALL
  }

  /** The three MMCTRL bits are distinct and together fill bits 2..0. */
  lemma MmctrlBitsDisjoint(m: MonitorFlag, n: MonitorFlag)
    ensures MmctrlBit(m) & MmctrlBit(n) != 0 <==> m == n
    ensures MMCTRL_MM_ENA | MMCTRL_ENA_SCL | MMCTRL_MATCH_ALL == 0x07
  {
  }

  /** A register value with the one-bit field b set; the other bits keep
      their values. */
  function SetFlagBit(v: bv32, b: bv32): (r: bv32)
    ensures r & !b == v & !b
    ensures r & b == b
  {
    v | b
  }

  /** A register value with the one-bit field b cleared; the other bits keep
      their values. */
  function ClearFlagBit(v: bv32, b: bv32): (r: bv32)
    ensures r & !b == v & !b
    ensures r & b == 0
  {
    v & !b
  }

  // ---------------------------------------------------------------------
  // STAT
  // ---------------------------------------------------------------------

  /** The status field of STAT. The header gives no shift for it: the status
      is the masked value, a multiple of 8 in 0x00..0xF8, so one of 32 codes. */
  function StatusCode(stat: bv32): (s: bv32)
    ensures Agree(s, stat, STAT_STATUS_M)
    ensures s & 0x07 == 0
    ensures s <= 0xF8
  {
    stat & STAT_STATUS_M
  }

  /** The number of a status code among the 32 the field can hold. */
  function StatusIndex(stat: bv32): (n: bv32)
    ensures n <= 31
    ensures n << 3 == StatusCode(stat)
  {
    StatusCode(stat) >> 3
  }

  /** Bits 2..0 and 31..8 of STAT do not affect the status. */
  lemma StatusIgnoresOtherBits(stat: bv32, junk: bv32)
    ensures StatusCode((stat & STAT_STATUS_M) | (junk & !STAT_STATUS_M)) == StatusCode(stat)
  {
  }

  /** STAT = 0xA8 is status code 0xA8, number 21 of the 32. */
  lemma StatusExample()
    ensures StatusCode(0xA8) == 0xA8
    ensures StatusIndex(0xA8) == 21
    ensures StatusCode(0xAF) == 0xA8
  {
  }

  // ---------------------------------------------------------------------
  // DAT and DATABUF: a data byte in bits 7..0
  // ---------------------------------------------------------------------

  /** DAT and DATABUF have the same layout. */
  lemma DataMasksAgree()
    ensures DATABUF_DATA_M == DAT_DATA_M
  {
  }

  /** The data byte of a DAT or DATABUF value. */
  function DataByte(v: bv32): (b: bv32)
    ensures Agree(b, v, DAT_DATA_M)
    ensures b <= 0xFF
  {
    v & DAT_DATA_M
  }

  /** A DAT or DATABUF value with its data byte replaced by the low byte of
      b; the bits outside the data field are kept. */
  function WithDataByte(v: bv32, b: bv32): (r: bv32)
    ensures r & !DAT_DATA_M == v & !DAT_DATA_M
    ensures DataByte(r) == b & 0xFF
  {
    (v & !DAT_DATA_M) | (b & DAT_DATA_M)
  }

  /** A byte that fits survives a write and a read. */
  lemma DataByteRoundTrip(v: bv32, b: bv32)
    requires b <= 0xFF
    ensures DataByte(WithDataByte(v, b)) == b
  {
  }

  /** Writing back the byte just read changes nothing. */
  lemma DataByteLossless(v: bv32)
    ensures WithDataByte(v, DataByte(v)) == v
  {
  }

  /** Of two writes of the data byte, the second one wins. */
  lemma DataByteLastWriteWins(v: bv32, a: bv32, b: bv32)
    ensures WithDataByte(WithDataByte(v, a), b) == WithDataByte(v, b)
  {
  }

  // ---------------------------------------------------------------------
  // ADR0..ADR3 and MASK0..MASK3: a 7-bit field in bits 7..1
  // ---------------------------------------------------------------------

  /** The general-call bit and the address field split the low byte of ADRn
      between them. */
  lemma AdrLayout()
    ensures ADR_GC & ADR_ADDR_M == 0
    ensures ADR_GC | ADR_ADDR_M == 0xFF
    ensures ADR_ADDR_M == 0x7F << ADR_ADDR_S
  {
  }

  /** The field of MASKn has the layout of the ADR address field: the same
      mask and shift, clear of the general-call bit. */
  lemma MaskLayout()
    ensures MASK_MASK_M == ADR_ADDR_M
    ensures MASK_MASK_S == ADR_ADDR_S
    ensures MASK_MASK_M & ADR_GC == 0
  {
  }

  /** The 7-bit slave address of an ADRn value (equally the 7-bit mask of a
      MASKn value): the field under ADR_ADDR_M moved down by ADR_ADDR_S. */
  function SlaveAddress(adr: bv32): (a: bv32)
    ensures a <= 0x7F
    ensures a << ADR_ADDR_S == adr & ADR_ADDR_M
  {
    (adr & ADR_ADDR_M) >> ADR_ADDR_S
  }

  /** Whether an ADRn value enables the general call address. */
  predicate GeneralCall(adr: bv32)
  {
    adr & ADR_GC != 0
  }

  /** An ADRn value with its address field set from the low 7 bits of a; the
      general-call bit and the bits above 7 are kept. */
  function WithSlaveAddress(adr: bv32, a: bv32): (r: bv32)
    ensures r & !ADR_ADDR_M == adr & !ADR_ADDR_M
  {
    (adr & !ADR_ADDR_M) | ((a << ADR_ADDR_S) & ADR_ADDR_M)
  }

  /** Reading the address back gives the low 7 bits of what was written. */
  lemma SlaveAddressTruncates(adr: bv32, a: bv32)
    ensures SlaveAddress(WithSlaveAddress(adr, a)) == a & 0x7F
  {
  }

  /** Setting the address keeps the general-call bit. */
  lemma SlaveAddressKeepsGeneralCall(adr: bv32, a: bv32)
    ensures GeneralCall(WithSlaveAddress(adr, a)) == GeneralCall(adr)
  {
  }

  /** An address that fits survives a write and a read. */
  lemma SlaveAddressRoundTrip(adr: bv32, a: bv32)
    requires a <= 0x7F
    ensures SlaveAddress(WithSlaveAddress(adr, a)) == a
  {
    SlaveAddressTruncates(adr, a);
  }

  /** Writing back the address just read changes nothing. */
  lemma SlaveAddressLossless(adr: bv32)
    ensures WithSlaveAddress(adr, SlaveAddress(adr)) == adr
  {
  }

  /** Turning general call on enables it and keeps the slave address. */
  lemma SetGeneralCallKeepsAddress(adr: bv32)
    ensures GeneralCall(SetFlagBit(adr, ADR_GC))
    ensures SlaveAddress(SetFlagBit(adr, ADR_GC)) == SlaveAddress(adr)
  {
  }

  /** Turning general call off disables it and keeps the slave address. */
  lemma ClearGeneralCallKeepsAddress(adr: bv32)
    ensures !GeneralCall(ClearFlagBit(adr, ADR_GC))
    ensures SlaveAddress(ClearFlagBit(adr, ADR_GC)) == SlaveAddress(adr)
  {
  }

  // ---------------------------------------------------------------------
  // SCLH and SCLL: a 16-bit count in bits 15..0
  // ---------------------------------------------------------------------

  /** SCLH and SCLL have the same layout. */
  lemma SclMasksAgree()
    ensures SCLL_SCLL_M == SCLH_SCLH_M
  {
  }

  /** The count of an SCLH or SCLL value. */
  function SclCount(v: bv32): (c: bv32)
    ensures Agree(c, v, SCLH_SCLH_M)
    ensures c <= 0xFFFF
  {
    v & SCLH_SCLH_M
  }

  /** An SCLH or SCLL value with its count replaced by the low 16 bits of c;
      the bits above 15 are kept. */
  function WithSclCount(v: bv32, c: bv32): (r: bv32)
    ensures r & !SCLH_SCLH_M == v & !SCLH_SCLH_M
    ensures SclCount(r) == c & 0xFFFF
  {
    (v & !SCLH_SCLH_M) | (c & SCLH_SCLH_M)
  }

  /** A count that fits survives a write and a read. */
  lemma SclCountRoundTrip(v: bv32, c: bv32)
    requires c <= 0xFFFF
    ensures SclCount(WithSclCount(v, c)) == c
  {
  }

  /** Writing back the count just read changes nothing. */
  lemma SclCountLossless(v: bv32)
    ensures WithSclCount(v, SclCount(v)) == v
  {
  }
}
