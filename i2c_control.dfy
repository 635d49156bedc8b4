/** The control register pair of the LPC17xx I2C interface. Writing a word to
    CONSET sets the bits of the I2C control register that are 1 in it, writing
    a word to CONCLR clears them, and 0 bits leave their control bit as it
    was. */
module I2CControl {
  import opened Bits
  import opened I2CFields

  /** The control bits after writing w to CONSET. */
  function WriteConset(ctl: bv32, w: bv32): bv32
  {
    ctl | w
  }

  /** The control bits after writing w to CONCLR. */
  function WriteConclr(ctl: bv32, w: bv32): bv32
  {
    ctl & !w
  }

  /** A write to CONSET sets the bits written 1 and keeps the bits written 0. */
  lemma ConsetSemantics(ctl: bv32, w: bv32)
    ensures WriteConset(ctl, w) & w == w
    ensures Agree(WriteConset(ctl, w), ctl, !w)
  {
  }

  /** A write to CONCLR clears the bits written 1 and keeps the bits written 0. */
  lemma ConclrSemantics(ctl: bv32, w: bv32)
    ensures WriteConclr(ctl, w) & w == 0
    ensures Agree(WriteConclr(ctl, w), ctl, !w)
  {
  }

  /** Writing the same word to CONSET twice is the same as writing it once. */
  lemma ConsetIdempotent(ctl: bv32, w: bv32)
    ensures WriteConset(WriteConset(ctl, w), w) == WriteConset(ctl, w)
  {
    var once := WriteConset(ctl, w);
    ConsetSemantics(ctl, w);
    ConsetSemantics(once, w);
    EqualBySplit(WriteConset(once, w), once, w);
  }

  /** Writing the same word to CONCLR twice is the same as writing it once. */
  lemma ConclrIdempotent(ctl: bv32, w: bv32)
    ensures WriteConclr(WriteConclr(ctl, w), w) == WriteConclr(ctl, w)
  {
    var once := WriteConclr(ctl, w);
    ConclrSemantics(ctl, w);
    ConclrSemantics(once, w);
    EqualBySplit(WriteConclr(once, w), once, w);
  }

  /** A clear after a set of the same bits leaves them 0, whatever the set did,
      and the other bits as they were before the set. */
  lemma ClearAfterSet(ctl: bv32, w: bv32)
    ensures WriteConclr(WriteConset(ctl, w), w) == WriteConclr(ctl, w)
  {
    var afterSet := WriteConset(ctl, w);
    ConsetSemantics(ctl, w);
    ConclrSemantics(afterSet, w);
    ConclrSemantics(ctl, w);
    EqualBySplit(WriteConclr(afterSet, w), WriteConclr(ctl, w), w);
  }

  /** A set after a clear of the same bits leaves them 1, and the other bits
      as they were before the clear. */
  lemma SetAfterClear(ctl: bv32, w: bv32)
    ensures WriteConset(WriteConclr(ctl, w), w) == WriteConset(ctl, w)
  {
    var cleared := WriteConclr(ctl, w);
    ConclrSemantics(ctl, w);
    ConsetSemantics(cleared, w);
    ConsetSemantics(ctl, w);
    EqualBySplit(WriteConset(cleared, w), WriteConset(ctl, w), w);
  }

  // ---------------------------------------------------------------------
  // Flags
  // ---------------------------------------------------------------------

  /** Whether a control flag is set in the control bits. */
  predicate IsSet(ctl: bv32, f: ControlFlag)
  {
    Meets(ctl, ConsetBit(f))
  }

  /** The word to write to CONSET to set the given flags: the OR of their
      CONSET_* masks. It holds no bit outside the CONSET_* masks. */
  function SetWord(flags: seq<ControlFlag>): (w: bv32)
    ensures !Meets(w, !CONSET_DEFINED)
    ensures forall f :: IsSet(w, f) <==> f in flags
  {
    if |flags| == 0 then 0
    else
      var rest := SetWord(flags[1..]);
      var w := ConsetBit(flags[0]) | rest;
      OrMeets(ConsetBit(flags[0]), rest, !CONSET_DEFINED);
      forall f ensures IsSet(w, f) <==> f in flags {
        ConsetBitsDisjoint(flags[0], f);
        OrMeets(ConsetBit(flags[0]), rest, ConsetBit(f));
        assert f in flags <==> f == flags[0] || f in flags[1..];
      }
      w
  }

  /** The word to write to CONCLR to clear the given bits: the OR of their
      CONCLR_* masks. It holds no bit outside the CONCLR_* masks, so never
      the STO bit. */
  function ClearWord(bits: seq<ClearBit>): (w: bv32)
    ensures !Meets(w, !CONCLR_DEFINED)
    ensures !Meets(w, CONSET_STO)
    ensures forall c :: Meets(w, ConclrBit(c)) <==> c in bits
  {
    if |bits| == 0 then 0
    else
      var rest := ClearWord(bits[1..]);
      var w := ConclrBit(bits[0]) | rest;
      OrMeets(ConclrBit(bits[0]), rest, !CONCLR_DEFINED);
      OrMeets(ConclrBit(bits[0]), rest, CONSET_STO);
      ConclrMissesStop(bits[0]);
      forall c ensures Meets(w, ConclrBit(c)) <==> c in bits {
        ConclrBitsDisjoint(bits[0], c);
        OrMeets(ConclrBit(bits[0]), rest, ConclrBit(c));
        assert c in bits <==> c == bits[0] || c in bits[1..];
      }
      w
  }

  /** Setting a list of flags: the listed flags become set, the others keep
      their state. */
  lemma SetFlags(ctl: bv32, flags: seq<ControlFlag>, f: ControlFlag)
    ensures IsSet(WriteConset(ctl, SetWord(flags)), f) <==> IsSet(ctl, f) || f in flags
  {
    OrMeets(ctl, SetWord(flags), ConsetBit(f));
  }

  /** Clearing a list of CONCLR bits: the flag a bit clears ends up set
      exactly when it was set and the bit is not in the list. */
  lemma ClearFlags(ctl: bv32, bits: seq<ClearBit>, c: ClearBit)
    ensures IsSet(WriteConclr(ctl, ClearWord(bits)), Clears(c)) <==> IsSet(ctl, Clears(c)) && c !in bits
  {
    AndNotMeets(ctl, ClearWord(bits), ConclrBit(c));
  }

  /** No write to CONCLR built from the CONCLR_* masks changes STO. */
  lemma StopSurvivesClear(ctl: bv32, bits: seq<ClearBit>)
    ensures IsSet(WriteConclr(ctl, ClearWord(bits)), STO) <==> IsSet(ctl, STO)
  {
    AndNotMeets(ctl, ClearWord(bits), CONSET_STO);
  }

  // ---------------------------------------------------------------------
  // A sequence of writes
  // ---------------------------------------------------------------------

  /** One write to the control register pair. */
  datatype ControlWrite = ToConset(word: bv32) | ToConclr(word: bv32)

  /** The effect of one write. */
  function Step(ctl: bv32, x: ControlWrite): bv32
  {
    match x
    case ToConset(w) => WriteConset(ctl, w)
    case ToConclr(w) => WriteConclr(ctl, w)
  }

  /** A write keeps the bits it writes as 0. */
  lemma StepKeeps(ctl: bv32, x: ControlWrite, m: bv32)
    requires !Meets(x.word, m)
    ensures Agree(Step(ctl, x), ctl, m)
  {
    match x
    case ToConset(w) => ConsetKeeps(ctl, w, m);
    case ToConclr(w) => ConclrKeeps(ctl, w, m);
  }

  lemma ConsetKeeps(ctl: bv32, w: bv32, m: bv32)
    requires !Meets(w, m)
    ensures Agree(WriteConset(ctl, w), ctl, m)
  {
  }

  lemma ConclrKeeps(ctl: bv32, w: bv32, m: bv32)
    requires !Meets(w, m)
    ensures Agree(WriteConclr(ctl, w), ctl, m)
  {
  }

  /** A write decides a single bit it writes as 1: set through CONSET,
      clear through CONCLR. */
  lemma StepDecides(ctl: bv32, x: ControlWrite, b: bv32)
    requires SingleBit(b) && Meets(x.word, b)
    ensures Meets(Step(ctl, x), b) <==> x.ToConset?
  {
    match x
    case ToConset(w) => OrMeets(ctl, w, b);
    case ToConclr(w) => AndNotMeets(ctl, w, b);
  }

  /** The control bits after a sequence of writes, first to last. */
  function Apply(ctl: bv32, xs: seq<ControlWrite>): bv32
    decreases |xs|
  {
    if |xs| == 0 then ctl else Apply(Step(ctl, xs[0]), xs[1..])
  }

  /** Applying two sequences of writes one after the other. */
  lemma {:induction false} ApplyAppend(ctl: bv32, xs: seq<ControlWrite>, ys: seq<ControlWrite>)
    ensures Apply(ctl, xs + ys) == Apply(Apply(ctl, xs), ys)
    decreases |xs|
  {
    if |xs| > 0 {
      assert (xs + ys)[0] == xs[0];
      assert (xs + ys)[1..] == xs[1..] + ys;
      ApplyAppend(Step(ctl, xs[0]), xs[1..], ys);
    } else {
      assert xs + ys == ys;
    }
  }

  /** Bits that no write touches keep their value. */
  lemma {:induction false} UntouchedBitsKept(ctl: bv32, xs: seq<ControlWrite>, m: bv32)
    requires forall i :: 0 <= i < |xs| ==> !Meets(xs[i].word, m)
    ensures Agree(Apply(ctl, xs), ctl, m)
    decreases |xs|
  {
    if |xs| > 0 {
      StepKeeps(ctl, xs[0], m);
      UntouchedBitsKept(Step(ctl, xs[0]), xs[1..], m);
      AgreeTransitive(Apply(ctl, xs), Step(ctl, xs[0]), ctl, m);
    }
  }

  /** The last write that touches a control flag decides it: set if that
      write went to CONSET, clear if it went to CONCLR. */
  lemma LastWriteWins(ctl: bv32, xs: seq<ControlWrite>, x: ControlWrite, ys: seq<ControlWrite>, f: ControlFlag)
    requires Meets(x.word, ConsetBit(f))
    requires forall i :: 0 <= i < |ys| ==> !Meets(ys[i].word, ConsetBit(f))
    ensures IsSet(Apply(ctl, xs + [x] + ys), f) <==> x.ToConset?
  {
    var b := ConsetBit(f);
    ApplyAppend(ctl, xs + [x], ys);
    ApplyAppend(ctl, xs, [x]);
    var before := Apply(ctl, xs);
    var mid := Apply(ctl, xs + [x]);
    assert mid == Apply(Step(before, x), []) == Step(before, x);
    StepDecides(before, x, b);
    UntouchedBitsKept(mid, ys, b);
    AgreeMeets(Apply(mid, ys), mid, b);
  }
}
