/** The packed 64-bit word that holds all metadata of one flush buffer: its
    layout, its two decoders, and what each atomic operation does to it. */
module StateWord {
  import opened Bits

  const SEALED_BIT: nat := 1
  const FLUSH_IN_PROGRESS_BIT: nat := 2
  const WRITER_ONE: nat := 0x100
  const WRITER_MASK: nat := 0xFFFF_FF00
  const OFFSET_ONE: nat := 0x1_0000_0000
  const MAX_WRITERS: nat := 0x100_0000
  const MAX_OFFSET: nat := 0x1_0000_0000
  const WORD_LIMIT: nat := 0x1_0000_0000_0000_0000
  const ONE_MEGABYTE_BLOCK: nat := 1024 * 1024
  const FOUR_KB_BLOCK: nat := 4096

  /** A value of the atomic `usize`. */
  type Packed = w: nat | w < WORD_LIMIT

  // ---- the two decoders -------------------------------------------------

  function StateOffset(w: Packed): nat
  {
    w / OFFSET_ONE
  }

  function StateWriters(w: Packed): nat
  {
    And(w, WRITER_MASK) / WRITER_ONE
  }

  predicate StateSealed(w: Packed)
  {
    And(w, SEALED_BIT) != 0
  }

  predicate StateFlushInProgress(w: Packed)
  {
    And(w, FLUSH_IN_PROGRESS_BIT) != 0
  }

  /** The snapshot wrapper handed out to callers, with decoders of its own. */
  datatype State = State(inner: Packed) {
    function Offset(): nat
    {
      inner / OFFSET_ONE
    }

    function NumWriters(): nat
    {
      And(inner, WRITER_MASK) / WRITER_ONE
    }

    predicate Sealed()
    {
      And(inner, SEALED_BIT) != 0
    }

    predicate Flushing()
    {
      And(inner, FLUSH_IN_PROGRESS_BIT) != 0
    }
  }

  // ---- the atomic operations, on the packed word ------------------------

  function WrappingAdd(w: Packed, n: nat): Packed
  {
    (w + n) % WORD_LIMIT
  }

  function WrappingSub(w: Packed, n: Packed): Packed
  {
    (w + WORD_LIMIT - n) % WORD_LIMIT
  }

  /** The word a reservation of `size` bytes tries to install. */
  function PackedReserve(w: Packed, size: nat): Packed
    requires size <= ONE_MEGABYTE_BLOCK
  {
    WrappingAdd(WrappingAdd(w, size * OFFSET_ONE), WRITER_ONE)
  }

  function PackedDecrement(w: Packed): Packed
  {
    WrappingSub(w, WRITER_ONE)
  }

  // ---- the same word as a record ----------------------------------------

  /** The fields of the word; `spare` is bits 7..2, which nothing uses. */
  datatype Word = Word(offset: nat, writers: nat, spare: nat, flushing: bool, sealed: bool)

  const ZERO: Word := Word(0, 0, 0, false, false)

  predicate Fits(r: Word)
  {
    r.offset < MAX_OFFSET && r.writers < MAX_WRITERS && r.spare < 64
  }

  function Low(r: Word): nat
  {
    4 * r.spare + (if r.flushing then 2 else 0) + (if r.sealed then 1 else 0)
  }

  function Encode(r: Word): Packed
    requires Fits(r)
  {
    r.offset * OFFSET_ONE + r.writers * WRITER_ONE + Low(r)
  }

  /** Reading every field the way the source does; the spare bits are what is
      left of the low byte. */
  function Decode(w: Packed): Word
  {
    Word(StateOffset(w), StateWriters(w), w % 256 / 4, StateFlushInProgress(w), StateSealed(w))
  }

  // ---- the atomic operations, on the record -----------------------------

  predicate Available(r: Word)
  {
    !r.sealed && !r.flushing && r.offset == 0
  }

  /** Claim `size` bytes and one writer.  A full writer field carries into the
      offset, and a full offset field wraps, exactly as the two additions do. */
  function Reserve(r: Word, size: nat): Word
  {
    if r.writers + 1 < MAX_WRITERS
    then r.(offset := (r.offset + size) % MAX_OFFSET, writers := r.writers + 1)
    else r.(offset := (r.offset + size + 1) % MAX_OFFSET, writers := 0)
  }

  /** Release one writer.  An empty writer field borrows from the offset. */
  function Release(r: Word): Word
  {
    if r.writers > 0
    then r.(writers := r.writers - 1)
    else r.(offset := (r.offset + MAX_OFFSET - 1) % MAX_OFFSET, writers := MAX_WRITERS - 1)
  }

  function Seal(r: Word): Word
  {
    r.(sealed := true)
  }

  function SetFlush(r: Word): Word
  {
    r.(flushing := true)
  }

  function ClearFlush(r: Word): Word
  {
    r.(flushing := false)
  }

  function ZeroOffset(r: Word): Word
  {
    r.(offset := 0)
  }

  // ---- the packed word refines the record -------------------------------

  function Bit(b: bool): nat
  {
    if b then 1 else 0
  }

  /** Everything above the two flag bits. */
  function Upper(r: Word): nat
  {
    r.offset * 0x4000_0000 + r.writers * 64 + r.spare
  }

  lemma WriterMaskReads(r: Word)
    requires Fits(r)
    ensures And(Encode(r), WRITER_MASK) == r.writers * WRITER_ONE
  {
    hide And;
    var upper := r.offset * MAX_WRITERS + r.writers;
    Powers();
    ShlIsProduct(upper, 8);
    ShlIsProduct(0xFF_FFFF, 8);
    ShlIsProduct(r.offset, 24);
    ShlIsProduct(r.writers, 8);
    AndLow(r.offset, r.writers, 24);
    AndJoin(upper, Low(r), 0xFF_FFFF, 0, 8);
    AndZero(Low(r));
  }

  lemma AndZero(x: nat)
    ensures And(x, 0) == 0
  {
  }

  /** Each mask reads exactly the digits its field was given. */
  lemma MasksRead(r: Word)
    requires Fits(r)
    ensures And(Encode(r), SEALED_BIT) == Bit(r.sealed)
    ensures And(Encode(r), FLUSH_IN_PROGRESS_BIT) == 2 * Bit(r.flushing)
    ensures And(Encode(r), SEALED_BIT + FLUSH_IN_PROGRESS_BIT) == 2 * Bit(r.flushing) + Bit(r.sealed)
    ensures And(Encode(r), WRITER_MASK) == r.writers * WRITER_ONE
  {
    hide And;
    LowestDigit(2 * Upper(r) + Bit(r.flushing), Bit(r.sealed));
    SecondDigit(Upper(r), Bit(r.flushing), Bit(r.sealed));
    WriterMaskReads(r);
  }

  /** Encoding is a bijection between records that fit and words. */
  lemma DecodeEncode(r: Word)
    requires Fits(r)
    ensures Decode(Encode(r)) == r
  {
    hide And, Encode, Low;
    MasksRead(r);
    DivisionsRead(r);
  }

  lemma DivisionsRead(r: Word)
    requires Fits(r)
    ensures Encode(r) / OFFSET_ONE == r.offset && Encode(r) % 256 / 4 == r.spare
  {
    AboveHalf(r.offset, r.writers * WRITER_ONE + Low(r));
    LowByte(r.offset * MAX_WRITERS + r.writers, Low(r));
  }

  lemma AboveHalf(high: nat, rest: nat)
    requires rest < OFFSET_ONE
    ensures (high * OFFSET_ONE + rest) / OFFSET_ONE == high
  {
  }

  lemma LowByte(high: nat, low: nat)
    requires low < 256
    ensures (high * 256 + low) % 256 == low
  {
  }

  lemma EncodeDecode(w: Packed)
    ensures Fits(Decode(w)) && Encode(Decode(w)) == w
  {
    hide Decode;
    var high, low := w / 256, w % 256;
    var r := Word(high / MAX_WRITERS, high % MAX_WRITERS, low / 4, low / 2 % 2 == 1, low % 2 == 1);
    assert Low(r) == low;
    assert Encode(r) == w;
    DecodeEncode(r);
  }

  /** Where the fields are: offset in bits 63..32, writers in bits 31..8, the
      flush flag in bit 1 and the sealed flag in bit 0. */
  lemma FieldsRead(w: Packed)
    ensures StateOffset(w) == w / 0x1_0000_0000
    ensures StateWriters(w) == w / 0x100 % 0x100_0000
    ensures StateFlushInProgress(w) <==> w / 2 % 2 == 1
    ensures StateSealed(w) <==> w % 2 == 1
    ensures Decode(w).spare == w / 4 % 0x40
  {
    hide And, Encode, Low;
    EncodeDecode(w);
    var r := Decode(w);
    FieldsPlaced(r);
    MasksRead(r);
  }

  lemma FieldsPlaced(r: Word)
    requires Fits(r)
    ensures Encode(r) / 0x100 % 0x100_0000 == r.writers && Encode(r) / 4 % 0x40 == r.spare
    ensures Encode(r) / 2 % 2 == Bit(r.flushing) && Encode(r) % 2 == Bit(r.sealed)
  {
    var high := r.offset * MAX_WRITERS + r.writers;
    assert Encode(r) == high * 256 + Low(r);
    AboveByte(high, Low(r));
    FlagDigits(high * 64 + r.spare, Bit(r.flushing), Bit(r.sealed));
  }

  lemma AboveByte(high: nat, low: nat)
    requires low < 256
    ensures (high * 256 + low) / 256 == high
  {
  }

  lemma FlagDigits(high: nat, flush: nat, seal: nat)
    requires flush < 2 && seal < 2
    ensures var w := high * 4 + flush * 2 + seal; w / 4 == high && w / 2 % 2 == flush && w % 2 == seal
  {
  }

  /** Both decoders read the same four values out of every word, and those are
      the values it was built from. */
  lemma DecodersAgree(r: Word)
    requires Fits(r)
    ensures State(Encode(r)).Offset() == StateOffset(Encode(r)) == r.offset
    ensures State(Encode(r)).NumWriters() == StateWriters(Encode(r)) == r.writers
    ensures State(Encode(r)).Flushing() == StateFlushInProgress(Encode(r)) == r.flushing
    ensures State(Encode(r)).Sealed() == StateSealed(Encode(r)) == r.sealed
  {
    hide And, Encode;
    MasksRead(r);
    DivisionsRead(r);
  }

  /** Both flag bits together: what `reserve_space` and `is_available` test. */
  lemma FlagsTest(w: Packed)
    ensures And(w, SEALED_BIT + FLUSH_IN_PROGRESS_BIT) == 0 <==> !Decode(w).sealed && !Decode(w).flushing
  {
    hide And, Decode;
    EncodeDecode(w);
    MasksRead(Decode(w));
  }

  lemma WrapOnce(w: Packed, n: Packed)
    ensures WrappingAdd(w, n) == if w + n < WORD_LIMIT then w + n else w + n - WORD_LIMIT
    ensures WrappingSub(w, n) == if w >= n then w - n else w + WORD_LIMIT - n
  {
  }

  /** The two wrapping additions are a reservation, for every word at all:
      carries out of a field are accounted for, not excluded. */
  lemma ReserveRefines(w: Packed, size: nat)
    requires size <= ONE_MEGABYTE_BLOCK
    ensures Decode(PackedReserve(w, size)) == Reserve(Decode(w), size)
    ensures var r := Decode(w);
            r.offset + size < 0x1_0000_0000 && r.writers + 1 < 0x100_0000 ==>
              Decode(PackedReserve(w, size)) == r.(offset := r.offset + size, writers := r.writers + 1)
  {
    hide Decode, Encode, And, WrappingAdd;
    EncodeDecode(w);
    var r := Decode(w);
    OffsetAdds(r, size);
    OneWriterAdds(r.(offset := (r.offset + size) % MAX_OFFSET));
    CarryMoves(r.offset, size);
    DecodeEncode(Reserve(r, size));
  }

  lemma CarryMoves(offset: nat, size: nat)
    ensures ((offset + size) % MAX_OFFSET + 1) % MAX_OFFSET == (offset + size + 1) % MAX_OFFSET
    ensures (offset + size) % MAX_OFFSET % MAX_OFFSET == (offset + size) % MAX_OFFSET
  {
  }

  lemma OffsetAdds(r: Word, size: nat)
    requires Fits(r) && size <= ONE_MEGABYTE_BLOCK
    ensures WrappingAdd(Encode(r), size * OFFSET_ONE) == Encode(r.(offset := (r.offset + size) % MAX_OFFSET))
  {
    hide WrappingAdd;
    WrapOnce(Encode(r), size * OFFSET_ONE);
    var total := r.offset + size;
    assert total % MAX_OFFSET == if total < MAX_OFFSET then total else total - MAX_OFFSET;
  }

  lemma OneWriterAdds(r: Word)
    requires Fits(r)
    ensures Fits(Reserve(r, 0)) && WrappingAdd(Encode(r), WRITER_ONE) == Encode(Reserve(r, 0))
  {
    hide WrappingAdd;
    WrapOnce(Encode(r), WRITER_ONE);
    assert r.offset % MAX_OFFSET == r.offset;
    assert (r.offset + 1) % MAX_OFFSET == if r.offset + 1 < MAX_OFFSET then r.offset + 1 else 0;
  }

  lemma DecrementRefines(w: Packed)
    ensures Decode(PackedDecrement(w)) == Release(Decode(w))
    ensures Decode(w).writers > 0 ==> Decode(PackedDecrement(w)) == Decode(w).(writers := Decode(w).writers - 1)
  {
    hide Decode, Encode, And;
    EncodeDecode(w);
    OneWriterSubtracts(Decode(w));
    DecodeEncode(Release(Decode(w)));
  }

  lemma OneWriterSubtracts(r: Word)
    requires Fits(r)
    ensures Fits(Release(r)) && PackedDecrement(Encode(r)) == Encode(Release(r))
  {
    hide WrappingSub;
    WrapOnce(Encode(r), WRITER_ONE);
    assert (r.offset + MAX_OFFSET - 1) % MAX_OFFSET == if r.offset > 0 then r.offset - 1 else MAX_OFFSET - 1;
  }

  /** `fetch_or` with either flag bit sets that flag and nothing else. */
  lemma SealRefines(w: Packed)
    ensures Or(w, SEALED_BIT) < WORD_LIMIT
    ensures Decode(Or(w, SEALED_BIT)) == Seal(Decode(w)) == Decode(w).(sealed := true)
  {
    hide Decode, And, Or;
    EncodeDecode(w);
    var r := Decode(w);
    LowestDigit(2 * Upper(r) + Bit(r.flushing), Bit(r.sealed));
    assert Or(w, SEALED_BIT) == Encode(Seal(r));
    DecodeEncode(Seal(r));
  }

  lemma SetFlushRefines(w: Packed)
    ensures Or(w, FLUSH_IN_PROGRESS_BIT) < WORD_LIMIT
    ensures Decode(Or(w, FLUSH_IN_PROGRESS_BIT)) == SetFlush(Decode(w)) == Decode(w).(flushing := true)
  {
    hide Decode, And, Or;
    EncodeDecode(w);
    var r := Decode(w);
    SecondDigit(Upper(r), Bit(r.flushing), Bit(r.sealed));
    assert Or(w, FLUSH_IN_PROGRESS_BIT) == Encode(SetFlush(r));
    DecodeEncode(SetFlush(r));
  }

  const NOT_FLUSH_IN_PROGRESS: nat := WORD_LIMIT - 1 - FLUSH_IN_PROGRESS_BIT
  const LOW_HALF: nat := 0xFFFF_FFFF

  /** `fetch_and` with the complement of the flush bit clears that flag and
      nothing else. */
  lemma ClearFlushRefines(w: Packed)
    ensures And(w, NOT_FLUSH_IN_PROGRESS) < WORD_LIMIT
    ensures Decode(And(w, NOT_FLUSH_IN_PROGRESS)) == ClearFlush(Decode(w)) == Decode(w).(flushing := false)
  {
    hide Decode, And;
    EncodeDecode(w);
    var r := Decode(w);
    Powers();
    SecondDigitCleared(Upper(r), Bit(r.flushing), Bit(r.sealed), 62);
    assert And(w, NOT_FLUSH_IN_PROGRESS) == Encode(ClearFlush(r));
    DecodeEncode(ClearFlush(r));
  }

  /** The mask of `reset_offset` clears the offset and keeps writers and flags. */
  lemma ZeroOffsetRefines(w: Packed)
    ensures And(w, LOW_HALF) < WORD_LIMIT
    ensures Decode(And(w, LOW_HALF)) == ZeroOffset(Decode(w)) == Decode(w).(offset := 0)
  {
    hide Decode, And;
    EncodeDecode(w);
    var r := Decode(w);
    Powers();
    ShlIsProduct(r.offset, 32);
    AndLow(r.offset, r.writers * WRITER_ONE + Low(r), 32);
    assert And(w, LOW_HALF) == Encode(ZeroOffset(r));
    DecodeEncode(ZeroOffset(r));
  }
}
