/** One flush buffer: its packed atomic word, its memory and its address.  Each
    method that touches the word is one atomic access, specified on the record
    the word stands for. */
module FlushBuffers {
  import opened Bits
  import opened Files
  import opened StateWord

  /** A submission-queue entry: write `len` bytes of `mem` to file offset `at`. */
  datatype SubmitEntry = SubmitEntry(mem: array<bv8>, len: nat, at: nat, userData: nat)

  datatype BufferError =
    | InsufficientSpace
    | EncounteredSealedBuffer
    | EncounteredSealedBufferDuringCOMPEX
    | FailedReservation
    | RingExhausted

  datatype Result<+T> = Ok(value: T) | Err(error: BufferError)

  /** The word of a new or reset buffer. */
  lemma ZeroWord()
    ensures Decode(0) == ZERO
  {
    hide Decode;
    assert Encode(ZERO) == 0;
    DecodeEncode(ZERO);
  }

  class FlushBuffer {
    var state: Packed
    const mem: array<bv8>
    const pos: nat
    var localAddress: nat
    var sqe: Option<SubmitEntry>

    ghost function Word(): (w: Word)
      reads this
    {
      Decode(state)
    }

    constructor (pos: nat, size: nat)
      ensures this.pos == pos && state == 0 && Word() == ZERO && localAddress == 0 && sqe == None
      ensures Word().offset == 0 && Word().writers == 0 && !Word().flushing && !Word().sealed
      ensures fresh(mem) && mem[..] == Zeros(size)
      ensures mem.Length == size && forall i :: 0 <= i < size ==> mem[i] == 0
    {
      ZeroWord();
      state := 0;
      mem := new bv8[size](i => ZERO_BYTE);
      this.pos := pos;
      localAddress := 0;
      sqe := None;
    }

    // ---- loads ----------------------------------------------------------

    method IsAvailable() returns (b: bool)
      ensures b <==> !Word().sealed && !Word().flushing && Word().offset == 0
    {
      FlagsTest(state);
      b := And(state, SEALED_BIT + FLUSH_IN_PROGRESS_BIT) == 0 && StateOffset(state) == 0;
    }

    method Size() returns (n: nat)
      ensures n == Word().offset
    {
      n := StateOffset(state);
    }

    /** How many bytes a flush writes: whole blocks. */
    method DataLen() returns (n: nat)
      ensures n == NextMultipleOf(Word().offset, FOUR_KB_BLOCK)
      ensures n % 4096 == 0 && Word().offset <= n < Word().offset + 4096
    {
      n := NextMultipleOf(StateOffset(state), FOUR_KB_BLOCK);
    }

    /** The number that stands for this buffer in a completion; never zero. */
    function UserData(): (u: nat)
      ensures u > 0
    {
      pos + 1
    }

    // ---- reservation ----------------------------------------------------

    /** The first half of a reservation: what a loaded word allows. */
    method Examine(loaded: Packed, payloadSize: nat) returns (r: Result<nat>)
      requires payloadSize <= ONE_MEGABYTE_BLOCK
      ensures r == var w := Decode(loaded);
                   if w.sealed || w.flushing then Err(EncounteredSealedBuffer)
                   else if w.offset + payloadSize > 0x10_0000 then Err(InsufficientSpace)
                   else Ok(w.offset)
    {
      FlagsTest(loaded);
      if And(loaded, SEALED_BIT + FLUSH_IN_PROGRESS_BIT) != 0 {
        return Err(EncounteredSealedBuffer);
      }
      var offset := StateOffset(loaded);
      if offset + payloadSize > ONE_MEGABYTE_BLOCK {
        return Err(InsufficientSpace);
      }
      return Ok(offset);
    }

    /** The second half: the exchange succeeds exactly when the word is still
        the loaded one, and then reserves. */
    method Exchange(loaded: Packed, payloadSize: nat) returns (swapped: bool)
      requires payloadSize <= ONE_MEGABYTE_BLOCK
      modifies this`state
      ensures swapped <==> old(Word()) == Decode(loaded)
      ensures Word() == if swapped then Reserve(old(Word()), payloadSize) else old(Word())
      ensures swapped && old(Word()).offset + payloadSize <= 0x10_0000 && old(Word()).writers < 0xFF_FFFF ==>
                Word() == old(Word().(offset := Word().offset + payloadSize, writers := Word().writers + 1))
    {
      hide Decode;
      var target := PackedReserve(loaded, payloadSize);
      ReserveRefines(loaded, payloadSize);
      EncodeDecode(loaded);
      EncodeDecode(state);
      swapped := state == loaded;
      if swapped {
        state := target;
      }
    }

    /** Undisturbed, a reservation never fails for contention. */
    method ReserveSpace(payloadSize: nat) returns (r: Result<nat>)
      requires payloadSize <= ONE_MEGABYTE_BLOCK
      modifies this`state
      ensures r == var w := old(Word());
                   if w.sealed || w.flushing then Err(EncounteredSealedBuffer)
                   else if w.offset + payloadSize > 0x10_0000 then Err(InsufficientSpace)
                   else Ok(w.offset)
      ensures Word() == if r.Ok? then Reserve(old(Word()), payloadSize) else old(Word())
      ensures r.Ok? && old(Word()).writers < 0xFF_FFFF ==>
                Word() == old(Word().(offset := Word().offset + payloadSize, writers := Word().writers + 1))
    {
      var loaded := state;
      r := Examine(loaded, payloadSize);
      if r.Ok? {
        var swapped := Exchange(loaded, payloadSize);
        if !swapped {
          return Err(FailedReservation);
        }
      }
    }

    /** Copy `payload` to `offset`. */
    method Write(offset: nat, payload: Bytes)
      requires offset + |payload| <= mem.Length
      modifies mem
      ensures mem[..] == Blit(old(mem[..]), offset, payload)
      ensures forall i :: 0 <= i < mem.Length ==>
                mem[i] == if 0 <= i - offset < |payload| then payload[i - offset] else old(mem[i])
    {
      forall i | 0 <= i < |payload| {
        mem[offset + i] := payload[i];
      }
    }

    // ---- read-modify-write operations; each returns the previous word ---

    method DecrementWriters() returns (prev: Packed)
      modifies this`state
      ensures prev == old(state) && Word() == Release(Decode(prev))
      ensures Decode(prev).writers > 0 ==> Word() == Decode(prev).(writers := Decode(prev).writers - 1)
    {
      prev := state;
      DecrementRefines(state);
      state := PackedDecrement(state);
    }

    method SetFlushInProgress() returns (prev: Packed)
      modifies this`state
      ensures prev == old(state) && Word() == Decode(prev).(flushing := true)
    {
      prev := state;
      SetFlushRefines(state);
      state := Or(state, FLUSH_IN_PROGRESS_BIT);
    }

    method ClearFlushInProgress() returns (prev: Packed)
      modifies this`state
      ensures prev == old(state) && Word() == Decode(prev).(flushing := false)
    {
      prev := state;
      ClearFlushRefines(state);
      state := And(state, NOT_FLUSH_IN_PROGRESS);
    }

    method SetSealed() returns (prev: Packed)
      modifies this`state
      ensures prev == old(state) && Word() == Decode(prev).(sealed := true)
    {
      prev := state;
      SealRefines(state);
      state := Or(state, SEALED_BIT);
    }

    /** Only the first of several sealers succeeds. */
    method Seal() returns (r: Result<()>)
      modifies this`state
      ensures Word() == old(Word()).(sealed := true)
      ensures r == if old(Word()).sealed then Err(EncounteredSealedBufferDuringCOMPEX) else Ok(())
    {
      var prev := SetSealed();
      if StateSealed(prev) {
        return Err(EncounteredSealedBufferDuringCOMPEX);
      }
      return Ok(());
    }

    /** Clears the offset and nothing else, of the word as it is at the exchange
        that succeeds.  `others` are the words other threads store, one between
        each load and the exchange that follows; `seen` of them have come by then:
        all of them, unless one is the very word that was loaded. */
    method ResetOffset(others: seq<Packed>) returns (seen: nat)
      modifies this`state
      ensures seen <= |others|
      ensures seen < |others| ==> seen > 0 && others[seen - 1] == if seen == 1 then old(state) else others[seen - 2]
      ensures Word() == (if seen == 0 then old(Word()) else Decode(others[seen - 1])).(offset := 0)
    {
      var done := false;
      seen := 0;
      while !done
        invariant seen <= |others|
        invariant !done ==> state == (if seen == 0 then old(state) else others[seen - 1])
        invariant done && seen < |others| ==>
                    seen > 0 && others[seen - 1] == if seen == 1 then old(state) else others[seen - 2]
        invariant done ==> Word() == (if seen == 0 then old(Word()) else Decode(others[seen - 1])).(offset := 0)
        decreases if done then 0 else 1 + |others| - seen
      {
        var current := state;
        var zeroed := And(current, LOW_HALF);
        ZeroOffsetRefines(current);
        if seen < |others| {
          state := others[seen];
          seen := seen + 1;
        }
        if state == current {
          state := zeroed;
          done := true;
        }
      }
    }
  }
}
