/** Reading through the aligned path, submitting a buffer, and draining the
    completion queue. */
module QuikIo {
  import opened Bits
  import opened Files
  import opened FlushBuffers

  const FOUR_KB_PAGE: nat := 4096
  const U32_LIMIT: nat := 0x1_0000_0000
  const U64_LIMIT: nat := 0x1_0000_0000_0000_0000

  // ---- alignment --------------------------------------------------------

  /** `offset & !(FOUR_KB_PAGE - 1)`. */
  function AlignDown(offset: nat): nat
  {
    And(offset, U64_LIMIT - FOUR_KB_PAGE)
  }

  lemma AlignDownIsPage(offset: nat)
    requires offset < 0x1_0000_0000_0000_0000
    ensures AlignDown(offset) == offset / 4096 * 4096 <= offset < AlignDown(offset) + 4096
  {
    hide And;
    var hi, lo := offset / FOUR_KB_PAGE, offset % FOUR_KB_PAGE;
    Powers();
    ShlIsProduct(hi, 12);
    ShlIsProduct(Pow2(52) - 1, 12);
    AndJoin(hi, lo, Pow2(52) - 1, 0, 12);
    AndOnes(hi, 52);
    AndNothing(lo);
  }

  lemma AndNothing(x: nat)
    ensures And(x, 0) == 0
  {
  }

  lemma NextMultiple(n: nat)
    ensures n <= NextMultipleOf(n, FOUR_KB_PAGE) < n + FOUR_KB_PAGE
    ensures NextMultipleOf(n, FOUR_KB_PAGE) % FOUR_KB_PAGE == 0
  {
  }

  /** How far `offset` is into its page. */
  function Delta(offset: nat): (d: nat)
    requires offset < U64_LIMIT
    ensures d == offset - AlignDown(offset) == offset % 4096
  {
    AlignDownIsPage(offset);
    offset - AlignDown(offset)
  }

  function AlignedLen(offset: nat, len: nat): (n: nat)
    requires offset < U64_LIMIT
    ensures offset % 4096 + len <= n < offset % 4096 + len + 4096
    ensures n % 4096 == 0
  {
    NextMultiple(len + Delta(offset));
    NextMultipleOf(len + Delta(offset), FOUR_KB_PAGE)
  }

  // ---- what a read delivers ---------------------------------------------

  /** A zeroed buffer of `size` bytes after the kernel read `count` bytes of the
      file into it; the kernel stops at the end of the file. */
  function Filled(file: File, at: nat, size: nat, count: nat): (r: Bytes)
    requires count <= size
    ensures |r| == size
  {
    seq(size, i requires 0 <= i < size => if i < count && at + i < |file| then file[at + i] else ZERO_BYTE)
  }

  /** The bytes `read` copies out; the length of the request is cut to 32 bits. */
  function Delivered(file: File, offset: nat, len: nat): (r: Bytes)
    requires offset < U64_LIMIT
    ensures |r| == len
  {
    CutSmaller(AlignedLen(offset, len));
    Filled(file, AlignDown(offset), AlignedLen(offset, len),
           AlignedLen(offset, len) % U32_LIMIT)[Delta(offset)..Delta(offset) + len]
  }

  lemma CutSmaller(n: nat)
    ensures n % U32_LIMIT <= n
    ensures n < U32_LIMIT ==> n % U32_LIMIT == n
    ensures n >= U32_LIMIT ==> n % U32_LIMIT <= n - U32_LIMIT
  {
  }

  lemma DeliveredByte(file: File, offset: nat, len: nat, i: nat)
    requires offset < U64_LIMIT && i < len
    ensures Delivered(file, offset, len)[i]
         == if Delta(offset) + i < AlignedLen(offset, len) % U32_LIMIT then ByteAt(file, offset + i) else ZERO_BYTE
  {
    hide AlignDown, NextMultipleOf;
    CutSmaller(AlignedLen(offset, len));
  }

  /** With a request that fits 32 bits, reading is taking a slice of the file,
      with zeros past its end. */
  lemma DeliversSlice(file: File, offset: nat, len: nat)
    requires offset < U64_LIMIT && AlignedLen(offset, len) < U32_LIMIT
    ensures Delivered(file, offset, len) == ReadAt(file, offset, len)
    ensures forall i :: 0 <= i < len ==>
              Delivered(file, offset, len)[i] == if offset + i < |file| then file[offset + i] else 0
  {
    hide AlignDown, NextMultipleOf, Delivered;
    CutSmaller(AlignedLen(offset, len));
    forall i | 0 <= i < len
      ensures Delivered(file, offset, len)[i] == ReadAt(file, offset, len)[i] == ByteAt(file, offset + i)
    {
      DeliveredByte(file, offset, len, i);
    }
  }

  /** A file of ones, on which a cut shows. */
  function Ones(n: nat): (f: File)
    ensures |f| == n && forall i :: 0 <= i < n ==> f[i] == 1
  {
    seq(n, i => 1 as bv8)
  }

  /** The cut leaves out the last byte wanted. */
  lemma CutLoses(offset: nat, len: nat)
    requires offset < U64_LIMIT && AlignedLen(offset, len) >= U32_LIMIT
    ensures Delivered(Ones(offset + len), offset, len) != ReadAt(Ones(offset + len), offset, len)
  {
    hide AlignDown, NextMultipleOf, Delivered, Ones;
    CutSmaller(AlignedLen(offset, len));
    DeliveredByte(Ones(offset + len), offset, len, len - 1);
    assert Ones(offset + len)[offset + (len - 1)] == 1;
    assert ReadAt(Ones(offset + len), offset, len)[len - 1] == ByteAt(Ones(offset + len), offset + (len - 1));
  }

  ghost predicate ReadsSlices(offset: nat, len: nat)
    requires offset < U64_LIMIT
  {
    forall file: File :: Delivered(file, offset, len) == ReadAt(file, offset, len)
  }

  lemma FitsRequest(offset: nat, len: nat)
    requires offset < U64_LIMIT
    ensures AlignedLen(offset, len) < U32_LIMIT <==> offset % 4096 + len <= 0xFFFF_F000
  {
    hide AlignDown, NextMultipleOf;
    AlignDownIsPage(offset);
  }

  /** A read is a slice of every file exactly when the pages it touches fit the
      32-bit length of the request. */
  lemma ReadsSlicesExactly(offset: nat, len: nat)
    requires offset < U64_LIMIT
    ensures ReadsSlices(offset, len) <==> offset % 4096 + len <= 0xFFFF_F000
  {
    hide Delivered, ReadAt, AlignedLen;
    FitsRequest(offset, len);
    if AlignedLen(offset, len) < U32_LIMIT {
      forall file: File ensures Delivered(file, offset, len) == ReadAt(file, offset, len) {
        DeliversSlice(file, offset, len);
      }
    } else {
      CutLoses(offset, len);
    }
  }

  /** Reading any part of a written extent returns the bytes written. */
  lemma SubmittedReadsBack(file: File, at: nat, data: Bytes, from: nat, count: nat)
    requires from + count <= |data| && at + from < U64_LIMIT
    requires (at + from) % 4096 + count <= 0xFFFF_F000
    ensures Delivered(WriteAt(file, at, data), at + from, count) == data[from..from + count]
  {
    hide Delivered, ReadAt, WriteAt;
    FitsRequest(at + from, count);
    DeliversSlice(WriteAt(file, at, data), at + from, count);
    ReadBack(file, at, data, |data|);
    ReadPart(WriteAt(file, at, data), at, |data|, from, count);
    assert data[..|data|] == data;
  }

  // ---- the store --------------------------------------------------------

  /** A completion: `result` is negative for an error. */
  datatype Cqe = Cqe(userData: nat, result: int)

  datatype IoError = QueueFull | NoCompletion | Errno(code: nat)

  datatype Outcome = Done | Failed(error: IoError)

  /** What becomes of a push: the queue is full, or the entry is in it, and then
      the kernel takes it now or is not reached and takes it with a later one. */
  datatype Pushed = Full | Accepted | Deferred(code: nat)

  /** What becomes of a read: the queue was full, no completion came, or the
      kernel answered. */
  datatype Served = Refused | Unanswered | Answered(result: int)

  class Store {
    var file: File
    var outstanding: map<nat, SubmitEntry>
    var nextId: nat
    var cq: seq<Cqe>
    var lateReads: nat   // reads that gave up before their own completion

    constructor ()
      ensures file == [] && outstanding == map[] && nextId == 0 && cq == [] && lateReads == 0
    {
      file, outstanding, nextId, cq, lateReads := [], map[], 0, [], 0;
    }

    /** Push a write and keep a copy of it with the buffer; with no room in the
        queue, do neither.  An error after the push takes neither back. */
    method Submit(mem: array<bv8>, len: nat, at: nat, userData: nat, buffer: FlushBuffer, pushed: Pushed)
      returns (r: Outcome)
      modifies this`outstanding, this`nextId, buffer`sqe
      ensures r == match pushed
                   case Full => Failed(QueueFull)
                   case Accepted => Done
                   case Deferred(code) => Failed(Errno(code))
      ensures pushed != Full ==>
                outstanding == old(outstanding)[old(nextId) := SubmitEntry(mem, len, at, userData)]
      ensures pushed != Full ==> nextId == old(nextId) + 1 && buffer.sqe == Some(SubmitEntry(mem, len, at, userData))
      ensures pushed == Full ==>
                outstanding == old(outstanding) && nextId == old(nextId) && buffer.sqe == old(buffer.sqe)
    {
      var entry := SubmitEntry(mem, len, at, userData);
      if pushed == Full {
        return Failed(QueueFull);
      }
      outstanding := outstanding[nextId := entry];
      nextId := nextId + 1;
      buffer.sqe := Some(entry);
      match pushed
      case Deferred(code) => return Failed(Errno(code));
      case _ => return Done;
    }

    /** Push a kept submission again. */
    method Retry(entry: SubmitEntry, pushed: Pushed) returns (r: Outcome)
      modifies this`outstanding, this`nextId
      ensures r == match pushed
                   case Full => Failed(QueueFull)
                   case Accepted => Done
                   case Deferred(code) => Failed(Errno(code))
      ensures pushed != Full ==> outstanding == old(outstanding)[old(nextId) := entry] && nextId == old(nextId) + 1
      ensures pushed == Full ==> outstanding == old(outstanding) && nextId == old(nextId)
    {
      if pushed == Full {
        return Failed(QueueFull);
      }
      outstanding := outstanding[nextId := entry];
      nextId := nextId + 1;
      match pushed
      case Deferred(code) => return Failed(Errno(code));
      case _ => return Done;
    }

    /** Take every completion there is, in order. */
    method Completions() returns (entries: seq<Cqe>)
      modifies this`cq
      ensures entries == old(cq) && cq == []
    {
      entries := [];
      while cq != []
        invariant entries + cq == old(cq)
        decreases |cq|
      {
        entries := entries + [cq[0]];
        cq := cq[1..];
      }
    }

    /** Read `len` bytes at `offset` into `dst` through an aligned buffer.  The
        first completion in the queue is taken for the answer: the read's own if
        the queue was empty, and then its data has arrived; otherwise somebody
        else's, which is lost to them.  The read's own completion then stays in
        the queue if its data has arrived, and comes later if not.  A read that
        finds no completion at all leaves its own to come later too. */
    method Read(dst: array<bv8>, len: nat, offset: nat, served: Served, arrived: bool) returns (r: Outcome)
      requires offset < U64_LIMIT && len <= dst.Length
      requires cq == [] ==> arrived
      modifies dst, this`cq, this`lateReads
      ensures r == match served
                   case Refused => Failed(QueueFull)
                   case Unanswered => Failed(NoCompletion)
                   case Answered(result) =>
                     var taken := if old(cq) == [] then result else old(cq)[0].result;
                     if taken < 0 then Failed(Errno(-taken)) else Done
      ensures cq == if served.Answered? && old(cq) != []
                    then old(cq)[1..] + (if arrived then [Cqe(0, served.result)] else [])
                    else old(cq)
      ensures lateReads == old(lateReads) + (if served.Unanswered? || (served.Answered? && !arrived) then 1 else 0)
      ensures r != Done ==> dst[..] == old(dst[..])
      ensures r == Done ==>
                dst[..] == Blit(old(dst[..]), 0, if arrived then Delivered(file, offset, len) else Zeros(len))
    {
      hide AlignDown, NextMultipleOf, Filled;
      AlignDownIsPage(offset);
      var alignedOffset := AlignDown(offset);
      var delta := offset - alignedOffset;
      var alignedLen := NextMultipleOf(len + delta, FOUR_KB_PAGE);
      assert delta == Delta(offset) && alignedLen == AlignedLen(offset, len);
      CutSmaller(alignedLen);
      var temp := new bv8[alignedLen](i => ZERO_BYTE);
      match served
      case Refused => return Failed(QueueFull);
      case Unanswered =>
        lateReads := lateReads + 1;
        return Failed(NoCompletion);
      case Answered(result) =>
        if arrived {
          KernelRead(temp, alignedOffset, alignedLen % U32_LIMIT);
          cq := cq + [Cqe(0, result)];
        } else {
          lateReads := lateReads + 1;
        }
        var taken := cq[0].result;
        cq := cq[1..];
        if taken < 0 {
          return Failed(Errno(-taken));
        }
        CopyOut(temp, delta, dst, len);
        assert temp[..][delta..delta + len] == if arrived then Delivered(file, offset, len) else Zeros(len);
        return Done;
    }

    method CopyOut(temp: array<bv8>, delta: nat, dst: array<bv8>, len: nat)
      requires delta + len <= temp.Length && len <= dst.Length && temp != dst
      modifies dst
      ensures dst[..] == Blit(old(dst[..]), 0, temp[..][delta..delta + len])
    {
      forall i | 0 <= i < len {
        dst[i] := temp[delta + i];
      }
    }

    /** The kernel's part: as many bytes as asked for and as the file has. */
    method KernelRead(temp: array<bv8>, at: nat, count: nat)
      requires count <= temp.Length && forall i :: 0 <= i < temp.Length ==> temp[i] == ZERO_BYTE
      modifies temp
      ensures temp[..] == Filled(file, at, temp.Length, count)
    {
      forall i | 0 <= i < count && at + i < |file| {
        temp[i] := file[at + i];
      }
    }
  }
}
