/** Winning the flush, submitting it, completing it, and resetting the buffer. */
module RingFlushing {
  import opened Files
  import opened StateWord
  import opened RingProtocol
  import opened RingInvariant
  import opened RingFrames
  import opened RingQuiet
  import opened RingSealing

  // ---- win the flush bit ------------------------------------------------

  ghost predicate AtWin(s: Ring, t: nat, b: nat)
    requires Wf(s)
  {
    t < |s.threads| && (s.threads[t] == Claiming(b) || s.threads[t] == LastWriter(b)) && !s.bufs[b].word.flushing
  }

  lemma WinShape(s: Ring, t: nat, b: nat)
    requires Inv(s) && AtWin(s, t, b)
    ensures Confined(s, Next(s, t), t, b)
  {
    hide Local, WritesInv, BatchesInv, RecordsInv, ApartInv, ReceiptsInv, TargetsInv, EntriesOk, SealOk,
         WatchedOk, TokenOk;
    assert BufferInv(s, b);
  }

  lemma LocalWin(t: nat, pc: Pc, buf: Buffer, batch: Batch, c: nat, token: Token, wins: nat)
    requires Local(t, pc, buf, batch, c) && !buf.word.flushing
    ensures Local(t, pc, buf.(word := SetFlush(buf.word), token := token), batch.(wins := wins), c)
  {
    hide Pad;
  }

  lemma WinSelf(s: Ring, t: nat, b: nat)
    requires Inv(s) && AtWin(s, t, b) && Confined(s, Next(s, t), t, b)
    ensures ThreadInv(Next(s, t), t)
  {
    hide WritesInv, BatchesInv, RecordsInv, ApartInv, ReceiptsInv, TargetsInv, ThreadsInv, WordOk, EntriesOk,
         WatchedOk, SealOk, Pad;
    assert BufferInv(s, b);
  }

  lemma WinThreads(s: Ring, t: nat, b: nat)
    requires Inv(s) && AtWin(s, t, b) && Confined(s, Next(s, t), t, b)
    ensures ThreadsInv(Next(s, t)) && TargetsInv(Next(s, t))
  {
    hide Local, WritesInv, BatchesInv, RecordsInv, ApartInv, ReceiptsInv, BuffersInv;
    var s' := Next(s, t);
    WinSelf(s, t, b);
    forall t' | 0 <= t' < |s.threads| && t' != t && !s.threads[t'].Idle? && s.threads[t'].b == b
      ensures ThreadInv(s', t')
    {
      assert ThreadInv(s, t');
      LocalWin(t', s.threads[t'], s.bufs[b], BatchOf(s, b), s.counter, s'.bufs[b].token, BatchOf(s', b).wins);
    }
    AssembleThreads(s, s', t, b);
    forall t' | 0 <= t' < |s.threads| && t' != t ensures TargetInv(s', t', b) {
      assert TargetInv(s, t', b);
    }
    AssembleTargets(s, s', t, b);
  }

  /** The winner saw the buffer sealed and without writers, and it still is. */
  lemma WinBuffer(s: Ring, t: nat, b: nat)
    requires Inv(s) && AtWin(s, t, b) && Confined(s, Next(s, t), t, b)
    ensures BufferInv(Next(s, t), b)
  {
    hide WritesInv, BatchesInv, RecordsInv, ApartInv, ReceiptsInv, TargetsInv, EntriesOk, Tiled, End, Pad;
    var s' := Next(s, t);
    assert BufferInv(s, b);
    assert ThreadInv(s, t);
    SameHolders(s.threads, t, s'.threads[t], b);
    EntriesFrame(b, s.bufs[b].gen, s.bufs[b].mem, BatchOf(s, b).entries, s.threads, t, s'.threads[t]);
  }

  lemma WinRest(s: Ring, t: nat, b: nat)
    requires Inv(s) && AtWin(s, t, b) && Confined(s, Next(s, t), t, b)
    ensures var s' := Next(s, t); WritesInv(s') && BatchesInv(s') && RecordsInv(s') && ApartInv(s') && ReceiptsInv(s')
  {
    hide Local, WritesInv, RecordsInv, ApartInv, ReceiptsInv, ThreadsInv, TargetsInv, Pad, ReadAt, Image,
         ClosedOk, EntriesOk, WatchedOk, SealOk, Tiled, End;
    assert BatchInv(s, s.bufs[b].gen);
    assert BufferInv(s, b);
    RestKept(s, Next(s, t), t, b);
  }

  lemma KeepClaim(s: Ring, t: nat)
    requires Inv(s) && t < |s.threads| && (s.threads[t].Claiming? || s.threads[t].LastWriter?)
    ensures Inv(Next(s, t))
  {
    hide Local, WritesInv, BatchesInv, RecordsInv, ApartInv, ReceiptsInv, BuffersInv, ThreadsInv, TargetsInv;
    var b := s.threads[t].b;
    if s.bufs[b].word.flushing {
      KeepToIdle(s, t);
    } else {
      WinShape(s, t, b);
      WinThreads(s, t, b);
      WinBuffer(s, t, b);
      WinRest(s, t, b);
      AssembleBuffers(s, Next(s, t), t, b);
    }
  }

  // ---- hand the write to the ring, the first time or again --------------

  /** What a pushed entry must be. */
  ghost predicate AtPush(s: Ring, t: nat, b: nat)
    requires Wf(s)
  {
    && t < |s.threads| && b < |s.bufs| && !s.threads[t].Idle? && s.threads[t].b == b
    && Owner(s.threads[t], b) && s.bufs[b].token == WithThread(t) && s.bufs[b].word.flushing
    && BatchOf(s, b).published && !BatchOf(s, b).landed && BatchOf(s, b).record.None?
  }

  function Pushed(s: Ring, t: nat, b: nat): Ring
    requires t < |s.threads| && b < |s.bufs|
  {
    var w := Write(b, s.bufs[b].addr, Pad(s.bufs[b].word.offset));
    s.(bufs := s.bufs[b := s.bufs[b].(sqe := Some(w), token := InRing(s.nextId))],
       threads := s.threads[t := Idle],
       outstanding := s.outstanding[s.nextId := w],
       nextId := s.nextId + 1)
  }

  lemma PushShape(s: Ring, t: nat, b: nat)
    requires Inv(s) && AtPush(s, t, b)
    ensures Confined(s, Pushed(s, t, b), t, b) && KeepsWrites(s, Pushed(s, t, b), b)
  {
    hide Local, BatchesInv, RecordsInv, ApartInv, ReceiptsInv, TargetsInv, EntriesOk, SealOk, WatchedOk, TokenOk, Pad;
    assert BufferInv(s, b);
    assert s.nextId in s.outstanding ==> WriteInv(s, s.nextId);
  }

  lemma LocalPush(t: nat, me: nat, pc: Pc, buf: Buffer, batch: Batch, c: nat, sqe: Option<Write>, token: Token)
    requires Local(t, pc, buf, batch, c) && t != me && buf.token == WithThread(me)
    ensures Local(t, pc, buf.(sqe := sqe, token := token), batch, c)
  {
    hide Pad;
  }

  lemma PushThreads(s: Ring, t: nat, b: nat)
    requires Inv(s) && AtPush(s, t, b) && Confined(s, Pushed(s, t, b), t, b)
    ensures ThreadsInv(Pushed(s, t, b)) && TargetsInv(Pushed(s, t, b))
  {
    hide Local, WritesInv, BatchesInv, RecordsInv, ApartInv, ReceiptsInv, BuffersInv, Pad;
    var s' := Pushed(s, t, b);
    forall t' | 0 <= t' < |s.threads| && t' != t && !s.threads[t'].Idle? && s.threads[t'].b == b
      ensures ThreadInv(s', t')
    {
      assert ThreadInv(s, t');
      LocalPush(t', t, s.threads[t'], s.bufs[b], BatchOf(s, b), s.counter, s'.bufs[b].sqe, s'.bufs[b].token);
    }
    AssembleThreads(s, s', t, b);
    forall t' | 0 <= t' < |s.threads| && t' != t ensures TargetInv(s', t', b) {
      assert TargetInv(s, t', b);
    }
    AssembleTargets(s, s', t, b);
  }

  lemma PushBuffer(s: Ring, t: nat, b: nat)
    requires Inv(s) && AtPush(s, t, b) && Confined(s, Pushed(s, t, b), t, b)
    ensures BufferInv(Pushed(s, t, b), b)
  {
    hide Local, WritesInv, BatchesInv, RecordsInv, ApartInv, ReceiptsInv, TargetsInv, EntriesOk, Tiled, End, Pad;
    var s' := Pushed(s, t, b);
    assert BufferInv(s, b);
    SameHolders(s.threads, t, s'.threads[t], b);
    EntriesFrame(b, s.bufs[b].gen, s.bufs[b].mem, BatchOf(s, b).entries, s.threads, t, s'.threads[t]);
  }

  lemma PushWrites(s: Ring, t: nat, b: nat)
    requires Inv(s) && AtPush(s, t, b) && Confined(s, Pushed(s, t, b), t, b)
    ensures WritesInv(Pushed(s, t, b))
  {
    hide Local, BatchesInv, RecordsInv, ApartInv, ReceiptsInv, TargetsInv, BuffersInv, ThreadsInv, Pad;
    var s' := Pushed(s, t, b);
    forall id | id in s'.outstanding ensures WriteInv(s', id) {
      if id in s.outstanding { assert WriteInv(s, id); }
    }
  }

  lemma PushRest(s: Ring, t: nat, b: nat)
    requires Inv(s) && AtPush(s, t, b) && Confined(s, Pushed(s, t, b), t, b)
    ensures var s' := Pushed(s, t, b); BatchesInv(s') && RecordsInv(s') && ApartInv(s') && ReceiptsInv(s')
  {
    hide Local, WritesInv, TargetsInv, BuffersInv, ThreadsInv, Pad, BatchOk, ClosedOk, Apart, ReceiptOk;
    var s' := Pushed(s, t, b);
    forall g | 0 <= g < |s'.batches| ensures BatchInv(s', g) { assert BatchInv(s, g); }
    forall r | 0 <= r < |s'.records| ensures RecordInv(s', r) { assert RecordInv(s, r); }
  }

  lemma KeepPushed(s: Ring, t: nat, b: nat)
    requires Inv(s) && AtPush(s, t, b)
    ensures Inv(Pushed(s, t, b))
  {
    hide Local, WritesInv, BatchesInv, RecordsInv, ApartInv, ReceiptsInv, BuffersInv, ThreadsInv, TargetsInv, Pad;
    PushShape(s, t, b);
    PushThreads(s, t, b);
    PushBuffer(s, t, b);
    PushWrites(s, t, b);
    PushRest(s, t, b);
    AssembleBuffers(s, Pushed(s, t, b), t, b);
  }

  lemma KeepPush(s: Ring, t: nat)
    requires Inv(s) && t < |s.threads| && s.threads[t].Pushing?
    ensures Inv(Next(s, t)) && Next(s, t) == Pushed(s, t, s.threads[t].b)
  {
    hide WritesInv, BatchesInv, RecordsInv, ApartInv, ReceiptsInv, BuffersInv, TargetsInv, Pad;
    assert ThreadInv(s, t);
    KeepPushed(s, t, s.threads[t].b);
  }

  /** Pushing the kept entry again repeats the first submission exactly. */
  lemma KeepRetry(s: Ring, t: nat)
    requires Inv(s) && t < |s.threads| && s.threads[t].Retrying?
    ensures Inv(Next(s, t)) && Next(s, t) == Pushed(s, t, s.threads[t].b)
  {
    hide WritesInv, BatchesInv, RecordsInv, ApartInv, ReceiptsInv, BuffersInv, TargetsInv, Pad;
    assert ThreadInv(s, t);
    KeepPushed(s, t, s.threads[t].b);
  }

  // ---- take a completion ------------------------------------------------

  /** The outcome of either kind of completion of a write of buffer `b`. */
  function Taken(s: Ring, t: nat, id: nat, b: nat, landed: bool, disk: File): Ring
    requires t < |s.threads| && b < |s.bufs| && s.bufs[b].gen < |s.batches|
  {
    s.(bufs := s.bufs[b := s.bufs[b].(token := WithThread(t))],
       batches := s.batches[s.bufs[b].gen := BatchOf(s, b).(landed := landed)],
       threads := s.threads[t := if landed then Reaping(b) else Retrying(b)],
       outstanding := s.outstanding - {id},
       disk := disk)
  }

  /** An outstanding write is the one its buffer waits for. */
  ghost predicate AtTake(s: Ring, t: nat, id: nat, b: nat)
    requires Wf(s)
  {
    && t < |s.threads| && s.threads[t].Idle? && b < |s.bufs|
    && id in s.outstanding
    && s.outstanding[id] == Write(b, s.bufs[b].addr, Pad(s.bufs[b].word.offset))
    && s.bufs[b].token == InRing(id)
    && s.bufs[b].sqe == Some(s.outstanding[id])
    && s.bufs[b].word.flushing
    && BatchOf(s, b).published && !BatchOf(s, b).landed && BatchOf(s, b).record.None?
  }

  lemma OutstandingIs(s: Ring, t: nat, id: nat)
    requires Inv(s) && t < |s.threads| && s.threads[t].Idle? && id in s.outstanding
    ensures AtTake(s, t, id, s.outstanding[id].buf)
  {
    hide Local, BatchesInv, RecordsInv, ApartInv, ReceiptsInv, TargetsInv, ThreadsInv, WordOk, EntriesOk,
         WatchedOk, SealOk, Pad;
    assert WriteInv(s, id);
    assert BufferInv(s, s.outstanding[id].buf);
  }

  /** Only the awaited range changes on disk; every other batch's is as it was. */
  ghost predicate DiskOutside(disk: File, disk': File, x: Extent)
  {
    forall at: nat, len: nat :: at + len <= x.at || x.at + x.len <= at ==>
      ReadAt(disk', at, len) == ReadAt(disk, at, len)
  }

  lemma TakeShape(s: Ring, t: nat, id: nat, b: nat, landed: bool, disk: File)
    requires Inv(s) && AtTake(s, t, id, b)
    ensures var s' := Taken(s, t, id, b, landed, disk); Confined(s, s', t, b) && KeepsWrites(s, s', b)
  {
    hide Local, BatchesInv, RecordsInv, ApartInv, ReceiptsInv, TargetsInv, WritesInv, EntriesOk, SealOk,
         WatchedOk, TokenOk, Pad;
    assert BufferInv(s, b);
  }

  lemma LocalTake(t: nat, pc: Pc, buf: Buffer, batch: Batch, c: nat, landed: bool, token: Token)
    requires Local(t, pc, buf, batch, c) && buf.token.InRing?
    ensures Local(t, pc, buf.(token := token), batch.(landed := landed), c)
  {
    hide Pad;
  }

  lemma TakeThreads(s: Ring, t: nat, id: nat, b: nat, landed: bool, disk: File)
    requires Inv(s) && AtTake(s, t, id, b)
    requires Confined(s, Taken(s, t, id, b, landed, disk), t, b)
    ensures var s' := Taken(s, t, id, b, landed, disk); ThreadsInv(s') && TargetsInv(s')
  {
    hide Local, WritesInv, BatchesInv, RecordsInv, ApartInv, ReceiptsInv, BuffersInv, Pad;
    var s' := Taken(s, t, id, b, landed, disk);
    forall t' | 0 <= t' < |s.threads| && t' != t && !s.threads[t'].Idle? && s.threads[t'].b == b
      ensures ThreadInv(s', t')
    {
      assert ThreadInv(s, t');
      LocalTake(t', s.threads[t'], s.bufs[b], BatchOf(s, b), s.counter, landed, WithThread(t));
    }
    TakeSelf(s, t, id, b, landed, disk);
    AssembleThreads(s, s', t, b);
    forall t' | 0 <= t' < |s.threads| && t' != t ensures TargetInv(s', t', b) {
      assert TargetInv(s, t', b);
    }
    AssembleTargets(s, s', t, b);
  }

  lemma TakeSelf(s: Ring, t: nat, id: nat, b: nat, landed: bool, disk: File)
    requires Inv(s) && AtTake(s, t, id, b)
    requires Confined(s, Taken(s, t, id, b, landed, disk), t, b)
    ensures ThreadInv(Taken(s, t, id, b, landed, disk), t)
  {
    hide WritesInv, BatchesInv, RecordsInv, ApartInv, ReceiptsInv, BuffersInv, TargetsInv, ThreadsInv, Pad;
  }

  lemma TakeBuffer(s: Ring, t: nat, id: nat, b: nat, landed: bool, disk: File)
    requires Inv(s) && AtTake(s, t, id, b)
    requires Confined(s, Taken(s, t, id, b, landed, disk), t, b)
    ensures BufferInv(Taken(s, t, id, b, landed, disk), b)
  {
    hide Local, WritesInv, BatchesInv, RecordsInv, ApartInv, ReceiptsInv, TargetsInv, EntriesOk, Tiled, End, Pad;
    var s' := Taken(s, t, id, b, landed, disk);
    assert BufferInv(s, b);
    SameHolders(s.threads, t, s'.threads[t], b);
    EntriesFrame(b, s.bufs[b].gen, s.bufs[b].mem, BatchOf(s, b).entries, s.threads, t, s'.threads[t]);
  }

  lemma TakeWrites(s: Ring, t: nat, id: nat, b: nat, landed: bool, disk: File)
    requires Inv(s) && AtTake(s, t, id, b)
    requires Confined(s, Taken(s, t, id, b, landed, disk), t, b)
    ensures var s' := Taken(s, t, id, b, landed, disk);
            WritesInv(s') && RecordsInv(s') && ApartInv(s') && ReceiptsInv(s')
  {
    hide Local, BatchesInv, TargetsInv, BuffersInv, ThreadsInv, Pad, Apart;
    var s' := Taken(s, t, id, b, landed, disk);
    forall id' | id' in s'.outstanding ensures WriteInv(s', id') { assert WriteInv(s, id'); }
    forall r | 0 <= r < |s'.records| ensures RecordInv(s', r) { assert RecordInv(s, r); }
    forall k | 0 <= k < |s'.accepted| ensures ReceiptOk(s'.accepted[k], s'.batches) {
      assert ReceiptOk(s.accepted[k], s.batches);
    }
  }

  /** A batch that has landed before keeps its bytes. */
  lemma TakeOtherBatch(s: Ring, t: nat, id: nat, b: nat, landed: bool, disk: File, h: nat)
    requires Inv(s) && AtTake(s, t, id, b)
    requires BatchOf(s, b).extent.Some? && DiskOutside(s.disk, disk, BatchOf(s, b).extent.value)
    requires h < |s.batches| && h != s.bufs[b].gen
    ensures BatchInv(Taken(s, t, id, b, landed, disk), h)
  {
    hide Local, WritesInv, RecordsInv, ReceiptsInv, TargetsInv, BuffersInv, ThreadsInv, Pad, Image, ReadAt,
         ClosedOk, End;
    assert BatchInv(s, h);
    assert Apart(s.batches[h].extent, BatchOf(s, b).extent);
    PadCovers(End(s.batches[h].entries));
  }

  lemma LiveBatch(s: Ring, b: nat)
    requires Inv(s) && b < |s.bufs|
    ensures BatchOf(s, b).buf == b
  {
    hide Local, WritesInv, BatchesInv, RecordsInv, ApartInv, ReceiptsInv, TargetsInv, ThreadsInv, SealOk,
         WatchedOk, TokenOk, EntriesOk, Tiled, End;
    assert BufferInv(s, b);
  }

  lemma TakeBatches(s: Ring, t: nat, id: nat, b: nat, landed: bool, disk: File)
    requires Inv(s) && AtTake(s, t, id, b)
    requires BatchOf(s, b).extent.Some? && DiskOutside(s.disk, disk, BatchOf(s, b).extent.value)
    requires landed ==>
               ReadAt(disk, BatchOf(s, b).extent.value.at, End(BatchOf(s, b).entries)) == Image(BatchOf(s, b).entries)
    ensures BatchesInv(Taken(s, t, id, b, landed, disk))
  {
    hide Local, WritesInv, RecordsInv, ApartInv, ReceiptsInv, TargetsInv, BuffersInv, ThreadsInv, Pad, Image,
         ReadAt, ClosedOk, End, DiskOutside;
    var s' := Taken(s, t, id, b, landed, disk);
    assert BatchInv(s, s.bufs[b].gen);
    LiveBatch(s, b);
    forall h | 0 <= h < |s'.batches| ensures BatchInv(s', h) {
      if h != s.bufs[b].gen { TakeOtherBatch(s, t, id, b, landed, disk, h); }
    }
  }

  lemma KeepTaken(s: Ring, t: nat, id: nat, b: nat, landed: bool, disk: File)
    requires Inv(s) && AtTake(s, t, id, b)
    requires BatchOf(s, b).extent.Some? && DiskOutside(s.disk, disk, BatchOf(s, b).extent.value)
    requires landed ==>
               ReadAt(disk, BatchOf(s, b).extent.value.at, End(BatchOf(s, b).entries)) == Image(BatchOf(s, b).entries)
    ensures Inv(Taken(s, t, id, b, landed, disk))
  {
    hide Local, WritesInv, BatchesInv, RecordsInv, ApartInv, ReceiptsInv, BuffersInv, ThreadsInv, TargetsInv,
         Pad, DiskOutside, ReadAt, Image, End;
    TakeShape(s, t, id, b, landed, disk);
    TakeThreads(s, t, id, b, landed, disk);
    TakeBuffer(s, t, id, b, landed, disk);
    TakeWrites(s, t, id, b, landed, disk);
    TakeBatches(s, t, id, b, landed, disk);
    AssembleBuffers(s, Taken(s, t, id, b, landed, disk), t, b);
  }

  // ---- what a flushing buffer holds -------------------------------------

  /** When every entry is copied, memory starts with their image. */
  lemma {:induction false} MemoryIsImage(b: nat, gen: nat, mem: Bytes, entries: seq<Entry>, threads: seq<Pc>)
    requires EntriesOk(b, gen, mem, entries, threads) && Tiled(entries) && AllCopied(entries)
    requires |mem| == ONE_MEGABYTE_BLOCK
    ensures End(entries) <= |mem| && mem[..End(entries)] == Image(entries)
    decreases |entries|
  {
    if entries != [] {
      var n := |entries| - 1;
      var before, e := entries[..n], entries[n];
      assert EntryOk(b, gen, mem, e, n, At(threads, Some(e.owner)));
      forall i | 0 <= i < n ensures EntryOk(b, gen, mem, before[i], i, At(threads, Some(before[i].owner))) {
        assert EntryOk(b, gen, mem, entries[i], i, At(threads, Some(entries[i].owner)));
      }
      MemoryIsImage(b, gen, mem, before, threads);
      assert End(before) == e.off;
      assert mem[..End(entries)] == mem[..e.off] + mem[e.off..e.off + |e.payload|];
    }
  }

  /** No writer left means nothing left to copy. */
  lemma QuiescentCopied(s: Ring, b: nat)
    requires Inv(s) && b < |s.bufs| && s.bufs[b].word.writers == 0
    ensures AllCopied(BatchOf(s, b).entries)
  {
    hide Local, WritesInv, BatchesInv, RecordsInv, ApartInv, ReceiptsInv, TargetsInv, ThreadsInv, Tiled, End,
         SealOk, WatchedOk, TokenOk;
    assert BufferInv(s, b);
    var batch := BatchOf(s, b);
    forall i | 0 <= i < |batch.entries| ensures batch.entries[i].copied {
      var e := batch.entries[i];
      assert EntryOk(b, s.bufs[b].gen, s.bufs[b].mem, e, i, At(s.threads, Some(e.owner)));
      assert e.copied || e.owner in Holders(s.threads, b);
    }
  }

  /** A buffer without writers holds exactly its payloads, in order. */
  lemma QuiescentImage(s: Ring, b: nat)
    requires Inv(s) && b < |s.bufs| && s.bufs[b].word.writers == 0
    ensures s.bufs[b].word.offset == End(BatchOf(s, b).entries) <= |s.bufs[b].mem| == ONE_MEGABYTE_BLOCK
    ensures s.bufs[b].mem[..s.bufs[b].word.offset] == Image(BatchOf(s, b).entries)
  {
    hide Local, WritesInv, BatchesInv, RecordsInv, ApartInv, ReceiptsInv, TargetsInv, ThreadsInv, Tiled, End,
         SealOk, WatchedOk, TokenOk, EntriesOk, Image;
    assert BufferInv(s, b);
    QuiescentCopied(s, b);
    MemoryIsImage(b, s.bufs[b].gen, s.bufs[b].mem, BatchOf(s, b).entries, s.threads);
  }

  lemma ExtentOf(s: Ring, b: nat)
    requires Inv(s) && b < |s.bufs| && BatchOf(s, b).published && s.bufs[b].word.flushing
    ensures BatchOf(s, b).extent == Some(Extent(s.bufs[b].addr, Pad(s.bufs[b].word.offset)))
    ensures s.bufs[b].word.writers == 0
  {
    hide Local, WritesInv, RecordsInv, ApartInv, ReceiptsInv, TargetsInv, ThreadsInv, Tiled, End, WatchedOk,
         TokenOk, EntriesOk, Image, ReadAt, Pad;
    assert BufferInv(s, b);
    assert BatchInv(s, s.bufs[b].gen);
  }

  /** Writing at most `len` bytes at `at` leaves everything outside alone. */
  lemma WriteStaysInside(f: File, x: Extent, data: Bytes)
    requires |data| <= x.len
    ensures DiskOutside(f, WriteAt(f, x.at, data), x)
  {
    hide ReadAt, WriteAt;
    forall at: nat, len: nat | at + len <= x.at || x.at + x.len <= at
      ensures ReadAt(WriteAt(f, x.at, data), at, len) == ReadAt(f, at, len)
    {
      ReadElsewhere(f, x.at, data, at, len);
    }
  }

  /** The completed write puts exactly the batch on disk. */
  lemma KeepTakeOk(s: Ring, t: nat, id: nat)
    requires Inv(s) && t < |s.threads| && s.threads[t].Idle? && id in s.outstanding
    ensures Inv(DoTakeOk(s, t, id))
  {
    hide Local, WritesInv, BatchesInv, RecordsInv, ApartInv, ReceiptsInv, BuffersInv, ThreadsInv, TargetsInv,
         Pad, DiskOutside, ReadAt, WriteAt, Image, End;
    var w := s.outstanding[id];
    var b := w.buf;
    OutstandingIs(s, t, id);
    ExtentOf(s, b);
    QuiescentImage(s, b);
    PadCovers(s.bufs[b].word.offset);
    var data := Sent(s, w);
    var disk := WriteAt(s.disk, w.at, data);
    WriteStaysInside(s.disk, BatchOf(s, b).extent.value, data);
    ReadBack(s.disk, w.at, data, s.bufs[b].word.offset);
    assert data[..s.bufs[b].word.offset] == s.bufs[b].mem[..s.bufs[b].word.offset];
    KeepTaken(s, t, id, b, true, disk);
  }

  /** A failed write harms nobody: its range is its own. */
  lemma KeepTakeFailed(s: Ring, t: nat, id: nat, junk: Bytes)
    requires Inv(s) && t < |s.threads| && s.threads[t].Idle? && id in s.outstanding && |junk| <= s.outstanding[id].len
    ensures Inv(DoTakeFailed(s, t, id, junk))
  {
    hide Local, WritesInv, BatchesInv, RecordsInv, ApartInv, ReceiptsInv, BuffersInv, ThreadsInv, TargetsInv,
         Pad, DiskOutside, ReadAt, WriteAt, Image, End;
    var w := s.outstanding[id];
    var b := w.buf;
    OutstandingIs(s, t, id);
    ExtentOf(s, b);
    WriteStaysInside(s.disk, BatchOf(s, b).extent.value, junk);
    assert s.batches[s.bufs[b].gen := BatchOf(s, b).(landed := false)] == s.batches;
    KeepTaken(s, t, id, b, false, WriteAt(s.disk, w.at, junk));
  }

  // ---- report the completion --------------------------------------------

  ghost predicate AtNote(s: Ring, t: nat, b: nat)
    requires Wf(s)
  {
    t < |s.threads| && s.threads[t].Noting? && s.threads[t].b == b
  }

  lemma NoteShape(s: Ring, t: nat, b: nat)
    requires Inv(s) && AtNote(s, t, b)
    ensures Confined(s, Next(s, t), t, b)
  {
    hide Local, WritesInv, BatchesInv, RecordsInv, ApartInv, ReceiptsInv, TargetsInv, EntriesOk, SealOk,
         WatchedOk, TokenOk;
    LiveBatch(s, b);
  }

  lemma LocalNote(t: nat, me: nat, pc: Pc, buf: Buffer, batch: Batch, c: nat, record: Option<nat>)
    requires Local(t, pc, buf, batch, c) && t != me && buf.token == WithThread(me)
    ensures Local(t, pc, buf, batch.(record := record), c)
  {
    hide Pad;
  }

  lemma NoteSelf(s: Ring, t: nat, b: nat)
    requires Inv(s) && AtNote(s, t, b) && Confined(s, Next(s, t), t, b)
    ensures ThreadInv(Next(s, t), t)
    ensures s.bufs[b].token == WithThread(t) && s.bufs[b].word.flushing && BatchOf(s, b).landed
    ensures BatchOf(s, b).published
    ensures BatchOf(s, b).record.None? && s.threads[t].at == s.bufs[b].addr
  {
    hide WritesInv, BatchesInv, RecordsInv, ApartInv, ReceiptsInv, TargetsInv, BuffersInv, Pad;
    assert ThreadInv(s, t);
  }

  lemma NoteThreads(s: Ring, t: nat, b: nat)
    requires Inv(s) && AtNote(s, t, b) && Confined(s, Next(s, t), t, b)
    ensures ThreadsInv(Next(s, t)) && TargetsInv(Next(s, t))
  {
    hide Local, WritesInv, BatchesInv, RecordsInv, ApartInv, ReceiptsInv, BuffersInv, Pad;
    var s' := Next(s, t);
    NoteSelf(s, t, b);
    forall t' | 0 <= t' < |s.threads| && t' != t && !s.threads[t'].Idle? && s.threads[t'].b == b
      ensures ThreadInv(s', t')
    {
      assert ThreadInv(s, t');
      LocalNote(t', t, s.threads[t'], s.bufs[b], BatchOf(s, b), s.counter, BatchOf(s', b).record);
    }
    AssembleThreads(s, s', t, b);
    forall t' | 0 <= t' < |s.threads| && t' != t ensures TargetInv(s', t', b) {
      assert TargetInv(s, t', b);
    }
    AssembleTargets(s, s', t, b);
  }

  lemma NoteBuffer(s: Ring, t: nat, b: nat)
    requires Inv(s) && AtNote(s, t, b) && Confined(s, Next(s, t), t, b)
    ensures BufferInv(Next(s, t), b)
  {
    hide Local, WritesInv, BatchesInv, RecordsInv, ApartInv, ReceiptsInv, TargetsInv, ThreadsInv, EntriesOk,
         Tiled, End, Pad;
    var s' := Next(s, t);
    NoteSelf(s, t, b);
    assert BufferInv(s, b);
    SameHolders(s.threads, t, s'.threads[t], b);
    EntriesFrame(b, s.bufs[b].gen, s.bufs[b].mem, BatchOf(s, b).entries, s.threads, t, s'.threads[t]);
  }

  /** The message names the claimed range and the batch's own length. */
  lemma NoteBatches(s: Ring, t: nat, b: nat)
    requires Inv(s) && AtNote(s, t, b) && Confined(s, Next(s, t), t, b)
    ensures BatchesInv(Next(s, t))
  {
    hide Local, WritesInv, RecordsInv, ApartInv, ReceiptsInv, TargetsInv, BuffersInv, ThreadsInv, End, Pad,
         ReadAt, Image, ClosedOk;
    var s' := Next(s, t);
    NoteSelf(s, t, b);
    ExtentOf(s, b);
    QuiescentImage(s, b);
    LiveBatch(s, b);
    forall g | 0 <= g < |s'.batches| ensures BatchInv(s', g) { assert BatchInv(s, g); }
  }

  lemma NoteRest(s: Ring, t: nat, b: nat)
    requires Inv(s) && AtNote(s, t, b) && Confined(s, Next(s, t), t, b)
    ensures var s' := Next(s, t); WritesInv(s') && RecordsInv(s') && ApartInv(s') && ReceiptsInv(s')
  {
    hide Local, BatchesInv, TargetsInv, BuffersInv, ThreadsInv, Pad, Apart;
    var s' := Next(s, t);
    NoteSelf(s, t, b);
    forall id | id in s'.outstanding ensures WriteInv(s', id) { assert WriteInv(s, id); }
    forall r | 0 <= r < |s'.records| ensures RecordInv(s', r) {
      if r < |s.records| { assert RecordInv(s, r); }
    }
    forall k | 0 <= k < |s'.accepted| ensures ReceiptOk(s'.accepted[k], s'.batches) {
      assert ReceiptOk(s.accepted[k], s.batches);
    }
  }

  lemma KeepNote(s: Ring, t: nat)
    requires Inv(s) && t < |s.threads| && s.threads[t].Noting?
    ensures Inv(Next(s, t))
  {
    hide Local, WritesInv, BatchesInv, RecordsInv, ApartInv, ReceiptsInv, BuffersInv, ThreadsInv, TargetsInv;
    var b := s.threads[t].b;
    NoteShape(s, t, b);
    NoteThreads(s, t, b);
    NoteBuffer(s, t, b);
    NoteBatches(s, t, b);
    NoteRest(s, t, b);
    AssembleBuffers(s, Next(s, t), t, b);
  }

  // ---- reset the buffer -------------------------------------------------

  ghost predicate AtReset(s: Ring, t: nat, b: nat)
    requires Wf(s)
  {
    t < |s.threads| && s.threads[t] == Recorded(b) && !Lingering(s, b)
  }

  lemma ResetFacts(s: Ring, t: nat, b: nat)
    requires Inv(s) && AtReset(s, t, b)
    ensures s.bufs[b].token == WithThread(t) && s.bufs[b].word.flushing && s.bufs[b].word.sealed
    ensures s.bufs[b].word.writers == 0
    ensures BatchOf(s, b).published && BatchOf(s, b).record.Some? && BatchOf(s, b).wins == 1 && BatchOf(s, b).buf == b
    ensures |s.bufs[b].mem| == ONE_MEGABYTE_BLOCK && Tiled(BatchOf(s, b).entries)
    ensures End(BatchOf(s, b).entries) <= ONE_MEGABYTE_BLOCK
  {
    hide WritesInv, BatchesInv, RecordsInv, ApartInv, ReceiptsInv, TargetsInv, EntriesOk, SealOk, WatchedOk,
         Tiled, End, Pad;
    assert ThreadInv(s, t);
    assert BufferInv(s, b);
  }

  /** By the time of the first reset some range has been claimed. */
  lemma ResetCounter(s: Ring, t: nat, b: nat)
    requires Inv(s) && AtReset(s, t, b)
    ensures s.counter > 0
  {
    hide Local, WritesInv, RecordsInv, ApartInv, ReceiptsInv, TargetsInv, ThreadsInv, EntriesOk, WatchedOk,
         TokenOk, Tiled, End, Pad, ReadAt, Image;
    ResetFacts(s, t, b);
    ExtentOf(s, b);
    PadCovers(s.bufs[b].word.offset);
    assert BufferInv(s, b);
    assert BatchInv(s, s.bufs[b].gen);
  }

  lemma ResetWf(s: Ring, t: nat, b: nat)
    requires Inv(s) && AtReset(s, t, b)
    ensures Wf(Next(s, t))
  {
    hide Local, WritesInv, BatchesInv, RecordsInv, ApartInv, ReceiptsInv, TargetsInv, BuffersInv, ThreadsInv;
  }

  /** Only bystanders of buffer `b` are left, and they carry over. */
  lemma LocalReset(s: Ring, t: nat, b: nat, t': nat)
    requires Inv(s) && AtReset(s, t, b) && Wf(Next(s, t))
    requires t' < |s.threads| && t' != t && !s.threads[t'].Idle? && s.threads[t'].b == b
    ensures ThreadInv(Next(s, t), t')
  {
    hide WritesInv, BatchesInv, RecordsInv, ApartInv, ReceiptsInv, TargetsInv, SealOk, WatchedOk, TokenOk,
         EntriesOk, Tiled, End, Pad;
    assert ThreadInv(s, t');
    ResetFacts(s, t, b);
    ResetCounter(s, t, b);
    assert BufferInv(s, b);
    HoldersStep(s.threads, t', s.threads[t'], b);
    assert !Tail(s.threads[t'], b) && s.threads[t'] != LastWriter(b);
  }

  lemma ResetThreads(s: Ring, t: nat, b: nat)
    requires Inv(s) && AtReset(s, t, b) && Wf(Next(s, t))
    ensures ThreadsInv(Next(s, t))
  {
    hide Local, WritesInv, BatchesInv, RecordsInv, ApartInv, ReceiptsInv, TargetsInv, BuffersInv, Pad;
    var s' := Next(s, t);
    forall t' | 0 <= t' < |s'.threads| ensures ThreadInv(s', t') {
      if t' == t {
        ResetSelf(s, t, b);
      } else {
        assert ThreadInv(s, t');
        if !s.threads[t'].Idle? && s.threads[t'].b == b { LocalReset(s, t, b, t'); }
      }
    }
  }

  lemma ResetSelf(s: Ring, t: nat, b: nat)
    requires Inv(s) && AtReset(s, t, b) && Wf(Next(s, t))
    ensures ThreadInv(Next(s, t), t)
  {
    hide WritesInv, BatchesInv, RecordsInv, ApartInv, ReceiptsInv, TargetsInv, BuffersInv, ThreadsInv, Pad;
    ResetCounter(s, t, b);
  }

  lemma ResetTargets(s: Ring, t: nat, b: nat)
    requires Inv(s) && AtReset(s, t, b) && Wf(Next(s, t))
    ensures TargetsInv(Next(s, t))
  {
    hide Local, WritesInv, BatchesInv, RecordsInv, ApartInv, ReceiptsInv, BuffersInv, ThreadsInv, Pad;
    var s' := Next(s, t);
    forall t', b' | 0 <= t' < |s'.threads| && 0 <= b' < |s'.bufs| ensures TargetInv(s', t', b') {
      assert TargetInv(s, t', b');
    }
  }

  lemma FreshBuffer(b: nat, buf: Buffer, threads: seq<Pc>, counter: nat, outstanding: map<nat, Write>)
    requires buf.word == ZERO && buf.token == NoToken && |buf.mem| == ONE_MEGABYTE_BLOCK
    ensures WordOk(b, buf, Fresh(b), 0)
    ensures EntriesOk(b, buf.gen, buf.mem, Fresh(b).entries, threads)
    ensures SealOk(b, buf, Fresh(b), counter, At(threads, None))
    ensures WatchedOk(b, buf.word, Fresh(b), At(threads, None), At(threads, None))
    ensures TokenOk(b, buf, Fresh(b), Idle, outstanding)
  {
  }

  lemma ResetBuffers(s: Ring, t: nat, b: nat)
    requires Inv(s) && AtReset(s, t, b) && Wf(Next(s, t))
    ensures BuffersInv(Next(s, t))
  {
    hide Local, WritesInv, BatchesInv, RecordsInv, ApartInv, ReceiptsInv, ThreadsInv, TargetsInv, Pad, BufferInv;
    var s' := Next(s, t);
    forall b' | 0 <= b' < |s'.bufs| ensures BufferInv(s', b') {
      if b' == b { ResetThisBuffer(s, t, b); } else { ResetOtherBuffer(s, t, b, b'); }
    }
  }

  lemma ResetThisBuffer(s: Ring, t: nat, b: nat)
    requires Inv(s) && AtReset(s, t, b) && Wf(Next(s, t))
    ensures BufferInv(Next(s, t), b)
  {
    hide Local, WritesInv, BatchesInv, RecordsInv, ApartInv, ReceiptsInv, ThreadsInv, TargetsInv, SealOk,
         WatchedOk, TokenOk, EntriesOk, Tiled, End, Pad;
    var s' := Next(s, t);
    assert BufferInv(s, b);
    ResetFacts(s, t, b);
    SameHolders(s.threads, t, s'.threads[t], b);
    assert |Holders(s'.threads, b)| == 0;
    FreshBuffer(b, s'.bufs[b], s'.threads, s'.counter, s'.outstanding);
  }

  lemma ResetOtherBuffer(s: Ring, t: nat, b: nat, b': nat)
    requires Inv(s) && AtReset(s, t, b) && Wf(Next(s, t)) && b' < |s.bufs| && b' != b
    ensures BufferInv(Next(s, t), b')
  {
    hide Local, WritesInv, BatchesInv, RecordsInv, ApartInv, ReceiptsInv, ThreadsInv, TargetsInv, WordOk,
         EntriesOk, Pad;
    var s' := Next(s, t);
    assert BufferInv(s, b');
    SameHolders(s.threads, t, s'.threads[t], b');
    EntriesFrame(b', s.bufs[b'].gen, s.bufs[b'].mem, BatchOf(s, b').entries, s.threads, t, s'.threads[t]);
  }

  lemma ResetWrites(s: Ring, t: nat, b: nat)
    requires Inv(s) && AtReset(s, t, b) && Wf(Next(s, t))
    ensures WritesInv(Next(s, t))
  {
    hide Local, BatchesInv, RecordsInv, ApartInv, ReceiptsInv, ThreadsInv, TargetsInv, BuffersInv, Pad;
    var s' := Next(s, t);
    ResetFacts(s, t, b);
    forall id | id in s'.outstanding ensures WriteInv(s', id) { assert WriteInv(s, id); }
  }

  /** The batch that ends here was written, reported and is complete. */
  lemma ResetBatches(s: Ring, t: nat, b: nat)
    requires Inv(s) && AtReset(s, t, b) && Wf(Next(s, t))
    ensures BatchesInv(Next(s, t))
  {
    hide Local, WritesInv, RecordsInv, ApartInv, ReceiptsInv, ThreadsInv, TargetsInv, BuffersInv, Pad, End,
         ReadAt, Image, Tiled;
    var s' := Next(s, t);
    ResetFacts(s, t, b);
    QuiescentCopied(s, b);
    forall g | 0 <= g < |s'.batches| ensures BatchInv(s', g) {
      if g < |s.batches| { assert BatchInv(s, g); }
    }
  }

  lemma ResetRest(s: Ring, t: nat, b: nat)
    requires Inv(s) && AtReset(s, t, b) && Wf(Next(s, t))
    ensures var s' := Next(s, t); RecordsInv(s') && ApartInv(s') && ReceiptsInv(s')
  {
    hide Local, WritesInv, BatchesInv, ThreadsInv, TargetsInv, BuffersInv, Pad;
    var s' := Next(s, t);
    forall r | 0 <= r < |s'.records| ensures RecordInv(s', r) { assert RecordInv(s, r); }
    forall k | 0 <= k < |s'.accepted| ensures ReceiptOk(s'.accepted[k], s'.batches) {
      assert ReceiptOk(s.accepted[k], s.batches);
    }
  }

  lemma KeepReset(s: Ring, t: nat)
    requires Inv(s) && t < |s.threads| && s.threads[t].Recorded? && !Lingering(s, s.threads[t].b)
    ensures Inv(Next(s, t))
  {
    hide Local, WritesInv, BatchesInv, RecordsInv, ApartInv, ReceiptsInv, BuffersInv, ThreadsInv, TargetsInv;
    var b := s.threads[t].b;
    ResetWf(s, t, b);
    ResetThreads(s, t, b);
    ResetTargets(s, t, b);
    ResetBuffers(s, t, b);
    ResetWrites(s, t, b);
    ResetBatches(s, t, b);
    ResetRest(s, t, b);
  }
}
