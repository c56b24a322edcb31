/** Sealing a buffer, claiming and publishing its file range, and stamping the
    next buffer. */
module RingSealing {
  import opened Files
  import opened StateWord
  import opened RingProtocol
  import opened RingInvariant
  import opened RingFrames
  import opened RingQuiet

  lemma PadCovers(n: nat)
    ensures Pad(n) >= n && (n == 0 ==> Pad(n) == 0)
    ensures n <= ONE_MEGABYTE_BLOCK ==> Pad(n) <= ONE_MEGABYTE_BLOCK
  {
  }

  // ---- set the sealed bit -----------------------------------------------

  ghost predicate AtSeal(s: Ring, t: nat, b: nat)
    requires Wf(s)
  {
    t < |s.threads| && s.threads[t] == SawFull(b) && !s.bufs[b].word.sealed
  }

  lemma SealShape(s: Ring, t: nat, b: nat)
    requires Inv(s) && AtSeal(s, t, b)
    ensures Confined(s, Next(s, t), t, b)
  {
    hide Local, WritesInv, BatchesInv, RecordsInv, ApartInv, ReceiptsInv, TargetsInv, EntriesOk, SealOk,
         WatchedOk, TokenOk;
    assert BufferInv(s, b);
  }

  lemma LocalSeal(t: nat, pc: Pc, b: nat, buf: Buffer, batch: Batch, c: nat, me: nat, sealer: Pc)
    requires Local(t, pc, buf, batch, c) && !buf.word.sealed && SealOk(b, buf, batch, c, sealer)
    ensures Local(t, pc, buf.(word := Seal(buf.word)), batch.(sealer := Some(me)), c)
  {
    hide Pad;
  }

  lemma SealThreads(s: Ring, t: nat, b: nat)
    requires Inv(s) && AtSeal(s, t, b) && Confined(s, Next(s, t), t, b)
    ensures ThreadsInv(Next(s, t)) && TargetsInv(Next(s, t))
  {
    hide Local, WritesInv, BatchesInv, RecordsInv, ApartInv, ReceiptsInv, SealOk, WordOk, EntriesOk, WatchedOk, TokenOk;
    var s' := Next(s, t);
    assert BufferInv(s, b);
    forall t' | 0 <= t' < |s.threads| && t' != t && !s.threads[t'].Idle? && s.threads[t'].b == b
      ensures ThreadInv(s', t')
    {
      assert ThreadInv(s, t');
      LocalSeal(t', s.threads[t'], b, s.bufs[b], BatchOf(s, b), s.counter, t, At(s.threads, BatchOf(s, b).sealer));
    }
    SealSelf(s, t, b);
    AssembleThreads(s, s', t, b);
    forall t' | 0 <= t' < |s.threads| && t' != t ensures TargetInv(s', t', b) {
      assert TargetInv(s, t', b);
    }
    AssembleTargets(s, s', t, b);
  }

  lemma SealSelf(s: Ring, t: nat, b: nat)
    requires Inv(s) && AtSeal(s, t, b) && Confined(s, Next(s, t), t, b)
    ensures ThreadInv(Next(s, t), t)
  {
    hide WritesInv, BatchesInv, RecordsInv, ApartInv, ReceiptsInv, TargetsInv, ThreadsInv, WordOk, EntriesOk,
         WatchedOk, TokenOk;
    assert BufferInv(s, b);
  }

  lemma SealBuffer(s: Ring, t: nat, b: nat)
    requires Inv(s) && AtSeal(s, t, b) && Confined(s, Next(s, t), t, b)
    ensures BufferInv(Next(s, t), b)
  {
    hide WritesInv, BatchesInv, RecordsInv, ApartInv, ReceiptsInv, TargetsInv, EntriesOk, Tiled, End, Pad;
    var s' := Next(s, t);
    assert BufferInv(s, b);
    assert ThreadInv(s, t);
    SameHolders(s.threads, t, s'.threads[t], b);
    EntriesFrame(b, s.bufs[b].gen, s.bufs[b].mem, BatchOf(s, b).entries, s.threads, t, s'.threads[t]);
  }

  lemma SealRest(s: Ring, t: nat, b: nat)
    requires Inv(s) && AtSeal(s, t, b) && Confined(s, Next(s, t), t, b)
    ensures var s' := Next(s, t); WritesInv(s') && BatchesInv(s') && RecordsInv(s') && ApartInv(s') && ReceiptsInv(s')
  {
    hide Local, WritesInv, RecordsInv, ApartInv, ReceiptsInv, ThreadsInv, TargetsInv, Pad, ReadAt, Image,
         ClosedOk, EntriesOk, WatchedOk, TokenOk, SealOk, Tiled, End, BuffersInv;
    assert BatchInv(s, s.bufs[b].gen);
    RestKept(s, Next(s, t), t, b);
  }

  lemma KeepSeal(s: Ring, t: nat)
    requires Inv(s) && t < |s.threads| && s.threads[t].SawFull?
    ensures Inv(Next(s, t))
  {
    hide Local, WritesInv, BatchesInv, RecordsInv, ApartInv, ReceiptsInv, BuffersInv, ThreadsInv, TargetsInv;
    var b := s.threads[t].b;
    if s.bufs[b].word.sealed {
      KeepToIdle(s, t);
    } else {
      SealShape(s, t, b);
      SealThreads(s, t, b);
      SealBuffer(s, t, b);
      SealRest(s, t, b);
      AssembleBuffers(s, Next(s, t), t, b);
    }
  }

  // ---- claim the file range ---------------------------------------------

  ghost predicate AtClaim(s: Ring, t: nat, b: nat)
    requires Wf(s)
  {
    t < |s.threads| && s.threads[t].Sized? && s.threads[t].b == b
  }

  lemma ExtentShape(s: Ring, t: nat, b: nat)
    requires Inv(s) && AtClaim(s, t, b)
    ensures Confined(s, Next(s, t), t, b)
  {
    hide Local, WritesInv, BatchesInv, RecordsInv, ApartInv, ReceiptsInv, TargetsInv, EntriesOk, SealOk,
         WatchedOk, TokenOk;
    assert BufferInv(s, b);
  }

  /** Nobody else is between sealing this buffer and publishing its address. */
  lemma LocalExtent(t: nat, pc: Pc, b: nat, buf: Buffer, batch: Batch, c: nat, c': nat, me: nat, extent: Extent)
    requires Local(t, pc, buf, batch, c) && t != me && batch.sealer == Some(me) && c == extent.at <= c'
    ensures Local(t, pc, buf, batch.(extent := Some(extent)), c')
  {
    hide Pad;
  }

  /** The first claim of a run may start at 0, but then nobody has rotated yet. */
  lemma NoTargetsAtZero(s: Ring, t: nat, b: nat)
    requires Inv(s) && t < |s.threads| && b < |s.bufs| && Targets(s.threads[t], b)
    ensures s.counter > 0
  {
    hide WritesInv, BatchesInv, RecordsInv, ApartInv, ReceiptsInv, TargetsInv, BuffersInv;
    assert ThreadInv(s, t);
  }

  lemma ExtentThreads(s: Ring, t: nat, b: nat)
    requires Inv(s) && AtClaim(s, t, b) && Confined(s, Next(s, t), t, b)
    ensures ThreadsInv(Next(s, t))
  {
    hide Local, WritesInv, BatchesInv, RecordsInv, ApartInv, ReceiptsInv, SealOk, WordOk, EntriesOk, WatchedOk, TokenOk;
    var s' := Next(s, t);
    ExtentSelf(s, t, b);
    forall t' | 0 <= t' < |s.threads| && t' != t && !s.threads[t'].Idle? && s.threads[t'].b == b
      ensures ThreadInv(s', t')
    {
      assert ThreadInv(s, t');
      LocalExtent(t', s.threads[t'], b, s.bufs[b], BatchOf(s, b), s.counter,
                  s'.counter, t, BatchOf(s', b).extent.value);
    }
    AssembleThreads(s, s', t, b);
  }

  lemma ExtentTargets(s: Ring, t: nat, b: nat)
    requires Inv(s) && AtClaim(s, t, b) && Confined(s, Next(s, t), t, b)
    ensures TargetsInv(Next(s, t))
  {
    hide Local, WritesInv, BatchesInv, RecordsInv, ApartInv, ReceiptsInv, BuffersInv;
    var s' := Next(s, t);
    forall t' | 0 <= t' < |s.threads| && t' != t ensures TargetInv(s', t', b) {
      if Targets(s.threads[t'], b) {
        NoTargetsAtZero(s, t', b);
      }
    }
    AssembleTargets(s, s', t, b);
  }

  lemma ExtentSelf(s: Ring, t: nat, b: nat)
    requires Inv(s) && AtClaim(s, t, b) && Confined(s, Next(s, t), t, b)
    ensures ThreadInv(Next(s, t), t) && BatchOf(s, b).sealer == Some(t)
  {
    hide WritesInv, BatchesInv, RecordsInv, ApartInv, ReceiptsInv, TargetsInv, WordOk, EntriesOk, WatchedOk,
         TokenOk, Pad;
    assert BufferInv(s, b);
    assert ThreadInv(s, t);
    PadCovers(s.bufs[b].word.offset);
  }

  lemma ExtentBuffer(s: Ring, t: nat, b: nat)
    requires Inv(s) && AtClaim(s, t, b) && Confined(s, Next(s, t), t, b)
    ensures BufferInv(Next(s, t), b)
  {
    hide WritesInv, BatchesInv, RecordsInv, ApartInv, ReceiptsInv, TargetsInv, EntriesOk, Tiled, End, Pad;
    var s' := Next(s, t);
    assert BufferInv(s, b);
    assert ThreadInv(s, t);
    SameHolders(s.threads, t, s'.threads[t], b);
    EntriesFrame(b, s.bufs[b].gen, s.bufs[b].mem, BatchOf(s, b).entries, s.threads, t, s'.threads[t]);
  }

  lemma ExtentBatches(s: Ring, t: nat, b: nat)
    requires Inv(s) && AtClaim(s, t, b) && Confined(s, Next(s, t), t, b)
    ensures BatchesInv(Next(s, t))
  {
    hide WritesInv, RecordsInv, ApartInv, ReceiptsInv, TargetsInv, EntriesOk, SealOk, Tiled, End, Pad, ReadAt,
         Image, ClosedOk, WatchedOk;
    var s' := Next(s, t);
    assert BufferInv(s, b);
    assert ThreadInv(s, t);
    forall g | 0 <= g < |s'.batches| ensures BatchInv(s', g) {
      assert BatchInv(s, g);
      if g != s.bufs[b].gen { OtherBatchInv(s, s', t, b, g); }
    }
  }

  /** Ranges claimed from a counter that only grows never overlap. */
  lemma ExtentApart(s: Ring, t: nat, b: nat)
    requires Inv(s) && AtClaim(s, t, b) && Confined(s, Next(s, t), t, b)
    ensures ApartInv(Next(s, t))
  {
    hide Local, WritesInv, RecordsInv, ReceiptsInv, TargetsInv, BuffersInv, ThreadsInv, End, Pad, ReadAt,
         Image, ClosedOk;
    var s' := Next(s, t);
    var g := s.bufs[b].gen;
    forall h, k | 0 <= h < |s'.batches| && 0 <= k < |s'.batches| && h != k
      ensures Apart(s'.batches[h].extent, s'.batches[k].extent)
    {
      assert Apart(s.batches[h].extent, s.batches[k].extent);
      assert BatchInv(s, h) && BatchInv(s, k);
    }
  }

  lemma ExtentRest(s: Ring, t: nat, b: nat)
    requires Inv(s) && AtClaim(s, t, b) && Confined(s, Next(s, t), t, b)
    ensures var s' := Next(s, t); WritesInv(s') && RecordsInv(s') && ReceiptsInv(s')
  {
    hide Local, BatchesInv, ApartInv, TargetsInv, BuffersInv, ThreadsInv;
    var s' := Next(s, t);
    forall id | id in s'.outstanding ensures WriteInv(s', id) { assert WriteInv(s, id); }
    forall r | 0 <= r < |s'.records| ensures RecordInv(s', r) { assert RecordInv(s, r); }
    forall k | 0 <= k < |s'.accepted| ensures ReceiptOk(s'.accepted[k], s'.batches) {
      assert ReceiptOk(s.accepted[k], s.batches);
    }
  }

  lemma KeepClaimExtent(s: Ring, t: nat)
    requires Inv(s) && t < |s.threads| && s.threads[t].Sized?
    ensures Inv(Next(s, t))
  {
    hide Local, WritesInv, BatchesInv, RecordsInv, ApartInv, ReceiptsInv, BuffersInv, ThreadsInv, TargetsInv;
    var b := s.threads[t].b;
    ExtentShape(s, t, b);
    ExtentThreads(s, t, b);
    ExtentTargets(s, t, b);
    ExtentBuffer(s, t, b);
    ExtentBatches(s, t, b);
    ExtentApart(s, t, b);
    ExtentRest(s, t, b);
    AssembleBuffers(s, Next(s, t), t, b);
  }

  // ---- store the address ------------------------------------------------

  ghost predicate AtPublish(s: Ring, t: nat, b: nat)
    requires Wf(s)
  {
    t < |s.threads| && s.threads[t].Publishing? && s.threads[t].b == b && !HalfReset(s, b)
  }

  lemma PublishShape(s: Ring, t: nat, b: nat)
    requires Inv(s) && AtPublish(s, t, b)
    ensures Confined(s, Next(s, t), t, b)
  {
    hide Local, WritesInv, BatchesInv, RecordsInv, ApartInv, ReceiptsInv, TargetsInv, EntriesOk, SealOk,
         WatchedOk, TokenOk;
    assert BufferInv(s, b);
  }

  lemma LocalPublish(t: nat, pc: Pc, b: nat, buf: Buffer, batch: Batch, c: nat, me: nat, slot: nat)
    requires Local(t, pc, buf, batch, c) && t != me && batch.sealer == Some(me) && !batch.published && !pc.Clearing?
    ensures Local(t, pc, buf.(addr := slot), batch.(published := true), c)
  {
    hide Pad;
  }

  lemma PublishSelf(s: Ring, t: nat, b: nat)
    requires Inv(s) && AtPublish(s, t, b) && Confined(s, Next(s, t), t, b)
    ensures ThreadInv(Next(s, t), t) && BatchOf(s, b).sealer == Some(t) && !BatchOf(s, b).published
  {
    hide WritesInv, BatchesInv, RecordsInv, ApartInv, ReceiptsInv, TargetsInv, WordOk, EntriesOk, WatchedOk,
         TokenOk, Pad;
    assert BufferInv(s, b);
    assert ThreadInv(s, t);
  }

  lemma PublishThreads(s: Ring, t: nat, b: nat)
    requires Inv(s) && AtPublish(s, t, b) && Confined(s, Next(s, t), t, b)
    ensures ThreadsInv(Next(s, t)) && TargetsInv(Next(s, t))
  {
    hide Local, WritesInv, BatchesInv, RecordsInv, ApartInv, ReceiptsInv, BuffersInv;
    var s' := Next(s, t);
    PublishSelf(s, t, b);
    forall t' | 0 <= t' < |s.threads| && t' != t && !s.threads[t'].Idle? && s.threads[t'].b == b
      ensures ThreadInv(s', t')
    {
      assert ThreadInv(s, t');
      assert s.threads[t'] != Clearing(b);
      LocalPublish(t', s.threads[t'], b, s.bufs[b], BatchOf(s, b), s.counter, t, s'.bufs[b].addr);
    }
    AssembleThreads(s, s', t, b);
    forall t' | 0 <= t' < |s.threads| && t' != t ensures TargetInv(s', t', b) {
      assert TargetInv(s, t', b);
    }
    AssembleTargets(s, s', t, b);
  }

  lemma PublishBuffer(s: Ring, t: nat, b: nat)
    requires Inv(s) && AtPublish(s, t, b) && Confined(s, Next(s, t), t, b)
    ensures BufferInv(Next(s, t), b)
  {
    hide WritesInv, BatchesInv, RecordsInv, ApartInv, ReceiptsInv, TargetsInv, EntriesOk, Tiled, End, Pad;
    var s' := Next(s, t);
    assert BufferInv(s, b);
    assert ThreadInv(s, t);
    SameHolders(s.threads, t, s'.threads[t], b);
    EntriesFrame(b, s.bufs[b].gen, s.bufs[b].mem, BatchOf(s, b).entries, s.threads, t, s'.threads[t]);
  }

  lemma PublishRest(s: Ring, t: nat, b: nat)
    requires Inv(s) && AtPublish(s, t, b) && Confined(s, Next(s, t), t, b)
    ensures var s' := Next(s, t); WritesInv(s') && BatchesInv(s') && RecordsInv(s') && ApartInv(s') && ReceiptsInv(s')
  {
    hide Local, WritesInv, RecordsInv, ApartInv, ReceiptsInv, ThreadsInv, TargetsInv, Pad, ReadAt, Image,
         ClosedOk, EntriesOk, WatchedOk, TokenOk, SealOk, Tiled, End, BuffersInv;
    assert BatchInv(s, s.bufs[b].gen);
    RestKept(s, Next(s, t), t, b);
  }

  lemma KeepPublish(s: Ring, t: nat)
    requires Inv(s) && t < |s.threads| && s.threads[t].Publishing? && !HalfReset(s, s.threads[t].b)
    ensures Inv(Next(s, t))
  {
    hide Local, WritesInv, BatchesInv, RecordsInv, ApartInv, ReceiptsInv, BuffersInv, ThreadsInv, TargetsInv;
    var b := s.threads[t].b;
    PublishShape(s, t, b);
    PublishThreads(s, t, b);
    PublishBuffer(s, t, b);
    PublishRest(s, t, b);
    AssembleBuffers(s, Next(s, t), t, b);
  }

  // ---- stamp the next buffer --------------------------------------------

  /** An address that nothing relies on may change. */
  lemma AddressFree(s: Ring, b: nat, addr: nat)
    requires Inv(s) && b < |s.bufs| && !BatchOf(s, b).published
    ensures Inv(SetBuf(s, b, s.bufs[b].(addr := addr)))
  {
    hide WordOk, EntriesOk, WatchedOk, BatchOk, ClosedOk, Apart, ReceiptOk, Pad;
    var s' := SetBuf(s, b, s.bufs[b].(addr := addr));
    forall t | 0 <= t < |s'.threads| ensures ThreadInv(s', t) { assert ThreadInv(s, t); }
    AddressFreeBuffers(s, b, addr);
    AddressFreeRest(s, b, addr);
  }

  lemma AddressFreeBuffers(s: Ring, b: nat, addr: nat)
    requires Inv(s) && b < |s.bufs| && !BatchOf(s, b).published
    ensures var s' := SetBuf(s, b, s.bufs[b].(addr := addr)); Wf(s') && BuffersInv(s')
  {
    hide Local, EntriesOk, WatchedOk, BatchOk, ClosedOk, Apart, ReceiptOk, Pad, Tiled, End;
    var s' := SetBuf(s, b, s.bufs[b].(addr := addr));
    forall b' | 0 <= b' < |s'.bufs| ensures BufferInv(s', b') { assert BufferInv(s, b'); }
  }

  lemma AddressFreeRest(s: Ring, b: nat, addr: nat)
    requires Inv(s) && b < |s.bufs| && !BatchOf(s, b).published
    ensures var s' := SetBuf(s, b, s.bufs[b].(addr := addr));
            Wf(s') && TargetsInv(s') && WritesInv(s') && BatchesInv(s')
            && RecordsInv(s') && ApartInv(s') && ReceiptsInv(s')
  {
    hide Local, BuffersInv, ThreadsInv, BatchOk, ClosedOk, Apart, ReceiptOk;
    var s' := SetBuf(s, b, s.bufs[b].(addr := addr));
    forall t, b' | 0 <= t < |s'.threads| && 0 <= b' < |s'.bufs|
      ensures TargetInv(s', t, b') { assert TargetInv(s, t, b'); }
    forall id | id in s'.outstanding ensures WriteInv(s', id) { assert WriteInv(s, id); }
    forall g | 0 <= g < |s'.batches| ensures BatchInv(s', g) { assert BatchInv(s, g); }
    forall r | 0 <= r < |s'.records| ensures RecordInv(s', r) { assert RecordInv(s, r); }
  }

  /** Stamping never overwrites a published address. */
  lemma StampFree(s: Ring, t: nat)
    requires Inv(s) && t < |s.threads| && s.threads[t].Stamping?
    ensures s.bufs[s.threads[t].target].addr == 0 ==> !BatchOf(s, s.threads[t].target).published
  {
    hide Local, WritesInv, BatchesInv, RecordsInv, ApartInv, ReceiptsInv, ThreadsInv, WordOk, EntriesOk,
         WatchedOk, TokenOk;
    var target := s.threads[t].target;
    assert TargetInv(s, t, target);
    assert BufferInv(s, target);
  }

  lemma KeepStamp(s: Ring, t: nat)
    requires Inv(s) && t < |s.threads| && s.threads[t].Stamping?
    ensures Inv(Next(s, t))
  {
    hide WritesInv, BatchesInv, RecordsInv, ApartInv, ReceiptsInv, BuffersInv, TargetsInv;
    var b, target := s.threads[t].b, s.threads[t].target;
    StampFree(s, t);
    var s1 := if s.bufs[target].addr == 0 then SetBuf(s, target, s.bufs[target].(addr := s.threads[t].slot)) else s;
    if s.bufs[target].addr == 0 {
      AddressFree(s, target, s.threads[t].slot);
    }
    assert ThreadInv(s1, t);
    Quiet(s1, t, b, Checking(b), s1.current, s1.nextIndex, s1.counter);
  }

  lemma KeepClear(s: Ring, t: nat)
    requires Inv(s) && t < |s.threads| && s.threads[t].Clearing?
    ensures Inv(Next(s, t))
  {
    hide WritesInv, BatchesInv, RecordsInv, ApartInv, ReceiptsInv, BuffersInv, TargetsInv;
    var b := s.threads[t].b;
    assert ThreadInv(s, t);
    AddressFree(s, b, 0);
    var s1 := SetBuf(s, b, s.bufs[b].(addr := 0));
    Quiet(s1, t, b, Idle, s1.current, s1.nextIndex, s1.counter);
  }
}
