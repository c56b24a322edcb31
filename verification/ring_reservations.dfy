/** Reserving, copying and releasing. */
module RingReservations {
  import opened Files
  import opened StateWord
  import opened RingProtocol
  import opened RingInvariant
  import opened RingFrames
  import opened RingQuiet

  // ---- tilings ----------------------------------------------------------

  lemma {:induction false} TiledApart(entries: seq<Entry>, i: nat, j: nat)
    requires Tiled(entries) && i < j < |entries|
    ensures entries[i].off + |entries[i].payload| <= entries[j].off
  {
    if i + 1 < j {
      TiledApart(entries, i, j - 1);
    }
  }

  lemma TiledWithin(entries: seq<Entry>, i: nat)
    requires Tiled(entries) && i < |entries|
    ensures entries[i].off + |entries[i].payload| <= End(entries)
  {
    if i < |entries| - 1 {
      TiledApart(entries, i, |entries| - 1);
    }
  }

  /** The image does not depend on which entries are copied. */
  lemma {:induction false} ImageSame(a: seq<Entry>, b: seq<Entry>)
    requires |a| == |b| && forall i :: 0 <= i < |a| ==> a[i].payload == b[i].payload
    ensures Image(a) == Image(b)
  {
    if a != [] {
      ImageSame(a[..|a| - 1], b[..|b| - 1]);
    }
  }

  // ---- reserve ----------------------------------------------------------

  /** A reservation that fits neither carries nor wraps. */
  lemma ReserveWord(s: Ring, t: nat)
    requires Inv(s) && t < |s.threads| && s.threads[t].Loaded? && s.bufs[s.threads[t].b].word == s.threads[t].snap
    ensures var w := s.threads[t].snap; var n := |s.threads[t].payload|;
            Reserve(w, n) == w.(offset := w.offset + n, writers := w.writers + 1)
  {
    hide WritesInv, BatchesInv, RecordsInv, ApartInv, ReceiptsInv, ThreadsInv, TargetsInv, EntriesOk, SealOk,
         WatchedOk, TokenOk, Local;
    var b := s.threads[t].b;
    assert BufferInv(s, b);
    HoldersFew(s.threads, t, b);
  }

  lemma LocalReserve(t: nat, pc: Pc, buf: Buffer, batch: Batch, c: nat, w: Word, e: Entry)
    requires Local(t, pc, buf, batch, c) && !buf.word.sealed && !buf.word.flushing
    requires w.offset >= buf.word.offset
    ensures Local(t, pc, buf.(word := w), batch.(entries := batch.entries + [e]), c)
  {
  }

  ghost predicate Reserving(s: Ring, s': Ring, t: nat, b: nat)
    requires Wf(s)
  {
    && t < |s.threads| && b < |s.bufs| && Wf(s')
    && s.threads[t].Loaded? && s.threads[t].b == b && s.bufs[b].word == s.threads[t].snap
    && var pc := s.threads[t]; var w := pc.snap; var batch := BatchOf(s, b);
       var e := Entry(w.offset, pc.payload, t, false);
       && !w.sealed && !w.flushing
       && s' == s.(
                bufs := s.bufs[b :=
                              s.bufs[b].(word := w.(offset := w.offset + |pc.payload|, writers := w.writers + 1))],
                batches := s.batches[s.bufs[b].gen := batch.(entries := batch.entries + [e])],
                threads := s.threads[t := Reserved(b, s.bufs[b].gen, |batch.entries|, w.offset, pc.payload)])
  }

  lemma ReserveShape(s: Ring, t: nat)
    requires Inv(s) && t < |s.threads| && s.threads[t].Loaded? && s.bufs[s.threads[t].b].word == s.threads[t].snap
    ensures Reserving(s, Next(s, t), t, s.threads[t].b) && Confined(s, Next(s, t), t, s.threads[t].b)
  {
    hide WritesInv, BatchesInv, RecordsInv, ApartInv, ReceiptsInv, TargetsInv, EntriesOk, SealOk, WatchedOk,
         TokenOk, Reserve;
    ReserveWord(s, t);
    assert ThreadInv(s, t);
    assert BufferInv(s, s.threads[t].b);
  }

  lemma ReserveThreads(s: Ring, s': Ring, t: nat, b: nat)
    requires Inv(s) && Confined(s, s', t, b) && Reserving(s, s', t, b)
    ensures ThreadsInv(s') && TargetsInv(s')
  {
    hide Local, WritesInv, BatchesInv, RecordsInv, ApartInv, ReceiptsInv, BuffersInv;
    var pc := s.threads[t];
    var e := Entry(pc.snap.offset, pc.payload, t, false);
    forall t' | 0 <= t' < |s.threads| && t' != t && !s.threads[t'].Idle? && s.threads[t'].b == b
      ensures ThreadInv(s', t')
    {
      assert ThreadInv(s, t');
      LocalReserve(t', s.threads[t'], s.bufs[b], BatchOf(s, b), s.counter, s'.bufs[b].word, e);
    }
    ReserveSelf(s, s', t, b);
    AssembleThreads(s, s', t, b);
    forall t' | 0 <= t' < |s.threads| && t' != t ensures TargetInv(s', t', b) {
      assert TargetInv(s, t', b);
    }
    AssembleTargets(s, s', t, b);
  }

  lemma ReserveSelf(s: Ring, s': Ring, t: nat, b: nat)
    requires Inv(s) && Confined(s, s', t, b) && Reserving(s, s', t, b)
    ensures ThreadInv(s', t)
  {
    hide WritesInv, BatchesInv, RecordsInv, ApartInv, ReceiptsInv, BuffersInv, TargetsInv, ThreadsInv;
  }

  lemma TiledAppend(entries: seq<Entry>, e: Entry)
    requires Tiled(entries) && e.off == End(entries)
    ensures Tiled(entries + [e]) && End(entries + [e]) == e.off + |e.payload|
  {
  }

  lemma ReserveBuffer(s: Ring, s': Ring, t: nat, b: nat)
    requires Inv(s) && Confined(s, s', t, b) && Reserving(s, s', t, b)
    ensures BufferInv(s', b)
  {
    hide Local, WritesInv, BatchesInv, RecordsInv, ApartInv, ReceiptsInv, ThreadsInv, TargetsInv, EntriesOk,
         Tiled, End, Pad;
    assert BufferInv(s, b);
    var pc := s.threads[t];
    TiledAppend(BatchOf(s, b).entries, Entry(pc.snap.offset, pc.payload, t, false));
    HoldersStep(s.threads, t, s'.threads[t], b);
    ReserveEntries(s, s', t, b);
  }

  lemma ReserveEntries(s: Ring, s': Ring, t: nat, b: nat)
    requires Inv(s) && Confined(s, s', t, b) && Reserving(s, s', t, b)
    ensures EntriesInv(s', b)
  {
    hide Local, WritesInv, BatchesInv, RecordsInv, ApartInv, ReceiptsInv, ThreadsInv, TargetsInv, Tiled,
         WordOk, SealOk, WatchedOk, TokenOk;
    assert BufferInv(s, b);
    var entries := BatchOf(s', b).entries;
    forall i | 0 <= i < |entries|
      ensures EntryOk(b, s'.bufs[b].gen, s'.bufs[b].mem, entries[i], i, At(s'.threads, Some(entries[i].owner)))
    {
      if i < |entries| - 1 {
        var e := BatchOf(s, b).entries[i];
        assert EntryOk(b, s.bufs[b].gen, s.bufs[b].mem, e, i, At(s.threads, Some(e.owner)));
      }
    }
  }

  lemma ReserveRest(s: Ring, s': Ring, t: nat, b: nat)
    requires Inv(s) && Confined(s, s', t, b) && Reserving(s, s', t, b)
    ensures WritesInv(s') && BatchesInv(s') && RecordsInv(s') && ApartInv(s') && ReceiptsInv(s')
  {
    hide Local, WritesInv, RecordsInv, ApartInv, ReceiptsInv, ThreadsInv, TargetsInv, Pad, ReadAt, Image,
         ClosedOk, WordOk, EntriesOk, WatchedOk, TokenOk;
    assert BatchInv(s, s.bufs[b].gen);
    assert BufferInv(s, b);
    RestKept(s, s', t, b);
  }

  lemma KeepReserve(s: Ring, t: nat)
    requires Inv(s) && t < |s.threads| && s.threads[t].Loaded?
    ensures Inv(Next(s, t))
  {
    hide Local, WritesInv, BatchesInv, RecordsInv, ApartInv, ReceiptsInv, BuffersInv, ThreadsInv, TargetsInv;
    var b := s.threads[t].b;
    if s.bufs[b].word != s.threads[t].snap {
      KeepToIdle(s, t);
    } else {
      var s' := Next(s, t);
      ReserveShape(s, t);
      ReserveThreads(s, s', t, b);
      ReserveBuffer(s, s', t, b);
      ReserveRest(s, s', t, b);
      AssembleBuffers(s, s', t, b);
    }
  }

  // ---- copy -------------------------------------------------------------

  /** A buffer somebody holds a reservation in is not flushing. */
  lemma HeldNotFlushing(s: Ring, t: nat, b: nat)
    requires Inv(s) && t < |s.threads| && b < |s.bufs| && Holding(s.threads[t], b)
    ensures s.bufs[b].word.writers > 0 && !s.bufs[b].word.flushing && !BatchOf(s, b).landed
    ensures BatchOf(s, b).record.None?
  {
    hide Local, WritesInv, BatchesInv, RecordsInv, ApartInv, ReceiptsInv, ThreadsInv, TargetsInv, EntriesOk,
         SealOk, WatchedOk, Tiled, End, Pad;
    assert BufferInv(s, b);
    HoldersStep(s.threads, t, s.threads[t], b);
  }

  ghost predicate Copying(s: Ring, s': Ring, t: nat, b: nat, i: nat)
    requires Wf(s)
  {
    && t < |s.threads| && b < |s.bufs| && Wf(s')
    && i < |BatchOf(s, b).entries|
    && var batch := BatchOf(s, b); var e := batch.entries[i];
       && s.threads[t] == Reserved(b, s.bufs[b].gen, i, e.off, e.payload)
       && e.owner == t && !e.copied && e.off + |e.payload| <= |s.bufs[b].mem|
       && s' == s.(
                bufs := s.bufs[b := s.bufs[b].(mem := Blit(s.bufs[b].mem, e.off, e.payload))],
                batches := s.batches[s.bufs[b].gen := batch.(entries := batch.entries[i := e.(copied := true)])],
                threads := s.threads[t := Written(b, s.bufs[b].gen, i, e.payload)])
  }

  lemma CopyShape(s: Ring, t: nat)
    requires Inv(s) && t < |s.threads| && s.threads[t].Reserved?
    ensures var b := s.threads[t].b;
            Copying(s, Next(s, t), t, b, s.threads[t].i) && Confined(s, Next(s, t), t, b)
  {
    hide WritesInv, BatchesInv, RecordsInv, ApartInv, ReceiptsInv, TargetsInv, SealOk, WatchedOk, TokenOk, Blit;
    var b := s.threads[t].b;
    assert ThreadInv(s, t);
    assert BufferInv(s, b);
    var e := BatchOf(s, b).entries[s.threads[t].i];
    assert EntryOk(b, s.bufs[b].gen, s.bufs[b].mem, e, s.threads[t].i, At(s.threads, Some(e.owner)));
  }

  lemma LocalCopy(t: nat, t': nat, pc: Pc, buf: Buffer, batch: Batch, c: nat, mem: Bytes, i: nat)
    requires Local(t', pc, buf, batch, c) && t' != t
    requires i < |batch.entries| && batch.entries[i].owner == t
    ensures Local(t', pc, buf.(mem := mem), batch.(entries := batch.entries[i := batch.entries[i].(copied := true)]), c)
  {
  }

  lemma CopyThreads(s: Ring, s': Ring, t: nat, b: nat, i: nat)
    requires Inv(s) && Confined(s, s', t, b) && Copying(s, s', t, b, i)
    ensures ThreadsInv(s') && TargetsInv(s')
  {
    hide Local, WritesInv, BatchesInv, RecordsInv, ApartInv, ReceiptsInv, BuffersInv, Blit;
    forall t' | 0 <= t' < |s.threads| && t' != t && !s.threads[t'].Idle? && s.threads[t'].b == b
      ensures ThreadInv(s', t')
    {
      assert ThreadInv(s, t');
      LocalCopy(t, t', s.threads[t'], s.bufs[b], BatchOf(s, b), s.counter, s'.bufs[b].mem, i);
    }
    CopySelf(s, s', t, b, i);
    AssembleThreads(s, s', t, b);
    forall t' | 0 <= t' < |s.threads| && t' != t ensures TargetInv(s', t', b) {
      assert TargetInv(s, t', b);
    }
    AssembleTargets(s, s', t, b);
  }

  lemma CopySelf(s: Ring, s': Ring, t: nat, b: nat, i: nat)
    requires Inv(s) && Confined(s, s', t, b) && Copying(s, s', t, b, i)
    ensures ThreadInv(s', t)
  {
    hide WritesInv, BatchesInv, RecordsInv, ApartInv, ReceiptsInv, BuffersInv, TargetsInv, ThreadsInv, Blit;
  }

  lemma TiledMark(entries: seq<Entry>, i: nat)
    requires Tiled(entries) && i < |entries|
    ensures var marked := entries[i := entries[i].(copied := true)];
            Tiled(marked) && End(marked) == End(entries) && Image(marked) == Image(entries)
  {
    ImageSame(entries, entries[i := entries[i].(copied := true)]);
  }

  lemma CopyBuffer(s: Ring, s': Ring, t: nat, b: nat, i: nat)
    requires Inv(s) && Confined(s, s', t, b) && Copying(s, s', t, b, i)
    ensures BufferInv(s', b)
  {
    hide Local, WritesInv, BatchesInv, RecordsInv, ApartInv, ReceiptsInv, ThreadsInv, TargetsInv, EntriesOk,
         Tiled, End, Pad, Blit, Image;
    assert BufferInv(s, b);
    TiledMark(BatchOf(s, b).entries, i);
    SameHolders(s.threads, t, s'.threads[t], b);
    HeldNotFlushing(s, t, b);
    CopyEntries(s, s', t, b, i);
  }

  lemma CopyEntries(s: Ring, s': Ring, t: nat, b: nat, i: nat)
    requires Inv(s) && Confined(s, s', t, b) && Copying(s, s', t, b, i)
    ensures EntriesInv(s', b)
  {
    hide Local, WritesInv, BatchesInv, RecordsInv, ApartInv, ReceiptsInv, ThreadsInv, TargetsInv, SealOk,
         WatchedOk, TokenOk, Tiled, End, Blit, Files.Holds;
    assert BufferInv(s, b);
    var entries, entries' := BatchOf(s, b).entries, BatchOf(s', b).entries;
    var mem := s.bufs[b].mem;
    forall k | 0 <= k < |entries'|
      ensures EntryOk(b, s'.bufs[b].gen, s'.bufs[b].mem, entries'[k], k, At(s'.threads, Some(entries'[k].owner)))
    {
      var e := entries[k];
      assert EntryOk(b, s.bufs[b].gen, mem, e, k, At(s.threads, Some(e.owner)));
      if k == i {
        BlitHolds(mem, e.off, e.payload);
      } else if e.copied {
        if k < i { TiledApart(entries, k, i); } else { TiledApart(entries, i, k); }
        BlitKeeps(mem, entries[i].off, entries[i].payload, e.off, e.payload);
      }
    }
  }

  lemma CopyRest(s: Ring, s': Ring, t: nat, b: nat, i: nat)
    requires Inv(s) && Confined(s, s', t, b) && Copying(s, s', t, b, i)
    ensures WritesInv(s') && BatchesInv(s') && RecordsInv(s') && ApartInv(s') && ReceiptsInv(s')
  {
    hide Local, WritesInv, RecordsInv, ApartInv, ReceiptsInv, ThreadsInv, TargetsInv, Pad, ReadAt, Image,
         ClosedOk, EntriesOk, WatchedOk, TokenOk, SealOk, Blit, Tiled, End;
    assert BatchInv(s, s.bufs[b].gen);
    assert BufferInv(s, b);
    TiledMark(BatchOf(s, b).entries, i);
    RestKept(s, s', t, b);
  }

  lemma KeepCopy(s: Ring, t: nat)
    requires Inv(s) && t < |s.threads| && s.threads[t].Reserved?
    ensures Inv(Next(s, t))
  {
    hide Local, WritesInv, BatchesInv, RecordsInv, ApartInv, ReceiptsInv, BuffersInv, ThreadsInv, TargetsInv, Blit;
    var b, i := s.threads[t].b, s.threads[t].i;
    var s' := Next(s, t);
    CopyShape(s, t);
    CopyThreads(s, s', t, b, i);
    CopyBuffer(s, s', t, b, i);
    CopyRest(s, s', t, b, i);
    AssembleBuffers(s, s', t, b);
  }

  // ---- release ----------------------------------------------------------

  /** Adding a receipt for an entry that is there. */
  lemma KeepReceipt(s: Ring, r: Receipt)
    requires Inv(s) && ReceiptOk(r, s.batches)
    ensures Inv(s.(accepted := s.accepted + [r]))
  {
    hide Local, WordOk, EntriesOk, SealOk, WatchedOk, TokenOk, BatchOk, ClosedOk, Apart, ReceiptOk;
    var s' := s.(accepted := s.accepted + [r]);
    forall t | 0 <= t < |s'.threads| ensures ThreadInv(s', t) { assert ThreadInv(s, t); }
    forall t, b | 0 <= t < |s'.threads| && 0 <= b < |s'.bufs| ensures TargetInv(s', t, b) { assert TargetInv(s, t, b); }
    forall b | 0 <= b < |s'.bufs| ensures BufferInv(s', b) { assert BufferInv(s, b); }
    forall id | id in s'.outstanding ensures WriteInv(s', id) { assert WriteInv(s, id); }
    forall g | 0 <= g < |s'.batches| ensures BatchInv(s', g) { assert BatchInv(s, g); }
    forall i | 0 <= i < |s'.records| ensures RecordInv(s', i) { assert RecordInv(s, i); }
  }

  /** The release itself, before the receipt is noted. */
  function Released(s: Ring, t: nat, b: nat): Ring
    requires t < |s.threads| && b < |s.bufs| && s.bufs[b].gen < |s.batches|
  {
    var w := s.bufs[b].word;
    var wasLast := w.writers == 1 && w.sealed;
    s.(bufs := s.bufs[b := s.bufs[b].(word := Release(w))],
       batches := s.batches[s.bufs[b].gen := if wasLast then BatchOf(s, b).(last := Some(t)) else BatchOf(s, b)],
       threads := s.threads[t := if wasLast then LastWriter(b) else Idle])
  }

  lemma ReleaseShape(s: Ring, t: nat, b: nat)
    requires Inv(s) && t < |s.threads| && s.threads[t].Written? && s.threads[t].b == b
    ensures Confined(s, Released(s, t, b), t, b)
    ensures s.bufs[b].word.writers > 0 && !s.bufs[b].word.flushing
    ensures Release(s.bufs[b].word) == s.bufs[b].word.(writers := s.bufs[b].word.writers - 1)
  {
    hide Local, WritesInv, BatchesInv, RecordsInv, ApartInv, ReceiptsInv, TargetsInv, EntriesOk, SealOk,
         WatchedOk, TokenOk;
    assert BufferInv(s, b);
    HeldNotFlushing(s, t, b);
  }

  lemma LocalRelease(t: nat, pc: Pc, buf: Buffer, batch: Batch, c: nat, w: Word, last: Option<nat>)
    requires Local(t, pc, buf, batch, c) && buf.word.writers > 0 && !buf.word.flushing
    requires w == buf.word.(writers := buf.word.writers - 1)
    ensures Local(t, pc, buf.(word := w), batch, c) && Local(t, pc, buf.(word := w), batch.(last := last), c)
  {
  }

  lemma ReleaseThreads(s: Ring, t: nat, b: nat)
    requires Inv(s) && t < |s.threads| && s.threads[t].Written? && s.threads[t].b == b
    requires Confined(s, Released(s, t, b), t, b)
    ensures ThreadsInv(Released(s, t, b)) && TargetsInv(Released(s, t, b))
  {
    hide Local, WritesInv, BatchesInv, RecordsInv, ApartInv, ReceiptsInv, BuffersInv, Release;
    var s' := Released(s, t, b);
    ReleaseShape(s, t, b);
    forall t' | 0 <= t' < |s.threads| && t' != t && !s.threads[t'].Idle? && s.threads[t'].b == b
      ensures ThreadInv(s', t')
    {
      assert ThreadInv(s, t');
      LocalRelease(t', s.threads[t'], s.bufs[b], BatchOf(s, b), s.counter, s'.bufs[b].word, Some(t));
    }
    ReleaseSelf(s, t, b);
    AssembleThreads(s, s', t, b);
    forall t' | 0 <= t' < |s.threads| && t' != t ensures TargetInv(s', t', b) {
      assert TargetInv(s, t', b);
    }
    AssembleTargets(s, s', t, b);
  }

  lemma ReleaseSelf(s: Ring, t: nat, b: nat)
    requires Inv(s) && t < |s.threads| && s.threads[t].Written? && s.threads[t].b == b
    requires Confined(s, Released(s, t, b), t, b)
    ensures ThreadInv(Released(s, t, b), t)
  {
    hide WritesInv, BatchesInv, RecordsInv, ApartInv, ReceiptsInv, BuffersInv, TargetsInv, ThreadsInv;
  }

  /** The writer that leaves a sealed buffer empty stays to watch it. */
  lemma ReleaseBuffer(s: Ring, t: nat, b: nat)
    requires Inv(s) && t < |s.threads| && s.threads[t].Written? && s.threads[t].b == b
    requires Confined(s, Released(s, t, b), t, b)
    ensures BufferInv(Released(s, t, b), b)
  {
    hide Local, WritesInv, BatchesInv, RecordsInv, ApartInv, ReceiptsInv, ThreadsInv, TargetsInv, EntriesOk,
         Tiled, End, Pad, Release;
    var s' := Released(s, t, b);
    assert BufferInv(s, b);
    ReleaseShape(s, t, b);
    HoldersStep(s.threads, t, s'.threads[t], b);
    EntriesFrame(b, s.bufs[b].gen, s.bufs[b].mem, BatchOf(s, b).entries, s.threads, t, s'.threads[t]);
  }

  lemma ReleaseRest(s: Ring, t: nat, b: nat)
    requires Inv(s) && t < |s.threads| && s.threads[t].Written? && s.threads[t].b == b
    requires Confined(s, Released(s, t, b), t, b)
    ensures var s' := Released(s, t, b);
            WritesInv(s') && BatchesInv(s') && RecordsInv(s') && ApartInv(s') && ReceiptsInv(s')
  {
    hide Local, WritesInv, RecordsInv, ApartInv, ReceiptsInv, ThreadsInv, TargetsInv, Pad, ReadAt, Image,
         ClosedOk, EntriesOk, WatchedOk, TokenOk, SealOk, Tiled, End, BuffersInv, Release;
    assert BatchInv(s, s.bufs[b].gen);
    RestKept(s, Released(s, t, b), t, b);
  }

  lemma KeepRelease(s: Ring, t: nat)
    requires Inv(s) && t < |s.threads| && s.threads[t].Written?
    ensures Inv(Next(s, t))
  {
    hide WritesInv, BatchesInv, RecordsInv, ApartInv, ReceiptsInv, BuffersInv, TargetsInv, Release;
    var pc := s.threads[t];
    var b := pc.b;
    var s' := Released(s, t, b);
    assert ThreadInv(s, t);
    ReleaseShape(s, t, b);
    ReleaseThreads(s, t, b);
    ReleaseBuffer(s, t, b);
    ReleaseRest(s, t, b);
    AssembleBuffers(s, s', t, b);
    var r := Receipt(pc.g, pc.i, pc.payload);
    KeepReceipt(s', r);
    ReleaseIsNext(s, t, b, r);
  }

  lemma ReleaseIsNext(s: Ring, t: nat, b: nat, r: Receipt)
    requires Wf(s) && t < |s.threads| && s.threads[t] == Written(b, r.gen, r.index, r.payload)
    ensures Next(s, t) == Released(s, t, b).(accepted := s.accepted + [r])
  {
    hide Release;
    assert s.batches[s.bufs[b].gen := BatchOf(s, b)] == s.batches;
  }
}
