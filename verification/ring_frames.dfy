/** What a step of one thread on one buffer leaves alone. */
module RingFrames {
  import opened Files
  import opened RingProtocol
  import opened RingInvariant

  // ---- counting holders -------------------------------------------------

  lemma HoldersStep(threads: seq<Pc>, t: nat, pc: Pc, b: nat)
    requires t < |threads|
    ensures Holders(threads[t := pc], b) ==
            if Holding(pc, b) then Holders(threads, b) + {t} else Holders(threads, b) - {t}
    ensures t in Holders(threads, b) <==> Holding(threads[t], b)
  {
  }

  lemma SameHolders(threads: seq<Pc>, t: nat, pc: Pc, b: nat)
    requires t < |threads| && (Holding(pc, b) <==> Holding(threads[t], b))
    ensures Holders(threads[t := pc], b) == Holders(threads, b)
  {
    HoldersStep(threads, t, pc, b);
  }

  lemma {:induction false} Below(n: nat, s: set<nat>)
    requires forall t :: t in s ==> t < n
    ensures |s| <= n
  {
    if n == 0 {
      assert s == {};
    } else {
      Below(n - 1, s - {n - 1});
    }
  }

  /** Fewer threads hold a reservation than there are threads, if one does not. */
  lemma HoldersFew(threads: seq<Pc>, t: nat, b: nat)
    requires t < |threads| && !Holding(threads[t], b)
    ensures |Holders(threads, b)| < |threads|
  {
    var h := Holders(threads, b);
    Below(|threads|, h + {t});
    assert |h + {t}| == |h| + 1;
  }

  // ---- a step of thread t on buffer b -----------------------------------

  /** `s'` differs from `s` only in thread `t`, buffer `b`, its batch, and the
      global counters; thread `t` deals with buffer `b` before and after. */
  ghost predicate Confined(s: Ring, s': Ring, t: nat, b: nat)
    requires Wf(s)
  {
    && t < |s.threads| && b < |s.bufs|
    && Wf(s')
    && |s'.threads| == |s.threads| && |s'.bufs| == |s.bufs| && |s'.batches| == |s.batches|
    && s'.threads == s.threads[t := s'.threads[t]]
    && s'.bufs == s.bufs[b := s'.bufs[b]]
    && s'.bufs[b].gen == s.bufs[b].gen
    && s'.batches == s.batches[s.bufs[b].gen := s'.batches[s.bufs[b].gen]]
    && BatchOf(s', b).buf == b
    && s.counter <= s'.counter
    && (s.threads[t].Idle? || s.threads[t].b == b)
    && (s'.threads[t].Idle? || s'.threads[t].b == b)
  }

  lemma OtherBatch(s: Ring, s': Ring, t: nat, b: nat, b': nat)
    requires Inv(s) && Confined(s, s', t, b) && b' < |s.bufs| && b' != b
    ensures s'.bufs[b'] == s.bufs[b'] && BatchOf(s', b') == BatchOf(s, b')
  {
    hide Local, EntriesOk, SealOk, WatchedOk, TokenOk, BatchOk, ClosedOk;
    assert BufferInv(s, b) && BufferInv(s, b');
  }

  lemma CounterGrows(t: nat, pc: Pc, buf: Buffer, batch: Batch, c: nat, c': nat)
    requires Local(t, pc, buf, batch, c) && c <= c'
    ensures Local(t, pc, buf, batch, c')
  {
  }

  lemma OtherThread(s: Ring, s': Ring, t: nat, b: nat, t': nat)
    requires Inv(s) && Confined(s, s', t, b) && t' < |s.threads| && t' != t
    requires s.threads[t'].Idle? || s.threads[t'].b != b
    ensures ThreadInv(s', t')
  {
    hide Local, EntriesOk, SealOk, WatchedOk, TokenOk, BatchOk, ClosedOk, WordOk;
    assert ThreadInv(s, t');
    var pc := s.threads[t'];
    if !pc.Idle? {
      OtherBatch(s, s', t, b, pc.b);
      CounterGrows(t', pc, s.bufs[pc.b], BatchOf(s, pc.b), s.counter, s'.counter);
    }
  }

  lemma OtherTarget(s: Ring, s': Ring, t: nat, b: nat, t': nat, b': nat)
    requires Inv(s) && Confined(s, s', t, b) && t' < |s.threads| && b' < |s.bufs|
    requires t' != t && b' != b
    ensures TargetInv(s', t', b')
  {
    hide Local, EntriesOk, SealOk, WatchedOk, TokenOk, BatchOk, ClosedOk, WordOk;
    assert TargetInv(s, t', b');
    OtherBatch(s, s', t, b, b');
  }

  lemma OtherWord(s: Ring, s': Ring, t: nat, b: nat, b': nat)
    requires Inv(s) && Confined(s, s', t, b) && b' < |s.bufs| && b' != b
    ensures WordInv(s', b')
  {
    hide Local, EntriesOk, SealOk, WatchedOk, TokenOk, BatchOk, ClosedOk, WordOk;
    assert BufferInv(s, b');
    OtherBatch(s, s', t, b, b');
    SameHolders(s.threads, t, s'.threads[t], b');
  }

  /** Entries only look at threads that hold them. */
  lemma EntriesFrame(b: nat, gen: nat, mem: Bytes, entries: seq<Entry>, threads: seq<Pc>, t: nat, pc: Pc)
    requires t < |threads| && EntriesOk(b, gen, mem, entries, threads)
    requires !(threads[t].Reserved? && threads[t].b == b)
    ensures EntriesOk(b, gen, mem, entries, threads[t := pc])
  {
    forall i | 0 <= i < |entries|
      ensures EntryOk(b, gen, mem, entries[i], i, At(threads[t := pc], Some(entries[i].owner)))
    {
      assert EntryOk(b, gen, mem, entries[i], i, At(threads, Some(entries[i].owner)));
    }
  }

  lemma OtherEntries(s: Ring, s': Ring, t: nat, b: nat, b': nat)
    requires Inv(s) && Confined(s, s', t, b) && b' < |s.bufs| && b' != b
    ensures EntriesInv(s', b')
  {
    hide Local, EntriesOk, SealOk, WatchedOk, TokenOk, BatchOk, ClosedOk, WordOk;
    assert BufferInv(s, b');
    OtherBatch(s, s', t, b, b');
    EntriesFrame(b', s.bufs[b'].gen, s.bufs[b'].mem, BatchOf(s, b').entries, s.threads, t, s'.threads[t]);
  }

  lemma OtherSeal(s: Ring, s': Ring, t: nat, b: nat, b': nat)
    requires Inv(s) && Confined(s, s', t, b) && b' < |s.bufs| && b' != b
    ensures SealInv(s', b')
  {
    hide Local, EntriesOk, WatchedOk, TokenOk, BatchOk, ClosedOk, WordOk;
    assert BufferInv(s, b');
    OtherBatch(s, s', t, b, b');
  }

  lemma OtherWatched(s: Ring, s': Ring, t: nat, b: nat, b': nat)
    requires Inv(s) && Confined(s, s', t, b) && b' < |s.bufs| && b' != b
    ensures WatchedInv(s', b')
  {
    hide Local, EntriesOk, SealOk, TokenOk, BatchOk, ClosedOk, WordOk;
    assert BufferInv(s, b');
    OtherBatch(s, s', t, b, b');
  }

  /** Outstanding writes of buffers other than `b` stay. */
  ghost predicate KeepsWrites(s: Ring, s': Ring, b: nat)
  {
    forall id :: id in s.outstanding && s.outstanding[id].buf != b ==>
      id in s'.outstanding && s'.outstanding[id] == s.outstanding[id]
  }

  lemma OtherToken(s: Ring, s': Ring, t: nat, b: nat, b': nat)
    requires Inv(s) && Confined(s, s', t, b) && KeepsWrites(s, s', b) && b' < |s.bufs| && b' != b
    ensures TokenInv(s', b')
  {
    hide Local, EntriesOk, SealOk, WatchedOk, BatchOk, ClosedOk, WordOk, Pad;
    assert BufferInv(s, b');
    OtherBatch(s, s', t, b, b');
  }

  lemma OtherBuffer(s: Ring, s': Ring, t: nat, b: nat, b': nat)
    requires Inv(s) && Confined(s, s', t, b) && KeepsWrites(s, s', b) && b' < |s.bufs| && b' != b
    ensures BufferInv(s', b')
  {
    hide WordInv, EntriesInv, SealInv, WatchedInv, TokenInv, Local;
    OtherWord(s, s', t, b, b');
    OtherEntries(s, s', t, b, b');
    OtherSeal(s, s', t, b, b');
    OtherWatched(s, s', t, b, b');
    OtherToken(s, s', t, b, b');
  }

  // ---- putting the invariant together again -----------------------------

  lemma AssembleThreads(s: Ring, s': Ring, t: nat, b: nat)
    requires Inv(s) && Confined(s, s', t, b)
    requires ThreadInv(s', t)
    requires forall t' :: 0 <= t' < |s.threads| && t' != t && !s.threads[t'].Idle? && s.threads[t'].b == b ==>
              ThreadInv(s', t')
    ensures ThreadsInv(s')
  {
    hide ThreadInv, Local, BuffersInv, WritesInv, BatchesInv, RecordsInv, ApartInv, ReceiptsInv, TargetsInv;
    forall t' | 0 <= t' < |s'.threads| ensures ThreadInv(s', t') {
      if t' != t && (s.threads[t'].Idle? || s.threads[t'].b != b) {
        OtherThread(s, s', t, b, t');
      }
    }
  }

  lemma AssembleTargets(s: Ring, s': Ring, t: nat, b: nat)
    requires Inv(s) && Confined(s, s', t, b)
    requires forall b' :: 0 <= b' < |s.bufs| ==> TargetInv(s', t, b')
    requires forall t' :: 0 <= t' < |s.threads| && t' != t ==> TargetInv(s', t', b)
    ensures TargetsInv(s')
  {
    hide TargetInv, Local, BuffersInv, WritesInv, BatchesInv, RecordsInv, ApartInv, ReceiptsInv, ThreadsInv;
    forall t', b' | 0 <= t' < |s'.threads| && 0 <= b' < |s'.bufs| ensures TargetInv(s', t', b') {
      if t' != t && b' != b {
        OtherTarget(s, s', t, b, t', b');
      }
    }
  }

  lemma AssembleBuffers(s: Ring, s': Ring, t: nat, b: nat)
    requires Inv(s) && Confined(s, s', t, b) && KeepsWrites(s, s', b)
    requires BufferInv(s', b)
    ensures BuffersInv(s')
  {
    hide BufferInv, Local, WritesInv, BatchesInv, RecordsInv, ApartInv, ReceiptsInv, ThreadsInv, TargetsInv;
    forall b' | 0 <= b' < |s'.bufs| ensures BufferInv(s', b') {
      if b' != b {
        OtherBuffer(s, s', t, b, b');
      }
    }
  }

  // ---- what most steps do not touch -------------------------------------

  ghost predicate SameWorld(s: Ring, s': Ring)
  {
    && s'.disk == s.disk && s'.records == s.records && s'.accepted == s.accepted
    && s'.outstanding == s.outstanding && s'.nextId == s.nextId
  }

  /** A batch may gain entries and have entries marked copied. */
  predicate Extends(batch: Batch, batch': Batch)
  {
    && batch'.extent == batch.extent
    && batch'.record == batch.record
    && |batch.entries| <= |batch'.entries|
    && (forall i :: 0 <= i < |batch.entries| ==>
        && batch'.entries[i].payload == batch.entries[i].payload
        && (batch.entries[i].copied ==> batch'.entries[i].copied))
  }

  lemma OtherBatchInv(s: Ring, s': Ring, t: nat, b: nat, g: nat)
    requires Inv(s) && Confined(s, s', t, b) && SameWorld(s, s')
    requires g < |s.batches| && g != s.bufs[b].gen
    ensures BatchInv(s', g)
  {
    hide Local, BuffersInv, WritesInv, RecordsInv, ApartInv, ReceiptsInv, ThreadsInv, TargetsInv, ClosedOk,
         ReadAt, Image, Pad;
    assert BatchInv(s, g);
  }

  lemma RestKept(s: Ring, s': Ring, t: nat, b: nat)
    requires Inv(s) && Confined(s, s', t, b) && SameWorld(s, s')
    requires Extends(BatchOf(s, b), BatchOf(s', b))
    requires BatchInv(s', s.bufs[b].gen)
    requires s.bufs[b].token.InRing? ==> s'.bufs[b].token == s.bufs[b].token
    ensures WritesInv(s') && BatchesInv(s') && RecordsInv(s') && ApartInv(s') && ReceiptsInv(s')
  {
    hide Local, BuffersInv, ThreadsInv, TargetsInv, BatchInv, Apart;
    forall id | id in s'.outstanding ensures WriteInv(s', id) {
      assert WriteInv(s, id);
    }
    forall g | 0 <= g < |s'.batches| ensures BatchInv(s', g) {
      if g != s.bufs[b].gen { OtherBatchInv(s, s', t, b, g); }
    }
    forall r | 0 <= r < |s'.records| ensures RecordInv(s', r) {
      assert RecordInv(s, r);
    }
    forall k | 0 <= k < |s'.accepted| ensures ReceiptOk(s'.accepted[k], s'.batches) {
      assert ReceiptOk(s.accepted[k], s.batches);
    }
  }
}
