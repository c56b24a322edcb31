/** Steps that change no buffer: loads, failed exchanges, and the scan for the
    next current buffer. */
module RingQuiet {
  import opened Files
  import opened StateWord
  import opened RingProtocol
  import opened RingInvariant
  import opened RingFrames

  function Moved(s: Ring, t: nat, pc: Pc, current: nat, nextIndex: nat, counter: nat): Ring
    requires t < |s.threads|
  {
    s.(threads := s.threads[t := pc], current := current, nextIndex := nextIndex, counter := counter)
  }

  /** Giving up `pc` for `pc'` takes nothing away that buffer `b` relies on. */
  predicate KeepsRoles(buf: Buffer, b: nat, pc: Pc, pc': Pc)
  {
    && !pc.Reserved?
    && (Holding(pc, b) <==> Holding(pc', b))
    && (Early(pc, b) ==> Early(pc', b))
    && (Owner(pc, b) ==> Owner(pc', b))
    && (Tail(pc, b) ==> Tail(pc', b) || buf.word.writers > 0 || buf.word.flushing)
    && (pc.LastWriter? ==> buf.word.flushing)
  }

  lemma QuietBuffer(s: Ring, t: nat, b: nat, s': Ring)
    requires Inv(s) && Confined(s, s', t, b) && s'.bufs == s.bufs && s'.batches == s.batches
    requires s'.outstanding == s.outstanding
    requires KeepsRoles(s.bufs[b], b, s.threads[t], s'.threads[t])
    ensures BufferInv(s', b)
  {
    hide Local, WritesInv, BatchesInv, RecordsInv, ApartInv, ReceiptsInv, ThreadsInv, TargetsInv, WordOk,
         EntriesOk, Pad;
    assert BufferInv(s, b);
    SameHolders(s.threads, t, s'.threads[t], b);
    EntriesFrame(b, s.bufs[b].gen, s.bufs[b].mem, BatchOf(s, b).entries, s.threads, t, s'.threads[t]);
  }

  /** The new standing of the thread, and where it may be. */
  ghost predicate QuietOk(s: Ring, t: nat, b: nat, pc: Pc, counter: nat)
    requires Wf(s)
  {
    && t < |s.threads| && b < |s.bufs| && s.counter <= counter
    && PcWf(pc, |s.bufs|)
    && (s.threads[t].Idle? || s.threads[t].b == b)
    && (pc.Idle? || pc.b == b)
    && KeepsRoles(s.bufs[b], b, s.threads[t], pc)
    && Local(t, pc, s.bufs[b], BatchOf(s, b), counter)
    && (forall b' :: 0 <= b' < |s.bufs| && Targets(pc, b') && BatchOf(s, b').extent.Some? ==>
         BatchOf(s, b').extent.value.at > 0)
  }

  lemma QuietShape(s: Ring, t: nat, b: nat, pc: Pc, current: nat, nextIndex: nat, counter: nat)
    requires Inv(s) && QuietOk(s, t, b, pc, counter) && current < |s.bufs|
    ensures Confined(s, Moved(s, t, pc, current, nextIndex, counter), t, b)
  {
    hide Local, WritesInv, BatchesInv, RecordsInv, ApartInv, ReceiptsInv, ThreadsInv, TargetsInv, EntriesOk,
         Pad, SealOk, WatchedOk, TokenOk;
    assert BufferInv(s, b);
  }

  lemma QuietThreads(s: Ring, s': Ring, t: nat, b: nat, pc: Pc)
    requires Inv(s) && QuietOk(s, t, b, pc, s'.counter)
    requires Confined(s, s', t, b) && s'.bufs == s.bufs && s'.batches == s.batches && s'.threads[t] == pc
    ensures ThreadsInv(s') && TargetsInv(s')
  {
    hide Local, WritesInv, BatchesInv, RecordsInv, ApartInv, ReceiptsInv, BuffersInv;
    forall t' | 0 <= t' < |s.threads| && t' != t && !s.threads[t'].Idle? && s.threads[t'].b == b
      ensures ThreadInv(s', t')
    {
      assert ThreadInv(s, t');
      CounterGrows(t', s.threads[t'], s.bufs[b], BatchOf(s, b), s.counter, s'.counter);
    }
    AssembleThreads(s, s', t, b);
    forall t' | 0 <= t' < |s.threads| && t' != t ensures TargetInv(s', t', b) {
      assert TargetInv(s, t', b);
    }
    AssembleTargets(s, s', t, b);
  }

  lemma QuietRest(s: Ring, s': Ring, t: nat, b: nat)
    requires Inv(s) && Confined(s, s', t, b) && s'.bufs == s.bufs && s'.batches == s.batches && SameWorld(s, s')
    ensures WritesInv(s') && BatchesInv(s') && RecordsInv(s') && ApartInv(s') && ReceiptsInv(s')
  {
    hide Local, WritesInv, RecordsInv, ApartInv, ReceiptsInv, BuffersInv, ThreadsInv, TargetsInv, Pad, ReadAt,
         Image, ClosedOk;
    assert BatchInv(s, s.bufs[b].gen);
    RestKept(s, s', t, b);
  }

  /** The general rule for quiet steps. */
  lemma Quiet(s: Ring, t: nat, b: nat, pc: Pc, current: nat, nextIndex: nat, counter: nat)
    requires Inv(s) && QuietOk(s, t, b, pc, counter) && current < |s.bufs|
    ensures Inv(Moved(s, t, pc, current, nextIndex, counter))
  {
    hide Local, WritesInv, BatchesInv, RecordsInv, ApartInv, ReceiptsInv, BuffersInv, ThreadsInv, TargetsInv;
    var s' := Moved(s, t, pc, current, nextIndex, counter);
    QuietShape(s, t, b, pc, current, nextIndex, counter);
    QuietBuffer(s, t, b, s');
    QuietThreads(s, s', t, b, pc);
    QuietRest(s, s', t, b);
    AssembleBuffers(s, s', t, b);
  }

  // ---- the quiet steps, one by one --------------------------------------

  lemma KeepBegin(s: Ring, t: nat, payload: Bytes)
    requires Inv(s) && t < |s.threads| && s.threads[t].Idle? && |payload| <= ONE_MEGABYTE_BLOCK
    ensures Inv(SetPc(s, t, Picked(s.current, payload)))
  {
    hide WritesInv, BatchesInv, RecordsInv, ApartInv, ReceiptsInv, BuffersInv, ThreadsInv, TargetsInv;
    Quiet(s, t, s.current, Picked(s.current, payload), s.current, s.nextIndex, s.counter);
  }

  lemma KeepToIdle(s: Ring, t: nat)
    requires Inv(s) && t < |s.threads| && !s.threads[t].Idle?
    requires KeepsRoles(s.bufs[s.threads[t].b], s.threads[t].b, s.threads[t], Idle)
    ensures Inv(SetPc(s, t, Idle))
  {
    hide WritesInv, BatchesInv, RecordsInv, ApartInv, ReceiptsInv, BuffersInv, ThreadsInv, TargetsInv;
    Quiet(s, t, s.threads[t].b, Idle, s.current, s.nextIndex, s.counter);
  }

  lemma KeepLoad(s: Ring, t: nat)
    requires Inv(s) && t < |s.threads| && s.threads[t].Picked?
    ensures Inv(Next(s, t))
  {
    hide WritesInv, BatchesInv, RecordsInv, ApartInv, ReceiptsInv, BuffersInv, ThreadsInv, TargetsInv;
    var pc := s.threads[t];
    Quiet(s, t, pc.b, AfterLoad(pc.b, pc.payload, s.bufs[pc.b].word), s.current, s.nextIndex, s.counter);
  }

  lemma KeepSizing(s: Ring, t: nat)
    requires Inv(s) && t < |s.threads| && s.threads[t].Sealing?
    ensures Inv(Next(s, t))
  {
    hide WritesInv, BatchesInv, RecordsInv, ApartInv, ReceiptsInv, BuffersInv, TargetsInv, Pad;
    var b := s.threads[t].b;
    assert ThreadInv(s, t);
    Quiet(s, t, b, Sized(b, Pad(s.bufs[b].word.offset)), s.current, s.nextIndex, s.counter);
  }

  lemma KeepRotating(s: Ring, t: nat)
    requires Inv(s) && t < |s.threads| && (s.threads[t].Rotating? || s.threads[t].Measuring?)
    ensures Inv(Next(s, t))
  {
    hide WritesInv, BatchesInv, RecordsInv, ApartInv, ReceiptsInv, BuffersInv, TargetsInv;
    var b := s.threads[t].b;
    assert ThreadInv(s, t);
    Quiet(s, t, b, Next(s, t).threads[t], s.current, s.nextIndex, s.counter);
  }

  lemma KeepScan(s: Ring, t: nat)
    requires Inv(s) && t < |s.threads| && s.threads[t].Scanning?
    ensures Inv(Next(s, t))
  {
    hide WritesInv, BatchesInv, RecordsInv, ApartInv, ReceiptsInv, BuffersInv, TargetsInv;
    var b := s.threads[t].b;
    assert ThreadInv(s, t);
    var s' := Next(s, t);
    Quiet(s, t, b, s'.threads[t], s.current, s'.nextIndex, s.counter);
    assert s' == Moved(s, t, s'.threads[t], s.current, s'.nextIndex, s.counter);
  }

  /** A buffer found available has no claimed range, so choosing it as a target
      is harmless. */
  lemma KeepProbe(s: Ring, t: nat)
    requires Inv(s) && t < |s.threads| && s.threads[t].Probing?
    ensures Inv(Next(s, t))
  {
    hide WritesInv, BatchesInv, RecordsInv, ApartInv, ReceiptsInv, TargetsInv, WordOk, EntriesOk, WatchedOk, TokenOk;
    var b, cand := s.threads[t].b, s.threads[t].cand;
    assert ThreadInv(s, t);
    assert BufferInv(s, cand);
    Quiet(s, t, b, Next(s, t).threads[t], s.current, s.nextIndex, s.counter);
  }

  lemma KeepSwap(s: Ring, t: nat)
    requires Inv(s) && t < |s.threads| && s.threads[t].Swapping?
    ensures Inv(Next(s, t))
  {
    hide WritesInv, BatchesInv, RecordsInv, ApartInv, ReceiptsInv, BuffersInv;
    var pc := s.threads[t];
    assert ThreadInv(s, t);
    assert TargetInv(s, t, pc.target);
    var s' := Next(s, t);
    Quiet(s, t, pc.b, Booking(pc.b, pc.size, pc.target), s'.current, s.nextIndex, s.counter);
    assert s' == Moved(s, t, Booking(pc.b, pc.size, pc.target), s'.current, s.nextIndex, s.counter);
  }

  lemma KeepBook(s: Ring, t: nat)
    requires Inv(s) && t < |s.threads| && s.threads[t].Booking?
    ensures Inv(Next(s, t))
  {
    hide WritesInv, BatchesInv, RecordsInv, ApartInv, ReceiptsInv, BuffersInv;
    var pc := s.threads[t];
    assert ThreadInv(s, t);
    assert TargetInv(s, t, pc.target);
    var s' := Next(s, t);
    Quiet(s, t, pc.b, Stamping(pc.b, s.counter, pc.target), s.current, s.nextIndex, s.counter + pc.size);
    assert s' == Moved(s, t, Stamping(pc.b, s.counter, pc.target), s.current, s.nextIndex, s.counter + pc.size);
  }

  /** The sealer may leave when it sees a writer: that writer will look again. */
  lemma KeepCheck(s: Ring, t: nat)
    requires Inv(s) && t < |s.threads| && s.threads[t].Checking?
    ensures Inv(Next(s, t))
  {
    hide WritesInv, BatchesInv, RecordsInv, ApartInv, ReceiptsInv, BuffersInv, TargetsInv;
    var b := s.threads[t].b;
    assert ThreadInv(s, t);
    Quiet(s, t, b, Next(s, t).threads[t], s.current, s.nextIndex, s.counter);
  }

  lemma KeepFlushAgain(s: Ring, t: nat)
    requires Inv(s) && t < |s.threads| && s.threads[t].Flushing?
    ensures Inv(Next(s, t))
  {
    hide WritesInv, BatchesInv, RecordsInv, ApartInv, ReceiptsInv, BuffersInv, TargetsInv;
    var b := s.threads[t].b;
    assert ThreadInv(s, t);
    assert s.bufs[b := s.bufs[b].(word := SetFlush(s.bufs[b].word))] == s.bufs;
    Quiet(s, t, b, Submitting(b), s.current, s.nextIndex, s.counter);
  }

  lemma KeepSubmit(s: Ring, t: nat)
    requires Inv(s) && t < |s.threads| && (s.threads[t].Submitting? || s.threads[t].Reaping?)
    ensures Inv(Next(s, t))
  {
    hide WritesInv, BatchesInv, RecordsInv, ApartInv, ReceiptsInv, BuffersInv, TargetsInv, Pad;
    var b := s.threads[t].b;
    assert ThreadInv(s, t);
    Quiet(s, t, b, Next(s, t).threads[t], s.current, s.nextIndex, s.counter);
  }

  /** Nobody between seal and publication means the address is there. */
  lemma KeepDispatch(s: Ring, t: nat)
    requires Inv(s) && t < |s.threads| && s.threads[t].Dispatching? && !Unpublished(s, s.threads[t].b)
    ensures Inv(Next(s, t))
  {
    hide WritesInv, BatchesInv, RecordsInv, ApartInv, ReceiptsInv, TargetsInv, EntriesOk, WatchedOk, TokenOk, Pad;
    var b := s.threads[t].b;
    assert ThreadInv(s, t);
    assert BufferInv(s, b);
    var sealer := BatchOf(s, b).sealer;
    assert BatchOf(s, b).published by {
      if sealer.Some? && sealer.value < |s.threads| {
        assert !Early(s.threads[sealer.value], b);
      }
    }
    Quiet(s, t, b, Next(s, t).threads[t], s.current, s.nextIndex, s.counter);
  }
}
