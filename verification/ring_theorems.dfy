/** What every run of the ring protocol guarantees. */
module RingTheorems {
  import opened Files
  import opened StateWord
  import opened RingProtocol
  import opened RingInvariant
  import opened RingFrames
  import opened RingReservations
  import opened RingSealing
  import opened RingFlushing
  import opened RingHistory

  // ---- reservations -----------------------------------------------------

  /** The reservations of every buffer tile `[0, offset)` of its memory exactly,
      whatever stale words threads carried into their exchanges. */
  lemma ReservationsTile(capacity: nat, n: nat, actions: seq<Action>, s: Ring, b: nat)
    requires Reached(capacity, n, actions, s) && b < |s.bufs|
    ensures Wf(s)
    ensures var entries := BatchOf(s, b).entries; var offset := s.bufs[b].word.offset;
            && offset <= ONE_MEGABYTE_BLOCK == |s.bufs[b].mem|
            && (entries == [] ==> offset == 0)
            && (forall i :: 0 <= i < |entries| ==>
                && entries[i].off == (if i == 0 then 0 else entries[i - 1].off + |entries[i - 1].payload|)
                && entries[i].off + |entries[i].payload| == (if i + 1 == |entries| then offset else entries[i + 1].off))
  {
    hide Local, WritesInv, BatchesInv, RecordsInv, ApartInv, ReceiptsInv, ThreadsInv, TargetsInv, EntriesOk,
         SealOk, WatchedOk, TokenOk, Executes;
    ReachedOk(capacity, n, actions, s);
    assert BufferInv(s, b);
  }

  lemma ReservationsApart(capacity: nat, n: nat, actions: seq<Action>, s: Ring, b: nat, i: nat, j: nat)
    requires Reached(capacity, n, actions, s) && b < |s.bufs|
    requires Wf(s) && i < j < |BatchOf(s, b).entries|
    ensures BatchOf(s, b).entries[i].off + |BatchOf(s, b).entries[i].payload| <= BatchOf(s, b).entries[j].off
    ensures BatchOf(s, b).entries[j].off + |BatchOf(s, b).entries[j].payload| <= ONE_MEGABYTE_BLOCK
  {
    hide Local, WritesInv, BatchesInv, RecordsInv, ApartInv, ReceiptsInv, ThreadsInv, TargetsInv, EntriesOk,
         SealOk, WatchedOk, TokenOk, Executes;
    ReachedOk(capacity, n, actions, s);
    assert BufferInv(s, b);
    TiledApart(BatchOf(s, b).entries, i, j);
    TiledWithin(BatchOf(s, b).entries, j);
  }

  /** The writer field counts the threads between reservation and release, so it
      never borrows, and the packed word never carries. */
  lemma WritersCounted(capacity: nat, n: nat, actions: seq<Action>, s: Ring, b: nat)
    requires Reached(capacity, n, actions, s) && b < |s.bufs|
    ensures s.bufs[b].word.writers == |Holders(s.threads, b)| <= n
    ensures forall t :: 0 <= t < |s.threads| && Holding(s.threads[t], b) ==>
              && s.bufs[b].word.writers > 0
              && Release(s.bufs[b].word) == s.bufs[b].word.(writers := s.bufs[b].word.writers - 1)
    ensures forall t | 0 <= t < |s.threads| && s.threads[t].Loaded? ::
              s.threads[t].snap == s.bufs[b].word && s.threads[t].b == b ==>
              var size := |s.threads[t].payload|; var w := s.bufs[b].word;
              Reserve(w, size) == w.(offset := w.offset + size, writers := w.writers + 1)
  {
    hide Local, WritesInv, BatchesInv, RecordsInv, ApartInv, ReceiptsInv, ThreadsInv, TargetsInv, EntriesOk,
         SealOk, WatchedOk, TokenOk, Executes, Reserve;
    ReachedOk(capacity, n, actions, s);
    InitOk(capacity, n);
    RunGrows(Init(capacity, n), actions, s);
    assert BufferInv(s, b);
    Below(|s.threads|, Holders(s.threads, b));
    forall t | 0 <= t < |s.threads| && Holding(s.threads[t], b) ensures s.bufs[b].word.writers > 0 {
      HoldersStep(s.threads, t, s.threads[t], b);
    }
    forall t | 0 <= t < |s.threads| && s.threads[t].Loaded?
               && s.threads[t].snap == s.bufs[b].word && s.threads[t].b == b
      ensures var size := |s.threads[t].payload|; var w := s.bufs[b].word;
              Reserve(w, size) == w.(offset := w.offset + size, writers := w.writers + 1)
    {
      ReserveWord(s, t);
    }
  }

  // ---- hand-off of the flush --------------------------------------------

  /** No lost flush: a sealed buffer that nobody has claimed has an active
      writer, a sealer that has not finished its check, or a last writer about
      to claim. */
  lemma NoLostFlush(capacity: nat, n: nat, actions: seq<Action>, s: Ring, b: nat)
    requires Reached(capacity, n, actions, s) && b < |s.bufs|
    requires s.bufs[b].word.sealed && !s.bufs[b].word.flushing
    ensures (exists t :: 0 <= t < |s.threads| && Holding(s.threads[t], b))
         || (exists t :: 0 <= t < |s.threads| && (Tail(s.threads[t], b) || s.threads[t] == LastWriter(b)))
  {
    hide Local, WritesInv, BatchesInv, RecordsInv, ApartInv, ReceiptsInv, ThreadsInv, TargetsInv, EntriesOk,
         TokenOk, Executes, Tiled, End, Tail, Holding;
    ReachedOk(capacity, n, actions, s);
    assert BufferInv(s, b);
    if s.bufs[b].word.writers > 0 {
      SomeHolder(s.threads, b);
    } else {
      var sealer, last := BatchOf(s, b).sealer, BatchOf(s, b).last;
      if Tail(At(s.threads, sealer), b) {
        TailNeedsThread(s.threads, sealer, b);
      } else {
        assert At(s.threads, last) == s.threads[last.value];
      }
    }
  }

  lemma SomeHolder(threads: seq<Pc>, b: nat)
    requires |Holders(threads, b)| > 0
    ensures exists t :: 0 <= t < |threads| && Holding(threads[t], b)
  {
    var t :| t in Holders(threads, b);
    assert Holding(threads[t], b);
  }

  lemma TailNeedsThread(threads: seq<Pc>, o: Option<nat>, b: nat)
    requires Tail(At(threads, o), b)
    ensures o.Some? && o.value < |threads| && Tail(threads[o.value], b)
  {
  }

  /** Exactly one party is responsible for a flushing buffer: one thread, or one
      entry in the I/O ring; across failures and re-submissions too. */
  lemma OneOwner(capacity: nat, n: nat, actions: seq<Action>, s: Ring, b: nat)
    requires Reached(capacity, n, actions, s) && b < |s.bufs|
    ensures Wf(s) && BatchOf(s, b).wins == (if s.bufs[b].word.flushing then 1 else 0)
    ensures s.bufs[b].word.flushing <==>
            (exists t :: 0 <= t < |s.threads| && Owner(s.threads[t], b))
            || (exists id :: id in s.outstanding && s.outstanding[id].buf == b)
    ensures forall t, t' | 0 <= t < |s.threads| && 0 <= t' < |s.threads| ::
              Owner(s.threads[t], b) && Owner(s.threads[t'], b) ==>
              t == t'
    ensures forall id, id' | id in s.outstanding && id' in s.outstanding ::
              s.outstanding[id].buf == b && s.outstanding[id'].buf == b ==>
              id == id'
    ensures forall t, id :: 0 <= t < |s.threads| && Owner(s.threads[t], b) && id in s.outstanding ==>
              s.outstanding[id].buf != b
  {
    hide Local, BatchesInv, RecordsInv, ApartInv, ReceiptsInv, TargetsInv, EntriesOk, SealOk, WatchedOk,
         Executes, Tiled, End, Owner, Pad, ThreadsInv;
    ReachedOk(capacity, n, actions, s);
    assert BufferInv(s, b);
    forall t | 0 <= t < |s.threads| && Owner(s.threads[t], b) ensures s.bufs[b].token == WithThread(t) {
      OwnerHasToken(s, t, b);
    }
    forall id | id in s.outstanding && s.outstanding[id].buf == b ensures s.bufs[b].token == InRing(id) {
      assert WriteInv(s, id);
    }
    if s.bufs[b].token.WithThread? {
      NotIdleOwner(s.threads, s.bufs[b].token.t, b);
    }
  }

  lemma NotIdleOwner(threads: seq<Pc>, t: nat, b: nat)
    requires Owner(At(threads, Some(t)), b)
    ensures t < |threads| && Owner(threads[t], b)
  {
  }

  lemma OwnerHasToken(s: Ring, t: nat, b: nat)
    requires Inv(s) && t < |s.threads| && b < |s.bufs| && Owner(s.threads[t], b)
    ensures s.bufs[b].token == WithThread(t)
  {
    hide BatchesInv, RecordsInv, ApartInv, ReceiptsInv, TargetsInv, BuffersInv, WritesInv, Pad;
    assert ThreadInv(s, t);
  }

  /** Over the whole run, every batch has its flush claimed at most once, and
      exactly once if its buffer has moved on or its write was reported. */
  lemma ClaimedOnce(capacity: nat, n: nat, actions: seq<Action>, s: Ring, g: nat)
    requires Reached(capacity, n, actions, s) && g < |s.batches|
    ensures s.batches[g].wins <= 1 && s.batches[g].buf < |s.bufs|
    ensures s.bufs[s.batches[g].buf].gen != g || s.batches[g].record.Some? ==> s.batches[g].wins == 1
  {
    hide Local, WritesInv, RecordsInv, ApartInv, ReceiptsInv, TargetsInv, EntriesOk, SealOk, WatchedOk,
         Executes, Tiled, End, Pad, ThreadsInv, BatchOk;
    ReachedOk(capacity, n, actions, s);
    assert BatchInv(s, g);
    assert BufferInv(s, s.batches[g].buf);
  }

  /** A reset never discards an active writer, and only ends a batch whose bytes
      are on disk and reported. */
  lemma ResetDiscardsNothing(capacity: nat, n: nat, actions: seq<Action>, s: Ring, t: nat)
    requires Reached(capacity, n, actions, s) && t < |s.threads| && s.threads[t].Recorded?
    ensures Wf(s)
    ensures var b := s.threads[t].b; var batch := BatchOf(s, b);
            && s.bufs[b].word.writers == 0 && Holders(s.threads, b) == {}
            && AllCopied(batch.entries) && batch.landed && batch.record.Some?
  {
    hide WritesInv, BatchesInv, RecordsInv, ApartInv, ReceiptsInv, TargetsInv, EntriesOk, SealOk, WatchedOk,
         TokenOk, Tiled, End, Pad, Executes;
    ReachedOk(capacity, n, actions, s);
    assert ThreadInv(s, t);
    var b := s.threads[t].b;
    assert BufferInv(s, b);
    QuiescentCopied(s, b);
  }

  /** When no thread is mid-operation, every sealed buffer has been dispatched. */
  lemma QuietMeansDispatched(capacity: nat, n: nat, actions: seq<Action>, s: Ring, b: nat)
    requires Reached(capacity, n, actions, s) && b < |s.bufs|
    requires forall t :: 0 <= t < |s.threads| ==> s.threads[t].Idle?
    requires s.bufs[b].word.sealed
    ensures s.bufs[b].word.flushing
    ensures exists id :: id in s.outstanding && s.outstanding[id].buf == b
  {
    hide Executes, Wf;
    if !s.bufs[b].word.flushing { NoLostFlush(capacity, n, actions, s, b); }
    OneOwner(capacity, n, actions, s, b);
  }

  // ---- dispatch safety --------------------------------------------------

  /** What a submission is, at the moment it is handed to the I/O ring: the
      whole batch, complete, at the range claimed for it. */
  lemma DispatchSafe(capacity: nat, n: nat, actions: seq<Action>, s: Ring, t: nat)
    requires Reached(capacity, n, actions, s) && t < |s.threads| && s.threads[t].Pushing?
    ensures Wf(s)
    ensures var pc := s.threads[t]; var buf := s.bufs[pc.b]; var batch := BatchOf(s, pc.b);
            && buf.word.sealed && buf.word.flushing && buf.word.writers == 0
            && AllCopied(batch.entries)
            && buf.word.offset == End(batch.entries)
            && batch.extent == Some(Extent(pc.at, pc.len))
            && buf.word.offset <= pc.len == Pad(buf.word.offset) <= |buf.mem|
            && buf.mem[..buf.word.offset] == Image(batch.entries)
  {
    hide WritesInv, BatchesInv, RecordsInv, ApartInv, ReceiptsInv, TargetsInv, EntriesOk, SealOk, WatchedOk,
         TokenOk, Tiled, End, Image, Pad, Executes;
    ReachedOk(capacity, n, actions, s);
    assert ThreadInv(s, t);
    var b := s.threads[t].b;
    assert BufferInv(s, b);
    ExtentOf(s, b);
    QuiescentImage(s, b);
    QuiescentCopied(s, b);
    PadCovers(s.bufs[b].word.offset);
  }

  /** The parts of a buffer an outstanding write reads. */
  ghost predicate SameSource(buf: Buffer, buf': Buffer)
  {
    buf'.mem == buf.mem && buf'.word == buf.word && buf'.addr == buf.addr && buf'.gen == buf.gen
  }

  /** While a buffer is flushing, only its owner's reset changes what the write
      reads. */
  lemma FlushingFrozen(s: Ring, t: nat, b: nat)
    requires Inv(s) && t < |s.threads| && b < |s.bufs| && s.bufs[b].token.InRing?
    requires !s.threads[t].Idle? && Allowed(ALL, s, s.threads[t])
    ensures |Next(s, t).bufs| == |s.bufs| && SameSource(s.bufs[b], Next(s, t).bufs[b])
  {
    hide WritesInv, BatchesInv, RecordsInv, ApartInv, ReceiptsInv, TargetsInv, EntriesOk, Tiled, End, Pad,
         Unpublished, Lingering, HalfReset, Available, AfterLoad, Release, Reserve, Copy, Next, Local, WordOk,
         SealOk, WatchedOk, TokenOk;
    var pc := s.threads[t];
    NextGrows(s, t);
    if pc.b != b {
      BystanderFrozen(s, t, b);
    } else if Holding(pc, b) {
      assert BufferInv(s, b);
      HeldNotFlushing(s, t, b);
      InRingFlushes(s, b);
    } else {
      OwnStepFrozen(s, t, b);
    }
  }

  lemma InRingFlushes(s: Ring, b: nat)
    requires Inv(s) && b < |s.bufs| && s.bufs[b].token.InRing?
    ensures s.bufs[b].word.flushing && s.bufs[b].word.sealed && s.bufs[b].word.writers == 0 && BatchOf(s, b).published
  {
    hide WritesInv, BatchesInv, RecordsInv, ApartInv, ReceiptsInv, TargetsInv, ThreadsInv, EntriesOk, SealOk,
         WatchedOk, Tiled, End, Pad;
    assert BufferInv(s, b);
  }

  /** A step on another buffer; only a stamp reaches out, and finds no zero. */
  lemma BystanderFrozen(s: Ring, t: nat, b: nat)
    requires Inv(s) && t < |s.threads| && b < |s.bufs| && s.bufs[b].token.InRing?
    requires !s.threads[t].Idle? && s.threads[t].b != b
    ensures b < |Next(s, t).bufs| && SameSource(s.bufs[b], Next(s, t).bufs[b])
  {
    hide WritesInv, BatchesInv, RecordsInv, ApartInv, ReceiptsInv, TargetsInv, BuffersInv, ThreadsInv, Next;
    if s.threads[t].Stamping? {
      StampFrozen(s, t, b);
    } else {
      OneBuffer(s, t);
    }
  }

  lemma StampFrozen(s: Ring, t: nat, b: nat)
    requires Inv(s) && t < |s.threads| && b < |s.bufs| && s.bufs[b].token.InRing? && s.threads[t].Stamping?
    ensures b < |Next(s, t).bufs| && SameSource(s.bufs[b], Next(s, t).bufs[b])
  {
    hide WritesInv, BatchesInv, RecordsInv, ApartInv, ReceiptsInv, TargetsInv, BuffersInv, ThreadsInv;
    InRingFlushes(s, b);
    StampFree(s, t);
  }

  /** Apart from stamping, a step touches at most the thread's own buffer. */
  lemma OneBuffer(s: Ring, t: nat)
    requires Wf(s) && t < |s.threads| && !s.threads[t].Idle? && !s.threads[t].Stamping?
    ensures |Next(s, t).bufs| == |s.bufs|
    ensures Next(s, t).bufs == s.bufs[s.threads[t].b := Next(s, t).bufs[s.threads[t].b]]
  {
    hide Next;
    var b := s.threads[t].b;
    assert s.bufs[b := s.bufs[b]] == s.bufs;
    match s.threads[t] {
      case Loaded(_, _, _) => PutTouches(s, t);
      case Reserved(_, _, _, _, _) => PutTouches(s, t);
      case Written(_, _, _, _) => PutTouches(s, t);
      case LastWriter(_) => PutTouches(s, t);
      case Claiming(_) => PutTouches(s, t);
      case SawFull(_) => PutTouches(s, t);
      case Sized(_, _) => PutTouches(s, t);
      case Publishing(_, _) => PutTouches(s, t);
      case Flushing(_) => FlushTouches(s, t);
      case Pushing(_, _, _) => FlushTouches(s, t);
      case Noting(_, _) => FlushTouches(s, t);
      case Recorded(_) => FlushTouches(s, t);
      case Clearing(_) => FlushTouches(s, t);
      case Retrying(_) => FlushTouches(s, t);
      case _ => LoadTouches(s, t);
    }
  }

  lemma PutTouches(s: Ring, t: nat)
    requires Wf(s) && t < |s.threads|
    requires var pc := s.threads[t];
             pc.Loaded? || pc.Reserved? || pc.Written? || pc.LastWriter? || pc.Claiming?
             || pc.SawFull? || pc.Sized? || pc.Publishing?
    ensures |Next(s, t).bufs| == |s.bufs|
    ensures Next(s, t).bufs == s.bufs[s.threads[t].b := Next(s, t).bufs[s.threads[t].b]]
  {
    hide Pad, Release, Reserve, Copy, SetFlush, Seal;
  }

  lemma FlushTouches(s: Ring, t: nat)
    requires Wf(s) && t < |s.threads|
    requires var pc := s.threads[t];
             pc.Flushing? || pc.Pushing? || pc.Noting? || pc.Recorded? || pc.Clearing? || pc.Retrying?
    ensures |Next(s, t).bufs| == |s.bufs|
    ensures Next(s, t).bufs == s.bufs[s.threads[t].b := Next(s, t).bufs[s.threads[t].b]]
  {
    hide SetFlush;
  }

  lemma LoadTouches(s: Ring, t: nat)
    requires Wf(s) && t < |s.threads|
    requires var pc := s.threads[t];
             pc.Picked? || pc.Sealing? || pc.Rotating? || pc.Measuring? || pc.Scanning? || pc.Probing? || pc.Swapping?
             || pc.Booking? || pc.Checking? || pc.Submitting? || pc.Dispatching? || pc.Reaping?
    ensures Next(s, t).bufs == s.bufs
  {
    hide Pad, Available, AfterLoad;
  }

  /** A step on the buffer itself, by a thread that holds nothing in it. */
  lemma OwnStepFrozen(s: Ring, t: nat, b: nat)
    requires Inv(s) && t < |s.threads| && b < |s.bufs| && s.bufs[b].token.InRing?
    requires !s.threads[t].Idle? && s.threads[t].b == b && !Holding(s.threads[t], b)
    ensures b < |Next(s, t).bufs| && SameSource(s.bufs[b], Next(s, t).bufs[b])
  {
    hide WritesInv, BatchesInv, RecordsInv, ApartInv, ReceiptsInv, TargetsInv, BuffersInv, Pad, Available,
         AfterLoad, Release, Reserve, Copy, Local;
    InRingFlushes(s, b);
    if s.threads[t].Stamping? { StampFree(s, t); }
    OwnStepImpossible(s, t, b);
  }

  /** The steps that would disturb a flushing buffer are not there to be taken. */
  lemma OwnStepImpossible(s: Ring, t: nat, b: nat)
    requires Inv(s) && t < |s.threads| && b < |s.bufs| && s.bufs[b].token.InRing?
    requires !s.threads[t].Idle? && s.threads[t].b == b
    ensures !Owner(s.threads[t], b) && !s.threads[t].Publishing? && !s.threads[t].Clearing?
    ensures s.threads[t].Loaded? ==> s.threads[t].snap != s.bufs[b].word
  {
    hide WritesInv, BatchesInv, RecordsInv, ApartInv, ReceiptsInv, TargetsInv, BuffersInv, Pad;
    InRingFlushes(s, b);
    assert ThreadInv(s, t);
  }

  lemma TakeFrozen(s: Ring, t: nat, id: nat, junk: Bytes, b: nat)
    requires Inv(s) && t < |s.threads| && id in s.outstanding && b < |s.bufs|
    ensures SameSource(s.bufs[b], DoTakeOk(s, t, id).bufs[b])
    ensures SameSource(s.bufs[b], DoTakeFailed(s, t, id, junk).bufs[b])
  {
    hide WritesInv, BatchesInv, RecordsInv, ApartInv, ReceiptsInv, TargetsInv, BuffersInv, ThreadsInv, WriteAt;
  }

  lemma StepFrozen(s: Ring, a: Action, b: nat)
    requires Inv(s) && Enabled(ALL, s, a) && b < |s.bufs| && s.bufs[b].token.InRing?
    ensures |Apply(s, a).bufs| == |s.bufs| && SameSource(s.bufs[b], Apply(s, a).bufs[b])
  {
    hide ThreadsInv, TargetsInv, BuffersInv, WritesInv, BatchesInv, RecordsInv, ApartInv, ReceiptsInv, Next,
         DoTakeOk, DoTakeFailed, SameSource;
    StepGrows(s, a);
    match a {
      case Run(t) => FlushingFrozen(s, t, b);
      case Begin(t, payload) => SameSourceSelf(s.bufs[b]);
      case TakeOk(t, id) => TakeFrozen(s, t, id, [], b);
      case TakeFailed(t, id, junk) => TakeFrozen(s, t, id, junk, b);
    }
  }

  lemma SameSourceSelf(buf: Buffer)
    ensures SameSource(buf, buf)
  {
  }

  /** From submission to completion, over any run: as long as write `id` is
      outstanding, the bytes, length and address it names do not change. */
  lemma {:induction false} OutstandingFrozen(s: Ring, actions: seq<Action>, s': Ring, id: nat)
    requires Inv(s) && Executes(ALL, s, actions, s')
    requires id in s.outstanding && id in s'.outstanding
    ensures s'.outstanding[id] == s.outstanding[id]
    ensures var b := s.outstanding[id].buf; b < |s.bufs| == |s'.bufs| && SameSource(s.bufs[b], s'.bufs[b])
    decreases |actions|
  {
    hide ThreadsInv, TargetsInv, BuffersInv, WritesInv, BatchesInv, RecordsInv, ApartInv, ReceiptsInv, Apply;
    OutstandingToken(s, id);
    if actions != [] {
      var s1 := Apply(s, actions[0]);
      KeepStep(s, actions[0]);
      StepGrows(s, actions[0]);
      StepFrozen(s, actions[0], s.outstanding[id].buf);
      RunGrows(s1, actions[1..], s');
      OutstandingFrozen(s1, actions[1..], s', id);
    }
  }

  lemma OutstandingToken(s: Ring, id: nat)
    requires Inv(s) && id in s.outstanding
    ensures id < s.nextId && s.bufs[s.outstanding[id].buf].token == InRing(id)
  {
    hide ThreadsInv, TargetsInv, BuffersInv, BatchesInv, RecordsInv, ApartInv, ReceiptsInv;
    assert WriteInv(s, id);
  }

  // ---- disjoint file ranges ---------------------------------------------

  /** The ranges claimed by any two seals of a run never overlap, padding
      included, and each is as long as the write later submitted for it. */
  lemma ExtentsApart(capacity: nat, n: nat, actions: seq<Action>, s: Ring, g: nat, h: nat)
    requires Reached(capacity, n, actions, s) && g < |s.batches| && h < |s.batches| && g != h
    requires s.batches[g].extent.Some? && s.batches[h].extent.Some?
    ensures var x, y := s.batches[g].extent.value, s.batches[h].extent.value;
            && (x.at + x.len <= y.at || y.at + y.len <= x.at)
            && x.at + x.len <= s.counter
            && x.len == Pad(End(s.batches[g].entries))
  {
    hide Local, WritesInv, RecordsInv, ReceiptsInv, TargetsInv, BuffersInv, ThreadsInv, Executes, Pad, End,
         ReadAt, Image;
    ReachedOk(capacity, n, actions, s);
    assert BatchInv(s, g);
    assert Apart(s.batches[g].extent, s.batches[h].extent);
  }

  // ---- durability -------------------------------------------------------

  /** Every completion message names file bytes equal to the payloads of its
      batch, concatenated in reservation order; no batch is reported twice. */
  lemma RecordsDurable(capacity: nat, n: nat, actions: seq<Action>, s: Ring, r: nat)
    requires Reached(capacity, n, actions, s) && r < |s.records|
    ensures s.records[r].gen < |s.batches|
    ensures var batch := s.batches[s.records[r].gen];
            && s.records[r].count == End(batch.entries)
            && ReadAt(s.disk, s.records[r].at, s.records[r].count) == Image(batch.entries)
    ensures forall r' :: 0 <= r' < |s.records| && s.records[r'].gen == s.records[r].gen ==> r' == r
  {
    hide Local, WritesInv, ApartInv, ReceiptsInv, TargetsInv, BuffersInv, ThreadsInv, Executes, End, ReadAt,
         Image, ClosedOk;
    ReachedOk(capacity, n, actions, s);
    assert RecordInv(s, r);
    assert BatchInv(s, s.records[r].gen);
    forall r' | 0 <= r' < |s.records| && s.records[r'].gen == s.records[r].gen ensures r' == r {
      assert RecordInv(s, r');
    }
  }

  /** What a message said stays true for the rest of the run: nothing is ever
      written over a reported range. */
  lemma RecordsForever(capacity: nat, n: nat, actions: seq<Action>, s: Ring, more: seq<Action>, s': Ring, r: nat)
    requires Reached(capacity, n, actions, s) && Executes(ALL, s, more, s') && r < |s.records|
    ensures r < |s'.records| && s'.records[r] == s.records[r]
    ensures ReadAt(s'.disk, s.records[r].at, s.records[r].count) == ReadAt(s.disk, s.records[r].at, s.records[r].count)
  {
    hide Local, WritesInv, ApartInv, ReceiptsInv, TargetsInv, BuffersInv, ThreadsInv, Executes, End, ReadAt,
         Image, ClosedOk;
    ReachedOk(capacity, n, actions, s);
    RunGrows(s, more, s');
    var g := s.records[r].gen;
    assert RecordInv(s, r) && RecordInv(s', r);
    assert BatchInv(s, g) && BatchInv(s', g);
    SameImage(s.batches[g], s'.batches[g]);
  }

  lemma SameImage(x: Batch, y: Batch)
    requires BatchGrows(x, y) && x.extent.Some?
    ensures End(x.entries) == End(y.entries) && Image(x.entries) == Image(y.entries)
  {
    forall i | 0 <= i < |x.entries|
      ensures y.entries[i].payload == x.entries[i].payload && y.entries[i].off == x.entries[i].off
    {
      assert y.entries[i].(copied := x.entries[i].copied) == x.entries[i];
    }
    ImageSame(x.entries, y.entries);
  }

  lemma SliceLeft(a: Bytes, b: Bytes, from: nat, to: nat)
    requires from <= to <= |a|
    ensures (a + b)[from..to] == a[from..to]
  {
  }

  lemma SliceRight(a: Bytes, b: Bytes)
    ensures (a + b)[|a|..|a| + |b|] == b
  {
  }

  /** One payload inside the image of its batch. */
  lemma {:induction false} ImagePart(entries: seq<Entry>, i: nat)
    requires Tiled(entries) && i < |entries|
    ensures |Image(entries)| == End(entries)
    ensures entries[i].off + |entries[i].payload| <= End(entries)
    ensures Image(entries)[entries[i].off..entries[i].off + |entries[i].payload|] == entries[i].payload
    decreases |entries|
  {
    hide Tiled;
    var n := |entries| - 1;
    var before, e := entries[..n], entries[i];
    TiledWithin(entries, i);
    PrefixTiled(entries);
    if n > 0 {
      ImagePart(before, if i < n then i else n - 1);
    }
    if i < n {
      TiledApart(entries, i, n);
      SliceLeft(Image(before), entries[n].payload, e.off, e.off + |e.payload|);
    } else {
      SliceRight(Image(before), e.payload);
    }
  }

  lemma PrefixTiled(entries: seq<Entry>)
    requires Tiled(entries) && entries != []
    ensures Tiled(entries[..|entries| - 1]) && End(entries[..|entries| - 1]) == entries[|entries| - 1].off
  {
  }

  /** Where the payload of an accepted `put` is. */
  lemma AcceptedKept(capacity: nat, n: nat, actions: seq<Action>, s: Ring, k: nat)
    requires Reached(capacity, n, actions, s) && k < |s.accepted|
    ensures var a := s.accepted[k];
            && Wf(s) && a.gen < |s.batches| && a.index < |s.batches[a.gen].entries|
            && s.batches[a.gen].entries[a.index].payload == a.payload
            && s.batches[a.gen].buf < |s.bufs|
    // either one completion message covers it, and the file has it for good
    ensures var a := s.accepted[k]; var off := s.batches[a.gen].entries[a.index].off;
            forall r :: 0 <= r < |s.records| && s.records[r].gen == a.gen ==>
              && off + |a.payload| <= s.records[r].count
              && ReadAt(s.disk, s.records[r].at + off, |a.payload|) == a.payload
    ensures var a := s.accepted[k];
            forall r, r' | 0 <= r < |s.records| && 0 <= r' < |s.records|
                :: s.records[r].gen == a.gen == s.records[r'].gen ==> r == r'
    // or its buffer still collects or flushes the batch, and has it in memory
    ensures var a := s.accepted[k]; var off := s.batches[a.gen].entries[a.index].off;
            (exists r :: 0 <= r < |s.records| && s.records[r].gen == a.gen)
            || (s.bufs[s.batches[a.gen].buf].gen == a.gen
                && Files.Holds(s.bufs[s.batches[a.gen].buf].mem, off, a.payload))
  {
    hide Local, WritesInv, ApartInv, TargetsInv, BuffersInv, ThreadsInv, Executes, End, ReadAt, Image, Tiled,
         RecordsInv, BatchOk;
    ReachedOk(capacity, n, actions, s);
    var a := s.accepted[k];
    assert ReceiptOk(a, s.batches);
    assert BatchInv(s, a.gen);
    forall r | 0 <= r < |s.records| && s.records[r].gen == a.gen
      ensures s.batches[a.gen].entries[a.index].off + |a.payload| <= s.records[r].count
      ensures ReadAt(s.disk, s.records[r].at + s.batches[a.gen].entries[a.index].off, |a.payload|) == a.payload
    {
      ReportedHas(capacity, n, actions, s, r, a.index);
    }
    forall r, r' | 0 <= r < |s.records| && 0 <= r' < |s.records|
                   && s.records[r].gen == a.gen && s.records[r'].gen == a.gen
      ensures r == r'
    {
      RecordsDurable(capacity, n, actions, s, r);
    }
    if s.bufs[s.batches[a.gen].buf].gen == a.gen {
      MemoryHas(s, s.batches[a.gen].buf, a.index);
    } else {
      ClosedReported(s, a.gen);
    }
  }

  /** Two accepted puts never rely on the same reservation. */
  lemma AcceptedApart(capacity: nat, n: nat, actions: seq<Action>, s: Ring, k: nat, k': nat)
    requires Reached(capacity, n, actions, s) && k < k' < |s.accepted|
    ensures s.accepted[k].gen != s.accepted[k'].gen || s.accepted[k].index != s.accepted[k'].index
  {
    hide Inv, Executes;
    InitOk(capacity, n);
    RunTickets(Init(capacity, n), actions, s);
  }

  lemma ClosedReported(s: Ring, g: nat)
    requires Inv(s) && g < |s.batches| && s.batches[g].record.Some?
    ensures exists r :: 0 <= r < |s.records| && s.records[r].gen == g
  {
    hide Local, WritesInv, ApartInv, TargetsInv, BuffersInv, ThreadsInv, RecordsInv, End, ReadAt, Image, Tiled, Pad;
    assert BatchInv(s, g);
    assert s.records[s.batches[g].record.value].gen == g;
  }

  lemma MemoryHas(s: Ring, b: nat, i: nat)
    requires Inv(s) && b < |s.bufs| && i < |BatchOf(s, b).entries| && BatchOf(s, b).entries[i].copied
    ensures Files.Holds(s.bufs[b].mem, BatchOf(s, b).entries[i].off, BatchOf(s, b).entries[i].payload)
  {
    hide Local, WritesInv, ApartInv, TargetsInv, ThreadsInv, RecordsInv, BatchesInv, WordOk, SealOk, WatchedOk,
         TokenOk, Files.Holds;
    assert BufferInv(s, b);
    var e := BatchOf(s, b).entries[i];
    assert EntryOk(b, s.bufs[b].gen, s.bufs[b].mem, e, i, At(s.threads, Some(e.owner)));
  }

  lemma BatchTiled(s: Ring, g: nat)
    requires Inv(s) && g < |s.batches|
    ensures Tiled(s.batches[g].entries)
  {
    hide Local, WritesInv, ApartInv, TargetsInv, ThreadsInv, RecordsInv, EntriesOk, SealOk, WatchedOk, TokenOk,
         BatchOk, Tiled, End;
    assert BatchInv(s, g);
    assert BufferInv(s, s.batches[g].buf);
  }

  lemma ReportedHas(capacity: nat, n: nat, actions: seq<Action>, s: Ring, r: nat, i: nat)
    requires Reached(capacity, n, actions, s) && r < |s.records| && s.records[r].gen < |s.batches|
    requires i < |s.batches[s.records[r].gen].entries|
    ensures var e := s.batches[s.records[r].gen].entries[i];
            && e.off + |e.payload| <= s.records[r].count
            && ReadAt(s.disk, s.records[r].at + e.off, |e.payload|) == e.payload
  {
    hide Inv, Executes, ReadAt, Image, Tiled, End;
    ReachedOk(capacity, n, actions, s);
    RecordsDurable(capacity, n, actions, s, r);
    var entries := s.batches[s.records[r].gen].entries;
    BatchTiled(s, s.records[r].gen);
    ImagePart(entries, i);
    ReadPart(s.disk, s.records[r].at, s.records[r].count, entries[i].off, |entries[i].payload|);
  }
}
