/** The inductive invariant of the ring protocol.  It is a conjunction of small
    predicates, each about one thread, one buffer or one batch, that take as
    arguments exactly the values they depend on. */
module RingInvariant {
  import opened Files
  import opened StateWord
  import opened RingProtocol

  // ---- batches ----------------------------------------------------------

  /** The first byte after the last entry. */
  function End(entries: seq<Entry>): nat
  {
    if entries == [] then 0 else entries[|entries| - 1].off + |entries[|entries| - 1].payload|
  }

  /** The reserved ranges follow each other from 0 without gap or overlap. */
  predicate Tiled(entries: seq<Entry>)
  {
    && (entries != [] ==> entries[0].off == 0)
    && (forall i :: 0 < i < |entries| ==> entries[i].off == entries[i - 1].off + |entries[i - 1].payload|)
  }

  predicate AllCopied(entries: seq<Entry>)
  {
    forall i :: 0 <= i < |entries| ==> entries[i].copied
  }

  /** The payloads of a batch, one after the other in reservation order. */
  function Image(entries: seq<Entry>): Bytes
  {
    if entries == [] then [] else Image(entries[..|entries| - 1]) + entries[|entries| - 1].payload
  }

  // ---- threads ----------------------------------------------------------

  /** The thread with the given number, if any. */
  function At(threads: seq<Pc>, o: Option<nat>): Pc
  {
    if o.Some? && o.value < |threads| then threads[o.value] else Idle
  }

  function Holders(threads: seq<Pc>, b: nat): set<nat>
  {
    set t | 0 <= t < |threads| && Holding(threads[t], b)
  }

  /** What thread `t` at `pc` may rely on about its own buffer. */
  predicate Local(t: nat, pc: Pc, buf: Buffer, batch: Batch, counter: nat)
  {
    match pc
    case Idle => true
    case Picked(_, _) => true
    case Loaded(_, payload, snap) => !snap.sealed && !snap.flushing
    case Reserved(_, g, i, off, payload) =>
      g == buf.gen && i < |batch.entries| && batch.entries[i] == Entry(off, payload, t, false)
    case Written(_, g, i, payload) =>
      g == buf.gen && i < |batch.entries| && batch.entries[i].payload == payload && batch.entries[i].copied
    case LastWriter(_) => buf.word.sealed && buf.word.writers == 0 && batch.last == Some(t)
    case SawFull(_) => buf.word.offset > 0 || counter > 0
    case Sealing(_) => EarlyFacts(t, buf, batch) && batch.extent.None?
    case Sized(_, padded) => EarlyFacts(t, buf, batch) && batch.extent.None? && padded == Pad(buf.word.offset)
    case Publishing(_, slot) =>
      EarlyFacts(t, buf, batch) && batch.extent.Some? && batch.extent.value.at == slot && counter > 0
    case Rotating(_) => LateFacts(t, buf, batch, counter)
    case Measuring(_, _) => LateFacts(t, buf, batch, counter)
    case Scanning(_, _, _) => LateFacts(t, buf, batch, counter)
    case Probing(_, _, _, _) => LateFacts(t, buf, batch, counter)
    case Swapping(_, _, _) => LateFacts(t, buf, batch, counter)
    case Booking(_, _, _) => LateFacts(t, buf, batch, counter)
    case Stamping(_, _, _) => LateFacts(t, buf, batch, counter)
    case Checking(_) => LateFacts(t, buf, batch, counter)
    case Claiming(_) => LateFacts(t, buf, batch, counter) && buf.word.writers == 0
    case Flushing(_) => OwnerFacts(t, buf) && !batch.landed && batch.record.None?
    case Submitting(_) => OwnerFacts(t, buf) && !batch.landed && batch.record.None?
    case Dispatching(_, len) => OwnerFacts(t, buf) && !batch.landed && batch.record.None? && len == Pad(buf.word.offset)
    case Pushing(_, len, at) =>
      && OwnerFacts(t, buf) && !batch.landed && batch.record.None? && len == Pad(buf.word.offset)
      && batch.published && at == buf.addr
    case Reaping(_) => OwnerFacts(t, buf) && batch.published && batch.landed && batch.record.None?
    case Noting(_, at) => OwnerFacts(t, buf) && batch.published && batch.landed && batch.record.None? && at == buf.addr
    case Recorded(_) => OwnerFacts(t, buf) && batch.published && batch.landed && batch.record.Some?
    case Retrying(b) =>
      && OwnerFacts(t, buf) && batch.published && !batch.landed && batch.record.None?
      && buf.sqe == Some(Write(b, buf.addr, Pad(buf.word.offset)))
    case Clearing(_) => !batch.published && counter > 0 && (batch.extent.Some? ==> batch.extent.value.at > 0)
  }

  predicate EarlyFacts(t: nat, buf: Buffer, batch: Batch)
  {
    batch.sealer == Some(t) && buf.word.sealed && !batch.published
  }

  predicate LateFacts(t: nat, buf: Buffer, batch: Batch, counter: nat)
  {
    batch.sealer == Some(t) && buf.word.sealed && batch.published && counter > 0
  }

  predicate OwnerFacts(t: nat, buf: Buffer)
  {
    buf.token == WithThread(t) && buf.word.flushing
  }

  // ---- buffers ----------------------------------------------------------

  /** Shape of the word; `holders` counts the unreleased reservations. */
  predicate WordOk(b: nat, buf: Buffer, batch: Batch, holders: nat)
  {
    && |buf.mem| == ONE_MEGABYTE_BLOCK
    && batch.buf == b
    && buf.word.offset == End(batch.entries) <= ONE_MEGABYTE_BLOCK
    && Tiled(batch.entries)
    && buf.word.writers == holders
    && (buf.word.flushing ==> buf.word.sealed && buf.word.writers == 0)
  }

  /** Every entry is either in memory or still in the hands of its owner. */
  predicate EntryOk(b: nat, gen: nat, mem: Bytes, e: Entry, i: nat, owner: Pc)
  {
    && e.off + |e.payload| <= ONE_MEGABYTE_BLOCK
    && (e.copied ==> Files.Holds(mem, e.off, e.payload))
    && (!e.copied ==> owner == Reserved(b, gen, i, e.off, e.payload))
  }

  predicate EntriesOk(b: nat, gen: nat, mem: Bytes, entries: seq<Entry>, threads: seq<Pc>)
  {
    forall i :: 0 <= i < |entries| ==> EntryOk(b, gen, mem, entries[i], i, At(threads, Some(entries[i].owner)))
  }

  /** The stages a batch goes through once its buffer is sealed. */
  predicate SealOk(b: nat, buf: Buffer, batch: Batch, counter: nat, sealer: Pc)
  {
    && (buf.word.sealed <==> batch.sealer.Some?)
    && (!buf.word.sealed ==> batch == Fresh(batch.buf).(entries := batch.entries))
    && (buf.word.sealed ==> buf.word.offset > 0 || counter > 0)
    && (buf.word.sealed && !batch.published ==> Early(sealer, b))
    && (batch.published ==> batch.extent.Some? && buf.addr == batch.extent.value.at)
  }

  /** No lost flush: somebody will still look at a sealed buffer that nobody is
      writing and nobody has dispatched. */
  predicate WatchedOk(b: nat, word: Word, batch: Batch, sealer: Pc, last: Pc)
  {
    word.sealed && !word.flushing && word.writers == 0
    ==> Tail(sealer, b) || (batch.last.Some? && last == LastWriter(b))
  }

  /** The flush of a flushing buffer has exactly one owner. */
  predicate TokenOk(b: nat, buf: Buffer, batch: Batch, owner: Pc, outstanding: map<nat, Write>)
  {
    && (buf.word.flushing <==> buf.token != NoToken)
    && (buf.token.WithThread? ==> Owner(owner, b))
    && (buf.token.InRing? ==>
        && buf.token.id in outstanding
        && outstanding[buf.token.id] == Write(b, buf.addr, Pad(buf.word.offset))
        && buf.sqe == Some(outstanding[buf.token.id])
        && batch.published && !batch.landed && batch.record.None?)
    && batch.wins == (if buf.word.flushing then 1 else 0)
    && (batch.landed || batch.record.Some? ==> buf.word.flushing)
  }

  function OwnerPc(threads: seq<Pc>, token: Token): Pc
  {
    if token.WithThread? then At(threads, Some(token.t)) else Idle
  }

  // ---- the rest ---------------------------------------------------------

  /** What is known of every batch, over the whole run. */
  predicate BatchOk(g: nat, batch: Batch, counter: nat, records: seq<Record>, disk: File)
  {
    && (batch.extent.Some? ==>
        && batch.extent.value.len == Pad(End(batch.entries))
        && batch.extent.value.at + batch.extent.value.len <= counter)
    && (batch.landed ==>
        && batch.extent.Some?
        && ReadAt(disk, batch.extent.value.at, End(batch.entries)) == Image(batch.entries))
    && (batch.record.Some? ==>
        && batch.landed
        && batch.record.value < |records|
        && records[batch.record.value] == Record(batch.extent.value.at, End(batch.entries), g))
  }

  /** A batch whose buffer has moved on was written and reported. */
  predicate ClosedOk(batch: Batch)
  {
    && batch.record.Some? && batch.wins == 1
    && Tiled(batch.entries) && AllCopied(batch.entries) && End(batch.entries) <= ONE_MEGABYTE_BLOCK
  }

  predicate Apart(x: Option<Extent>, y: Option<Extent>)
  {
    x.Some? && y.Some? ==>
      x.value.at + x.value.len <= y.value.at || y.value.at + y.value.len <= x.value.at
  }

  predicate ReceiptOk(r: Receipt, batches: seq<Batch>)
  {
    && r.gen < |batches|
    && r.index < |batches[r.gen].entries|
    && batches[r.gen].entries[r.index].payload == r.payload
    && batches[r.gen].entries[r.index].copied
  }

  // ---- the invariant ----------------------------------------------------

  ghost predicate ThreadInv(s: Ring, t: nat)
    requires Wf(s) && t < |s.threads|
  {
    var pc := s.threads[t];
    !pc.Idle? ==> Local(t, pc, s.bufs[pc.b], BatchOf(s, pc.b), s.counter)
  }

  /** A thread about to stamp an address on `b` finds a non-zero one there, or
      none that anybody relies on: only the first claim of a run starts at 0. */
  ghost predicate TargetInv(s: Ring, t: nat, b: nat)
    requires Wf(s) && t < |s.threads| && b < |s.bufs|
  {
    Targets(s.threads[t], b) && BatchOf(s, b).extent.Some? ==> BatchOf(s, b).extent.value.at > 0
  }

  ghost predicate WordInv(s: Ring, b: nat)
    requires Wf(s) && b < |s.bufs|
  {
    WordOk(b, s.bufs[b], BatchOf(s, b), |Holders(s.threads, b)|)
  }

  ghost predicate EntriesInv(s: Ring, b: nat)
    requires Wf(s) && b < |s.bufs|
  {
    EntriesOk(b, s.bufs[b].gen, s.bufs[b].mem, BatchOf(s, b).entries, s.threads)
  }

  ghost predicate SealInv(s: Ring, b: nat)
    requires Wf(s) && b < |s.bufs|
  {
    SealOk(b, s.bufs[b], BatchOf(s, b), s.counter, At(s.threads, BatchOf(s, b).sealer))
  }

  ghost predicate WatchedInv(s: Ring, b: nat)
    requires Wf(s) && b < |s.bufs|
  {
    WatchedOk(b, s.bufs[b].word, BatchOf(s, b), At(s.threads, BatchOf(s, b).sealer), At(s.threads, BatchOf(s, b).last))
  }

  ghost predicate TokenInv(s: Ring, b: nat)
    requires Wf(s) && b < |s.bufs|
  {
    TokenOk(b, s.bufs[b], BatchOf(s, b), OwnerPc(s.threads, s.bufs[b].token), s.outstanding)
  }

  ghost predicate WriteInv(s: Ring, id: nat)
    requires Wf(s) && id in s.outstanding
  {
    id < s.nextId && s.bufs[s.outstanding[id].buf].token == InRing(id)
  }

  ghost predicate BatchInv(s: Ring, g: nat)
    requires g < |s.batches|
  {
    && BatchOk(g, s.batches[g], s.counter, s.records, s.disk)
    && s.batches[g].buf < |s.bufs|
    && (s.bufs[s.batches[g].buf].gen != g ==> ClosedOk(s.batches[g]))
  }

  ghost predicate RecordInv(s: Ring, r: nat)
    requires r < |s.records|
  {
    s.records[r].gen < |s.batches| && s.batches[s.records[r].gen].record == Some(r)
  }

  ghost predicate BufferInv(s: Ring, b: nat)
    requires Wf(s) && b < |s.bufs|
  {
    WordInv(s, b) && EntriesInv(s, b) && SealInv(s, b) && WatchedInv(s, b) && TokenInv(s, b)
  }

  ghost predicate ThreadsInv(s: Ring)
    requires Wf(s)
  {
    forall t :: 0 <= t < |s.threads| ==> ThreadInv(s, t)
  }

  ghost predicate TargetsInv(s: Ring)
    requires Wf(s)
  {
    forall t, b :: 0 <= t < |s.threads| && 0 <= b < |s.bufs| ==> TargetInv(s, t, b)
  }

  ghost predicate BuffersInv(s: Ring)
    requires Wf(s)
  {
    forall b :: 0 <= b < |s.bufs| ==> BufferInv(s, b)
  }

  ghost predicate WritesInv(s: Ring)
    requires Wf(s)
  {
    forall id :: id in s.outstanding ==> WriteInv(s, id)
  }

  ghost predicate BatchesInv(s: Ring)
  {
    forall g :: 0 <= g < |s.batches| ==> BatchInv(s, g)
  }

  ghost predicate RecordsInv(s: Ring)
  {
    forall r :: 0 <= r < |s.records| ==> RecordInv(s, r)
  }

  ghost predicate ApartInv(s: Ring)
  {
    forall g, h :: 0 <= g < |s.batches| && 0 <= h < |s.batches| && g != h ==>
      Apart(s.batches[g].extent, s.batches[h].extent)
  }

  ghost predicate ReceiptsInv(s: Ring)
  {
    forall k :: 0 <= k < |s.accepted| ==> ReceiptOk(s.accepted[k], s.batches)
  }

  ghost predicate Inv(s: Ring)
  {
    && Wf(s)
    && |s.threads| < MAX_WRITERS
    && ThreadsInv(s)
    && TargetsInv(s)
    && BuffersInv(s)
    && WritesInv(s)
    && BatchesInv(s)
    && RecordsInv(s)
    && ApartInv(s)
    && ReceiptsInv(s)
  }
}
