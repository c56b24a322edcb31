/** The latch-free buffer ring as a step system.  Every step is one atomic
    access to shared memory (or one push to, or pop from, the I/O ring) by one
    thread; any number of threads interleave in any order. */
module RingProtocol {
  import opened Files
  import opened StateWord

  // ---- shared state -----------------------------------------------------

  /** A submission-queue entry: write the first `len` bytes of buffer `buf` to
      file offset `at`.  It holds a pointer, not the bytes. */
  datatype Write = Write(buf: nat, at: nat, len: nat)

  datatype Buffer = Buffer(
    word: Word,          // the packed atomic, as a record
    mem: Bytes,          // the 1 MiB allocation
    addr: nat,           // local_address
    sqe: Option<Write>,  // kept for re-submission
    gen: nat,            // history: the batch this buffer is collecting
    token: Token)        // history: who owns the flush

  /** Where the responsibility for a flushing buffer currently lies. */
  datatype Token = NoToken | WithThread(t: nat) | InRing(id: nat)

  /** A completion message `(file_offset, byte_count)`, and the batch it is for. */
  datatype Record = Record(at: nat, count: nat, gen: nat)

  // ---- history ----------------------------------------------------------
  // No step reads a history field to decide what to do.

  /** One successful reservation. */
  datatype Entry = Entry(off: nat, payload: Bytes, owner: nat, copied: bool)

  datatype Extent = Extent(at: nat, len: nat)

  /** Everything one buffer collects between two resets. */
  datatype Batch = Batch(
    buf: nat,
    entries: seq<Entry>,
    sealer: Option<nat>,     // the thread that set the sealed bit
    last: Option<nat>,       // the thread that released the last writer after that
    extent: Option<Extent>,  // the file range claimed for it
    published: bool,         // that range's start is stored in local_address
    wins: nat,               // transitions of the flush bit from 0 to 1
    landed: bool,            // its write has completed
    record: Option<nat>)     // index of its completion message

  function Fresh(b: nat): Batch
  {
    Batch(b, [], None, None, None, false, 0, false, None)
  }

  /** A payload whose writer went through the `Ok(offset)` branch of `put`. */
  datatype Receipt = Receipt(gen: nat, index: nat, payload: Bytes)

  datatype Ring = Ring(
    bufs: seq<Buffer>,
    threads: seq<Pc>,
    current: nat,
    nextIndex: nat,
    counter: nat,                  // next_address_range
    outstanding: map<nat, Write>,  // submitted, completion not yet taken
    nextId: nat,
    disk: File,
    records: seq<Record>,
    batches: seq<Batch>,
    accepted: seq<Receipt>)

  // ---- threads ----------------------------------------------------------

  /** Where a thread stands: each constructor names what its next step does. */
  datatype Pc =
    | Idle
    // reserve_space
    | Picked(b: nat, payload: Bytes)                     // load the word
    | Loaded(b: nat, payload: Bytes, snap: Word)         // compare-exchange
    // put, Ok(offset)
    | Reserved(b: nat, g: nat, i: nat, off: nat, payload: Bytes)  // copy
    | Written(b: nat, g: nat, i: nat, payload: Bytes)    // decrement writers
    | LastWriter(b: nat)                                 // set flush bit
    // put, InsufficientSpace
    | SawFull(b: nat)                                    // set sealed bit
    | Sealing(b: nat)                                    // load size
    | Sized(b: nat, padded: nat)                         // claim addresses
    | Publishing(b: nat, slot: nat)                      // store address
    // rotate_after_seal
    | Rotating(b: nat)                                   // load current
    | Measuring(b: nat, cur: nat)                        // load its size
    | Scanning(b: nat, size: nat, left: nat)             // bump next_index
    | Probing(b: nat, size: nat, left: nat, cand: nat)   // is_available
    | Swapping(b: nat, size: nat, target: nat)           // exchange current
    | Booking(b: nat, size: nat, target: nat)            // claim addresses
    | Stamping(b: nat, slot: nat, target: nat)           // exchange address
    // put, after rotation
    | Checking(b: nat)                                   // load writers
    | Claiming(b: nat)                                   // set flush bit
    // flush and submit_buffer
    | Flushing(b: nat)                                   // set flush bit again
    | Submitting(b: nat)                                 // load length
    | Dispatching(b: nat, len: nat)                      // load address
    | Pushing(b: nat, len: nat, at: nat)                 // push the entry
    // check_cque
    | Reaping(b: nat)                                    // load address
    | Noting(b: nat, at: nat)                            // load size, send
    | Recorded(b: nat)                                   // reset: store word
    | Clearing(b: nat)                                   // reset: store address
    | Retrying(b: nat)                                   // push the kept entry

  /** Holds a reservation that is not yet released. */
  predicate Holding(pc: Pc, b: nat)
  {
    (pc.Reserved? || pc.Written?) && pc.b == b
  }

  /** Set the sealed bit of `b` and has not yet stored its address. */
  predicate Early(pc: Pc, b: nat)
  {
    (pc.Sealing? || pc.Sized? || pc.Publishing?) && pc.b == b
  }

  predicate Late(pc: Pc, b: nat)
  {
    && (pc.Rotating? || pc.Measuring? || pc.Scanning? || pc.Probing? || pc.Swapping?
        || pc.Booking? || pc.Stamping? || pc.Checking? || pc.Claiming?)
    && pc.b == b
  }

  /** Between setting the sealed bit of `b` and the end of its own check. */
  predicate Tail(pc: Pc, b: nat)
  {
    Early(pc, b) || Late(pc, b)
  }

  /** Owns the flush of `b`: won the bit, or took its completion. */
  predicate Owner(pc: Pc, b: nat)
  {
    && (pc.Flushing? || pc.Submitting? || pc.Dispatching? || pc.Pushing?
        || pc.Reaping? || pc.Noting? || pc.Recorded? || pc.Retrying?)
    && pc.b == b
  }

  /** Chose `b` as the next current buffer and may still stamp its address. */
  predicate Targets(pc: Pc, b: nat)
  {
    (pc.Swapping? || pc.Booking? || pc.Stamping?) && pc.target == b
  }

  // ---- well-formed states -----------------------------------------------

  predicate PcWf(pc: Pc, n: nat)
  {
    && (!pc.Idle? ==> pc.b < n)
    && (pc.Measuring? ==> pc.cur < n)
    && (pc.Probing? ==> pc.cand < n)
    && (pc.Swapping? || pc.Booking? || pc.Stamping? ==> pc.target < n)
    && ((pc.Loaded? ==> pc.snap.offset + |pc.payload| <= ONE_MEGABYTE_BLOCK))
    && ((pc.Picked? ==> |pc.payload| <= ONE_MEGABYTE_BLOCK))
  }

  ghost predicate Wf(s: Ring)
  {
    && s.current < |s.bufs|
    && (forall t :: 0 <= t < |s.threads| ==> PcWf(s.threads[t], |s.bufs|))
    && (forall b :: 0 <= b < |s.bufs| ==> s.bufs[b].gen < |s.batches|)
    && (forall id :: id in s.outstanding ==> s.outstanding[id].buf < |s.bufs|)
    && (forall b :: 0 <= b < |s.bufs| && s.bufs[b].sqe.Some? ==> s.bufs[b].sqe.value.buf < |s.bufs|)
  }

  /** `capacity` buffers, all open and empty, and `n` threads. */
  function Init(capacity: nat, n: nat): Ring
    requires capacity > 0
  {
    Ring(
      seq(capacity, b requires b >= 0 => Buffer(ZERO, Zeros(ONE_MEGABYTE_BLOCK), 0, None, b, NoToken)),
      seq(n, t => Idle), 0, 1, 0, map[], 0, [], [],
      seq(capacity, b requires b >= 0 => Fresh(b)), [])
  }

  // ---- small updates ----------------------------------------------------

  function Pad(n: nat): nat
  {
    NextMultipleOf(n, FOUR_KB_BLOCK)
  }

  function SetPc(s: Ring, t: nat, pc: Pc): Ring
    requires t < |s.threads|
  {
    s.(threads := s.threads[t := pc])
  }

  function SetBuf(s: Ring, b: nat, buf: Buffer): Ring
    requires b < |s.bufs|
  {
    s.(bufs := s.bufs[b := buf])
  }

  function SetBatch(s: Ring, g: nat, batch: Batch): Ring
  {
    if g < |s.batches| then s.(batches := s.batches[g := batch]) else s
  }

  function BatchOf(s: Ring, b: nat): Batch
    requires b < |s.bufs| && s.bufs[b].gen < |s.batches|
  {
    s.batches[s.bufs[b].gen]
  }

  function MarkCopied(batch: Batch, i: nat): Batch
  {
    if i < |batch.entries|
    then batch.(entries := batch.entries[i := batch.entries[i].(copied := true)])
    else batch
  }

  // ---- steps of reserve_space -------------------------------------------

  /** Load the word and test it. */
  function AfterLoad(b: nat, payload: Bytes, w: Word): Pc
  {
    if w.sealed || w.flushing then Idle
    else if w.offset + |payload| > ONE_MEGABYTE_BLOCK then SawFull(b)
    else Loaded(b, payload, w)
  }

  function DoReserve(s: Ring, t: nat, b: nat, payload: Bytes, snap: Word): Ring
    requires t < |s.threads| && b < |s.bufs| && s.bufs[b].gen < |s.batches|
  {
    if s.bufs[b].word != snap then SetPc(s, t, Idle)
    else
      var g, batch := s.bufs[b].gen, BatchOf(s, b);
      var s1 := SetBuf(s, b, s.bufs[b].(word := Reserve(snap, |payload|)));
      var s2 := SetBatch(s1, g, batch.(entries := batch.entries + [Entry(snap.offset, payload, t, false)]));
      SetPc(s2, t, Reserved(b, g, |batch.entries|, snap.offset, payload))
  }

  // ---- steps of put, Ok(offset) -----------------------------------------

  function DoCopy(s: Ring, t: nat, b: nat, g: nat, i: nat, off: nat, payload: Bytes): Ring
    requires t < |s.threads| && b < |s.bufs|
  {
    var s1 := SetBuf(s, b, s.bufs[b].(mem := Copy(s.bufs[b].mem, off, payload)));
    var s2 := if g < |s.batches| then SetBatch(s1, g, MarkCopied(s.batches[g], i)) else s1;
    SetPc(s2, t, Written(b, g, i, payload))
  }

  function DoRelease(s: Ring, t: nat, b: nat, g: nat, i: nat, payload: Bytes): Ring
    requires t < |s.threads| && b < |s.bufs| && s.bufs[b].gen < |s.batches|
  {
    var prev := s.bufs[b].word;
    var s1 := SetBuf(s, b, s.bufs[b].(word := Release(prev))).(accepted := s.accepted + [Receipt(g, i, payload)]);
    if prev.writers == 1 && prev.sealed
    then SetPc(SetBatch(s1, s.bufs[b].gen, BatchOf(s, b).(last := Some(t))), t, LastWriter(b))
    else SetPc(s1, t, Idle)
  }

  /** `set_flush_in_progress`, by the sealer or by the last writer. */
  function DoClaim(s: Ring, t: nat, b: nat): Ring
    requires t < |s.threads| && b < |s.bufs| && s.bufs[b].gen < |s.batches|
  {
    if s.bufs[b].word.flushing then SetPc(s, t, Idle)
    else
      var s1 := SetBuf(s, b, s.bufs[b].(word := SetFlush(s.bufs[b].word), token := WithThread(t)));
      var s2 := SetBatch(s1, s.bufs[b].gen, BatchOf(s, b).(wins := BatchOf(s, b).wins + 1));
      SetPc(s2, t, Flushing(b))
  }

  // ---- steps of put, InsufficientSpace ----------------------------------

  function DoSeal(s: Ring, t: nat, b: nat): Ring
    requires t < |s.threads| && b < |s.bufs| && s.bufs[b].gen < |s.batches|
  {
    if s.bufs[b].word.sealed then SetPc(s, t, Idle)
    else
      var s1 := SetBuf(s, b, s.bufs[b].(word := Seal(s.bufs[b].word)));
      SetPc(SetBatch(s1, s.bufs[b].gen, BatchOf(s, b).(sealer := Some(t))), t, Sealing(b))
  }

  function DoClaimExtent(s: Ring, t: nat, b: nat, padded: nat): Ring
    requires t < |s.threads| && b < |s.bufs| && s.bufs[b].gen < |s.batches|
  {
    var s1 := SetBatch(s, s.bufs[b].gen, BatchOf(s, b).(extent := Some(Extent(s.counter, padded))));
    SetPc(s1.(counter := s.counter + padded), t, Publishing(b, s.counter))
  }

  function DoPublish(s: Ring, t: nat, b: nat, slot: nat): Ring
    requires t < |s.threads| && b < |s.bufs| && s.bufs[b].gen < |s.batches|
  {
    var s1 := SetBuf(s, b, s.bufs[b].(addr := slot));
    SetPc(SetBatch(s1, s.bufs[b].gen, BatchOf(s, b).(published := true)), t, Rotating(b))
  }

  // ---- steps of rotate_after_seal ---------------------------------------

  function DoScan(s: Ring, t: nat, b: nat, size: nat, left: nat): Ring
    requires t < |s.threads| && |s.bufs| > 0
  {
    if left == 0 then SetPc(s, t, Checking(b))
    else SetPc(s.(nextIndex := (s.nextIndex + 1) % WORD_LIMIT), t, Probing(b, size, left - 1, s.nextIndex % |s.bufs|))
  }

  function DoSwap(s: Ring, t: nat, b: nat, size: nat, target: nat): Ring
    requires t < |s.threads|
  {
    SetPc(if s.current == b then s.(current := target) else s, t, Booking(b, size, target))
  }

  function DoBook(s: Ring, t: nat, b: nat, size: nat, target: nat): Ring
    requires t < |s.threads|
  {
    SetPc(s.(counter := s.counter + size), t, Stamping(b, s.counter, target))
  }

  function DoStamp(s: Ring, t: nat, b: nat, slot: nat, target: nat): Ring
    requires t < |s.threads| && target < |s.bufs|
  {
    var s1 := if s.bufs[target].addr == 0 then SetBuf(s, target, s.bufs[target].(addr := slot)) else s;
    SetPc(s1, t, Checking(b))
  }

  // ---- steps of flush, submit_buffer and check_cque ---------------------

  function DoPush(s: Ring, t: nat, b: nat, len: nat, at: nat): Ring
    requires t < |s.threads| && b < |s.bufs|
  {
    var w := Write(b, at, len);
    var s1 := SetBuf(s, b, s.bufs[b].(sqe := Some(w), token := InRing(s.nextId)));
    SetPc(s1.(outstanding := s.outstanding[s.nextId := w], nextId := s.nextId + 1), t, Idle)
  }

  function DoNote(s: Ring, t: nat, b: nat, at: nat): Ring
    requires t < |s.threads| && b < |s.bufs| && s.bufs[b].gen < |s.batches|
  {
    var s1 := SetBatch(s, s.bufs[b].gen, BatchOf(s, b).(record := Some(|s.records|)));
    SetPc(s1.(records := s.records + [Record(at, s.bufs[b].word.offset, s.bufs[b].gen)]), t, Recorded(b))
  }

  /** First half of `reset_buffer`; a new batch begins. */
  function DoReset(s: Ring, t: nat, b: nat): Ring
    requires t < |s.threads| && b < |s.bufs|
  {
    var s1 := SetBuf(s, b, s.bufs[b].(word := ZERO, token := NoToken, gen := |s.batches|));
    SetPc(s1.(batches := s.batches + [Fresh(b)]), t, Clearing(b))
  }

  /** Second half of `reset_buffer`. */
  function DoClear(s: Ring, t: nat, b: nat): Ring
    requires t < |s.threads| && b < |s.bufs|
  {
    SetPc(SetBuf(s, b, s.bufs[b].(addr := 0)), t, Idle)
  }

  function DoRetry(s: Ring, t: nat, b: nat): Ring
    requires t < |s.threads| && b < |s.bufs|
  {
    match s.bufs[b].sqe
    case None => SetPc(s, t, Idle)
    case Some(w) =>
      var s1 := SetBuf(s, b, s.bufs[b].(token := InRing(s.nextId)));
      SetPc(s1.(outstanding := s.outstanding[s.nextId := w], nextId := s.nextId + 1), t, Idle)
  }

  // ---- steps of the environment -----------------------------------------

  function Sent(s: Ring, w: Write): Bytes
    requires w.buf < |s.bufs|
  {
    s.bufs[w.buf].mem[..Min(w.len, |s.bufs[w.buf].mem|)]
  }

  /** The kernel finishes write `id`, and a thread takes its completion. */
  function DoTakeOk(s: Ring, t: nat, id: nat): Ring
    requires t < |s.threads| && id in s.outstanding && s.outstanding[id].buf < |s.bufs|
    requires s.bufs[s.outstanding[id].buf].gen < |s.batches|
  {
    var w := s.outstanding[id];
    var s1 := SetBuf(s, w.buf, s.bufs[w.buf].(token := WithThread(t)));
    var s2 := SetBatch(s1, s.bufs[w.buf].gen, BatchOf(s, w.buf).(landed := true));
    SetPc(s2.(outstanding := s.outstanding - {id}, disk := WriteAt(s.disk, w.at, Sent(s, w))), t, Reaping(w.buf))
  }

  /** The kernel fails write `id`, leaving any bytes at all in its range, and a
      thread takes the error. */
  function DoTakeFailed(s: Ring, t: nat, id: nat, junk: Bytes): Ring
    requires t < |s.threads| && id in s.outstanding && s.outstanding[id].buf < |s.bufs|
  {
    var w := s.outstanding[id];
    var s1 := SetBuf(s, w.buf, s.bufs[w.buf].(token := WithThread(t)));
    SetPc(s1.(outstanding := s.outstanding - {id}, disk := WriteAt(s.disk, w.at, junk)), t, Retrying(w.buf))
  }

  // ---- the step relation ------------------------------------------------

  datatype Action =
    | Run(t: nat)                                   // thread `t` takes its next step
    | Begin(t: nat, payload: Bytes)                 // load current_buffer for a new payload
    | TakeOk(t: nat, id: nat)
    | TakeFailed(t: nat, id: nat, junk: Bytes)

  /** Scheduling assumptions the source relies on and does not enforce. */
  datatype Guards = Guards(
    dispatchAfterPublish: bool,  // nobody dispatches a buffer whose sealer has not stored its address
    resetAfterTail: bool,        // nobody resets a buffer while its sealer or last writer is mid-way
    publishAfterClear: bool)     // nobody stores an address between the two stores of a reset

  const ALL: Guards := Guards(true, true, true)
  const NONE: Guards := Guards(false, false, false)

  ghost predicate Unpublished(s: Ring, b: nat)
  {
    exists t :: 0 <= t < |s.threads| && Early(s.threads[t], b)
  }

  ghost predicate Lingering(s: Ring, b: nat)
  {
    exists t :: 0 <= t < |s.threads| && (Tail(s.threads[t], b) || s.threads[t] == LastWriter(b))
  }

  ghost predicate HalfReset(s: Ring, b: nat)
  {
    exists t :: 0 <= t < |s.threads| && s.threads[t] == Clearing(b)
  }

  ghost predicate Allowed(g: Guards, s: Ring, pc: Pc)
  {
    && (g.dispatchAfterPublish && pc.Dispatching? ==> !Unpublished(s, pc.b))
    && (g.resetAfterTail && pc.Recorded? ==> !Lingering(s, pc.b))
    && (g.publishAfterClear && pc.Publishing? ==> !HalfReset(s, pc.b))
  }

  ghost predicate Enabled(g: Guards, s: Ring, a: Action)
  {
    && a.t < |s.threads|
    && match a
       case Run(t) => !s.threads[t].Idle? && Allowed(g, s, s.threads[t])
       case Begin(t, payload) => s.threads[t].Idle? && |payload| <= ONE_MEGABYTE_BLOCK
       case TakeOk(t, id) => s.threads[t].Idle? && id in s.outstanding
       case TakeFailed(t, id, junk) => s.threads[t].Idle? && id in s.outstanding && |junk| <= s.outstanding[id].len
  }

  /** The next step of thread `t`. */
  ghost function Next(s: Ring, t: nat): Ring
    requires Wf(s) && t < |s.threads|
  {
    match s.threads[t]
    case Idle => s
    case Picked(b, payload) => SetPc(s, t, AfterLoad(b, payload, s.bufs[b].word))
    case Loaded(b, payload, snap) => DoReserve(s, t, b, payload, snap)
    case Reserved(b, g, i, off, payload) => DoCopy(s, t, b, g, i, off, payload)
    case Written(b, g, i, payload) => DoRelease(s, t, b, g, i, payload)
    case LastWriter(b) => DoClaim(s, t, b)
    case SawFull(b) => DoSeal(s, t, b)
    case Sealing(b) => SetPc(s, t, Sized(b, Pad(s.bufs[b].word.offset)))
    case Sized(b, padded) => DoClaimExtent(s, t, b, padded)
    case Publishing(b, slot) => DoPublish(s, t, b, slot)
    case Rotating(b) => SetPc(s, t, Measuring(b, s.current))
    case Measuring(b, cur) =>
      SetPc(s, t, if cur != b then Checking(b) else Scanning(b, s.bufs[cur].word.offset, |s.bufs|))
    case Scanning(b, size, left) => DoScan(s, t, b, size, left)
    case Probing(b, size, left, cand) =>
      SetPc(s, t, if Available(s.bufs[cand].word) then Swapping(b, size, cand) else Scanning(b, size, left))
    case Swapping(b, size, target) => DoSwap(s, t, b, size, target)
    case Booking(b, size, target) => DoBook(s, t, b, size, target)
    case Stamping(b, slot, target) => DoStamp(s, t, b, slot, target)
    case Checking(b) => SetPc(s, t, if s.bufs[b].word.writers == 0 then Claiming(b) else Idle)
    case Claiming(b) => DoClaim(s, t, b)
    case Flushing(b) => SetPc(SetBuf(s, b, s.bufs[b].(word := SetFlush(s.bufs[b].word))), t, Submitting(b))
    case Submitting(b) => SetPc(s, t, Dispatching(b, Pad(s.bufs[b].word.offset)))
    case Dispatching(b, len) => SetPc(s, t, Pushing(b, len, s.bufs[b].addr))
    case Pushing(b, len, at) => DoPush(s, t, b, len, at)
    case Reaping(b) => SetPc(s, t, Noting(b, s.bufs[b].addr))
    case Noting(b, at) => DoNote(s, t, b, at)
    case Recorded(b) => DoReset(s, t, b)
    case Clearing(b) => DoClear(s, t, b)
    case Retrying(b) => DoRetry(s, t, b)
  }

  ghost function Apply(s: Ring, a: Action): Ring
    requires Wf(s) && Enabled(NONE, s, a)
  {
    match a
    case Run(t) => Next(s, t)
    case Begin(t, payload) => SetPc(s, t, Picked(s.current, payload))
    case TakeOk(t, id) => DoTakeOk(s, t, id)
    case TakeFailed(t, id, junk) => DoTakeFailed(s, t, id, junk)
  }
}
