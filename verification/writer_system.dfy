/** Any number of slot-ring writers that share one file and one offset counter,
    as a step system.  Between two steps of one writer any others may run, and
    the kernel may finish any submitted write at any time. */
module WriterSystem {
  import opened Files
  import opened Bits

  const BATCH_SIZE: nat := 1024 * 1024
  const RING_LEN: nat := 4

  // ---- user_data --------------------------------------------------------

  /** Slot index in the high half, length in the low half. */
  function Pack(idx: nat, len: nat): nat
  {
    Or(Shl(idx, 32), len)
  }

  function UnpackIndex(ud: nat): nat
  {
    ud / 0x1_0000_0000
  }

  function UnpackLen(ud: nat): nat
  {
    And(ud, 0xFFFF_FFFF)
  }

  /** Packing loses nothing, for all values below 2^32. */
  lemma PackUnpack(idx: nat, len: nat)
    requires idx < 0x1_0000_0000 && len < 0x1_0000_0000
    ensures UnpackIndex(Pack(idx, len)) == idx && UnpackLen(Pack(idx, len)) == len
    ensures Pack(idx, len) == idx * 0x1_0000_0000 + len
    ensures Pack(idx, len) < 0x1_0000_0000_0000_0000
  {
    hide And, Or, Shl, Pow2;
    Powers();
    ShlIsProduct(idx, 32);
    ShlIsProduct(0, 32);
    OrJoin(idx, 0, 0, len, 32);
    OrZero(idx);
    OrZero(len);
    assert Pack(idx, len) == idx * 0x1_0000_0000 + len;
    AndLow(idx, len, 32);
  }

  // ---- state ------------------------------------------------------------

  datatype SlotState = Open | InFlight

  /** Where the completion of an in-flight slot is: still in the kernel, or in
      the completion queue as its `n`-th entry ever. */
  datatype Token = InRing(id: nat) | Queued(n: nat)

  datatype Slot = Slot(
    mem: Bytes,
    state: SlotState,
    diskOffset: nat,
    sealedLen: nat,
    claim: nat,       // history: which claim the slot was last sealed as
    token: Token)     // history

  /** A submitted write; it points at its slot. */
  datatype Sqe = Sqe(userData: nat, at: nat, slot: nat, len: nat)

  datatype CompletedRange = CompletedRange(diskOffset: nat, sealedLen: nat)

  datatype Writer = Writer(
    slots: seq<Slot>,
    head: nat,
    cursor: nat,
    pending: nat,
    completed: seq<CompletedRange>,
    outstanding: map<nat, Sqe>,
    nextId: nat,
    cq: seq<nat>,                    // user_data of the unread completions
    reaped: nat,                     // history: completions read so far
    rotating: bool,                  // history: the head is sealed, not yet advanced
    appended: Bytes,                 // history: everything appended
    returned: seq<CompletedRange>)   // history: everything handed out by finish

  /** History: one advance of the shared counter. */
  datatype Claim = Claim(writer: nat, at: nat, data: Bytes, slot: nat, landed: bool)

  datatype System = System(writers: seq<Writer>, fileOffset: nat, disk: File, claims: seq<Claim>)

  function FreshSlot(mem: Bytes): Slot
  {
    Slot(mem, Open, 0, 0, 0, InRing(0))
  }

  /** A writer just built; its memory is whatever the allocator returned. */
  function FreshWriter(mems: seq<Bytes>): Writer
  {
    Writer(seq(|mems|, k requires 0 <= k < |mems| => FreshSlot(mems[k])), 0, 0, 0, [], map[], 0, [], 0, false, [], [])
  }

  predicate MemsOk(mems: seq<Bytes>)
  {
    |mems| == RING_LEN && forall k :: 0 <= k < |mems| ==> |mems[k]| == BATCH_SIZE
  }

  function Init(mems: seq<seq<Bytes>>): System
  {
    System(seq(|mems|, w requires 0 <= w < |mems| => FreshWriter(mems[w])), 0, [], [])
  }

  // ---- steps ------------------------------------------------------------

  datatype Action =
    | Fit(w: nat, payload: Bytes)   // copy into the open head slot
    | Submit(w: nat)                // claim the range and submit the head slot
    | Advance(w: nat)               // move to the next slot, which is open
    | Reap(w: nat)                  // read one completion
    | Take(w: nat)                  // hand out the completed ranges
    | Complete(w: nat, id: nat)     // the kernel finishes a write

  predicate Enabled(s: System, a: Action)
  {
    && a.w < |s.writers|
    && var wr := s.writers[a.w];
       |wr.slots| == RING_LEN && wr.head < RING_LEN && wr.cursor <= BATCH_SIZE
       && (forall k :: 0 <= k < RING_LEN ==> |wr.slots[k].mem| == BATCH_SIZE)
       && match a
          case Fit(_, payload) => !wr.rotating && wr.cursor + |payload| <= BATCH_SIZE
          case Submit(_) => !wr.rotating && wr.cursor > 0
          case Advance(_) => (wr.rotating || wr.cursor == 0) && wr.slots[(wr.head + 1) % RING_LEN].state == Open
          case Reap(_) => wr.cq != [] && UnpackIndex(wr.cq[0]) < RING_LEN && wr.pending > 0
          case Take(_) => true
          case Complete(_, id) =>
            && id in wr.outstanding && wr.outstanding[id].slot < RING_LEN
            && wr.outstanding[id].len <= BATCH_SIZE
            && wr.slots[wr.outstanding[id].slot].claim < |s.claims|
  }

  function DoFit(wr: Writer, payload: Bytes): Writer
    requires wr.head < |wr.slots| && wr.cursor + |payload| <= |wr.slots[wr.head].mem|
  {
    var slot := wr.slots[wr.head];
    wr.(slots := wr.slots[wr.head := slot.(mem := Blit(slot.mem, wr.cursor, payload))],
        cursor := wr.cursor + |payload|,
        appended := wr.appended + payload)
  }

  function DoSubmit(wr: Writer, at: nat, claim: nat): Writer
    requires wr.head < |wr.slots|
  {
    var slot := wr.slots[wr.head].(state := InFlight,
                                   diskOffset := at, sealedLen := wr.cursor, claim := claim,
                                   token := InRing(wr.nextId));
    wr.(slots := wr.slots[wr.head := slot],
        outstanding := wr.outstanding[wr.nextId := Sqe(Pack(wr.head, wr.cursor), at, wr.head, wr.cursor)],
        nextId := wr.nextId + 1,
        pending := wr.pending + 1,
        rotating := true)
  }

  function DoAdvance(wr: Writer): Writer
  {
    wr.(head := (wr.head + 1) % RING_LEN, cursor := 0, rotating := false)
  }

  function DoReap(wr: Writer): Writer
    requires wr.cq != [] && UnpackIndex(wr.cq[0]) < |wr.slots| && wr.pending > 0
  {
    var idx, len := UnpackIndex(wr.cq[0]), UnpackLen(wr.cq[0]);
    wr.(completed := wr.completed + [CompletedRange(wr.slots[idx].diskOffset, len)],
        slots := wr.slots[idx := wr.slots[idx].(state := Open, sealedLen := 0)],
        pending := wr.pending - 1,
        cq := wr.cq[1..],
        reaped := wr.reaped + 1)
  }

  function DoTake(wr: Writer): Writer
  {
    wr.(returned := wr.returned + wr.completed, completed := [])
  }

  function DoComplete(wr: Writer, id: nat): Writer
    requires id in wr.outstanding && wr.outstanding[id].slot < |wr.slots|
  {
    var sqe := wr.outstanding[id];
    wr.(slots := wr.slots[sqe.slot := wr.slots[sqe.slot].(token := Queued(wr.reaped + |wr.cq|))],
        outstanding := wr.outstanding - {id},
        cq := wr.cq + [sqe.userData])
  }

  function SetWriter(s: System, w: nat, wr: Writer): System
    requires w < |s.writers|
  {
    s.(writers := s.writers[w := wr])
  }

  function Apply(s: System, a: Action): (s': System)
    requires Enabled(s, a)
    ensures |s'.writers| == |s.writers|
  {
    var wr := s.writers[a.w];
    match a
    case Fit(w, payload) => SetWriter(s, w, DoFit(wr, payload))
    case Submit(w) =>
      var data := wr.slots[wr.head].mem[..wr.cursor];
      SetWriter(s, w, DoSubmit(wr, s.fileOffset, |s.claims|))
        .(fileOffset := s.fileOffset + wr.cursor, claims := s.claims + [Claim(w, s.fileOffset, data, wr.head, false)])
    case Advance(w) => SetWriter(s, w, DoAdvance(wr))
    case Reap(w) => SetWriter(s, w, DoReap(wr))
    case Take(w) => SetWriter(s, w, DoTake(wr))
    case Complete(w, id) =>
      var sqe := wr.outstanding[id];
      var c := wr.slots[sqe.slot].claim;
      SetWriter(s, w, DoComplete(wr, id))
        .(disk := WriteAt(s.disk, sqe.at, wr.slots[sqe.slot].mem[..sqe.len]),
          claims := s.claims[c := s.claims[c].(landed := true)])
  }

  // ---- the invariant ----------------------------------------------------

  function Range(slot: Slot): CompletedRange
  {
    CompletedRange(slot.diskOffset, slot.sealedLen)
  }

  function Flight(slot: Slot): multiset<CompletedRange>
  {
    if slot.state == InFlight then multiset{Range(slot)} else multiset{}
  }

  function Counted(slot: Slot): nat
  {
    if slot.state == InFlight then 1 else 0
  }

  /** The ranges of the slots in flight. */
  function Flights(slots: seq<Slot>): multiset<CompletedRange>
  {
    if slots == [] then multiset{} else Flights(slots[..|slots| - 1]) + Flight(slots[|slots| - 1])
  }

  function CountInFlight(slots: seq<Slot>): nat
  {
    if slots == [] then 0 else CountInFlight(slots[..|slots| - 1]) + Counted(slots[|slots| - 1])
  }

  /** What writer `w` has claimed so far, in order. */
  function OwnRanges(claims: seq<Claim>, w: nat): seq<CompletedRange>
  {
    if claims == [] then []
    else
      var c := claims[|claims| - 1];
      OwnRanges(claims[..|claims| - 1], w) + (if c.writer == w then [CompletedRange(c.at, |c.data|)] else [])
  }

  function OwnData(claims: seq<Claim>, w: nat): Bytes
  {
    if claims == [] then []
    else
      var c := claims[|claims| - 1];
      OwnData(claims[..|claims| - 1], w) + (if c.writer == w then c.data else [])
  }

  predicate SlotOk(w: nat, k: nat, slot: Slot, outstanding: map<nat, Sqe>, cq: seq<nat>, reaped: nat,
          claims: seq<Claim>)
  {
    && |slot.mem| == BATCH_SIZE
    && (slot.state == InFlight ==>
        && 0 < slot.sealedLen <= BATCH_SIZE
        && slot.claim < |claims|
        && claims[slot.claim] == Claim(w, slot.diskOffset, slot.mem[..slot.sealedLen], k, slot.token.Queued?)
        && match slot.token
           case InRing(id) =>
             id in outstanding && outstanding[id] == Sqe(Pack(k, slot.sealedLen), slot.diskOffset, k, slot.sealedLen)
           case Queued(n) => reaped <= n < reaped + |cq| && cq[n - reaped] == Pack(k, slot.sealedLen))
  }

  predicate SqeOk(id: nat, sqe: Sqe, slots: seq<Slot>, nextId: nat)
  {
    id < nextId && sqe.slot < |slots| && slots[sqe.slot].state == InFlight && slots[sqe.slot].token == InRing(id)
  }

  predicate CqeOk(n: nat, ud: nat, slots: seq<Slot>)
  {
    UnpackIndex(ud) < |slots| && slots[UnpackIndex(ud)].state == InFlight && slots[UnpackIndex(ud)].token == Queued(n)
  }

  /** The bytes in the open head slot. */
  function Buffered(wr: Writer): Bytes
    requires wr.head < |wr.slots|
  {
    if wr.rotating || wr.cursor > |wr.slots[wr.head].mem| then [] else wr.slots[wr.head].mem[..wr.cursor]
  }

  predicate ShapeOk(wr: Writer)
  {
    |wr.slots| == RING_LEN && wr.head < RING_LEN && wr.cursor <= BATCH_SIZE
    && (!wr.rotating ==> wr.slots[wr.head].state == Open)
    && wr.pending == CountInFlight(wr.slots) == |wr.outstanding| + |wr.cq|
  }

  ghost predicate SlotsOk(w: nat, wr: Writer, claims: seq<Claim>)
  {
    forall k :: 0 <= k < |wr.slots| ==> SlotOk(w, k, wr.slots[k], wr.outstanding, wr.cq, wr.reaped, claims)
  }

  ghost predicate KernelOk(wr: Writer)
  {
    && (forall id :: id in wr.outstanding ==> SqeOk(id, wr.outstanding[id], wr.slots, wr.nextId))
    && (forall i :: 0 <= i < |wr.cq| ==> CqeOk(wr.reaped + i, wr.cq[i], wr.slots))
  }

  /** Every claimed range is in flight, completed or returned, exactly once. */
  predicate RangesOk(w: nat, wr: Writer, claims: seq<Claim>)
  {
    multiset(wr.returned) + multiset(wr.completed) + Flights(wr.slots) == multiset(OwnRanges(claims, w))
  }

  predicate AppendedOk(w: nat, wr: Writer, claims: seq<Claim>)
    requires wr.head < |wr.slots|
  {
    wr.appended == OwnData(claims, w) + Buffered(wr)
  }

  ghost predicate WriterOk(w: nat, wr: Writer, claims: seq<Claim>)
  {
    ShapeOk(wr) && SlotsOk(w, wr, claims) && KernelOk(wr) && RangesOk(w, wr, claims) && AppendedOk(w, wr, claims)
  }

  predicate ClaimOk(c: nat, claim: Claim, writers: seq<Writer>, disk: File)
  {
    && claim.writer < |writers|
    && 0 < |claim.data| <= BATCH_SIZE
    && (claim.landed ==> ReadAt(disk, claim.at, |claim.data|) == claim.data)
    && (!claim.landed ==>
        && claim.slot < |writers[claim.writer].slots|
        && var slot := writers[claim.writer].slots[claim.slot];
           slot.state == InFlight && slot.claim == c && slot.token.InRing?)
  }

  /** Where the claim after claim `c` starts, or the first free byte. */
  function NextAt(claims: seq<Claim>, end: nat, c: nat): nat
  {
    if c + 1 < |claims| then claims[c + 1].at else end
  }

  /** The claims cut `[0, end)` into consecutive ranges. */
  predicate TilesTo(claims: seq<Claim>, end: nat)
  {
    && (forall c :: 0 <= c < |claims| ==> claims[c].at + |claims[c].data| == NextAt(claims, end, c))
    && (if claims == [] then end == 0 else claims[0].at == 0)
  }

  ghost predicate Inv(s: System)
  {
    && (forall w :: 0 <= w < |s.writers| ==> WriterOk(w, s.writers[w], s.claims))
    && (forall c :: 0 <= c < |s.claims| ==> ClaimOk(c, s.claims[c], s.writers, s.disk))
    && TilesTo(s.claims, s.fileOffset)
  }
}
