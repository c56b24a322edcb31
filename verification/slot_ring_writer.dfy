/** The slot-ring writer itself: arrays, fields and loops.  Each of its steps is
    one step of the writer system, of which the shared file keeps a ghost
    record, and at every access to something shared the other writers and the
    kernel may take any number of steps first. */
module RingWriters {
  import opened Files
  import opened WriterSystem
  import opened WriterSteps
  import opened WriterTheorems
  import opened WriterReadback

  // ---- facts about the system -------------------------------------------

  /** Others took the steps in between: other writers any, the kernel its own. */
  ghost predicate OthersOnly(before: seq<Action>, after: seq<Action>, w: nat)
  {
    before <= after && forall i :: |before| <= i < |after| ==> after[i].Complete? || after[i].w != w
  }

  /** What writer `w` itself did, the kernel's part left out. */
  function Own(trace: seq<Action>, w: nat): seq<Action>
  {
    if trace == [] then []
    else
      var a := trace[|trace| - 1];
      Own(trace[..|trace| - 1], w) + (if a.w == w && !a.Complete? then [a] else [])
  }

  lemma OwnThen(trace: seq<Action>, a: Action, w: nat)
    ensures Own(trace + [a], w) == Own(trace, w) + (if a.w == w && !a.Complete? then [a] else [])
  {
    assert (trace + [a])[..|trace|] == trace;
  }

  lemma {:induction false} OwnOfOthers(before: seq<Action>, after: seq<Action>, w: nat)
    requires OthersOnly(before, after, w)
    ensures Own(after, w) == Own(before, w)
    decreases |after|
  {
    if |after| > |before| {
      var n := |after| - 1;
      OwnOfOthers(before, after[..n], w);
      assert after == after[..n] + [after[n]];
      assert Own(after, w) == Own(after[..n], w) + [];
    } else {
      assert after == before;
    }
  }

  /** What others' steps leave of a writer: all but the state of its writes. */
  predicate Kept(wr: Writer, wr': Writer)
  {
    && wr' == wr.(slots := wr'.slots, outstanding := wr'.outstanding, cq := wr'.cq)
    && |wr'.slots| == |wr.slots|
    && (forall k :: 0 <= k < |wr.slots| ==> wr'.slots[k] == wr.slots[k].(token := wr'.slots[k].token))
    && wr.cq <= wr'.cq
  }

  lemma KeptTransitive(a: Writer, b: Writer, c: Writer)
    requires Kept(a, b) && Kept(b, c)
    ensures Kept(a, c)
  {
    forall k | 0 <= k < |a.slots| ensures c.slots[k] == a.slots[k].(token := c.slots[k].token) {
      assert b.slots[k] == a.slots[k].(token := b.slots[k].token);
    }
  }

  lemma KeptSelf(a: Writer)
    ensures Kept(a, a)
  {
  }

  /** What a writer's own bookkeeping leaves alone. */
  predicate SameWork(wr: Writer, wr': Writer)
  {
    && wr'.head == wr.head && wr'.cursor == wr.cursor && wr'.rotating == wr.rotating
    && wr'.appended == wr.appended && wr'.returned == wr.returned
  }

  lemma KeptWork(wr: Writer, wr': Writer)
    requires Kept(wr, wr')
    ensures SameWork(wr, wr')
  {
  }

  lemma Ready(s: System, w: nat)
    requires Inv(s) && w < |s.writers|
    ensures var wr := s.writers[w];
            && |wr.slots| == RING_LEN && wr.head < RING_LEN && wr.cursor <= BATCH_SIZE
            && (forall k :: 0 <= k < RING_LEN ==> |wr.slots[k].mem| == BATCH_SIZE)
            && wr.pending == CountInFlight(wr.slots) == |wr.outstanding| + |wr.cq|
  {
    hide KernelOk, RangesOk, AppendedOk, CountInFlight, ClaimOk, TilesTo;
    var wr := s.writers[w];
    assert WriterOk(w, wr, s.claims);
    forall k | 0 <= k < RING_LEN ensures |wr.slots[k].mem| == BATCH_SIZE {
      assert SlotOk(w, k, wr.slots[k], wr.outstanding, wr.cq, wr.reaped, s.claims);
    }
  }

  lemma CanComplete(s: System, w: nat, id: nat)
    requires Inv(s) && w < |s.writers| && id in s.writers[w].outstanding
    ensures Enabled(s, Complete(w, id))
    ensures var wr := s.writers[w]; Kept(wr, DoComplete(wr, id))
  {
    hide RangesOk, AppendedOk, CountInFlight, ClaimOk, TilesTo, Pack;
    var wr := s.writers[w];
    Ready(s, w);
    assert WriterOk(w, wr, s.claims);
    assert SqeOk(id, wr.outstanding[id], wr.slots, wr.nextId);
    var k := wr.outstanding[id].slot;
    assert SlotOk(w, k, wr.slots[k], wr.outstanding, wr.cq, wr.reaped, s.claims);
  }

  lemma CanReap(s: System, w: nat)
    requires Inv(s) && w < |s.writers| && s.writers[w].cq != []
    ensures Enabled(s, Reap(w))
  {
    hide RangesOk, AppendedOk, CountInFlight, ClaimOk, TilesTo, Pack, SlotsOk, KernelOk, UnpackIndex;
    Ready(s, w);
    assert WriterOk(w, s.writers[w], s.claims);
    ReapFacts(w, s.writers[w], s.claims);
  }

  /** The length a completion reports is the one the slot was sealed with. */
  lemma ReapsSealed(s: System, w: nat)
    requires Inv(s) && w < |s.writers| && s.writers[w].cq != []
    ensures var wr := s.writers[w]; var idx := UnpackIndex(wr.cq[0]);
            idx < |wr.slots| && UnpackLen(wr.cq[0]) == wr.slots[idx].sealedLen
  {
    hide WriterOk, ClaimOk, TilesTo, UnpackIndex, UnpackLen;
    assert WriterOk(w, s.writers[w], s.claims);
    ReapFacts(w, s.writers[w], s.claims);
  }

  /** The submission step, as its writer sees it. */
  lemma SubmitView(s: System, w: nat)
    requires Inv(s) && Enabled(s, Submit(w))
    ensures var wr := s.writers[w]; var s' := Apply(s, Submit(w)); var wr' := s'.writers[w];
            && s'.fileOffset == s.fileOffset + wr.cursor && s'.disk == s.disk
            && SameWork(wr.(rotating := true), wr') && wr'.completed == wr.completed
            && wr'.pending == wr.pending + 1 && wr'.nextId == wr.nextId + 1 && wr'.cq == wr.cq
            && wr'.outstanding ==
                  wr.outstanding[wr.nextId := Sqe(Pack(wr.head, wr.cursor), s.fileOffset, wr.head, wr.cursor)]
            && |wr'.slots| == |wr.slots|
            && (forall k :: 0 <= k < |wr.slots| && k != wr.head ==> wr'.slots[k] == wr.slots[k])
            && var slot := wr'.slots[wr.head];
               slot.mem == wr.slots[wr.head].mem && slot.state == InFlight
               && slot.diskOffset == s.fileOffset && slot.sealedLen == wr.cursor
  {
    hide Inv, Pack;
  }

  /** Only a submission claims a range: the next bytes of the file, as many as
      the head slot holds. */
  lemma OwnRangesStep(s: System, a: Action, w: nat)
    requires Enabled(s, a)
    ensures OwnRanges(Apply(s, a).claims, w) ==
            OwnRanges(s.claims, w)
            + (if a.Submit? && a.w == w then [CompletedRange(s.fileOffset, s.writers[w].cursor)] else [])
  {
    hide OwnRanges, WriteAt, Pack;
    match a {
      case Submit(_) =>
        var wr := s.writers[a.w];
        OwnAppend(s.claims, Claim(a.w, s.fileOffset, wr.slots[wr.head].mem[..wr.cursor], wr.head, false), w);
      case Complete(_, id) =>
        OwnLanded(s.claims, s.writers[a.w].slots[s.writers[a.w].outstanding[id].slot].claim, w);
      case _ =>
    }
  }

  /** One more range of `len` bytes. */
  predicate OneMore(before: seq<CompletedRange>, after: seq<CompletedRange>, len: nat)
  {
    |after| == |before| + 1 && before <= after && after[|before|].sealedLen == len
  }

  lemma OneMoreRange(before: seq<CompletedRange>, r: CompletedRange)
    ensures OneMore(before, before + [r], r.sealedLen)
  {
  }

  /** No range is empty or longer than a slot, no two neighbours would have fit
      one slot together, and neither would the last and what is still open. */
  ghost predicate Packed(sealed: seq<CompletedRange>, open: nat)
  {
    && (forall i :: 0 <= i < |sealed| ==> 0 < sealed[i].sealedLen <= 0x10_0000)
    && (forall i, j :: 0 <= i < j < |sealed| && j == i + 1 ==> sealed[i].sealedLen + sealed[j].sealedLen > 0x10_0000)
    && (sealed != [] && open > 0 ==> sealed[|sealed| - 1].sealedLen + open > 0x10_0000)
  }

  lemma PackedMore(before: seq<CompletedRange>, after: seq<CompletedRange>, len: nat, open: nat)
    requires Packed(before, len) && OneMore(before, after, len) && 0 < len <= 0x10_0000
    requires open > 0 ==> len + open > 0x10_0000
    ensures Packed(after, open) && TotalLen(after) == TotalLen(before) + len
  {
    var n := |before|;
    assert after[..n] == before;
    forall i, j | 0 <= i < j < |after| && j == i + 1 ensures after[i].sealedLen + after[j].sealedLen > 0x10_0000 {
      assert after[i] == before[i];
      assert j < n ==> after[j] == before[j];
    }
    forall i | 0 <= i < n ensures after[i] == before[i] {
    }
  }

  lemma NothingClaimed(s: System, w: nat, memory: seq<Bytes>)
    requires Inv(s) && w < |s.writers| && MemsOk(memory) && s.writers[w] == FreshWriter(memory)
    ensures OwnRanges(s.claims, w) == []
  {
    hide KernelOk, AppendedOk, ClaimOk, TilesTo, SlotOk;
    assert WriterOk(w, s.writers[w], s.claims);
    NoFlightsYet(s.writers[w].slots);
    assert |multiset(OwnRanges(s.claims, w))| == 0;
  }

  lemma {:induction false} NoFlightsYet(slots: seq<Slot>)
    requires forall k :: 0 <= k < |slots| ==> slots[k].state == Open
    ensures Flights(slots) == multiset{}
    decreases |slots|
  {
    if slots != [] {
      NoFlightsYet(slots[..|slots| - 1]);
    }
  }

  lemma CopyIsBlit(before: Bytes, at: nat, data: Bytes, after: Bytes)
    requires |after| == |before| && at + |data| <= |before|
    requires forall i :: 0 <= i < |before| ==> after[i] == if at <= i < at + |data| then data[i - at] else before[i]
    ensures after == Blit(before, at, data)
  {
  }

  lemma {:induction false} ExecutesThen(s: System, actions: seq<Action>, s': System, a: Action)
    requires Executes(s, actions, s') && Enabled(s', a)
    ensures Executes(s, actions + [a], Apply(s', a))
    decreases |actions|
  {
    hide Apply, Enabled;
    if actions == [] {
      assert Executes(Apply(s, a), [], Apply(s, a));
    } else {
      ExecutesThen(Apply(s, actions[0]), actions[1..], s', a);
      assert (actions + [a])[1..] == actions[1..] + [a];
    }
  }

  // ---- what the writers share -------------------------------------------

  class SharedFile {
    var fileOffset: nat
    var disk: File
    ghost const mems: seq<seq<Bytes>>   // the writers' memory, as allocated
    ghost var trace: seq<Action>
    ghost var sys: System

    ghost predicate Tracked()
      reads this
    {
      Reached(mems, trace, sys)
    }

    ghost predicate Valid()
      reads this
    {
      Tracked() && fileOffset == sys.fileOffset && disk == sys.disk
    }

    constructor (ghost mems: seq<seq<Bytes>>)
      requires forall w :: 0 <= w < |mems| ==> MemsOk(mems[w])
      ensures Valid() && this.mems == mems && trace == [] && sys == Init(mems)
    {
      fileOffset, disk := 0, [];
      this.mems := mems;
      trace, sys := [], Init(mems);
    }

    /** Records one step of the system. */
    ghost method Step(a: Action)
      requires Tracked() && Enabled(sys, a)
      modifies this`sys, this`trace
      ensures Tracked() && sys == Apply(old(sys), a) && trace == old(trace) + [a]
    {
      ExecutesThen(Init(mems), trace, sys, a);
      sys := Apply(sys, a);
      trace := trace + [a];
    }
  }

  // ---- one writer -------------------------------------------------------

  /** A slot as the writer stores it. */
  datatype Cell = Cell(buf: array<bv8>, state: SlotState, diskOffset: nat, sealedLen: nat)

  class RingWriter {
    const id: nat
    const file: SharedFile
    const bufs: seq<array<bv8>>
    const slots: array<Cell>
    var head: nat
    var cursor: nat
    var pending: nat
    var completed: seq<CompletedRange>
    // the writer's own I/O ring
    var outstanding: map<nat, Sqe>
    var nextId: nat
    var cq: seq<nat>

    /** This writer in the system's record. */
    ghost function Me(): Writer
      requires id < |file.sys.writers|
      reads this, file
    {
      file.sys.writers[id]
    }

    /** The ranges it has claimed so far, in order. */
    ghost function Sealed(): seq<CompletedRange>
      reads this, file
    {
      OwnRanges(file.sys.claims, id)
    }

    ghost predicate Shows(k: nat, slot: Slot)
      requires k < |bufs| == slots.Length
      reads slots, bufs[k]
    {
      slots[k] == Cell(bufs[k], slot.state, slot.diskOffset, slot.sealedLen) && bufs[k][..] == slot.mem
    }

    ghost predicate Shape()
    {
      && |bufs| == RING_LEN == slots.Length
      && (forall j, k :: 0 <= j < k < RING_LEN ==> bufs[j] != bufs[k])
      && (forall k :: 0 <= k < RING_LEN ==> bufs[k].Length == BATCH_SIZE)
    }

    /** The fields are those of the recorded writer, but for the cursor. */
    ghost predicate Linked()
      reads this, file, slots, bufs
    {
      && Shape() && file.Valid() && id < |file.sys.writers|
      && var me := Me();
         && head == me.head < RING_LEN && pending == me.pending && completed == me.completed
         && outstanding == me.outstanding && nextId == me.nextId && cq == me.cq
         && |me.slots| == RING_LEN
         && forall k :: 0 <= k < RING_LEN ==> Shows(k, me.slots[k])
    }

    /** Between operations the head slot is open and the cursor is in it. */
    ghost predicate Valid()
      reads this, file, slots, bufs
    {
      Linked() && cursor == Me().cursor && !Me().rotating
    }

    constructor (id: nat, file: SharedFile, memory: seq<Bytes>)
      requires file.Valid() && id < |file.sys.writers|
      requires MemsOk(memory) && file.sys.writers[id] == FreshWriter(memory)
      ensures Valid() && this.file == file && this.id == id
      ensures head == 0 && cursor == 0 && pending == 0 && completed == [] && Sealed() == []
      ensures Me().appended == [] && Me().returned == []
      ensures slots.Length == 4 && forall k :: 0 <= k < 4 ==> slots[k].state == Open && slots[k].buf.Length == 0x10_0000
      ensures fresh(slots) && fresh(set b | b in bufs)
    {
      hide Reached, Inv, OwnRanges;
      ReachedOk(file.mems, file.trace, file.sys);
      NothingClaimed(file.sys, id, memory);
      this.id, this.file := id, file;
      var b0 := Allocate(memory[0]);
      var b1 := Allocate(memory[1]);
      var b2 := Allocate(memory[2]);
      var b3 := Allocate(memory[3]);
      var all := [b0, b1, b2, b3];
      bufs := all;
      slots := new Cell[RING_LEN](k requires 0 <= k < RING_LEN => Cell(all[k], Open, 0, 0));
      head, cursor, pending, completed := 0, 0, 0, [];
      outstanding, nextId, cq := map[], 0, [];
    }

    /** What the allocator returns holds arbitrary bytes, here `memory`. */
    static method Allocate(memory: Bytes) returns (buf: array<bv8>)
      ensures fresh(buf) && buf[..] == memory
    {
      buf := new bv8[|memory|](i requires 0 <= i < |memory| => memory[i]);
    }

    /** Copy `payload` into the head slot. */
    method WriteHead(offset: nat, payload: Bytes)
      requires Linked() && !Me().rotating && offset == Me().cursor && offset + |payload| <= BATCH_SIZE
      requires cursor == offset + |payload|
      modifies bufs, file
      ensures Valid()
      ensures file.trace == old(file.trace) + [Fit(id, payload)]
      ensures Me() == DoFit(old(Me()), payload) && Sealed() == old(Sealed())
    {
      hide Reached, Inv, Blit, OwnRanges;
      ReachedOk(file.mems, file.trace, file.sys);
      Ready(file.sys, id);
      var dst := slots[head].buf;
      assert Shows(head, Me().slots[head]);
      forall i | 0 <= i < |payload| {
        dst[offset + i] := payload[i];
      }
      CopyIsBlit(old(dst[..]), offset, payload, dst[..]);
      OwnRangesStep(file.sys, Fit(id, payload), id);
      file.Step(Fit(id, payload));
    }

    /** The kernel carries out one of this writer's writes. */
    method CompleteOne(io: nat)
      requires Linked() && io in outstanding
      modifies this`outstanding, this`cq, file
      ensures Linked() && OthersOnly(old(file.trace), file.trace, id) && Kept(old(Me()), Me())
      ensures Sealed() == old(Sealed())
      ensures |cq| == old(|cq|) + 1
    {
      hide Reached, Inv, Kept, WriteAt, OwnRanges;
      ReachedOk(file.mems, file.trace, file.sys);
      CanComplete(file.sys, id, io);
      var sqe := outstanding[io];
      assert Shows(sqe.slot, Me().slots[sqe.slot]);
      file.disk := WriteAt(file.disk, sqe.at, bufs[sqe.slot][..sqe.len]);
      outstanding := outstanding - {io};
      cq := cq + [sqe.userData];
      OwnRangesStep(file.sys, Complete(id, io), id);
      file.Step(Complete(id, io));
    }

    /** Everybody else runs for a while: the kernel may carry out any of this
        writer's writes, and other writers may take any steps at all. */
    method Interfere()
      requires Linked()
      modifies this`outstanding, this`cq, file
      ensures Linked() && OthersOnly(old(file.trace), file.trace, id) && Kept(old(Me()), Me())
      ensures Sealed() == old(Sealed())
    {
      hide Reached, Inv, Kept, OwnRanges;
      var n :| 0 <= n <= |outstanding|;
      var done := 0;
      KeptSelf(Me());
      while done < n && outstanding != map[]
        invariant Linked() && OthersOnly(old(file.trace), file.trace, id) && Kept(old(Me()), Me())
        invariant Sealed() == old(Sealed())
      {
        var io :| io in outstanding;
        ghost var before := Me();
        CompleteOne(io);
        KeptTransitive(old(Me()), before, Me());
        done := done + 1;
      }
    }

    /** Returns when at least `n` completions can be read. */
    method SubmitAndWait(n: nat)
      requires Linked() && n <= pending
      modifies this`outstanding, this`cq, file
      ensures Linked() && OthersOnly(old(file.trace), file.trace, id) && Kept(old(Me()), Me())
      ensures Sealed() == old(Sealed())
      ensures |cq| >= n
    {
      hide Reached, Inv, Kept, OwnRanges;
      KeptSelf(Me());
      while |cq| < n
        invariant Linked() && OthersOnly(old(file.trace), file.trace, id) && Kept(old(Me()), Me())
        invariant Sealed() == old(Sealed())
        decreases n - |cq|
      {
        Backlog();
        var io :| io in outstanding;
        ghost var before := Me();
        CompleteOne(io);
        KeptTransitive(old(Me()), before, Me());
      }
    }

    lemma Backlog()
      requires Linked()
      ensures pending == |outstanding| + |cq|
      ensures forall k :: 0 <= k < RING_LEN && slots[k].state == InFlight ==> pending > 0
    {
      hide Reached, Inv;
      ReachedOk(file.mems, file.trace, file.sys);
      Ready(file.sys, id);
      forall k | 0 <= k < RING_LEN && slots[k].state == InFlight ensures pending > 0 {
        assert Shows(k, Me().slots[k]);
        FlightsIn(Me().slots, k);
      }
    }

    method MarkInFlight(idx: nat, diskOffset: nat, validLen: nat)
      requires idx < slots.Length
      modifies slots
      ensures slots[..] == old(slots[..])[idx :=
                old(slots[idx]).(state := InFlight, diskOffset := diskOffset, sealedLen := validLen)]
    {
      slots[idx] := slots[idx].(diskOffset := diskOffset);
      slots[idx] := slots[idx].(sealedLen := validLen);
      slots[idx] := slots[idx].(state := InFlight);
    }

    /** Claim `validLen` bytes of the file, mark the slot and submit its write. */
    method SubmitSlot(idx: nat, validLen: nat)
      requires Linked() && !Me().rotating && idx == head && 0 < validLen == Me().cursor
      modifies this`outstanding, this`nextId, this`cq, this`pending, slots, file
      ensures Linked() && Me().rotating
      ensures SameWork(old(Me()).(rotating := true), Me())
      ensures Own(file.trace, id) == Own(old(file.trace), id) + [Submit(id)]
      ensures OneMore(old(Sealed()), Sealed(), validLen)
    {
      hide Reached, Inv, Kept, Pack, CountInFlight, Apply, Own, OthersOnly, OwnRanges;
      Interfere();
      KeptWork(old(Me()), Me());
      OwnOfOthers(old(file.trace), file.trace, id);
      OwnThen(file.trace, Submit(id), id);
      ReachedOk(file.mems, file.trace, file.sys);
      Ready(file.sys, id);
      assert Shows(idx, Me().slots[idx]);
      SubmitView(file.sys, id);
      var diskOffset := file.fileOffset;
      file.fileOffset := file.fileOffset + validLen;
      MarkInFlight(idx, diskOffset, validLen);
      var userData := Pack(idx, validLen);
      outstanding := outstanding[nextId := Sqe(userData, diskOffset, idx, validLen)];
      nextId := nextId + 1;
      pending := pending + 1;
      OwnRangesStep(file.sys, Submit(id), id);
      OneMoreRange(Sealed(), CompletedRange(file.sys.fileOffset, validLen));
      file.Step(Submit(id));
      forall k | 0 <= k < RING_LEN ensures Shows(k, Me().slots[k]) {
        assert slots[..][k] == slots[k];
      }
    }

    /** Take one completion: free its slot and note its range. */
    method ReapOne()
      requires Linked() && cq != []
      modifies this`completed, this`cq, this`pending, slots, file
      ensures Linked() && SameWork(old(Me()), Me()) && Sealed() == old(Sealed())
      ensures cq == old(cq)[1..] && pending + 1 == old(pending)
      ensures UnpackIndex(old(cq)[0]) < RING_LEN
      ensures var cell := old(slots[UnpackIndex(cq[0])]);
              completed == old(completed) + [CompletedRange(cell.diskOffset, cell.sealedLen)]
    {
      hide Reached, Inv, Pack, UnpackIndex, UnpackLen, OwnRanges;
      ReachedOk(file.mems, file.trace, file.sys);
      CanReap(file.sys, id);
      ReapsSealed(file.sys, id);
      var idx, len := UnpackIndex(cq[0]), UnpackLen(cq[0]);
      assert Shows(idx, Me().slots[idx]);
      cq := cq[1..];
      completed := completed + [CompletedRange(slots[idx].diskOffset, len)];
      slots[idx] := slots[idx].(state := Open);
      slots[idx] := slots[idx].(sealedLen := 0);
      pending := pending - 1;
      OwnRangesStep(file.sys, Reap(id), id);
      file.Step(Reap(id));
    }

    /** Drain every completion there is. */
    method ReapAll()
      requires Linked()
      modifies this`completed, this`outstanding, this`cq, this`pending, slots, file
      ensures Linked() && SameWork(old(Me()), Me()) && Sealed() == old(Sealed())
      ensures cq == [] && pending + old(|cq|) <= old(pending)
    {
      hide Reached, Inv, UnpackIndex, OwnRanges;
      Interfere();
      while cq != []
        invariant Linked() && SameWork(old(Me()), Me()) && Sealed() == old(Sealed())
        invariant pending + old(|cq|) <= old(pending) + |cq|
        decreases pending
      {
        ReapOne();
        Interfere();
      }
    }

    /** Submit what the head slot holds and move to the next slot, waiting for
        it as long as it is in flight. */
    method SealAndAdvance(validLen: nat)
      requires Linked() && !Me().rotating && validLen == Me().cursor
      modifies this, slots, file
      ensures Valid() && cursor == 0
      ensures Me().appended == old(Me().appended) && Me().returned == old(Me().returned)
      ensures head == (old(head) + 1) % 4
      ensures if validLen > 0 then OneMore(old(Sealed()), Sealed(), validLen) else Sealed() == old(Sealed())
    {
      hide Reached, Inv, OwnRanges, OneMore;
      if validLen > 0 {
        SubmitSlot(head, validLen);
      }
      ghost var claimed := Sealed();
      var next := (head + 1) % RING_LEN;
      while slots[next].state == InFlight
        invariant Linked() && (Me().rotating || Me().cursor == 0) && head == old(head)
        invariant Me().appended == old(Me().appended) && Me().returned == old(Me().returned)
        invariant Sealed() == claimed
        decreases pending
      {
        Backlog();
        SubmitAndWait(1);
        ReapAll();
      }
      Advance(next);
    }

    method Advance(next: nat)
      requires Linked() && (Me().rotating || Me().cursor == 0)
      requires next == (head + 1) % RING_LEN && slots[next].state == Open
      modifies this`head, this`cursor, file
      ensures Valid() && cursor == 0 && head == next
      ensures Me().appended == old(Me().appended) && Me().returned == old(Me().returned) && Sealed() == old(Sealed())
    {
      hide Reached, Inv, OwnRanges;
      ReachedOk(file.mems, file.trace, file.sys);
      Ready(file.sys, id);
      assert Shows(next, Me().slots[next]);
      head := next;
      cursor := 0;
      OwnRangesStep(file.sys, WriterSystem.Action.Advance(id), id);
      file.Step(WriterSystem.Action.Advance(id));
    }

    /** Append one payload, sealing the head slot and moving on to the next one
        exactly when it does not fit. */
    method Append(payload: Bytes)
      requires Valid() && |payload| <= 0x10_0000
      modifies this, slots, bufs, file
      ensures Valid()
      ensures Me().appended == old(Me().appended) + payload && Me().returned == old(Me().returned)
      ensures if old(cursor) + |payload| > 0x10_0000
              then head == (old(head) + 1) % 4 && cursor == |payload| && OneMore(old(Sealed()), Sealed(), old(cursor))
              else head == old(head) && cursor == old(cursor) + |payload| && Sealed() == old(Sealed())
    {
      hide Reached, Inv, OwnRanges, OneMore;
      var len := |payload|;
      var offset := cursor;
      cursor := cursor + len;
      if offset + len > BATCH_SIZE {
        SealAndAdvance(offset);
        var newOffset := cursor;
        cursor := cursor + len;
        WriteHead(newOffset, payload);
      } else {
        WriteHead(offset, payload);
      }
    }

    /** Submit whatever the head slot holds. */
    method Flush()
      requires Valid()
      modifies this, slots, file
      ensures Valid() && cursor == 0
      ensures if old(cursor) > 0
              then head == (old(head) + 1) % 4 && OneMore(old(Sealed()), Sealed(), old(cursor))
              else head == old(head) && Sealed() == old(Sealed())
      ensures Me().appended == old(Me().appended) && Me().returned == old(Me().returned)
    {
      hide Reached, Inv, OwnRanges, OneMore;
      var filled := cursor;
      if filled > 0 {
        SealAndAdvance(filled);
      }
    }

    /** Submit the rest, wait for everything, and hand out the ranges. */
    method Finish() returns (ranges: seq<CompletedRange>)
      requires Valid()
      modifies this, slots, file
      ensures Valid() && Finished(Me())
      ensures Me().appended == old(Me().appended) && Me().returned == old(Me().returned) + ranges
      ensures forall k :: 0 <= k < 4 ==> slots[k].state == Open
      ensures if old(cursor) > 0 then OneMore(old(Sealed()), Sealed(), old(cursor)) else Sealed() == old(Sealed())
      ensures multiset(Me().returned) == multiset(Sealed())
      ensures forall sorted :: SortedCopy(Me().returned, sorted) ==> ReadRanges(file.disk, sorted) == Me().appended
    {
      hide Reached, Inv, ReadRanges, SortedCopy, OwnRanges, OneMore;
      var remaining := cursor;
      if remaining > 0 {
        SealAndAdvance(remaining);
      }
      if pending > 0 {
        SubmitAndWait(pending);
        ReapAll();
      }
      ranges := completed;
      completed := [];
      OwnRangesStep(file.sys, Take(id), id);
      file.Step(Take(id));
      Delivered();
    }

    lemma Delivered()
      requires Linked() && Finished(Me())
      ensures forall k :: 0 <= k < RING_LEN ==> slots[k].state == Open
      ensures multiset(Me().returned) == multiset(Sealed())
      ensures forall sorted :: SortedCopy(Me().returned, sorted) ==> ReadRanges(file.disk, sorted) == Me().appended
    {
      hide Reached, Inv, ReadRanges, SortedCopy, OwnRanges;
      ReachedOk(file.mems, file.trace, file.sys);
      Ready(file.sys, id);
      FinishedFacts(file.sys, id);
      NoFlights(Me().slots);
      forall k | 0 <= k < RING_LEN ensures slots[k].state == Open {
        assert Shows(k, Me().slots[k]);
      }
      forall sorted | SortedCopy(Me().returned, sorted) ensures ReadRanges(file.disk, sorted) == Me().appended {
        ReadBackIsAppended(file.mems, file.trace, file.sys, id, sorted);
      }
    }
  }

  // ---- one writer's thread ----------------------------------------------

  /** The thread of one writer: append every message, then finish.  `sealed` are
      its ranges in the order claimed.  Messages that fit one slot together end
      up in one range. */
  method WriteMessages(id: nat, file: SharedFile, memory: seq<Bytes>, messages: seq<Bytes>)
    returns (ranges: seq<CompletedRange>, ghost sealed: seq<CompletedRange>)
    requires file.Valid() && id < |file.sys.writers| && MemsOk(memory) && file.sys.writers[id] == FreshWriter(memory)
    requires forall i :: 0 <= i < |messages| ==> |messages[i]| <= 0x10_0000
    modifies file
    ensures file.Valid() && multiset(ranges) == multiset(sealed)
    ensures Packed(sealed, 0) && TotalLen(sealed) == |Concat(messages)|
    ensures 0 < |Concat(messages)| <= 0x10_0000 ==> |ranges| == 1 && ranges[0].sealedLen == |Concat(messages)|
    ensures Concat(messages) == [] ==> ranges == []
    ensures forall sorted :: SortedCopy(ranges, sorted) ==> ReadRanges(file.disk, sorted) == Concat(messages)
  {
    hide Reached, Inv, ReadRanges, SortedCopy, OwnRanges, Packed, OneMore, Concat, TotalLen;
    var writer := new RingWriter(id, file, memory);
    NothingYet();
    for k := 0 to |messages|
      invariant writer.Valid() && writer.file == file && writer.id == id
      invariant fresh(writer) && fresh(writer.slots) && fresh(set b | b in writer.bufs)
      invariant Stage(writer.Sealed(), writer.cursor, messages[..k])
      invariant writer.Me().appended == Concat(messages[..k]) && writer.Me().returned == []
    {
      ghost var before, cursor := writer.Sealed(), writer.cursor;
      writer.Append(messages[k]);
      NextStage(before, cursor, messages[..k], messages[k], writer.Sealed(), writer.cursor);
      assert messages[..k + 1] == messages[..k] + [messages[k]];
    }
    assert messages[..|messages|] == messages;
    ghost var before, open := writer.Sealed(), writer.cursor;
    ranges := writer.Finish();
    sealed := writer.Sealed();
    assert writer.Me().returned == ranges;
    LastStage(before, open, messages, sealed, ranges);
  }

  /** A writer's state in the middle of its messages. */
  ghost predicate Stage(sealed: seq<CompletedRange>, open: nat, messages: seq<Bytes>)
  {
    && Packed(sealed, open) && open <= 0x10_0000 && TotalLen(sealed) + open == |Concat(messages)|
    && (|Concat(messages)| <= 0x10_0000 ==> sealed == []) && (sealed != [] ==> open > 0)
  }

  lemma NothingYet()
    ensures Stage([], 0, []) && Concat([]) == []
  {
  }

  lemma NextStage(sealed: seq<CompletedRange>, open: nat, messages: seq<Bytes>, payload: Bytes,
                  sealed': seq<CompletedRange>, open': nat)
    requires Stage(sealed, open, messages) && |payload| <= 0x10_0000
    requires if open + |payload| > 0x10_0000
             then open' == |payload| && OneMore(sealed, sealed', open)
             else open' == open + |payload| && sealed' == sealed
    ensures Stage(sealed', open', messages + [payload])
    ensures Concat(messages + [payload]) == Concat(messages) + payload
  {
    hide OneMore, TotalLen;
    assert (messages + [payload])[..|messages|] == messages;
    if open + |payload| > 0x10_0000 {
      PackedMore(sealed, sealed', open, open');
    }
  }

  lemma LastStage(before: seq<CompletedRange>, open: nat, messages: seq<Bytes>, sealed: seq<CompletedRange>,
                  ranges: seq<CompletedRange>)
    requires Stage(before, open, messages) && multiset(ranges) == multiset(sealed)
    requires if open > 0 then OneMore(before, sealed, open) else sealed == before
    ensures Packed(sealed, 0) && TotalLen(sealed) == |Concat(messages)|
    ensures 0 < |Concat(messages)| <= 0x10_0000 ==> |ranges| == 1 && ranges[0].sealedLen == |Concat(messages)|
    ensures Concat(messages) == [] ==> ranges == []
  {
    hide Concat;
    if open > 0 {
      PackedMore(before, sealed, open, 0);
    }
    assert |ranges| == |multiset(ranges)| == |sealed|;
    if |ranges| == 1 {
      assert ranges[0] in multiset(sealed);
    }
  }
}
