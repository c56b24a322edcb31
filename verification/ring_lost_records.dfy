/** Each scheduling assumption is needed: without it there is a run, on a ring of
    one buffer with three threads, in which bytes that a completion message has
    reported are overwritten.  With all of them there is no such run. */
module RingLostRecords {
  import opened Files
  import opened StateWord
  import opened RingProtocol
  import opened RingHistory
  import opened RingShape
  import opened RingViews
  import RingTheorems

  // ---- runs in segments -------------------------------------------------

  /** `s'` follows from `s` by steps that `g` allows. */
  ghost predicate Leads(g: Guards, s: Ring, s': Ring)
  {
    exists actions :: Executes(g, s, actions, s')
  }

  lemma LeadsOn(g: Guards, s: Ring, s1: Ring, s2: Ring)
    requires Leads(g, s, s1) && Leads(g, s1, s2)
    ensures Leads(g, s, s2)
  {
    hide Executes;
    var xs :| Executes(g, s, xs, s1);
    var ys :| Executes(g, s1, ys, s2);
    RunsJoin(g, s, xs, s1, ys, s2);
  }

  /** One step of thread `t`. */
  lemma OneStep(g: Guards, s: Ring, t: nat)
    requires Wf(s) && t < |s.threads| && !s.threads[t].Idle? && Allowed(g, s, s.threads[t])
    ensures Enabled(NONE, s, Run(t)) && Wf(Apply(s, Run(t))) && Leads(g, s, Apply(s, Run(t)))
  {
    hide Wf, Next, Unpublished, Lingering, HalfReset;
    NextShape(s, t);
    assert Executes(g, Apply(s, Run(t)), [], Apply(s, Run(t)));
    assert Executes(g, s, [Run(t)], Apply(s, Run(t)));
  }

  lemma OneBegin(g: Guards, s: Ring, t: nat, payload: Bytes)
    requires Wf(s) && t < |s.threads| && s.threads[t].Idle? && |payload| <= ONE_MEGABYTE_BLOCK
    ensures Enabled(NONE, s, Begin(t, payload)) && Wf(Apply(s, Begin(t, payload)))
    ensures Leads(g, s, Apply(s, Begin(t, payload)))
  {
    hide Wf;
    var a := Begin(t, payload);
    StepShape(s, a);
    assert Executes(g, Apply(s, a), [], Apply(s, a));
    assert Executes(g, s, [a], Apply(s, a));
  }

  lemma OneTake(g: Guards, s: Ring, t: nat, id: nat)
    requires Wf(s) && t < |s.threads| && s.threads[t].Idle? && id in s.outstanding
    ensures Enabled(NONE, s, TakeOk(t, id)) && Wf(Apply(s, TakeOk(t, id))) && Leads(g, s, Apply(s, TakeOk(t, id)))
  {
    hide Wf, DoTakeOk;
    var a := TakeOk(t, id);
    StepShape(s, a);
    assert Executes(g, Apply(s, a), [], Apply(s, a));
    assert Executes(g, s, [a], Apply(s, a));
  }

  /** A ring with one buffer, which looks as given. */
  ghost predicate Small(s: Ring, word: Word, mem: Bytes, addr: nat)
  {
    && Wf(s) && |s.bufs| == 1 && s.current == 0
    && s.bufs[0].word == word && s.bufs[0].mem == mem && s.bufs[0].addr == addr
  }

  predicate SameIo(s: Ring, s': Ring)
  {
    s'.counter == s.counter && s'.disk == s.disk && s'.outstanding == s.outstanding
    && s'.nextId == s.nextId && s'.records == s.records
  }

  /** Thread `t` reserves room for its payload and copies it. */
  lemma WriteOne(g: Guards, s: Ring, t: nat, payload: Bytes, word: Word, mem: Bytes, addr: nat) returns (s': Ring)
    requires Small(s, word, mem, addr) && t < |s.threads| && s.threads[t].Idle?
    requires !word.sealed && !word.flushing && word.offset + |payload| <= ONE_MEGABYTE_BLOCK
    ensures Leads(g, s, s') && SameIo(s, s')
    ensures Small(s', Reserve(word, |payload|), Copy(mem, word.offset, payload), addr)
    ensures t < |s'.threads| && s'.threads == s.threads[t := s'.threads[t]] && s'.threads[t].Written?
    ensures s'.threads[t].b == 0
  {
    hide Wf, Apply, Enabled, Leads, Reserve, Copy;
    OneBegin(g, s, t, payload);
    BeginView(s, t, payload);
    var s1 := Apply(s, Begin(t, payload));
    OneStep(g, s1, t);
    LoadView(s1, t);
    var s2 := Apply(s1, Run(t));
    LeadsOn(g, s, s1, s2);
    OneStep(g, s2, t);
    ReserveView(s2, t);
    var s3 := Apply(s2, Run(t));
    LeadsOn(g, s, s2, s3);
    OneStep(g, s3, t);
    CopyView(s3, t);
    s' := Apply(s3, Run(t));
    LeadsOn(g, s, s3, s');
  }

  /** Thread `t` finds no room and is the first to seal. */
  lemma SealOnly(g: Guards, s: Ring, t: nat, payload: Bytes, word: Word, mem: Bytes, addr: nat) returns (s': Ring)
    requires Small(s, word, mem, addr) && t < |s.threads| && s.threads[t].Idle? && |payload| <= ONE_MEGABYTE_BLOCK
    requires !word.sealed && !word.flushing && word.offset + |payload| > ONE_MEGABYTE_BLOCK
    ensures Leads(g, s, s') && SameIo(s, s')
    ensures Small(s', StateWord.Seal(word), mem, addr)
    ensures t < |s'.threads| && s'.threads == s.threads[t := Sealing(0)]
  {
    hide Wf, Apply, Enabled, Leads;
    OneBegin(g, s, t, payload);
    BeginView(s, t, payload);
    var s1 := Apply(s, Begin(t, payload));
    OneStep(g, s1, t);
    LoadView(s1, t);
    var s2 := Apply(s1, Run(t));
    LeadsOn(g, s, s1, s2);
    OneStep(g, s2, t);
    FlagView(s2, t);
    s' := Apply(s2, Run(t));
    LeadsOn(g, s, s2, s');
  }

  /** The sealer claims a range and stores its start. */
  lemma Publish(g: Guards, s: Ring, t: nat, word: Word, mem: Bytes, addr: nat) returns (s': Ring)
    requires Small(s, word, mem, addr) && t < |s.threads| && s.threads[t] == Sealing(0)
    requires g.publishAfterClear ==> forall t' :: 0 <= t' < |s.threads| ==> s.threads[t'] != Clearing(0)
    ensures Leads(g, s, s') && SameIo(s, s'.(counter := s.counter)) && s'.counter == s.counter + Pad(word.offset)
    ensures Small(s', word, mem, s.counter)
    ensures t < |s'.threads| && s'.threads == s.threads[t := Rotating(0)]
  {
    hide Wf, Apply, Enabled, Leads, Pad;
    OneStep(g, s, t);
    LoadView(s, t);
    var s1 := Apply(s, Run(t));
    OneStep(g, s1, t);
    CounterView(s1, t);
    var s2 := Apply(s1, Run(t));
    LeadsOn(g, s, s1, s2);
    OneStep(g, s2, t);
    StoreView(s2, t);
    s' := Apply(s2, Run(t));
    LeadsOn(g, s, s2, s');
  }

  /** The sealer finds no other buffer. */
  lemma ScanAll(g: Guards, s: Ring, t: nat, word: Word, mem: Bytes, addr: nat) returns (s': Ring)
    requires Small(s, word, mem, addr) && t < |s.threads| && s.threads[t] == Rotating(0) && word.sealed
    ensures Leads(g, s, s') && SameIo(s, s')
    ensures Small(s', word, mem, addr)
    ensures t < |s'.threads| && s'.threads == s.threads[t := Checking(0)]
  {
    hide Wf, Apply, Enabled, Leads;
    OneStep(g, s, t);
    LoadView(s, t);
    var s1 := Apply(s, Run(t));
    OneStep(g, s1, t);
    LoadView(s1, t);
    var s2 := Apply(s1, Run(t));
    LeadsOn(g, s, s1, s2);
    OneStep(g, s2, t);
    ScanView(s2, t);
    var s3 := Apply(s2, Run(t));
    LeadsOn(g, s, s2, s3);
    OneStep(g, s3, t);
    LoadView(s3, t);
    var s4 := Apply(s3, Run(t));
    LeadsOn(g, s, s3, s4);
    OneStep(g, s4, t);
    ScanView(s4, t);
    s' := Apply(s4, Run(t));
    LeadsOn(g, s, s4, s');
  }

  /** The sealer's check: it claims if nobody is writing, and else is done. */
  lemma Check(g: Guards, s: Ring, t: nat, word: Word, mem: Bytes, addr: nat) returns (s': Ring)
    requires Small(s, word, mem, addr) && t < |s.threads| && s.threads[t] == Checking(0)
    ensures Leads(g, s, s') && SameIo(s, s')
    ensures Small(s', word, mem, addr)
    ensures t < |s'.threads| && s'.threads == s.threads[t := if word.writers == 0 then Claiming(0) else Idle]
  {
    hide Wf, Apply, Enabled, Leads;
    OneStep(g, s, t);
    LoadView(s, t);
    s' := Apply(s, Run(t));
  }

  lemma LastRelease(g: Guards, s: Ring, t: nat, word: Word, mem: Bytes, addr: nat) returns (s': Ring)
    requires Small(s, word, mem, addr) && t < |s.threads| && s.threads[t].Written? && s.threads[t].b == 0
    requires word.sealed && word.writers == 1
    ensures Leads(g, s, s') && SameIo(s, s')
    ensures Small(s', word.(writers := 0), mem, addr)
    ensures t < |s'.threads| && s'.threads == s.threads[t := LastWriter(0)]
  {
    hide Wf, Apply, Enabled, Leads;
    OneStep(g, s, t);
    ReleaseView(s, t);
    s' := Apply(s, Run(t));
  }

  lemma Claim(g: Guards, s: Ring, t: nat, word: Word, mem: Bytes, addr: nat) returns (s': Ring)
    requires Small(s, word, mem, addr) && t < |s.threads|
    requires (s.threads[t] == LastWriter(0) || s.threads[t] == Claiming(0))
    requires !word.flushing
    ensures Leads(g, s, s') && SameIo(s, s')
    ensures Small(s', word.(flushing := true), mem, addr)
    ensures t < |s'.threads| && s'.threads == s.threads[t := Submitting(0)]
  {
    hide Wf, Apply, Enabled, Leads;
    OneStep(g, s, t);
    FlagView(s, t);
    var s1 := Apply(s, Run(t));
    OneStep(g, s1, t);
    FlagView(s1, t);
    s' := Apply(s1, Run(t));
    LeadsOn(g, s, s1, s');
  }

  /** Push the write, at the address there is. */
  lemma Push(g: Guards, s: Ring, t: nat, word: Word, mem: Bytes, addr: nat) returns (s': Ring)
    requires Small(s, word, mem, addr) && t < |s.threads| && s.threads[t] == Submitting(0)
    requires g.dispatchAfterPublish ==> forall t' :: 0 <= t' < |s.threads| ==> !Early(s.threads[t'], 0)
    ensures Leads(g, s, s') && SameIo(s, s'.(outstanding := s.outstanding, nextId := s.nextId))
    ensures s'.outstanding == s.outstanding[s.nextId := Write(0, addr, Pad(word.offset))] && s'.nextId == s.nextId + 1
    ensures Small(s', word, mem, addr)
    ensures t < |s'.threads| && s'.threads == s.threads[t := Idle]
  {
    hide Wf, Apply, Enabled, Leads, Pad;
    OneStep(g, s, t);
    FlushLoadView(s, t);
    var s1 := Apply(s, Run(t));
    OneStep(g, s1, t);
    FlushLoadView(s1, t);
    var s2 := Apply(s1, Run(t));
    LeadsOn(g, s, s1, s2);
    OneStep(g, s2, t);
    PushView(s2, t);
    s' := Apply(s2, Run(t));
    LeadsOn(g, s, s2, s');
  }

  /** The write lands. */
  lemma Land(g: Guards, s: Ring, t: nat, id: nat, word: Word, mem: Bytes, addr: nat) returns (s': Ring)
    requires Small(s, word, mem, addr) && t < |s.threads| && s.threads[t].Idle? && id in s.outstanding
    requires s.outstanding[id].buf == 0 && s.outstanding[id].len <= |mem|
    ensures Leads(g, s, s') && SameIo(s, s'.(outstanding := s.outstanding, disk := s.disk))
    ensures s'.outstanding == s.outstanding - {id}
    ensures s'.disk == WriteAt(s.disk, s.outstanding[id].at, mem[..s.outstanding[id].len])
    ensures Small(s', word, mem, addr)
    ensures t < |s'.threads| && s'.threads == s.threads[t := Reaping(0)]
  {
    hide Wf, Apply, Enabled, Leads, WriteAt;
    OneTake(g, s, t, id);
    TakeView(s, t, id, false, []);
    s' := Apply(s, TakeOk(t, id));
  }

  lemma Note(g: Guards, s: Ring, t: nat, word: Word, mem: Bytes, addr: nat) returns (s': Ring)
    requires Small(s, word, mem, addr) && t < |s.threads| && s.threads[t] == Reaping(0)
    ensures Leads(g, s, s') && SameIo(s, s'.(records := s.records))
    ensures s'.records == s.records + [Record(addr, word.offset, s.bufs[0].gen)]
    ensures Small(s', word, mem, addr)
    ensures t < |s'.threads| && s'.threads == s.threads[t := Recorded(0)]
  {
    hide Wf, Apply, Enabled, Leads;
    OneStep(g, s, t);
    FlushLoadView(s, t);
    var s1 := Apply(s, Run(t));
    OneStep(g, s1, t);
    NoteView(s1, t);
    s' := Apply(s1, Run(t));
    LeadsOn(g, s, s1, s');
  }

  lemma Reset(g: Guards, s: Ring, t: nat, word: Word, mem: Bytes, addr: nat) returns (s': Ring)
    requires Small(s, word, mem, addr) && t < |s.threads| && s.threads[t] == Recorded(0)
    requires g.resetAfterTail ==> !Lingering(s, 0)
    ensures Leads(g, s, s') && SameIo(s, s')
    ensures Small(s', ZERO, mem, addr)
    ensures t < |s'.threads| && s'.threads == s.threads[t := Clearing(0)]
  {
    hide Wf, Apply, Enabled, Leads, Lingering;
    OneStep(g, s, t);
    StoreView(s, t);
    s' := Apply(s, Run(t));
  }

  lemma Clear(g: Guards, s: Ring, t: nat, word: Word, mem: Bytes, addr: nat) returns (s': Ring)
    requires Small(s, word, mem, addr) && t < |s.threads| && s.threads[t] == Clearing(0)
    ensures Leads(g, s, s') && SameIo(s, s')
    ensures Small(s', word, mem, 0)
    ensures t < |s'.threads| && s'.threads == s.threads[t := Idle]
  {
    hide Wf, Apply, Enabled, Leads;
    OneStep(g, s, t);
    StoreView(s, t);
    s' := Apply(s, Run(t));
  }

  // ---- three runs -------------------------------------------------------

  function Byte(x: bv8): Bytes
  {
    [x]
  }

  /** Memory whose first byte was written last. */
  function Memory(x: bv8): (m: Bytes)
    ensures |m| == ONE_MEGABYTE_BLOCK && m[0] == x
  {
    Copy(Zeros(ONE_MEGABYTE_BLOCK), 0, Byte(x))
  }

  lemma MemoryAgain(x: bv8, y: bv8)
    ensures Copy(Memory(x), 0, Byte(y)) == Memory(y)
  {
  }

  /** A word with one byte reserved, by a writer who may have released it. */
  function OneByte(writers: nat, flushing: bool, sealed: bool): Word
  {
    Word(1, writers, 0, flushing, sealed)
  }

  /** A reported range no longer reads as it did. */
  ghost predicate LosesRecord(g: Guards)
  {
    exists s1, s2 ::
      && Leads(g, Init(1, 3), s1) && Leads(g, s1, s2)
      && |s1.records| > 0 && |s2.records| > 0 && s2.records[0] == s1.records[0]
      && ReadAt(s2.disk, s1.records[0].at, s1.records[0].count) !=
         ReadAt(s1.disk, s1.records[0].at, s1.records[0].count)
  }

  /** The state when the first batch, one byte, has been written and reported;
      the sealer may still have its check to do. */
  ghost predicate Reported(s: Ring, sealer: Pc)
  {
    && Small(s, OneByte(0, true, true), Memory(1), 0)
    && s.threads == [Idle, sealer, Recorded(0)]
    && s.outstanding == map[] && s.counter == 4096
    && |s.records| == 1 && s.records[0].at == 0 && s.records[0].count == 1
    && ReadAt(s.disk, 0, 1) == Byte(1)
  }

  lemma PadOne()
    ensures Pad(1) == 4096
  {
  }

  lemma FirstByte(disk: File, x: bv8)
    ensures ReadAt(WriteAt(disk, 0, Memory(x)[..4096]), 0, 1) == Byte(x)
  {
    hide ReadAt, WriteAt, Memory;
    ReadBack(disk, 0, Memory(x)[..4096], 1);
  }

  lemma StartSmall()
    ensures Small(Init(1, 3), ZERO, Zeros(ONE_MEGABYTE_BLOCK), 0) && Init(1, 3).threads == [Idle, Idle, Idle]
  {
  }

  /** One thread has copied a byte, another sealed the buffer for lack of room
      and looked in vain for a next one. */
  lemma Sealed(g: Guards) returns (s: Ring)
    ensures Leads(g, Init(1, 3), s) && Small(s, OneByte(1, false, true), Memory(1), 0)
    ensures |s.threads| == 3 && s.threads[0].Written? && s.threads[0].b == 0
    ensures s.threads == [s.threads[0], Checking(0), Idle]
    ensures s.counter == 4096 && s.disk == [] && s.outstanding == map[] && s.nextId == 0 && s.records == []
  {
    hide Wf, Leads, Memory, Pad;
    StartSmall();
    PadOne();
    var s0 := Init(1, 3);
    var s1 := WriteOne(g, s0, 0, Byte(1), ZERO, Zeros(ONE_MEGABYTE_BLOCK), 0);
    assert Small(s1, OneByte(1, false, false), Memory(1), 0) by { MemoryIs(1); }
    var s2 := SealOnly(g, s1, 1, Zeros(ONE_MEGABYTE_BLOCK), OneByte(1, false, false), Memory(1), 0);
    LeadsOn(g, s0, s1, s2);
    var s3 := Publish(g, s2, 1, OneByte(1, false, true), Memory(1), 0);
    LeadsOn(g, s0, s2, s3);
    s := ScanAll(g, s3, 1, OneByte(1, false, true), Memory(1), 0);
    LeadsOn(g, s0, s3, s);
  }

  lemma MemoryIs(x: bv8)
    ensures Copy(Zeros(ONE_MEGABYTE_BLOCK), 0, Byte(x)) == Memory(x)
  {
  }

  /** The last writer dispatches the first batch, and it is written and
      reported. */
  lemma FirstBatch(g: Guards, s: Ring) returns (s': Ring)
    requires Small(s, OneByte(1, false, true), Memory(1), 0) && |s.threads| == 3
    requires s.threads[0].Written? && s.threads[0].b == 0 && s.threads[2].Idle? && !Early(s.threads[1], 0)
    requires s.disk == [] && s.outstanding == map[] && s.nextId == 0 && s.records == [] && s.counter == 4096
    ensures Leads(g, s, s') && Reported(s', s.threads[1]) && s'.nextId == 1
  {
    hide Wf, Leads, Memory, Pad, WriteAt, ReadAt;
    PadOne();
    var s1 := LastRelease(g, s, 0, OneByte(1, false, true), Memory(1), 0);
    var s2 := Claim(g, s1, 0, OneByte(0, false, true), Memory(1), 0);
    LeadsOn(g, s, s1, s2);
    var s3 := Push(g, s2, 0, OneByte(0, true, true), Memory(1), 0);
    LeadsOn(g, s, s2, s3);
    var s4 := Land(g, s3, 2, 0, OneByte(0, true, true), Memory(1), 0);
    LeadsOn(g, s, s3, s4);
    s' := Note(g, s4, 2, OneByte(0, true, true), Memory(1), 0);
    LeadsOn(g, s, s4, s');
    FirstByte(s.disk, 1);
  }

  /** The second batch, dispatched to address 0, lands on the first. */
  lemma LandsOnFirst(g: Guards, s1: Ring, s: Ring, t: nat, word: Word)
    requires Leads(g, Init(1, 3), s1) && |s1.threads| == 3 && Reported(s1, s1.threads[1]) && Leads(g, s1, s)
    requires Small(s, word, Memory(2), 0) && word.offset == 1 && t < |s.threads| && s.threads[t] == Submitting(0)
    requires g.dispatchAfterPublish ==> forall t' :: 0 <= t' < |s.threads| ==> !Early(s.threads[t'], 0)
    requires 2 < |s.threads| && t != 2 && s.threads[2].Idle? && s.records == s1.records
    ensures LosesRecord(g)
  {
    hide Wf, Leads, Memory, Pad, WriteAt, ReadAt;
    PadOne();
    var s2 := Push(g, s, t, word, Memory(2), 0);
    LeadsOn(g, s1, s, s2);
    var s' := Land(g, s2, 2, s.nextId, word, Memory(2), 0);
    LeadsOn(g, s1, s2, s');
    FirstByte(s2.disk, 2);
  }

  /** Without the first assumption: the last writer of the second batch
      dispatches it before the sealer has stored its address. */
  lemma DispatchGuardNeeded()
    ensures LosesRecord(Guards(false, true, true))
  {
    hide Wf, Leads, Memory, Pad, WriteAt, ReadAt;
    var g := Guards(false, true, true);
    var s0 := Sealed(g);
    var s1 := Check(g, s0, 1, OneByte(1, false, true), Memory(1), 0);
    LeadsOn(g, Init(1, 3), s0, s1);
    var s2 := FirstBatch(g, s1);
    LeadsOn(g, Init(1, 3), s1, s2);
    var s3 := Reset(g, s2, 2, OneByte(0, true, true), Memory(1), 0);
    var s4 := Clear(g, s3, 2, ZERO, Memory(1), 0);
    LeadsOn(g, s2, s3, s4);
    var s5 := WriteOne(g, s4, 0, Byte(2), ZERO, Memory(1), 0);
    LeadsOn(g, s2, s4, s5);
    MemoryAgain(1, 2);
    var s6 := SealOnly(g, s5, 1, Zeros(ONE_MEGABYTE_BLOCK), OneByte(1, false, false), Memory(2), 0);
    LeadsOn(g, s2, s5, s6);
    var s7 := LastRelease(g, s6, 0, OneByte(1, false, true), Memory(2), 0);
    LeadsOn(g, s2, s6, s7);
    var s8 := Claim(g, s7, 0, OneByte(0, false, true), Memory(2), 0);
    LeadsOn(g, s2, s7, s8);
    LandsOnFirst(g, s2, s8, 0, OneByte(0, true, true));
  }

  /** Without the second: the first batch is reset while its sealer still has
      its check to do, which then flushes the open second batch. */
  lemma ResetGuardNeeded()
    ensures LosesRecord(Guards(true, false, true))
  {
    hide Wf, Leads, Memory, Pad, WriteAt, ReadAt;
    var g := Guards(true, false, true);
    var s1 := Sealed(g);
    var s2 := FirstBatch(g, s1);
    LeadsOn(g, Init(1, 3), s1, s2);
    var s3 := Reset(g, s2, 2, OneByte(0, true, true), Memory(1), 0);
    var s4 := Clear(g, s3, 2, ZERO, Memory(1), 0);
    LeadsOn(g, s2, s3, s4);
    var s5 := Check(g, s4, 1, ZERO, Memory(1), 0);
    LeadsOn(g, s2, s4, s5);
    var s6 := WriteOne(g, s5, 0, Byte(2), ZERO, Memory(1), 0);
    LeadsOn(g, s2, s5, s6);
    MemoryAgain(1, 2);
    var s7 := Claim(g, s6, 1, OneByte(1, false, false), Memory(2), 0);
    LeadsOn(g, s2, s6, s7);
    LandsOnFirst(g, s2, s7, 1, OneByte(1, true, false));
  }

  /** Without the third: the second half of the reset wipes out the address the
      next sealer has just stored. */
  lemma PublishGuardNeeded()
    ensures LosesRecord(Guards(true, true, false))
  {
    hide Wf, Leads, Memory, Pad, WriteAt, ReadAt;
    var g := Guards(true, true, false);
    var s0 := Sealed(g);
    var s1 := Check(g, s0, 1, OneByte(1, false, true), Memory(1), 0);
    LeadsOn(g, Init(1, 3), s0, s1);
    var s2 := FirstBatch(g, s1);
    LeadsOn(g, Init(1, 3), s1, s2);
    var s3 := Reset(g, s2, 2, OneByte(0, true, true), Memory(1), 0);
    var s4 := WriteOne(g, s3, 0, Byte(2), ZERO, Memory(1), 0);
    LeadsOn(g, s2, s3, s4);
    MemoryAgain(1, 2);
    var s5 := SealOnly(g, s4, 1, Zeros(ONE_MEGABYTE_BLOCK), OneByte(1, false, false), Memory(2), 0);
    LeadsOn(g, s2, s4, s5);
    var s6 := Publish(g, s5, 1, OneByte(1, false, true), Memory(2), 0);
    LeadsOn(g, s2, s5, s6);
    var s7 := Clear(g, s6, 2, OneByte(1, false, true), Memory(2), 4096);
    LeadsOn(g, s2, s6, s7);
    var s8 := LastRelease(g, s7, 0, OneByte(1, false, true), Memory(2), 0);
    LeadsOn(g, s2, s7, s8);
    var s9 := Claim(g, s8, 0, OneByte(0, false, true), Memory(2), 0);
    LeadsOn(g, s2, s8, s9);
    LandsOnFirst(g, s2, s9, 0, OneByte(0, true, true));
  }

  // ---- which assumptions are enough -------------------------------------

  /** Whatever `g` assumes, `h` assumes too. */
  predicate Within(g: Guards, h: Guards)
  {
    && (g.dispatchAfterPublish ==> h.dispatchAfterPublish)
    && (g.resetAfterTail ==> h.resetAfterTail)
    && (g.publishAfterClear ==> h.publishAfterClear)
  }

  lemma EnabledWithin(g: Guards, h: Guards, s: Ring, a: Action)
    requires Within(g, h) && Enabled(h, s, a)
    ensures Enabled(g, s, a)
  {
    hide Unpublished, Lingering, HalfReset;
  }

  /** Runs under more assumptions are runs under fewer. */
  lemma {:induction false} RunsWithin(g: Guards, h: Guards, s: Ring, actions: seq<Action>, s': Ring)
    requires Within(g, h) && Executes(h, s, actions, s')
    ensures Executes(g, s, actions, s')
    decreases |actions|
  {
    hide Enabled, Apply, Wf, Within;
    if actions != [] {
      EnabledWithin(g, h, s, actions[0]);
      EnabledWithin(NONE, h, s, actions[0]) by { NoneWithin(h); }
      RunsWithin(g, h, Apply(s, actions[0]), actions[1..], s');
    }
  }

  lemma NoneWithin(h: Guards)
    ensures Within(NONE, h)
  {
  }

  lemma LosesWithin(g: Guards, h: Guards)
    requires Within(g, h) && LosesRecord(h)
    ensures LosesRecord(g)
  {
    hide Executes, ReadAt, Within;
    var s1, s2 :| Leads(h, Init(1, 3), s1) && Leads(h, s1, s2)
      && |s1.records| > 0 && |s2.records| > 0 && s2.records[0] == s1.records[0]
      && ReadAt(s2.disk, s1.records[0].at, s1.records[0].count) !=
         ReadAt(s1.disk, s1.records[0].at, s1.records[0].count);
    var xs :| Executes(h, Init(1, 3), xs, s1);
    var ys :| Executes(h, s1, ys, s2);
    RunsWithin(g, h, Init(1, 3), xs, s1);
    RunsWithin(g, h, s1, ys, s2);
  }

  lemma AllLosesNothing()
    ensures !LosesRecord(ALL)
  {
    hide Executes, ReadAt;
    forall s1, s2 | Leads(ALL, Init(1, 3), s1) && Leads(ALL, s1, s2) && |s1.records| > 0
      ensures ReadAt(s2.disk, s1.records[0].at, s1.records[0].count) ==
              ReadAt(s1.disk, s1.records[0].at, s1.records[0].count)
    {
      var xs :| Executes(ALL, Init(1, 3), xs, s1);
      var ys :| Executes(ALL, s1, ys, s2);
      RingTheorems.RecordsForever(1, 3, xs, s1, ys, s2, 0);
    }
  }

  /** Reported bytes can be overwritten under exactly the sets of assumptions
      that lack one of the three. */
  lemma GuardsExactly(g: Guards)
    ensures LosesRecord(g) <==> g != ALL
  {
    hide LosesRecord;
    AllLosesNothing();
    if !g.dispatchAfterPublish {
      DispatchGuardNeeded();
      LosesWithin(g, Guards(false, true, true));
    } else if !g.resetAfterTail {
      ResetGuardNeeded();
      LosesWithin(g, Guards(true, false, true));
    } else if !g.publishAfterClear {
      PublishGuardNeeded();
      LosesWithin(g, Guards(true, true, false));
    }
  }
}
