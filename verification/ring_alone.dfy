/** Whole operations of the ring that nobody disturbs, from any state of the ring
    at all: which fields they change, and to what. */
module RingAlone {
  import opened Files
  import opened StateWord
  import opened RingProtocol
  import opened RingShape
  import opened RingViews
  import opened RingRotation

  // ---- sequencing -------------------------------------------------------

  /** Thread `t` has come from `s` to `pc` in `s'`; no other thread has moved. */
  ghost predicate Came(s: Ring, t: nat, n: nat, s': Ring, pc: Pc)
  {
    Alone(s, t, n, s') && Wf(s') && t < |s.threads| && s'.threads == s.threads[t := pc]
  }

  lemma Standing(s: Ring, t: nat)
    requires Wf(s) && t < |s.threads|
    ensures Came(s, t, 0, s, s.threads[t])
  {
    hide Wf;
    assert s.threads[t := s.threads[t]] == s.threads;
  }

  lemma There(s: Ring, t: nat, n: nat, s': Ring, pc: Pc)
    requires Came(s, t, n, s', pc)
    ensures Alone(s, t, n, s') && Wf(s') && t < |s'.threads| == |s.threads|
    ensures s'.threads[t] == pc && s'.threads == s.threads[t := pc]
  {
  }

  /** One more step. */
  lemma Step(s: Ring, t: nat, n: nat, s1: Ring, pc: Pc)
    requires Came(s, t, n, s1, pc) && !pc.Idle?
    ensures Enabled(NONE, s1, Run(t)) && Apply(s1, Run(t)) == Next(s1, t)
    ensures Came(s, t, n + 1, Next(s1, t), Next(s1, t).threads[t])
    ensures !pc.Written? ==> Next(s1, t).accepted == s1.accepted
  {
    hide Next, Wf;
    var s2 := Next(s1, t);
    NextShape(s1, t);
    OnlyReleaseAccepts(s1, Run(t));
    AloneOnce(s1, t);
    AloneThen(s, t, n, s1, 1, s2);
    assert s2.threads == s.threads[t := s2.threads[t]];
  }

  lemma SameBuffer(s: Ring, s1: Ring, s2: Ring, b: nat)
    requires OnlyBuffer(s, s1, b) && OnlyBuffer(s1, s2, b)
    ensures OnlyBuffer(s, s2, b)
  {
  }

  lemma Joins(s: Ring, t: nat, n: nat, s1: Ring, pc1: Pc, m: nat, s2: Ring, pc2: Pc)
    requires Came(s, t, n, s1, pc1) && Came(s1, t, m, s2, pc2)
    ensures Came(s, t, n + m, s2, pc2)
  {
    hide Wf;
    AloneThen(s, t, n, s1, m, s2);
    assert s2.threads == s.threads[t := pc2];
  }

  // ---- a payload that fits ----------------------------------------------

  lemma ReserveAlone(s: Ring, t: nat, b: nat, payload: Bytes) returns (s': Ring, g: nat, i: nat)
    requires Wf(s) && t < |s.threads| && s.threads[t] == Picked(b, payload)
    requires var w := s.bufs[b].word; !w.sealed && !w.flushing && w.offset + |payload| <= ONE_MEGABYTE_BLOCK
    ensures var buf := s.bufs[b];
            && Came(s, t, 2, s', Reserved(b, g, i, buf.word.offset, payload))
            && |s'.bufs| == |s.bufs| && OnlyBuffer(s, s', b) && s'.accepted == s.accepted
            && Looks(s'.bufs[b], Reserve(buf.word, |payload|), buf.mem, buf.addr, buf.sqe)
  {
    hide Next, Apply, Enabled, Wf, Reserve, Alone;
    Standing(s, t);
    Step(s, t, 0, s, s.threads[t]);
    LoadView(s, t);
    var s1 := Next(s, t);
    Step(s, t, 1, s1, s1.threads[t]);
    ReserveView(s1, t);
    s' := Next(s1, t);
    g, i := s'.threads[t].g, s'.threads[t].i;
  }

  lemma WriteAlone(s: Ring, t: nat, b: nat, g: nat, i: nat, off: nat, payload: Bytes) returns (s': Ring)
    requires Wf(s) && t < |s.threads| && s.threads[t] == Reserved(b, g, i, off, payload) && !s.bufs[b].word.sealed
    ensures var buf := s.bufs[b];
            && Came(s, t, 2, s', Idle) && |s'.bufs| == |s.bufs| && OnlyBuffer(s, s', b)
            && Looks(s'.bufs[b], Release(buf.word), Copy(buf.mem, off, payload), buf.addr, buf.sqe)
            && s'.accepted == s.accepted + [Receipt(g, i, payload)]
  {
    hide Next, Apply, Enabled, Wf, Release, Alone, Copy;
    Standing(s, t);
    Step(s, t, 0, s, s.threads[t]);
    CopyView(s, t);
    var s1 := Next(s, t);
    Step(s, t, 1, s1, s1.threads[t]);
    ReleaseView(s1, t);
    s' := Next(s1, t);
  }

  lemma CopyBytes(mem: Bytes, at: nat, data: Bytes)
    requires at + |data| <= |mem|
    ensures forall i :: 0 <= i < |mem| ==>
              Copy(mem, at, data)[i] == if 0 <= i - at < |data| then data[i - at] else mem[i]
  {
  }

  lemma ReserveThenRelease(w: Word, size: nat)
    requires w.offset + size <= 0x10_0000 && w.writers < 0xFF_FFFF
    ensures Release(Reserve(w, size)) == w.(offset := w.offset + size) && Reserve(w, size).sealed == w.sealed
  {
  }

  lemma ReserveAndWriteAlone(s: Ring, t: nat, b: nat, payload: Bytes) returns (s': Ring, r: Receipt)
    requires Wf(s) && t < |s.threads| && s.threads[t] == Picked(b, payload)
    requires var w := s.bufs[b].word;
             !w.sealed && !w.flushing && w.offset + |payload| <= 0x10_0000 && w.writers < 0xFF_FFFF
    ensures var buf := s.bufs[b];
            && Came(s, t, 4, s', Idle) && |s'.bufs| == |s.bufs| && OnlyBuffer(s, s', b)
            && Looks(s'.bufs[b], buf.word.(offset := buf.word.offset + |payload|),
                     Copy(buf.mem, buf.word.offset, payload), buf.addr, buf.sqe)
            && s'.accepted == s.accepted + [r] && r.payload == payload
  {
    var buf := s.bufs[b];
    hide Wf, Came, Copy, Reserve, Release, OnlyBuffer;
    ReserveThenRelease(buf.word, |payload|);
    var s1, g, i := ReserveAlone(s, t, b, payload);
    There(s, t, 2, s1, Reserved(b, g, i, buf.word.offset, payload));
    s' := WriteAlone(s1, t, b, g, i, buf.word.offset, payload);
    SameBuffer(s, s1, s', b);
    r := Receipt(g, i, payload);
    Joins(s, t, 2, s1, s1.threads[t], 2, s', Idle);
  }

  lemma Begins(s: Ring, t: nat, payload: Bytes)
    requires Wf(s) && t < |s.threads| && s.threads[t].Idle? && |payload| <= ONE_MEGABYTE_BLOCK
    ensures Enabled(NONE, s, Begin(t, payload)) && Wf(Apply(s, Begin(t, payload)))
    ensures var s0 := Apply(s, Begin(t, payload));
            s0 == s.(threads := s.threads[t := Picked(s.current, payload)]) && OnlyBuffer(s, s0, s.current)
  {
  }

  /** Undisturbed, a payload that fits an open buffer goes behind what is there,
      and is accepted.  Of the word only the offset changes, of the memory only
      the bytes at the old offset, and nothing else that is shared. */
  lemma PutAlone(s: Ring, t: nat, payload: Bytes) returns (s': Ring, r: Receipt)
    requires Wf(s) && t < |s.threads| && s.threads[t].Idle? && |s.bufs[s.current].mem| == 0x10_0000
    requires var w := s.bufs[s.current].word;
             !w.sealed && !w.flushing && w.offset + |payload| <= 0x10_0000 && w.writers < 0xFF_FFFF
    ensures Enabled(NONE, s, Begin(t, payload)) && Came(Apply(s, Begin(t, payload)), t, 4, s', Idle)
    ensures s'.threads == s.threads && s'.accepted == s.accepted + [r] && r.payload == payload
    ensures var b := s.current; var buf, buf' := s.bufs[b], s'.bufs[b];
            && OnlyBuffer(s, s', b)
            && buf'.word == buf.word.(offset := buf.word.offset + |payload|)
            && buf'.addr == buf.addr && buf'.sqe == buf.sqe && |buf'.mem| == 0x10_0000
            && forall i :: 0 <= i < 0x10_0000 ==>
                 var j := i - buf.word.offset; buf'.mem[i] == if 0 <= j < |payload| then payload[j] else buf.mem[i]
  {
    var b, buf := s.current, s.bufs[s.current];
    hide Apply, Enabled, Wf, Came, Copy, OnlyBuffer;
    Begins(s, t, payload);
    var s0 := Apply(s, Begin(t, payload));
    s', r := ReserveAndWriteAlone(s0, t, b, payload);
    SameBuffer(s, s0, s', b);
    There(s0, t, 4, s', Idle);
    assert s'.threads == s.threads;
    CopyBytes(buf.mem, buf.word.offset, payload);
  }

  /** Undisturbed, a payload finds a sealed or flushing buffer, or one that is
      too full, without changing anything; in the last case its thread goes on to
      seal. */
  lemma NoRoomAlone(s: Ring, t: nat, payload: Bytes) returns (s': Ring)
    requires Wf(s) && t < |s.threads| && s.threads[t].Idle? && |payload| <= 0x10_0000
    requires var w := s.bufs[s.current].word; w.sealed || w.flushing || w.offset + |payload| > 0x10_0000
    ensures Enabled(NONE, s, Begin(t, payload)) && Wf(s')
    ensures Alone(Apply(s, Begin(t, payload)), t, 1, s')
    ensures var w := s.bufs[s.current].word;
            if w.sealed || w.flushing then s' == s else s' == s.(threads := s.threads[t := SawFull(s.current)])
  {
    hide Alone;
    var s0 := Apply(s, Begin(t, payload));
    AloneOnce(s0, t);
    s' := Next(s0, t);
    assert s.threads[t := s0.threads[t]][t := s'.threads[t]] == s.threads[t := s'.threads[t]];
    assert s.threads[t := Idle] == s.threads;
  }

  /** A thread that finds the buffer sealed already leaves it at that. */
  lemma SealLostAlone(s: Ring, t: nat, b: nat)
    requires Wf(s) && t < |s.threads| && s.threads[t] == SawFull(b) && s.bufs[b].word.sealed
    ensures Alone(s, t, 1, s.(threads := s.threads[t := Idle]))
  {
    hide Alone;
    AloneOnce(s, t);
  }

  /** A sealer that finds the ring moved on goes straight to its check. */
  lemma MovedOnAlone(s: Ring, t: nat, b: nat)
    requires Wf(s) && t < |s.threads| && s.threads[t] == Rotating(b) && s.current != b
    ensures Alone(s, t, 2, s.(threads := s.threads[t := Checking(b)]))
  {
    hide Alone;
    var s1 := Next(s, t);
    AloneOnce(s, t);
    AloneOnce(s1, t);
    AloneThen(s, t, 1, s1, 1, Next(s1, t));
    assert s.threads[t := s1.threads[t]][t := Checking(b)] == s.threads[t := Checking(b)];
  }

  // ---- sealing ----------------------------------------------------------

  /** Seal, load the size, claim the range and store its start. */
  lemma PublishAlone(s: Ring, t: nat, b: nat) returns (s': Ring)
    requires Wf(s) && t < |s.threads| && s.threads[t] == SawFull(b) && !s.bufs[b].word.sealed
    ensures Came(s, t, 4, s', Rotating(b)) && Published(s, s', b)
  {
    hide Next, Apply, Enabled, Wf, Alone, Pad;
    Standing(s, t);
    Step(s, t, 0, s, s.threads[t]);
    FlagView(s, t);
    var s1 := Next(s, t);
    Step(s, t, 1, s1, s1.threads[t]);
    LoadView(s1, t);
    var s2 := Next(s1, t);
    Step(s, t, 2, s2, s2.threads[t]);
    CounterView(s2, t);
    var s3 := Next(s2, t);
    Step(s, t, 3, s3, s3.threads[t]);
    StoreView(s3, t);
    s' := Next(s3, t);
  }

  /** Claim addresses for the new buffer and stamp it, unless it has one. */
  lemma BookAlone(s: Ring, t: nat, b: nat, size: nat, target: nat) returns (s': Ring)
    requires Wf(s) && t < |s.threads| && s.threads[t] == Booking(b, size, target)
    ensures var buf := s.bufs[target];
            && Came(s, t, 2, s', Checking(b)) && OnlyBuffer(s, s'.(counter := s.counter), target)
            && Looks(s'.bufs[target], buf.word, buf.mem, if buf.addr == 0 then s.counter else buf.addr, buf.sqe)
            && s'.counter == s.counter + size && s'.accepted == s.accepted
  {
    hide Next, Apply, Enabled, Wf, Alone;
    Standing(s, t);
    Step(s, t, 0, s, s.threads[t]);
    CounterView(s, t);
    var s1 := Next(s, t);
    Step(s, t, 1, s1, s1.threads[t]);
    StampView(s1, t);
    s' := Next(s1, t);
  }

  /** Push a buffer that this thread has claimed. */
  lemma FlushAlone(s: Ring, t: nat, b: nat) returns (s': Ring)
    requires Wf(s) && t < |s.threads| && s.threads[t] == Flushing(b)
    ensures var buf := s.bufs[b]; var w := Write(b, buf.addr, Pad(buf.word.offset));
            && Came(s, t, 4, s', Idle) && OnlyBuffer(s, s'.(outstanding := s.outstanding, nextId := s.nextId), b)
            && Looks(s'.bufs[b], buf.word.(flushing := true), buf.mem, buf.addr, Some(w))
            && s'.outstanding == s.outstanding[s.nextId := w] && s'.nextId == s.nextId + 1
            && s'.accepted == s.accepted
  {
    hide Next, Apply, Enabled, Wf, Alone, Pad;
    Standing(s, t);
    Step(s, t, 0, s, s.threads[t]);
    FlagView(s, t);
    var s1 := Next(s, t);
    Step(s, t, 1, s1, s1.threads[t]);
    FlushLoadView(s1, t);
    var s2 := Next(s1, t);
    Step(s, t, 2, s2, s2.threads[t]);
    FlushLoadView(s2, t);
    var s3 := Next(s2, t);
    Step(s, t, 3, s3, s3.threads[t]);
    PushView(s3, t);
    s' := Next(s3, t);
  }

  /** What claiming the flush of `b` does, and what the sealer's check does: if
      `push`, the flag is set and the buffer pushed. */
  ghost predicate Claimed(s: Ring, s': Ring, b: nat, push: bool)
    requires b < |s.bufs|
  {
    var buf, w := s.bufs[b], Write(b, s.bufs[b].addr, Pad(s.bufs[b].word.offset));
    && OnlyBuffer(s, s'.(outstanding := s.outstanding, nextId := s.nextId), b)
    && Looks(s'.bufs[b], buf.word.(flushing := buf.word.flushing || push), buf.mem, buf.addr,
             if push then Some(w) else buf.sqe)
    && s'.outstanding == (if push then s.outstanding[s.nextId := w] else s.outstanding)
    && s'.nextId == (if push then s.nextId + 1 else s.nextId)
    && s'.accepted == s.accepted
  }

  /** Whoever finds the flag clear pushes. */
  lemma ClaimAlone(s: Ring, t: nat, b: nat) returns (n: nat, s': Ring)
    requires Wf(s) && t < |s.threads| && (s.threads[t] == LastWriter(b) || s.threads[t] == Claiming(b))
    ensures Came(s, t, n, s', Idle) && Claimed(s, s', b, !s.bufs[b].word.flushing)
  {
    var flushing := s.bufs[b].word.flushing;
    hide Next, Apply, Enabled, Wf, Alone, Pad;
    Standing(s, t);
    Step(s, t, 0, s, s.threads[t]);
    FlagView(s, t);
    n, s' := 1, Next(s, t);
    if !flushing {
      var s1 := s';
      s' := FlushAlone(s1, t, b);
      Joins(s, t, 1, s1, s1.threads[t], 4, s', Idle);
      n := 5;
    }
  }

  /** The sealer flushes if nobody is writing. */
  lemma CheckAlone(s: Ring, t: nat, b: nat) returns (n: nat, s': Ring)
    requires Wf(s) && t < |s.threads| && s.threads[t] == Checking(b) && !s.bufs[b].word.flushing
    ensures Came(s, t, n, s', Idle) && Claimed(s, s', b, s.bufs[b].word.writers == 0)
  {
    var writers := s.bufs[b].word.writers;
    hide Next, Apply, Enabled, Wf, Alone, Pad;
    Standing(s, t);
    Step(s, t, 0, s, s.threads[t]);
    LoadView(s, t);
    n, s' := 1, Next(s, t);
    if writers == 0 {
      var s1 := s';
      n, s' := ClaimAlone(s1, t, b);
      Joins(s, t, 1, s1, s1.threads[t], n, s', Idle);
      n := 1 + n;
    }
  }

  // ---- rotating ---------------------------------------------------------

  /** The index counter does not wrap in the middle of a scan, or it does not
      matter. */
  predicate ScanSafe(next: nat, n: nat)
  {
    n > 0 && next < WORD_LIMIT && n <= WORD_LIMIT && (next + n <= WORD_LIMIT || WORD_LIMIT % n == 0)
  }

  /** What publishing does. */
  ghost predicate Published(s: Ring, s': Ring, b: nat)
    requires b < |s.bufs|
  {
    var buf := s.bufs[b];
    && OnlyBuffer(s, s'.(counter := s.counter), b)
    && Looks(s'.bufs[b], buf.word.(sealed := true), buf.mem, s.counter, buf.sqe)
    && s'.counter == s.counter + Pad(buf.word.offset) && s'.accepted == s.accepted
  }

  /** What rotating does, to buffer `c` if the ring moved. */
  ghost predicate Moved(s: Ring, s': Ring, b: nat, c: nat)
    requires b < |s.bufs| && c < |s.bufs|
  {
    var buf := s.bufs[c];
    && s'.current == c && s'.accepted == s.accepted
    && s'.counter == s.counter + (if c != b then s.bufs[b].word.offset else 0)
    && OnlyBuffer(s, s'.(counter := s.counter, current := s.current, nextIndex := s.nextIndex), c)
    && Looks(s'.bufs[c], buf.word, buf.mem, if c != b && buf.addr == 0 then s.counter else buf.addr, buf.sqe)
  }

  /** Buffer `c` is the first available one in turn, found after `looks` looks,
      or `b` if there is none. */
  ghost predicate Found(s: Ring, b: nat, looks: nat, c: nat)
  {
    && 0 < looks <= |s.bufs| && c < |s.bufs|
    && (if exists d :: 0 <= d < |s.bufs| && Available(s.bufs[d].word)
        then c == InTurn(s.nextIndex, looks - 1, |s.bufs|) && Available(s.bufs[c].word)
        else c == b)
    && (forall d :: 0 <= d < |s.bufs| && Turn(s.nextIndex, d, |s.bufs|) < looks - 1 ==> !Available(s.bufs[d].word))
  }

  lemma FoundOther(s: Ring, b: nat, looks: nat, c: nat)
    requires Found(s, b, looks, c) && b < |s.bufs| && s.bufs[b].word.sealed
    ensures c < |s.bufs| && (c != b <==> exists d :: 0 <= d < |s.bufs| && Available(s.bufs[d].word))
  {
  }

  /** The scan and the exchange. */
  lemma SwapAlone(s: Ring, t: nat, b: nat) returns (n: nat, s': Ring, looks: nat, c: nat)
    requires Wf(s) && t < |s.threads| && s.threads[t] == Rotating(b) && s.current == b && s.bufs[b].word.sealed
    requires ScanSafe(s.nextIndex, |s.bufs|)
    ensures Found(s, b, looks, c) && c < |s.bufs|
    ensures s' == s.(threads := s'.threads, current := c, nextIndex := Bumped(s.nextIndex, looks))
    ensures Came(s, t, n, s', if c != b then Booking(b, s.bufs[b].word.offset, c) else Checking(b))
  {
    assert b < |s.bufs|;
    hide Alone, Wf, Turn, InTurn, Bumped;
    n, s', looks := RotationTurns(s, t, b);
    c := s'.current;
    FoundOther(s, b, looks, c);
  }

  /** From the end of sealing to the sealer's own check. */
  lemma RotateAlone(s: Ring, t: nat, b: nat) returns (n: nat, s': Ring, looks: nat, c: nat)
    requires Wf(s) && t < |s.threads| && s.threads[t] == Rotating(b) && s.current == b && s.bufs[b].word.sealed
    requires ScanSafe(s.nextIndex, |s.bufs|)
    ensures Found(s, b, looks, c) && c < |s.bufs| && Moved(s, s', b, c)
    ensures Came(s, t, n, s', Checking(b)) && s'.nextIndex == Bumped(s.nextIndex, looks)
  {
    var size := s.bufs[b].word.offset;
    hide Alone, Wf, Bumped, Found, ScanSafe;
    n, s', looks, c := SwapAlone(s, t, b);
    if c != b {
      var s1 := s';
      s' := BookAlone(s1, t, b, size, c);
      Joins(s, t, n, s1, s1.threads[t], 2, s', Checking(b));
      n := n + 2;
    }
  }

  /** What a lone sealer of `b` has done when it comes to its check: claimed
      `padded` bytes for it, and moved the ring to `c` unless `c` is `b`. */
  ghost predicate Rotated(s: Ring, s': Ring, b: nat, c: nat, padded: nat)
    requires b < |s.bufs| && c < |s.bufs|
  {
    var buf, target := s.bufs[b], s.bufs[c];
    && |s'.bufs| == |s.bufs| && (forall d :: 0 <= d < |s.bufs| && d != b && d != c ==> s'.bufs[d] == s.bufs[d])
    && Looks(s'.bufs[b], buf.word.(sealed := true), buf.mem, s.counter, buf.sqe)
    && SameRest(s, s'.(counter := s.counter, current := s.current, nextIndex := s.nextIndex))
    && s'.current == c && s'.accepted == s.accepted
    && s'.counter == s.counter + padded + (if c == b then 0 else buf.word.offset)
    && (c != b ==>
          Looks(s'.bufs[c], target.word, target.mem, if target.addr == 0 then s.counter + padded else target.addr,
                target.sqe))
  }

  lemma PublishedThenMoved(s: Ring, s1: Ring, s': Ring, b: nat, c: nat)
    requires b < |s.bufs| && Published(s, s1, b) && c < |s1.bufs| && s.current == b && Moved(s1, s', b, c)
    ensures c < |s.bufs| && Rotated(s, s', b, c, Pad(s.bufs[b].word.offset))
  {
    hide Pad;
  }

  lemma PublishedClear(s: Ring, s1: Ring, b: nat)
    requires b < |s.bufs| && Published(s, s1, b)
    ensures |s1.bufs| == |s.bufs| && s1.current == s.current && s1.nextIndex == s.nextIndex && s1.bufs[b].word.sealed
  {
    hide Pad;
  }

  /** A sealed buffer is no more available than one in use. */
  lemma FoundBefore(s: Ring, s1: Ring, b: nat, looks: nat, c: nat)
    requires b < |s.bufs| && Published(s, s1, b) && s.bufs[b].word.offset > 0 && Found(s1, b, looks, c)
    ensures Found(s, b, looks, c)
  {
    hide Pad, Turn, InTurn;
    assert forall d :: 0 <= d < |s.bufs| ==> Available(s1.bufs[d].word) == Available(s.bufs[d].word);
    hide Available;
  }

  /** As far as the rotation. */
  lemma PublishThere(s: Ring, t: nat, b: nat) returns (s': Ring)
    requires Wf(s) && t < |s.threads| && s.threads[t] == SawFull(b) && s.current == b && !s.bufs[b].word.sealed
    ensures Came(s, t, 4, s', Rotating(b)) && Wf(s') && t < |s'.threads| && s'.threads[t] == Rotating(b)
    ensures Published(s, s', b) && |s'.bufs| == |s.bufs| && s'.current == b && s'.nextIndex == s.nextIndex
    ensures s'.bufs[b].word.sealed
  {
    assert b < |s.bufs|;
    hide Came, Wf, Published;
    s' := PublishAlone(s, t, b);
    There(s, t, 4, s', Rotating(b));
    PublishedClear(s, s', b);
  }

  /** The seal as far as the check. */
  lemma SealToCheck(s: Ring, t: nat, b: nat) returns (n: nat, s': Ring, looks: nat, c: nat)
    requires Wf(s) && t < |s.threads| && s.threads[t] == SawFull(b) && s.current == b
    requires !s.bufs[b].word.sealed && s.bufs[b].word.offset > 0 && ScanSafe(s.nextIndex, |s.bufs|)
    ensures Came(s, t, n, s', Checking(b)) && Found(s, b, looks, c) && c < |s.bufs|
    ensures Rotated(s, s', b, c, Pad(s.bufs[b].word.offset)) && s'.nextIndex == Bumped(s.nextIndex, looks)
  {
    assert b < |s.bufs|;
    hide Came, Wf, Pad, Bumped, Published, Moved, Rotated, Found, ScanSafe;
    var s1 := PublishThere(s, t, b);
    n, s', looks, c := RotateAlone(s1, t, b);
    FoundBefore(s, s1, b, looks, c);
    PublishedThenMoved(s, s1, s', b, c);
    Joins(s, t, 4, s1, Rotating(b), n, s', Checking(b));
    n := 4 + n;
  }

  /** Rotating and checking, all in all. */
  ghost predicate Sealed(s: Ring, s': Ring, b: nat, c: nat, padded: nat)
    requires b < |s.bufs| && c < |s.bufs|
  {
    var buf, target, w := s.bufs[b], s.bufs[c], Write(b, s.counter, padded);
    var push := buf.word.writers == 0;
    && |s'.bufs| == |s.bufs| && (forall d :: 0 <= d < |s.bufs| && d != b && d != c ==> s'.bufs[d] == s.bufs[d])
    && Looks(s'.bufs[b], buf.word.(sealed := true, flushing := push), buf.mem, s.counter,
             if push then Some(w) else buf.sqe)
    && (c != b ==>
          Looks(s'.bufs[c], target.word, target.mem, if target.addr == 0 then s.counter + padded else target.addr,
                target.sqe))
    && s'.current == c && s'.counter == s.counter + padded + (if c != b then buf.word.offset else 0)
    && s'.outstanding == (if push then s.outstanding[s.nextId := w] else s.outstanding)
    && s'.nextId == (if push then s.nextId + 1 else s.nextId)
    && s'.disk == s.disk && s'.records == s.records && s'.accepted == s.accepted
  }

  lemma RotatedThenChecked(s: Ring, s1: Ring, s': Ring, b: nat, c: nat)
    requires b < |s.bufs| && c < |s.bufs| && Rotated(s, s1, b, c, Pad(s.bufs[b].word.offset))
    requires !s.bufs[b].word.flushing && b < |s1.bufs| && Claimed(s1, s', b, s1.bufs[b].word.writers == 0)
    ensures Sealed(s, s', b, c, Pad(s.bufs[b].word.offset)) && s'.nextIndex == s1.nextIndex
  {
    hide Pad;
  }

  lemma RotatedClear(s: Ring, s1: Ring, b: nat, c: nat, padded: nat)
    requires b < |s.bufs| && c < |s.bufs| && Rotated(s, s1, b, c, padded)
    ensures |s1.bufs| == |s.bufs| && s1.bufs[b].word.flushing == s.bufs[b].word.flushing
  {
  }

  lemma SealSteps(s: Ring, t: nat, b: nat) returns (n: nat, s': Ring, looks: nat, c: nat)
    requires Wf(s) && t < |s.threads| && s.threads[t] == SawFull(b) && s.current == b
    requires !s.bufs[b].word.sealed && !s.bufs[b].word.flushing && s.bufs[b].word.offset > 0
    requires ScanSafe(s.nextIndex, |s.bufs|)
    ensures Came(s, t, n, s', Idle) && Found(s, b, looks, c) && c < |s.bufs|
    ensures Sealed(s, s', b, c, Pad(s.bufs[b].word.offset)) && s'.nextIndex == Bumped(s.nextIndex, looks)
  {
    var padded := Pad(s.bufs[b].word.offset);
    hide Came, Wf, Pad, Bumped, Found, Rotated, Claimed, Sealed, ScanSafe;
    var s1, m;
    n, s1, looks, c := SealToCheck(s, t, b);
    There(s, t, n, s1, Checking(b));
    RotatedClear(s, s1, b, c, padded);
    m, s' := CheckAlone(s1, t, b);
    RotatedThenChecked(s, s1, s', b, c);
    Joins(s, t, n, s1, Checking(b), m, s', Idle);
    n := n + m;
  }

  /** Undisturbed, the thread that finds current buffer `b` too full seals it,
      claims the next `padded` bytes of the file for it, moves the ring to the
      first open and empty buffer `c` in counter order if there is one, and
      pushes the write of `b` at the claimed range if nobody is writing.  For the
      new buffer as many addresses as `b` has bytes are claimed; it gets the
      first unless it has one. */
  lemma SealAlone(s: Ring, t: nat, b: nat) returns (n: nat, s': Ring, looks: nat, c: nat, padded: nat)
    requires Wf(s) && t < |s.threads| && s.threads[t] == SawFull(b) && s.current == b
    requires !s.bufs[b].word.sealed && !s.bufs[b].word.flushing && s.bufs[b].word.offset > 0
    requires s.nextIndex < WORD_LIMIT && |s.bufs| <= WORD_LIMIT
    requires s.nextIndex + |s.bufs| <= WORD_LIMIT || WORD_LIMIT % |s.bufs| == 0
    ensures Alone(s, t, n, s') && Wf(s') && s'.threads == s.threads[t := Idle]
    ensures padded % 4096 == 0 && s.bufs[b].word.offset <= padded < s.bufs[b].word.offset + 4096
    ensures 0 < looks <= |s.bufs| && s'.nextIndex == (s.nextIndex + looks) % 0x1_0000_0000_0000_0000
    ensures s'.current == c < |s'.bufs| == |s.bufs|
    ensures if exists d :: 0 <= d < |s.bufs| && !s.bufs[d].word.sealed && !s.bufs[d].word.flushing
                           && s.bufs[d].word.offset == 0
            then c == (s.nextIndex + looks - 1) % |s.bufs| && !s.bufs[c].word.sealed && !s.bufs[c].word.flushing
                 && s.bufs[c].word.offset == 0
            else c == b
    ensures forall d :: 0 <= d < |s.bufs| && (d - s.nextIndex) % |s.bufs| < looks - 1 ==>
              s.bufs[d].word.sealed || s.bufs[d].word.flushing || s.bufs[d].word.offset > 0
    ensures var buf, buf', w := s.bufs[b], s'.bufs[b], Write(b, s.counter, padded); var push := buf.word.writers == 0;
            && buf'.word == Word(buf.word.offset, buf.word.writers, buf.word.spare, push, true)
            && buf'.mem == buf.mem && buf'.addr == s.counter && buf'.sqe == (if push then Some(w) else buf.sqe)
            && s'.outstanding == (if push then s.outstanding[s.nextId := w] else s.outstanding)
            && s'.nextId == (if push then s.nextId + 1 else s.nextId)
    ensures c != b ==>
              var buf, buf' := s.bufs[c], s'.bufs[c];
              && buf'.word == buf.word && buf'.mem == buf.mem && buf'.sqe == buf.sqe
              && buf'.addr == if buf.addr == 0 then s.counter + padded else buf.addr
    ensures s'.counter == s.counter + padded + (if c != b then s.bufs[b].word.offset else 0)
    ensures forall d :: 0 <= d < |s.bufs| && d != b && d != c ==> s'.bufs[d] == s.bufs[d]
    ensures s'.disk == s.disk && s'.records == s.records && s'.accepted == s.accepted
  {
    var offset := s.bufs[b].word.offset;
    hide Pad, Came, Alone, Wf, Found, Turn, InTurn, Available;
    n, s', looks, c := SealSteps(s, t, b);
    There(s, t, n, s', Idle);
    FoundMeans(s, b, looks, c);
    padded := Pad(offset);
    PadRounds(offset);
  }

  /** In fields and arithmetic. */
  lemma FoundMeans(s: Ring, b: nat, looks: nat, c: nat)
    requires Found(s, b, looks, c)
    ensures 0 < looks <= |s.bufs| && c < |s.bufs|
    ensures if exists d :: 0 <= d < |s.bufs| && !s.bufs[d].word.sealed && !s.bufs[d].word.flushing
                           && s.bufs[d].word.offset == 0
            then c == (s.nextIndex + looks - 1) % |s.bufs| && !s.bufs[c].word.sealed && !s.bufs[c].word.flushing
                 && s.bufs[c].word.offset == 0
            else c == b
    ensures forall d :: 0 <= d < |s.bufs| && (d - s.nextIndex) % |s.bufs| < looks - 1 ==>
              s.bufs[d].word.sealed || s.bufs[d].word.flushing || s.bufs[d].word.offset > 0
  {
  }

  lemma PadRounds(n: nat)
    ensures Pad(n) % 4096 == 0 && n <= Pad(n) < n + 4096
  {
  }

  // ---- the last writer --------------------------------------------------

  /** Undisturbed, a writer releases its reservation and is accepted.  The last
      writer of a sealed buffer pushes it, whole blocks at its address, unless it
      is flushing already. */
  lemma ReleaseAlone(s: Ring, t: nat, b: nat, g: nat, i: nat, payload: Bytes)
    returns (n: nat, s': Ring, push: bool, padded: nat)
    requires Wf(s) && t < |s.threads| && s.threads[t] == Written(b, g, i, payload) && s.bufs[b].word.writers > 0
    ensures Alone(s, t, n, s') && Wf(s') && s'.threads == s.threads[t := Idle]
    ensures s'.accepted == s.accepted + [Receipt(g, i, payload)]
    ensures push <==> s.bufs[b].word.writers == 1 && s.bufs[b].word.sealed && !s.bufs[b].word.flushing
    ensures padded % 4096 == 0 && s.bufs[b].word.offset <= padded < s.bufs[b].word.offset + 4096
    ensures OnlyBuffer(s, s'.(outstanding := s.outstanding, nextId := s.nextId), b)
    ensures var buf, buf', w := s.bufs[b], s'.bufs[b], Write(b, s.bufs[b].addr, padded);
            && buf'.word == buf.word.(writers := buf.word.writers - 1, flushing := buf.word.flushing || push)
            && buf'.mem == buf.mem && buf'.addr == buf.addr && buf'.sqe == (if push then Some(w) else buf.sqe)
            && s'.outstanding == (if push then s.outstanding[s.nextId := w] else s.outstanding)
            && s'.nextId == (if push then s.nextId + 1 else s.nextId)
  {
    var word := s.bufs[b].word;
    padded := Pad(word.offset);
    push := word.writers == 1 && word.sealed && !word.flushing;
    PadRounds(word.offset);
    hide Next, Apply, Enabled, Wf, Alone, Pad;
    Standing(s, t);
    Step(s, t, 0, s, s.threads[t]);
    ReleaseView(s, t);
    n, s' := 1, Next(s, t);
    if word.writers == 1 && word.sealed {
      var s1 := s';
      n, s' := ClaimAlone(s1, t, b);
      Joins(s, t, 1, s1, s1.threads[t], n, s', Idle);
      n := 1 + n;
    }
  }

  // ---- completions ------------------------------------------------------

  lemma TakeShown(s: Ring, t: nat, id: nat, failed: bool, junk: Bytes)
    requires Wf(s) && t < |s.threads| && s.threads[t].Idle? && id in s.outstanding && |junk| <= s.outstanding[id].len
    ensures var a := if failed then TakeFailed(t, id, junk) else TakeOk(t, id);
            Enabled(NONE, s, a) && Wf(Apply(s, a)) && Apply(s, a).accepted == s.accepted
  {
    hide Wf, Next;
    TakeView(s, t, id, failed, junk);
    var a := if failed then TakeFailed(t, id, junk) else TakeOk(t, id);
    StepShape(s, a);
    OnlyReleaseAccepts(s, a);
  }

  /** Report and reset. */
  lemma ReportAlone(s: Ring, t: nat, b: nat) returns (s': Ring)
    requires Wf(s) && t < |s.threads| && s.threads[t] == Reaping(b)
    ensures var buf := s.bufs[b];
            && Came(s, t, 4, s', Idle) && OnlyBuffer(s, s'.(records := s.records), b)
            && Looks(s'.bufs[b], ZERO, buf.mem, 0, buf.sqe)
            && s'.records == s.records + [Record(buf.addr, buf.word.offset, buf.gen)] && s'.accepted == s.accepted
  {
    hide Next, Apply, Enabled, Wf, Alone;
    Standing(s, t);
    Step(s, t, 0, s, s.threads[t]);
    FlushLoadView(s, t);
    var s1 := Next(s, t);
    Step(s, t, 1, s1, s1.threads[t]);
    NoteView(s1, t);
    var s2 := Next(s1, t);
    Step(s, t, 2, s2, s2.threads[t]);
    StoreView(s2, t);
    var s3 := Next(s2, t);
    Step(s, t, 3, s3, s3.threads[t]);
    StoreView(s3, t);
    s' := Next(s3, t);
  }

  /** Push the kept entry again, if there is one. */
  lemma PushAgainAlone(s: Ring, t: nat, b: nat) returns (s': Ring)
    requires Wf(s) && t < |s.threads| && s.threads[t] == Retrying(b)
    ensures var buf := s.bufs[b];
            && Came(s, t, 1, s', Idle) && OnlyBuffer(s, s'.(outstanding := s.outstanding, nextId := s.nextId), b)
            && Looks(s'.bufs[b], buf.word, buf.mem, buf.addr, buf.sqe) && s'.accepted == s.accepted
            && s'.outstanding == (if buf.sqe.Some? then s.outstanding[s.nextId := buf.sqe.value] else s.outstanding)
            && s'.nextId == (if buf.sqe.Some? then s.nextId + 1 else s.nextId)
  {
    hide Next, Apply, Enabled, Wf, Alone;
    Standing(s, t);
    Step(s, t, 0, s, s.threads[t]);
    PushView(s, t);
    s' := Next(s, t);
  }

  /** Undisturbed, the thread that takes the completion of a finished write sends
      the buffer's address and offset and leaves the buffer open, empty and
      without an address.  The bytes are in the file. */
  lemma CompletionAlone(s: Ring, t: nat, id: nat, w: Write) returns (s': Ring)
    requires Wf(s) && t < |s.threads| && s.threads[t].Idle? && id in s.outstanding && s.outstanding[id] == w
    requires w.len <= |s.bufs[w.buf].mem|
    ensures OnlyBuffer(s, s'.(outstanding := s.outstanding, disk := s.disk, records := s.records), w.buf)
    ensures Looks(s'.bufs[w.buf], Word(0, 0, 0, false, false), s.bufs[w.buf].mem, 0, s.bufs[w.buf].sqe)
    ensures s'.records == s.records + [Record(s.bufs[w.buf].addr, s.bufs[w.buf].word.offset, s.bufs[w.buf].gen)]
    ensures s'.outstanding == s.outstanding - {id} && s'.disk == WriteAt(s.disk, w.at, s.bufs[w.buf].mem[..w.len])
    ensures s'.threads == s.threads && s'.accepted == s.accepted
    ensures Enabled(NONE, s, TakeOk(t, id)) && Alone(Apply(s, TakeOk(t, id)), t, 4, s') && Wf(s')
  {
    var b := s.outstanding[id].buf;
    assert b < |s.bufs|;
    hide Apply, Enabled, Wf, Came, WriteAt;
    TakeView(s, t, id, false, []);
    TakeShown(s, t, id, false, []);
    var s0 := Apply(s, TakeOk(t, id));
    s' := ReportAlone(s0, t, b);
    There(s0, t, 4, s', Idle);
    assert s'.threads == s.threads;
  }

  /** Undisturbed, the thread that takes the completion of a failed write pushes
      the kept entry again; the buffer stays as it is and nothing is sent. */
  lemma RetryAlone(s: Ring, t: nat, id: nat, junk: Bytes, w: Write) returns (s': Ring)
    requires Wf(s) && t < |s.threads| && s.threads[t].Idle? && id in s.outstanding && |junk| <= s.outstanding[id].len
    requires w.buf == s.outstanding[id].buf && s.bufs[w.buf].sqe == Some(w)
    ensures OnlyBuffer(s, s'.(outstanding := s.outstanding, nextId := s.nextId, disk := s.disk), w.buf)
    ensures Looks(s'.bufs[w.buf], s.bufs[w.buf].word, s.bufs[w.buf].mem, s.bufs[w.buf].addr, Some(w))
    ensures s'.outstanding == (s.outstanding - {id})[s.nextId := w] && s'.nextId == s.nextId + 1
    ensures s'.disk == WriteAt(s.disk, s.outstanding[id].at, junk)
    ensures s'.threads == s.threads && s'.accepted == s.accepted
    ensures Enabled(NONE, s, TakeFailed(t, id, junk)) && Alone(Apply(s, TakeFailed(t, id, junk)), t, 1, s') && Wf(s')
  {
    var b := s.outstanding[id].buf;
    assert b < |s.bufs|;
    hide Apply, Enabled, Wf, Came, WriteAt;
    TakeView(s, t, id, true, junk);
    TakeShown(s, t, id, true, junk);
    var s0 := Apply(s, TakeFailed(t, id, junk));
    s' := PushAgainAlone(s0, t, b);
    There(s0, t, 1, s', Idle);
    assert s'.threads == s.threads;
  }

  // ---- a new ring -------------------------------------------------------

  /** Thread `t` puts `payload`, undisturbed, in four steps. */
  ghost predicate PutOnce(s: Ring, t: nat, payload: Bytes, s': Ring)
  {
    Wf(s) && Enabled(NONE, s, Begin(t, payload)) && Alone(Apply(s, Begin(t, payload)), t, 4, s')
  }

  /** Thread `t` puts one payload after the other. */
  ghost predicate PutAll(s: Ring, t: nat, payloads: seq<Bytes>, s': Ring)
    decreases |payloads|
  {
    if payloads == [] then s' == s
    else
      var last := |payloads| - 1;
      exists s1 :: PutAll(s, t, payloads[..last], s1) && PutOnce(s1, t, payloads[last], s')
  }

  /** The ring as new, but for the `data` in buffer 0 and the receipts. */
  ghost predicate HoldsOnly(capacity: nat, n: nat, s: Ring, data: Bytes)
    requires capacity > 0
  {
    && Wf(s) && s.threads == seq(n, t => Idle) && |s.bufs| == capacity
    && s.current == 0 && s.nextIndex == 1 && s.counter == 0
    && s.outstanding == map[] && s.nextId == 0 && s.disk == [] && s.records == []
    && (forall b :: 0 < b < capacity ==> s.bufs[b].word == Word(0, 0, 0, false, false) && s.bufs[b].addr == 0)
    && s.bufs[0].word == Word(|data|, 0, 0, false, false) && s.bufs[0].addr == 0 && s.bufs[0].sqe == None
    && |s.bufs[0].mem| == 0x10_0000 && |data| <= 0x10_0000 && s.bufs[0].mem[..|data|] == data
  }

  lemma NewHolds(capacity: nat, n: nat)
    requires capacity > 0
    ensures HoldsOnly(capacity, n, Init(capacity, n), [])
  {
    var s := Init(capacity, n);
    assert forall b :: 0 <= b < capacity ==> s.bufs[b] == Buffer(ZERO, Zeros(ONE_MEGABYTE_BLOCK), 0, None, b, NoToken);
    assert s.bufs[0].mem[..0] == [];
  }

  lemma OneMorePut(capacity: nat, n: nat, s: Ring, t: nat, data: Bytes, payload: Bytes) returns (s': Ring)
    requires capacity > 0 && t < n && HoldsOnly(capacity, n, s, data) && |data| + |payload| <= 0x10_0000
    ensures PutOnce(s, t, payload, s') && HoldsOnly(capacity, n, s', data + payload)
  {
    var r;
    s', r := PutAlone(s, t, payload);
    There(Apply(s, Begin(t, payload)), t, 4, s', Idle);
    assert s'.bufs[0].mem[..|data| + |payload|] == data + payload by {
      assert forall i :: 0 <= i < |data| ==> s'.bufs[0].mem[i] == s.bufs[0].mem[..|data|][i];
    }
  }

  /** Filled by one thread alone, a new ring holds the payloads one behind the
      other at the start of buffer 0. */
  lemma {:induction false} FillAlone(capacity: nat, n: nat, t: nat, payloads: seq<Bytes>) returns (s: Ring)
    requires capacity > 0 && t < n && |Concat(payloads)| <= 0x10_0000
    ensures PutAll(Init(capacity, n), t, payloads, s) && HoldsOnly(capacity, n, s, Concat(payloads))
    decreases |payloads|
  {
    hide HoldsOnly, PutOnce;
    if payloads == [] {
      s := Init(capacity, n);
      NewHolds(capacity, n);
    } else {
      var last := |payloads| - 1;
      var s1 := FillAlone(capacity, n, t, payloads[..last]);
      s := OneMorePut(capacity, n, s1, t, Concat(payloads[..last]), payloads[last]);
    }
  }

  /** Where the first scan of a new ring ends. */
  lemma FirstTurn(capacity: nat, looks: nat, c: nat)
    requires 0 < looks <= capacity
    requires if capacity > 1 then c == (1 + looks - 1) % capacity && c != 0 else c == 0
    requires capacity > 1 ==> (1 - 1) % capacity >= looks - 1
    ensures looks == 1 && c == if capacity > 1 then 1 else 0
  {
  }

  /** What a lone sealer makes of a ring filled so far. */
  lemma SealNew(capacity: nat, n: nat, s: Ring, s1: Ring, t: nat, data: Bytes) returns (k: nat, s2: Ring, padded: nat)
    requires 0 < capacity < 0x1_0000_0000_0000_0000 && t < n && HoldsOnly(capacity, n, s, data) && data != []
    requires Wf(s1) && s1 == s.(threads := s.threads[t := SawFull(0)])
    ensures Alone(s1, t, k, s2) && padded % 4096 == 0 && |data| <= padded < |data| + 4096
    ensures s2.outstanding == map[0 := Write(0, 0, padded)] && |s2.bufs| == capacity && s2.bufs[0].mem == s.bufs[0].mem
    ensures s2.bufs[0].word == Word(|data|, 0, 0, true, true) && s2.bufs[0].addr == 0
    ensures s2.current == (if capacity > 1 then 1 else 0) && s2.nextIndex == 2
    ensures s2.counter == padded + (if capacity > 1 then |data| else 0)
    ensures capacity > 1 ==> s2.bufs[1].word == Word(0, 0, 0, false, false) && s2.bufs[1].addr == padded
    ensures s2.threads == s.threads && s2.accepted == s.accepted
  {
    hide Wf, Alone;
    var looks, c;
    k, s2, looks, c, padded := SealAlone(s1, t, 0);
    if capacity > 1 {
      assert !s1.bufs[1].word.sealed && !s1.bufs[1].word.flushing && s1.bufs[1].word.offset == 0;
    }
    FirstTurn(capacity, looks, c);
    assert s2.threads == s.threads;
  }

  /** The first seal of a new ring.  One thread alone puts `payloads`, which fit
      buffer 0, and then `more`, which does not: it pushes just the bytes of
      `payloads`, padded, to the start of the file, and moves the ring to
      buffer 1 if there is one. */
  lemma FirstSeal(capacity: nat, n: nat, t: nat, payloads: seq<Bytes>, more: Bytes)
    returns (s: Ring, s1: Ring, k: nat, s2: Ring, padded: nat)
    requires 0 < capacity < 0x1_0000_0000_0000_0000 && t < n && |more| <= 0x10_0000
    requires |Concat(payloads)| <= 0x10_0000 < |Concat(payloads)| + |more|
    ensures PutAll(Init(capacity, n), t, payloads, s) && Wf(s) && Enabled(NONE, s, Begin(t, more))
    ensures Alone(Apply(s, Begin(t, more)), t, 1, s1) && Alone(s1, t, k, s2)
    ensures padded % 4096 == 0 && |Concat(payloads)| <= padded < |Concat(payloads)| + 4096
    ensures s2.outstanding == map[0 := Write(0, 0, padded)]
    ensures |s2.bufs| == capacity && |Concat(payloads)| <= |s2.bufs[0].mem|
    ensures s2.bufs[0].mem[..|Concat(payloads)|] == Concat(payloads)
    ensures s2.bufs[0].word == Word(|Concat(payloads)|, 0, 0, true, true) && s2.bufs[0].addr == 0
    ensures s2.current == (if capacity > 1 then 1 else 0) && s2.nextIndex == 2
    ensures s2.counter == padded + (if capacity > 1 then |Concat(payloads)| else 0)
    ensures capacity > 1 ==> s2.bufs[1].word == Word(0, 0, 0, false, false) && s2.bufs[1].addr == padded
    ensures s2.threads == Init(capacity, n).threads && s2.accepted == s.accepted
  {
    var data := Concat(payloads);
    s := FillAlone(capacity, n, t, payloads);
    assert Wf(s) && s.threads[t].Idle? && s.current == 0 && s.bufs[0].mem[..|data|] == data;
    s1 := NoRoomAlone(s, t, more);
    k, s2, padded := SealNew(capacity, n, s, s1, t, data);
  }
}
