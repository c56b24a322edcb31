/** The scheduling assumptions on resets and on publications are exactly what
    safety needs: from any state that satisfies the invariant, a reset that
    breaks the first lets another thread start flushing an open buffer, a
    publication that breaks the second is wiped out again, and neither happens
    when they are respected. */
module RingAssumptions {
  import opened StateWord
  import opened RingProtocol
  import opened RingInvariant
  import opened RingSealing
  import opened RingFlushing
  import opened RingHistory
  import opened RingProgress

  /** Somebody claimed the flush of `b` although `b` is open to writers. */
  predicate FlushesOpen(s: Ring, b: nat)
  {
    b < |s.bufs| && s.bufs[b].word.flushing && !s.bufs[b].word.sealed
  }

  ghost predicate CanFlushOpen(s: Ring, b: nat)
  {
    exists actions, s' :: Executes(ALL, s, actions, s') && FlushesOpen(s', b)
  }

  /** A thread that sealed or emptied an earlier batch of `b`, now open again. */
  ghost predicate Stray(s: Ring, t: nat, b: nat)
  {
    && Wf(s) && t < |s.threads| && b < |s.bufs|
    && (Late(s.threads[t], b) || s.threads[t] == LastWriter(b))
    && s.bufs[b].word == ZERO
  }

  lemma StrayStep(s: Ring, t: nat, b: nat)
    requires Stray(s, t, b)
    ensures FlushesOpen(Next(s, t), b) || Stray(Next(s, t), t, b)
  {
    hide Next;
    if s.threads[t].LastWriter? || s.threads[t].Claiming? || s.threads[t].Checking? {
      StrayClaim(s, t, b);
    } else if s.threads[t].Swapping? || s.threads[t].Booking? || s.threads[t].Stamping? {
      StraySwaps(s, t, b);
    } else {
      StrayScans(s, t, b);
    }
  }

  lemma StrayClaim(s: Ring, t: nat, b: nat)
    requires Stray(s, t, b) && (s.threads[t].LastWriter? || s.threads[t].Claiming? || s.threads[t].Checking?)
    ensures FlushesOpen(Next(s, t), b) || Stray(Next(s, t), t, b)
  {
  }

  lemma StrayScans(s: Ring, t: nat, b: nat)
    requires Stray(s, t, b)
    requires var pc := s.threads[t]; pc.Rotating? || pc.Measuring? || pc.Scanning? || pc.Probing?
    ensures Stray(Next(s, t), t, b)
  {
    hide Available;
  }

  lemma StraySwaps(s: Ring, t: nat, b: nat)
    requires Stray(s, t, b)
    requires var pc := s.threads[t]; pc.Swapping? || pc.Booking? || pc.Stamping?
    ensures Stray(Next(s, t), t, b)
  {
  }

  /** Running on its own, a stray thread ends up flushing the open buffer. */
  lemma {:induction false} StrayFlushes(s: Ring, t: nat, b: nat) returns (actions: seq<Action>, s': Ring)
    requires Stray(s, t, b)
    ensures Executes(ALL, s, actions, s') && FlushesOpen(s', b)
    decreases Rank(s.threads[t], |s.bufs|)
  {
    hide Next, Rank, FlushesOpen, Wf;
    var s1 := Next(s, t);
    StrayStep(s, t, b);
    RankFalls(s, t);
    StrayEnabled(s, t, b);
    if FlushesOpen(s1, b) {
      actions, s' := [Run(t)], s1;
      assert Executes(ALL, s1, [], s1);
    } else {
      var rest: seq<Action>;
      rest, s' := StrayFlushes(s1, t, b);
      actions := [Run(t)] + rest;
    }
  }

  lemma StrayEnabled(s: Ring, t: nat, b: nat)
    requires Stray(s, t, b)
    ensures Wf(s) && Enabled(ALL, s, Run(t)) && Apply(s, Run(t)) == Next(s, t)
  {
    hide Next, Wf, Unpublished, Lingering, HalfReset;
  }

  /** Whoever lingers when the buffer is reset is stray afterwards. */
  lemma LingeringIsStray(s: Ring, t: nat, b: nat, t': nat)
    requires Inv(s) && t < |s.threads| && s.threads[t] == Recorded(b)
    requires t' < |s.threads| && (Tail(s.threads[t'], b) || s.threads[t'] == LastWriter(b))
    ensures Stray(Next(s, t), t', b)
  {
    hide TargetsInv, BuffersInv, WritesInv, BatchesInv, RecordsInv, ApartInv, ReceiptsInv, Pad;
    assert RingInvariant.ThreadInv(s, t);
    assert RingInvariant.ThreadInv(s, t');
  }

  lemma OpenNeverFlushes(s: Ring, b: nat)
    requires Inv(s)
    ensures !FlushesOpen(s, b)
  {
    hide ThreadsInv, TargetsInv, WritesInv, BatchesInv, RecordsInv, ApartInv, ReceiptsInv, EntriesOk, SealOk,
         WatchedOk, TokenOk, Tiled, End;
    if b < |s.bufs| {
      assert BufferInv(s, b);
    }
  }

  /** The reset is safe exactly when nobody lingers on the buffer. */
  lemma ResetExactly(s: Ring, t: nat, b: nat)
    requires Inv(s) && t < |s.threads| && s.threads[t] == Recorded(b)
    ensures CanFlushOpen(Next(s, t), b) <==> Lingering(s, b)
  {
    hide ThreadsInv, TargetsInv, BuffersInv, WritesInv, BatchesInv, RecordsInv, ApartInv, ReceiptsInv, Next,
         Executes, FlushesOpen, Stray;
    var s1 := Next(s, t);
    if Lingering(s, b) {
      var t' :| 0 <= t' < |s.threads| && (Tail(s.threads[t'], b) || s.threads[t'] == LastWriter(b));
      LingeringIsStray(s, t, b, t');
      var actions, s' := StrayFlushes(s1, t', b);
    } else {
      KeepReset(s, t);
      forall actions, s' | Executes(ALL, s1, actions, s') ensures !FlushesOpen(s', b) {
        KeepRun(s1, actions, s');
        OpenNeverFlushes(s', b);
      }
    }
  }

  // ---- publications -----------------------------------------------------

  /** The address stored for `b` is there no more. */
  ghost predicate Wiped(s: Ring, b: nat)
  {
    && b < |s.bufs| && s.bufs[b].gen < |s.batches|
    && var batch := s.batches[s.bufs[b].gen];
       batch.published && (batch.extent.None? || batch.extent.value.at != s.bufs[b].addr)
  }

  ghost predicate CanWipe(s: Ring, b: nat)
  {
    exists actions, s' :: Executes(ALL, s, actions, s') && Wiped(s', b)
  }

  lemma SoundAddress(s: Ring, b: nat)
    requires Inv(s)
    ensures !Wiped(s, b)
  {
    hide ThreadsInv, TargetsInv, WritesInv, BatchesInv, RecordsInv, ApartInv, ReceiptsInv, WordOk, EntriesOk,
         WatchedOk, TokenOk;
    if b < |s.bufs| {
      assert BufferInv(s, b);
    }
  }

  /** Between the two stores of a reset a range of the file has been claimed, so
      that the address of the batch to come is not 0. */
  lemma HalfResetClaims(s: Ring, t: nat, b: nat, slot: nat, t2: nat)
    requires Inv(s) && t < |s.threads| && s.threads[t] == Publishing(b, slot)
    requires t2 < |s.threads| && s.threads[t2] == Clearing(b)
    ensures Wf(s) && BatchOf(s, b).extent.Some? && BatchOf(s, b).extent.value.at == slot > 0
  {
    hide TargetsInv, BuffersInv, WritesInv, BatchesInv, RecordsInv, ApartInv, ReceiptsInv, Pad;
    assert RingInvariant.ThreadInv(s, t);
    assert RingInvariant.ThreadInv(s, t2);
  }

  /** The second store of the reset comes after the publication. */
  lemma ClearAfterPublish(s: Ring, t: nat, b: nat, slot: nat, t2: nat)
    requires Wf(s) && t < |s.threads| && s.threads[t] == Publishing(b, slot)
    requires t2 < |s.threads| && s.threads[t2] == Clearing(b)
    requires BatchOf(s, b).extent.Some? && BatchOf(s, b).extent.value.at == slot > 0
    ensures Wf(Next(s, t)) && Enabled(ALL, Next(s, t), Run(t2)) && Wiped(Next(Next(s, t), t2), b)
  {
    hide Unpublished, Lingering, HalfReset;
  }

  /** An address is stored for good exactly when no reset of the buffer is
      between its two stores. */
  lemma PublishExactly(s: Ring, t: nat, b: nat, slot: nat)
    requires Inv(s) && t < |s.threads| && s.threads[t] == Publishing(b, slot)
    ensures Wf(s)
    ensures CanWipe(Next(s, t), b) <==> HalfReset(s, b)
  {
    hide ThreadsInv, TargetsInv, BuffersInv, WritesInv, BatchesInv, RecordsInv, ApartInv, ReceiptsInv, Next, Wiped;
    var s1 := Next(s, t);
    if HalfReset(s, b) {
      var t2 :| 0 <= t2 < |s.threads| && s.threads[t2] == Clearing(b);
      HalfResetClaims(s, t, b, slot, t2);
      ClearAfterPublish(s, t, b, slot, t2);
      var s2 := Apply(s1, Run(t2));
      assert Executes(ALL, s2, [], s2);
      assert Executes(ALL, s1, [Run(t2)], s2);
    } else {
      KeepPublish(s, t);
      forall actions, s' | Executes(ALL, s1, actions, s') ensures !Wiped(s', b) {
        KeepRun(s1, actions, s');
        SoundAddress(s', b);
      }
    }
  }
}
