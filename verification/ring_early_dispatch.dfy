/** Exactly when a dispatch that does not wait for its sealer does harm. */
module RingEarlyDispatch {
  import opened Files
  import opened StateWord
  import opened RingProtocol
  import opened RingInvariant
  import opened RingSealing
  import opened RingQuiet
  import opened RingHistory
  import opened RingShape
  import opened RingViews

  // ---- harm -------------------------------------------------------------

  /** A write of buffer `b` is on its way to another range than the one claimed
      for it. */
  ghost predicate Astray(s: Ring, b: nat)
  {
    && b < |s.bufs| && s.bufs[b].gen < |s.batches|
    && exists id :: id in s.outstanding && s.outstanding[id].buf == b
         && s.batches[s.bufs[b].gen].extent != Some(Extent(s.outstanding[id].at, s.outstanding[id].len))
  }

  /** A completion message names another place than the one claimed. */
  ghost predicate Misreported(s: Ring)
  {
    exists r :: 0 <= r < |s.records| && s.records[r].gen < |s.batches|
      && (s.batches[s.records[r].gen].extent.None? || s.batches[s.records[r].gen].extent.value.at != s.records[r].at)
  }

  ghost predicate CanHarm(s: Ring, b: nat)
  {
    exists actions, s' :: Executes(ALL, s, actions, s') && (Astray(s', b) || Misreported(s'))
  }

  lemma SoundWrites(s: Ring, b: nat)
    requires Inv(s)
    ensures !Astray(s, b)
  {
    hide ThreadsInv, TargetsInv, RecordsInv, ApartInv, ReceiptsInv, EntriesOk, WatchedOk, Tiled, End, Pad, ReadAt,
         Image, ClosedOk;
    forall id | id in s.outstanding && s.outstanding[id].buf == b
      ensures b < |s.bufs| && BatchOf(s, b).extent == Some(Extent(s.outstanding[id].at, s.outstanding[id].len))
    {
      assert WriteInv(s, id);
      assert BufferInv(s, b);
      assert BatchInv(s, s.bufs[b].gen);
    }
  }

  lemma SoundRecords(s: Ring)
    requires Inv(s)
    ensures !Misreported(s)
  {
    hide ThreadsInv, TargetsInv, BuffersInv, WritesInv, ApartInv, ReceiptsInv, End, Pad, ReadAt, Image, ClosedOk;
    forall r | 0 <= r < |s.records|
      ensures s.records[r].gen < |s.batches|
      ensures s.batches[s.records[r].gen].extent.Some? && s.batches[s.records[r].gen].extent.value.at == s.records[r].at
    {
      assert RecordInv(s, r);
      assert BatchInv(s, s.records[r].gen);
    }
  }

  // ---- a publication that changes nothing -------------------------------

  /** Sealer `t1` is about to store the address that is already there. */
  ghost predicate Settled(s: Ring, t1: nat)
  {
    && Wf(s) && t1 < |s.threads| && s.threads[t1].Publishing?
    && s.bufs[s.threads[t1].b].addr == s.threads[t1].slot
  }

  /** The state in which that has been done. */
  function Settle(s: Ring, t1: nat, b: nat): Ring
    requires t1 < |s.threads| && b < |s.bufs| && s.bufs[b].gen < |s.batches|
  {
    var g := s.bufs[b].gen;
    s.(threads := s.threads[t1 := Rotating(b)], batches := s.batches[g := s.batches[g].(published := true)])
  }

  lemma SettledPublish(s: Ring, t1: nat)
    requires Settled(s, t1)
    ensures Next(s, t1) == Settle(s, t1, s.threads[t1].b) && Wf(Settle(s, t1, s.threads[t1].b))
  {
    NextShape(s, t1);
    var b := s.threads[t1].b;
    assert s.bufs[b := s.bufs[b].(addr := s.threads[t1].slot)] == s.bufs;
  }

  /** Another thread's step leaves the sealer as it is, and is the same step in
      the settled state. */
  ghost predicate Independent(s: Ring, s': Ring, u': Ring, t1: nat, b: nat)
    requires t1 < |s.threads| && b < |s.bufs| && s.bufs[b].gen < |s.batches|
  {
    && |s'.threads| == |s.threads| && s'.threads[t1] == s.threads[t1]
    && |s'.bufs| == |s.bufs| && |s'.batches| >= |s.batches|
    && s'.bufs[b].addr == s.bufs[b].addr && s'.bufs[b].gen == s.bufs[b].gen
    && u' == Settle(s', t1, b)
  }

  /** Thread `t` is another thread than sealer `t1` of `b`. */
  ghost predicate Two(s: Ring, t1: nat, t: nat, b: nat)
  {
    && Wf(s) && t1 < |s.threads| && t < |s.threads| && t != t1 && !s.threads[t].Idle?
    && s.threads[t1].Publishing? && s.threads[t1].b == b && Wf(Settle(s, t1, b))
  }

  lemma LoadIndependent(s: Ring, t1: nat, t: nat, b: nat)
    requires Two(s, t1, t, b)
    requires var pc := s.threads[t];
             pc.Picked? || pc.Sealing? || pc.Rotating? || pc.Measuring? || pc.Probing? || pc.Checking? || pc.Submitting?
             || pc.Dispatching? || pc.Reaping?
    ensures Independent(s, Next(s, t), Next(Settle(s, t1, b), t), t1, b)
  {
    hide Pad, Available, AfterLoad;
    var pc := Next(s, t).threads[t];
    assert s.threads[t1 := Rotating(b)][t := pc] == s.threads[t := pc][t1 := Rotating(b)];
  }

  lemma Swapped<T>(xs: seq<T>, i: nat, x: T, j: nat, y: T)
    requires i < |xs| && j < |xs| && i != j
    ensures xs[i := x][j := y] == xs[j := y][i := x]
  {
  }

  lemma ReserveIndependent(s: Ring, t1: nat, t: nat, b: nat)
    requires Two(s, t1, t, b) && s.threads[t].Loaded?
    ensures Independent(s, Next(s, t), Next(Settle(s, t1, b), t), t1, b)
  {
    hide Reserve;
    Swapped(s.threads, t1, Rotating(b), t, Next(s, t).threads[t]);
  }

  lemma CopyIndependent(s: Ring, t1: nat, t: nat, b: nat)
    requires Two(s, t1, t, b) && s.threads[t].Reserved?
    ensures Independent(s, Next(s, t), Next(Settle(s, t1, b), t), t1, b)
  {
    hide Copy;
    Swapped(s.threads, t1, Rotating(b), t, Next(s, t).threads[t]);
  }

  lemma ReleaseIndependent(s: Ring, t1: nat, t: nat, b: nat)
    requires Two(s, t1, t, b) && s.threads[t].Written?
    ensures Independent(s, Next(s, t), Next(Settle(s, t1, b), t), t1, b)
  {
    hide Release;
    Swapped(s.threads, t1, Rotating(b), t, Next(s, t).threads[t]);
  }

  lemma LastIndependent(s: Ring, t1: nat, t: nat, b: nat)
    requires Two(s, t1, t, b) && s.threads[t].LastWriter?
    ensures Independent(s, Next(s, t), Next(Settle(s, t1, b), t), t1, b)
  {
    hide SetFlush;
    Swapped(s.threads, t1, Rotating(b), t, Next(s, t).threads[t]);
  }

  lemma ClaimIndependent(s: Ring, t1: nat, t: nat, b: nat)
    requires Two(s, t1, t, b) && s.threads[t].Claiming?
    ensures Independent(s, Next(s, t), Next(Settle(s, t1, b), t), t1, b)
  {
    hide SetFlush;
    Swapped(s.threads, t1, Rotating(b), t, Next(s, t).threads[t]);
  }

  lemma SealIndependent(s: Ring, t1: nat, t: nat, b: nat)
    requires Two(s, t1, t, b) && s.threads[t].SawFull?
    ensures Independent(s, Next(s, t), Next(Settle(s, t1, b), t), t1, b)
  {
    hide StateWord.Seal;
    Swapped(s.threads, t1, Rotating(b), t, Next(s, t).threads[t]);
  }

  lemma ExtentIndependent(s: Ring, t1: nat, t: nat, b: nat)
    requires Two(s, t1, t, b) && s.threads[t].Sized?
    ensures Independent(s, Next(s, t), Next(Settle(s, t1, b), t), t1, b)
  {
    hide Pad;
    Swapped(s.threads, t1, Rotating(b), t, Next(s, t).threads[t]);
  }

  lemma PublishIndependent(s: Ring, t1: nat, t: nat, b: nat)
    requires Two(s, t1, t, b) && s.threads[t].Publishing? && s.threads[t].b != b
    ensures Independent(s, Next(s, t), Next(Settle(s, t1, b), t), t1, b)
  {
    Swapped(s.threads, t1, Rotating(b), t, Next(s, t).threads[t]);
  }

  lemma RotateIndependent(s: Ring, t1: nat, t: nat, b: nat)
    requires Two(s, t1, t, b) && (s.threads[t].Scanning? || s.threads[t].Swapping? || s.threads[t].Booking?)
    ensures Independent(s, Next(s, t), Next(Settle(s, t1, b), t), t1, b)
  {
    Swapped(s.threads, t1, Rotating(b), t, Next(s, t).threads[t]);
  }

  lemma StampIndependent(s: Ring, t1: nat, t: nat, b: nat)
    requires Two(s, t1, t, b) && s.threads[t].Stamping? && (s.threads[t].target == b ==> s.bufs[b].addr != 0)
    ensures Independent(s, Next(s, t), Next(Settle(s, t1, b), t), t1, b)
  {
    Swapped(s.threads, t1, Rotating(b), t, Next(s, t).threads[t]);
  }

  lemma PushIndependent(s: Ring, t1: nat, t: nat, b: nat)
    requires Two(s, t1, t, b) && (s.threads[t].Flushing? || s.threads[t].Pushing? || s.threads[t].Retrying?)
    ensures Independent(s, Next(s, t), Next(Settle(s, t1, b), t), t1, b)
  {
    hide SetFlush;
    Swapped(s.threads, t1, Rotating(b), t, Next(s, t).threads[t]);
  }

  lemma NoteIndependent(s: Ring, t1: nat, t: nat, b: nat)
    requires Two(s, t1, t, b) && s.threads[t].Noting?
    ensures Independent(s, Next(s, t), Next(Settle(s, t1, b), t), t1, b)
  {
    Swapped(s.threads, t1, Rotating(b), t, Next(s, t).threads[t]);
  }

  lemma ResetIndependent(s: Ring, t1: nat, t: nat, b: nat)
    requires Two(s, t1, t, b) && (s.threads[t].Recorded? || s.threads[t].Clearing?) && s.threads[t].b != b
    ensures Independent(s, Next(s, t), Next(Settle(s, t1, b), t), t1, b)
  {
    Swapped(s.threads, t1, Rotating(b), t, Next(s, t).threads[t]);
  }

  lemma TakeIndependent(s: Ring, t1: nat, t: nat, id: nat, junk: Bytes, b: nat)
    requires Wf(s) && t1 < |s.threads| && t < |s.threads| && t != t1 && id in s.outstanding
    requires s.threads[t1].Publishing? && s.threads[t1].b == b && Wf(Settle(s, t1, b))
    ensures Independent(s, DoTakeOk(s, t, id), DoTakeOk(Settle(s, t1, b), t, id), t1, b)
    ensures Independent(s, DoTakeFailed(s, t, id, junk), DoTakeFailed(Settle(s, t1, b), t, id, junk), t1, b)
  {
    hide WriteAt;
    Swapped(s.threads, t1, Rotating(b), t, DoTakeOk(s, t, id).threads[t]);
    Swapped(s.threads, t1, Rotating(b), t, DoTakeFailed(s, t, id, junk).threads[t]);
  }

  lemma NextIndependent(s: Ring, t1: nat, t: nat, b: nat)
    requires Two(s, t1, t, b)
    requires s.threads[t].b == b ==> !s.threads[t].Recorded? && !s.threads[t].Clearing? && !s.threads[t].Publishing?
    requires s.threads[t].Stamping? && s.threads[t].target == b ==> s.bufs[b].addr != 0
    ensures Independent(s, Next(s, t), Next(Settle(s, t1, b), t), t1, b)
  {
    hide Next, Independent, Settle;
    match s.threads[t] {
      case Loaded(_, _, _) => ReserveIndependent(s, t1, t, b);
      case Reserved(_, _, _, _, _) => CopyIndependent(s, t1, t, b);
      case Written(_, _, _, _) => ReleaseIndependent(s, t1, t, b);
      case LastWriter(_) => LastIndependent(s, t1, t, b);
      case Claiming(_) => ClaimIndependent(s, t1, t, b);
      case SawFull(_) => SealIndependent(s, t1, t, b);
      case Sized(_, _) => ExtentIndependent(s, t1, t, b);
      case Publishing(_, _) => PublishIndependent(s, t1, t, b);
      case Scanning(_, _, _) => RotateIndependent(s, t1, t, b);
      case Swapping(_, _, _) => RotateIndependent(s, t1, t, b);
      case Booking(_, _, _) => RotateIndependent(s, t1, t, b);
      case Stamping(_, _, _) => StampIndependent(s, t1, t, b);
      case Flushing(_) => PushIndependent(s, t1, t, b);
      case Pushing(_, _, _) => PushIndependent(s, t1, t, b);
      case Retrying(_) => PushIndependent(s, t1, t, b);
      case Noting(_, _) => NoteIndependent(s, t1, t, b);
      case Recorded(_) => ResetIndependent(s, t1, t, b);
      case Clearing(_) => ResetIndependent(s, t1, t, b);
      case _ => LoadIndependent(s, t1, t, b);
    }
  }

  // ---- a harmless early dispatch ----------------------------------------

  /** The sealer of `b` still has to store the address that is already there,
      and all else is in order. */
  ghost predicate Waiting(s: Ring, t1: nat, b: nat)
  {
    && Settled(s, t1) && s.threads[t1].b == b
    && Wf(Settle(s, t1, b)) && Inv(Settle(s, t1, b))
  }

  /** What the settled state rules out for other threads. */
  lemma WaitingRules(s: Ring, t1: nat, t: nat, b: nat)
    requires Waiting(s, t1, b) && t < |s.threads| && t != t1 && !s.threads[t].Idle?
    ensures s.threads[t].b == b ==> !s.threads[t].Clearing? && !s.threads[t].Publishing?
    ensures s.threads[t].Stamping? && s.threads[t].target == b ==> s.bufs[b].addr != 0
  {
    hide WritesInv, BatchesInv, RecordsInv, ApartInv, ReceiptsInv, EntriesOk, WatchedOk, TokenOk, Tiled, End, Pad;
    var u := Settle(s, t1, b);
    assert RingInvariant.ThreadInv(u, t) && RingInvariant.ThreadInv(u, t1);
    assert BufferInv(u, b);
    assert TargetInv(u, t, b);
  }

  /** Who may step, may step in the settled state too. */
  lemma WaitingAllowed(s: Ring, t1: nat, t: nat, b: nat)
    requires Waiting(s, t1, b) && t < |s.threads| && t != t1 && Allowed(ALL, s, s.threads[t])
    ensures Allowed(ALL, Settle(s, t1, b), s.threads[t])
  {
    hide Inv;
    var u := Settle(s, t1, b);
    SettledGuards(s, u, t1, b);
  }

  lemma SettledGuards(s: Ring, u: Ring, t1: nat, b: nat)
    requires t1 < |s.threads| && s.threads[t1].Publishing? && s.threads[t1].b == b
    requires u.threads == s.threads[t1 := Rotating(b)]
    ensures forall c: nat :: Unpublished(u, c) ==> Unpublished(s, c)
    ensures forall c: nat :: Lingering(u, c) ==> Lingering(s, c)
    ensures forall c: nat :: HalfReset(u, c) ==> HalfReset(s, c)
  {
    forall c: nat | Unpublished(u, c) ensures Unpublished(s, c) {
      var t :| 0 <= t < |u.threads| && Early(u.threads[t], c);
      assert Early(s.threads[t], c);
    }
    forall c: nat | Lingering(u, c) ensures Lingering(s, c) {
      var t :| 0 <= t < |u.threads| && (Tail(u.threads[t], c) || u.threads[t] == LastWriter(c));
      assert Tail(s.threads[t], c) || s.threads[t] == LastWriter(c);
    }
    forall c: nat | HalfReset(u, c) ensures HalfReset(s, c) {
      var t :| 0 <= t < |u.threads| && u.threads[t] == Clearing(c);
      assert s.threads[t] == Clearing(c);
    }
  }

  /** A thread of the buffer that waits for its sealer is not allowed to reset. */
  lemma WaitingNoReset(s: Ring, t1: nat, t: nat, b: nat)
    requires Waiting(s, t1, b) && t < |s.threads| && Allowed(ALL, s, s.threads[t])
    ensures s.threads[t] != Recorded(b)
  {
    hide Inv, Wf, Settle;
    assert Tail(s.threads[t1], b);
  }

  lemma WaitingNext(s: Ring, t1: nat, t: nat, b: nat)
    requires Waiting(s, t1, b) && t < |s.threads| && t != t1 && !s.threads[t].Idle?
    requires Allowed(ALL, s, s.threads[t])
    ensures Waiting(Next(s, t), t1, b)
  {
    hide Inv, Next, Unpublished, Lingering, HalfReset;
    var u := Settle(s, t1, b);
    WaitingRules(s, t1, t, b);
    WaitingNoReset(s, t1, t, b);
    NextIndependent(s, t1, t, b);
    NextShape(s, t);
    WaitingAllowed(s, t1, t, b);
    KeepNext(u, t);
    InvWf(Next(u, t));
  }

  lemma WaitingStep(s: Ring, t1: nat, a: Action, b: nat)
    requires Waiting(s, t1, b) && Enabled(ALL, s, a) && a.t != t1
    ensures Waiting(Apply(s, a), t1, b)
  {
    hide Inv, Next, Unpublished, Lingering, HalfReset, DoTakeOk, DoTakeFailed;
    var u := Settle(s, t1, b);
    match a {
      case Run(t) => WaitingNext(s, t1, t, b);
      case Begin(t, payload) =>
        Swapped(s.threads, t1, Rotating(b), t, Picked(s.current, payload));
        StepShape(s, a);
        KeepStep(u, a);
        InvWf(Apply(u, a));
      case TakeOk(t, id) =>
        TakeIndependent(s, t1, t, id, [], b);
        StepShape(s, a);
        KeepStep(u, a);
        InvWf(Apply(u, a));
      case TakeFailed(t, id, junk) =>
        TakeIndependent(s, t1, t, id, junk, b);
        StepShape(s, a);
        KeepStep(u, a);
        InvWf(Apply(u, a));
    }
  }

  lemma WaitingSound(s: Ring, t1: nat, b: nat, c: nat)
    requires Waiting(s, t1, b)
    ensures !Astray(s, c) && !Misreported(s)
  {
    hide Inv;
    SoundWrites(Settle(s, t1, b), c);
    SoundRecords(Settle(s, t1, b));
  }

  lemma {:induction false} WaitingRun(s: Ring, t1: nat, actions: seq<Action>, s': Ring, b: nat, c: nat)
    requires Waiting(s, t1, b) && Executes(ALL, s, actions, s')
    ensures !Astray(s', c) && !Misreported(s')
    decreases |actions|
  {
    hide Inv, Apply, Next, Astray, Misreported, Settle, Unpublished, Lingering, HalfReset;
    if actions == [] {
      WaitingSound(s, t1, b, c);
    } else if actions[0].t != t1 {
      WaitingStep(s, t1, actions[0], b);
      WaitingRun(Apply(s, actions[0]), t1, actions[1..], s', b, c);
    } else {
      SettledPublish(s, t1);
      OwnStep(s, actions[0]);
      KeepRun(Next(s, t1), actions[1..], s');
      SoundWrites(s', c);
      SoundRecords(s');
    }
  }

  /** A busy thread does nothing but its next step. */
  lemma OwnStep(s: Ring, a: Action)
    requires Wf(s) && Enabled(ALL, s, a) && !s.threads[a.t].Idle?
    ensures Enabled(NONE, s, a) && Apply(s, a) == Next(s, a.t)
  {
    hide Next, Wf, Unpublished, Lingering, HalfReset;
  }

  // ---- exactly when it does harm ----------------------------------------

  /** The thread that has yet to publish is the sealer; the range it claimed, if
      it has, starts where it will say. */
  lemma EarlySealer(s: Ring, t1: nat, b: nat)
    requires Inv(s) && t1 < |s.threads| && Early(s.threads[t1], b)
    ensures Wf(s) && BatchOf(s, b).sealer == Some(t1)
    ensures BatchOf(s, b).extent.Some? ==>
              s.threads[t1].Publishing? && BatchOf(s, b).extent.value.at == s.threads[t1].slot
  {
    hide TargetsInv, BuffersInv, WritesInv, BatchesInv, RecordsInv, ApartInv, ReceiptsInv, Pad;
    assert RingInvariant.ThreadInv(s, t1);
  }

  /** After the load, thread `t` holds the address it found. */
  lemma DispatchLoads(s: Ring, t: nat, b: nat, len: nat)
    requires Inv(s) && t < |s.threads| && s.threads[t] == Dispatching(b, len)
    ensures Wf(Next(s, t))
    ensures Next(s, t) == s.(threads := s.threads[t := Pushing(b, len, s.bufs[b].addr)])
  {
    hide TargetsInv, BuffersInv, WritesInv, BatchesInv, RecordsInv, ApartInv, ReceiptsInv, ThreadsInv;
    NextShape(s, t);
  }

  lemma PushExtent(s: Ring, t: nat, g: nat)
    requires Wf(s) && t < |s.threads| && (s.threads[t].Pushing? || s.threads[t].Clearing?)
    requires g < |s.batches|
    ensures var s' := Next(s, t); g < |s'.batches| && s'.batches[g].extent == s.batches[g].extent
    ensures var s' := Next(s, t);
            |s'.bufs| == |s.bufs| && forall c :: 0 <= c < |s.bufs| ==> s'.bufs[c].gen == s.bufs[c].gen
  {
  }

  lemma InRange(s: Ring, t: nat)
    requires Wf(s) && t < |s.threads| && !s.threads[t].Idle?
    ensures s.threads[t].b < |s.bufs| && s.bufs[s.threads[t].b].gen < |s.batches|
  {
  }

  /** The write goes to the address found, which is not the one claimed. */
  lemma GoesAstray(s: Ring, t: nat, b: nat, len: nat, at: nat)
    requires Wf(s) && t < |s.threads| && s.threads[t] == Pushing(b, len, at)
    requires BatchOf(s, b).extent != Some(Extent(at, len))
    ensures CanHarm(s, b)
  {
    hide Next, Wf;
    InRange(s, t);
    PushView(s, t);
    PushExtent(s, t, s.bufs[b].gen);
    var s' := Apply(s, Run(t));
    assert s'.outstanding[s.nextId] == Write(b, at, len);
    assert Executes(ALL, s', [], s');
    assert Executes(ALL, s, [Run(t)], s');
  }

  lemma ReportExtent(s: Ring, t: nat, g: nat)
    requires Wf(s) && t < |s.threads| && (s.threads[t].Reaping? || s.threads[t].Noting?) && g < |s.batches|
    ensures var s' := Next(s, t); g < |s'.batches| && s'.batches[g].extent == s.batches[g].extent
    ensures var s' := Next(s, t);
            |s'.bufs| == |s.bufs| && forall c :: 0 <= c < |s.bufs| ==> s'.bufs[c].gen == s.bufs[c].gen
  {
  }

  lemma TakeExtent(s: Ring, t: nat, id: nat, g: nat)
    requires Wf(s) && t < |s.threads| && id in s.outstanding && g < |s.batches|
    ensures var s' := DoTakeOk(s, t, id); g < |s'.batches| && s'.batches[g].extent == s.batches[g].extent
    ensures var s' := DoTakeOk(s, t, id);
            |s'.bufs| == |s.bufs| && forall c :: 0 <= c < |s.bufs| ==> s'.bufs[c].gen == s.bufs[c].gen
  {
    hide WriteAt;
  }

  lemma Prefixed(s: Ring, a: Action, b: nat)
    requires Wf(s) && Enabled(ALL, s, a) && Enabled(NONE, s, a) && CanHarm(Apply(s, a), b)
    ensures CanHarm(s, b)
  {
    hide Wf, Apply, Enabled, Astray, Misreported;
    var rest, s' :| Executes(ALL, Apply(s, a), rest, s') && (Astray(s', b) || Misreported(s'));
    assert ([a] + rest)[1..] == rest;
    assert Executes(ALL, s, [a] + rest, s');
  }

  /** The write completes, and the message says 0 because that is what the
      address reads by then. */
  lemma SaysZero(s: Ring, t: nat, b: nat, g: nat)
    requires Wf(s) && t < |s.threads| && s.threads[t] == Reaping(b) && s.bufs[b].addr == 0 && s.bufs[b].gen == g
    requires s.batches[g].extent.Some? && s.batches[g].extent.value.at > 0
    ensures CanHarm(s, b)
  {
    hide Next, Wf;
    InRange(s, t);
    FlushLoadView(s, t);
    ReportExtent(s, t, g);
    NextShape(s, t);
    var s1 := Apply(s, Run(t));
    NoteView(s1, t);
    ReportExtent(s1, t, g);
    var s2 := Apply(s1, Run(t));
    var r := |s.records|;
    assert s2.records[r].at == 0 && s2.records[r].gen == g;
    assert Misreported(s2);
    assert Executes(ALL, s2, [], s2);
    assert Executes(ALL, s1, [Run(t)], s2);
    Prefixed(s, Run(t), b);
  }

  lemma LandsAndSaysZero(s: Ring, t: nat, b: nat, g: nat, id: nat)
    requires Wf(s) && t < |s.threads| && s.threads[t].Idle? && id in s.outstanding && s.outstanding[id].buf == b
    requires b < |s.bufs| && s.bufs[b].addr == 0 && s.bufs[b].gen == g < |s.batches|
    requires s.batches[g].extent.Some? && s.batches[g].extent.value.at > 0
    ensures CanHarm(s, b)
  {
    hide Next, Wf, CanHarm, DoTakeOk;
    TakeView(s, t, id, false, []);
    TakeExtent(s, t, id, g);
    RingShape.TakeShape(s, t, id, []);
    SaysZero(Apply(s, TakeOk(t, id)), t, b, g);
    Prefixed(s, TakeOk(t, id), b);
  }

  lemma PushesThenSaysZero(s: Ring, t: nat, b: nat, g: nat)
    requires Wf(s) && t < |s.threads| && s.threads[t].Pushing? && s.threads[t].b == b
    requires b < |s.bufs| && s.bufs[b].addr == 0 && s.bufs[b].gen == g < |s.batches|
    requires s.batches[g].extent.Some? && s.batches[g].extent.value.at > 0
    ensures CanHarm(s, b)
  {
    hide Next, Wf, CanHarm;
    PushView(s, t);
    PushExtent(s, t, g);
    NextShape(s, t);
    LandsAndSaysZero(Apply(s, Run(t)), t, b, g, s.nextId);
    Prefixed(s, Run(t), b);
  }

  /** A reset that is half done wipes the address out while the write is on its
      way, so that the message names the wrong place. */
  lemma WipedAddress(s: Ring, t: nat, t2: nat, b: nat, len: nat, at: nat)
    requires Wf(s) && t < |s.threads| && t2 < |s.threads| && t != t2
    requires s.threads[t] == Pushing(b, len, at) && s.threads[t2] == Clearing(b)
    requires BatchOf(s, b).extent.Some? && BatchOf(s, b).extent.value.at > 0
    ensures CanHarm(s, b)
  {
    hide Next, Wf, CanHarm;
    InRange(s, t);
    var g := s.bufs[b].gen;
    StoreView(s, t2);
    PushExtent(s, t2, g);
    NextShape(s, t2);
    PushesThenSaysZero(Apply(s, Run(t2)), t, b, g);
    Prefixed(s, Run(t2), b);
  }

  lemma ClearingClaims(s: Ring, t2: nat, b: nat)
    requires Inv(s) && t2 < |s.threads| && s.threads[t2] == Clearing(b)
    ensures Wf(s) && (BatchOf(s, b).extent.Some? ==> BatchOf(s, b).extent.value.at > 0)
  {
    hide TargetsInv, BuffersInv, WritesInv, BatchesInv, RecordsInv, ApartInv, ReceiptsInv, Pad;
    assert RingInvariant.ThreadInv(s, t2);
  }

  /** An early dispatch that finds the very address its sealer is about to store
      leads to a state that only waits for that. */
  lemma EarlyButSettled(s: Ring, t: nat, t1: nat, b: nat, len: nat)
    requires Inv(s) && t < |s.threads| && s.threads[t] == Dispatching(b, len)
    requires t1 < |s.threads| && Early(s.threads[t1], b) && !HalfReset(s, b)
    requires Wf(s) && BatchOf(s, b).extent == Some(Extent(s.bufs[b].addr, len))
    ensures Waiting(Next(s, t), t1, b)
  {
    hide Inv, Next, HalfReset, Wf;
    InRange(s, t);
    EarlySealer(s, t1, b);
    SettledPublish(s, t1);
    KeepPublish(s, t1);
    var u := Settle(s, t1, b);
    assert !Unpublished(u, b) by {
      forall t' | 0 <= t' < |u.threads| ensures !Early(u.threads[t'], b) {
        if Early(u.threads[t'], b) {
          EarlySealer(s, t', b);
        }
      }
    }
    KeepDispatch(u, t);
    DispatchLoads(s, t, b, len);
    DispatchLoads(u, t, b, len);
    Swapped(s.threads, t1, Rotating(b), t, Pushing(b, len, s.bufs[b].addr));
  }

  /** A dispatch does harm, in some continuation that keeps to all assumptions,
      exactly when its sealer has not stored the address and either the address
      it finds is not the one claimed or a reset is about to wipe it out. */
  lemma DispatchExactly(s: Ring, t: nat, b: nat, len: nat)
    requires Inv(s) && t < |s.threads| && s.threads[t] == Dispatching(b, len)
    ensures Wf(s)
    ensures CanHarm(Next(s, t), b) <==>
            Unpublished(s, b) && (BatchOf(s, b).extent != Some(Extent(s.bufs[b].addr, len)) || HalfReset(s, b))
  {
    hide Inv, Next, HalfReset, Wf, Executes, Astray, Misreported;
    InvWf(s);
    DispatchLoads(s, t, b, len);
    var s1 := Next(s, t);
    if !Unpublished(s, b) {
      KeepDispatch(s, t);
      forall actions, s' | Executes(ALL, s1, actions, s') ensures !Astray(s', b) && !Misreported(s') {
        KeepRun(s1, actions, s');
        SoundWrites(s', b);
        SoundRecords(s');
      }
    } else {
      var t1 :| 0 <= t1 < |s.threads| && Early(s.threads[t1], b);
      EarlyExactly(s, t, t1, b, len);
    }
  }

  lemma EarlyExactly(s: Ring, t: nat, t1: nat, b: nat, len: nat)
    requires Inv(s) && t < |s.threads| && s.threads[t] == Dispatching(b, len)
    requires t1 < |s.threads| && Early(s.threads[t1], b)
    ensures Wf(s)
    ensures CanHarm(Next(s, t), b) <==>
            BatchOf(s, b).extent != Some(Extent(s.bufs[b].addr, len)) || HalfReset(s, b)
  {
    hide Inv, Next, Wf, Executes, Astray, Misreported;
    InvWf(s);
    InRange(s, t);
    DispatchLoads(s, t, b, len);
    var s1 := Next(s, t);
    if BatchOf(s, b).extent != Some(Extent(s.bufs[b].addr, len)) {
      GoesAstray(s1, t, b, len, s.bufs[b].addr);
    } else if HalfReset(s, b) {
      var t2 :| 0 <= t2 < |s.threads| && s.threads[t2] == Clearing(b);
      ClearingClaims(s, t2, b);
      WipedAddress(s1, t, t2, b, len, s.bufs[b].addr);
    } else {
      EarlyButSettled(s, t, t1, b, len);
      forall actions, s' | Executes(ALL, s1, actions, s') ensures !Astray(s', b) && !Misreported(s') {
        WaitingRun(s1, t1, actions, s', b, b);
      }
    }
  }
}
