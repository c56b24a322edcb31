/** Runs of the ring protocol: every state satisfies the invariant, and history
    is only ever added to. */
module RingHistory {
  import opened Files
  import opened StateWord
  import opened RingProtocol
  import opened RingInvariant
  import opened RingFrames
  import opened RingQuiet
  import opened RingReservations
  import opened RingSealing
  import opened RingFlushing

  // ---- runs -------------------------------------------------------------

  /** The given actions, each allowed under `g` when it is taken, lead from `s`
      to `s'`. */
  ghost predicate Executes(g: Guards, s: Ring, actions: seq<Action>, s': Ring)
    decreases |actions|
  {
    if actions == [] then s == s'
    else Wf(s) && Enabled(g, s, actions[0]) && Executes(g, Apply(s, actions[0]), actions[1..], s')
  }

  /** `s` is reached by `n` threads on a ring of `capacity` buffers, under the
      scheduling assumptions. */
  ghost predicate Reached(capacity: nat, n: nat, actions: seq<Action>, s: Ring)
  {
    capacity > 0 && n < MAX_WRITERS && Executes(ALL, Init(capacity, n), actions, s)
  }

  lemma {:induction false} RunsJoin(g: Guards, s: Ring, xs: seq<Action>, s1: Ring, ys: seq<Action>, s2: Ring)
    requires Executes(g, s, xs, s1) && Executes(g, s1, ys, s2)
    ensures Executes(g, s, xs + ys, s2)
    decreases |xs|
  {
    hide Apply, Wf, Unpublished, Lingering, HalfReset;
    if xs == [] {
      assert xs + ys == ys;
    } else {
      RunsJoin(g, Apply(s, xs[0]), xs[1..], s1, ys, s2);
      assert (xs + ys)[1..] == xs[1..] + ys;
    }
  }

  lemma InvWf(s: Ring)
    requires Inv(s)
    ensures Wf(s)
  {
  }

  lemma InitOk(capacity: nat, n: nat)
    requires capacity > 0 && n < MAX_WRITERS
    ensures Inv(Init(capacity, n))
  {
    hide WordOk, EntriesOk, SealOk, WatchedOk, TokenOk;
    var s := Init(capacity, n);
    forall b | 0 <= b < |s.bufs| ensures BufferInv(s, b) {
      assert s.bufs[b] == Buffer(ZERO, Zeros(ONE_MEGABYTE_BLOCK), 0, None, b, NoToken);
      assert |Zeros(ONE_MEGABYTE_BLOCK)| == ONE_MEGABYTE_BLOCK;
      assert Holders(s.threads, b) == {};
      FreshBuffer(b, s.bufs[b], s.threads, s.counter, s.outstanding);
    }
  }

  lemma KeepNext(s: Ring, t: nat)
    requires Inv(s) && t < |s.threads| && !s.threads[t].Idle? && Allowed(ALL, s, s.threads[t])
    ensures Inv(Next(s, t))
  {
    hide Inv, Next, Unpublished, Lingering, HalfReset;
    match s.threads[t] {
      case Picked(_, _) => KeepLoad(s, t);
      case Loaded(_, _, _) => KeepReserve(s, t);
      case Reserved(_, _, _, _, _) => KeepCopy(s, t);
      case Written(_, _, _, _) => KeepRelease(s, t);
      case LastWriter(_) => KeepClaim(s, t);
      case SawFull(_) => KeepSeal(s, t);
      case Sealing(_) => KeepSizing(s, t);
      case Sized(_, _) => KeepClaimExtent(s, t);
      case Publishing(_, _) => KeepPublish(s, t);
      case Rotating(_) => KeepRotating(s, t);
      case Measuring(_, _) => KeepRotating(s, t);
      case Scanning(_, _, _) => KeepScan(s, t);
      case Probing(_, _, _, _) => KeepProbe(s, t);
      case Swapping(_, _, _) => KeepSwap(s, t);
      case Booking(_, _, _) => KeepBook(s, t);
      case Stamping(_, _, _) => KeepStamp(s, t);
      case Checking(_) => KeepCheck(s, t);
      case Claiming(_) => KeepClaim(s, t);
      case Flushing(_) => KeepFlushAgain(s, t);
      case Submitting(_) => KeepSubmit(s, t);
      case Dispatching(_, _) => KeepDispatch(s, t);
      case Pushing(_, _, _) => KeepPush(s, t);
      case Reaping(_) => KeepSubmit(s, t);
      case Noting(_, _) => KeepNote(s, t);
      case Recorded(_) => KeepReset(s, t);
      case Clearing(_) => KeepClear(s, t);
      case Retrying(_) => KeepRetry(s, t);
    }
  }

  /** One step under the assumptions keeps the invariant. */
  lemma KeepStep(s: Ring, a: Action)
    requires Inv(s) && Enabled(ALL, s, a)
    ensures Inv(Apply(s, a))
  {
    hide ThreadsInv, TargetsInv, BuffersInv, WritesInv, BatchesInv, RecordsInv, ApartInv, ReceiptsInv, Next;
    match a {
      case Run(t) => KeepNext(s, t);
      case Begin(t, payload) => KeepBegin(s, t, payload);
      case TakeOk(t, id) => KeepTakeOk(s, t, id);
      case TakeFailed(t, id, junk) => KeepTakeFailed(s, t, id, junk);
    }
  }

  lemma {:induction false} KeepRun(s: Ring, actions: seq<Action>, s': Ring)
    requires Inv(s) && Executes(ALL, s, actions, s')
    ensures Inv(s')
    decreases |actions|
  {
    hide Inv, Apply;
    if actions != [] {
      KeepStep(s, actions[0]);
      KeepRun(Apply(s, actions[0]), actions[1..], s');
    }
  }

  /** Every state of every run satisfies the invariant. */
  lemma ReachedOk(capacity: nat, n: nat, actions: seq<Action>, s: Ring)
    requires Reached(capacity, n, actions, s)
    ensures Inv(s)
  {
    hide Inv, Executes;
    InitOk(capacity, n);
    KeepRun(Init(capacity, n), actions, s);
  }

  // ---- history ----------------------------------------------------------

  /** A batch gains entries until its range is claimed, and none after that. */
  predicate BatchGrows(x: Batch, y: Batch)
  {
    && y.buf == x.buf
    && |x.entries| <= |y.entries|
    && (forall i :: 0 <= i < |x.entries| ==>
        && y.entries[i].(copied := x.entries[i].copied) == x.entries[i]
        && (x.entries[i].copied ==> y.entries[i].copied))
    && (x.extent.Some? ==> y.extent == x.extent && |y.entries| == |x.entries|)
    && (x.record.Some? ==> y.record == x.record)
  }

  ghost predicate Grows(s: Ring, s': Ring)
  {
    && |s'.threads| == |s.threads| && |s'.bufs| == |s.bufs|
    && s.records <= s'.records && s.accepted <= s'.accepted
    && |s.batches| <= |s'.batches|
    && (forall g :: 0 <= g < |s.batches| ==> BatchGrows(s.batches[g], s'.batches[g]))
    && s.nextId <= s'.nextId
    && (forall id :: id in s'.outstanding && id < s.nextId ==>
         id in s.outstanding && s'.outstanding[id] == s.outstanding[id])
  }

  /** Thread `t` did something other than reserve, copy or release. */
  predicate Aside(s: Ring, s': Ring, t: nat)
  {
    && t < |s.threads| && |s'.threads| == |s.threads|
    && s'.threads == s.threads[t := s'.threads[t]]
    && s'.accepted == s.accepted
    && !s'.threads[t].Reserved? && !s'.threads[t].Written?
  }

  lemma BatchGrowsTransitive(x: Batch, y: Batch, z: Batch)
    requires BatchGrows(x, y) && BatchGrows(y, z)
    ensures BatchGrows(x, z)
  {
    forall i | 0 <= i < |x.entries|
      ensures z.entries[i].(copied := x.entries[i].copied) == x.entries[i]
      ensures x.entries[i].copied ==> z.entries[i].copied
    {
      assert y.entries[i].(copied := x.entries[i].copied) == x.entries[i];
      assert z.entries[i].(copied := y.entries[i].copied) == y.entries[i];
    }
  }

  lemma GrowsTransitive(s: Ring, s1: Ring, s2: Ring)
    requires Grows(s, s1) && Grows(s1, s2)
    ensures Grows(s, s2)
  {
    hide BatchGrows;
    forall g | 0 <= g < |s.batches| ensures BatchGrows(s.batches[g], s2.batches[g]) {
      BatchGrowsTransitive(s.batches[g], s1.batches[g], s2.batches[g]);
    }
  }

  /** A step that changes one batch at most. */
  lemma OneBatchGrows(s: Ring, s': Ring, g: nat)
    requires g < |s.batches| && |s'.batches| == |s.batches|
    requires s'.batches == s.batches[g := s'.batches[g]] && BatchGrows(s.batches[g], s'.batches[g])
    requires |s'.threads| == |s.threads| && |s'.bufs| == |s.bufs|
    requires s.records <= s'.records && s.accepted <= s'.accepted
    requires s'.outstanding == s.outstanding && s'.nextId == s.nextId
    ensures Grows(s, s')
  {
    forall h | 0 <= h < |s.batches| ensures BatchGrows(s.batches[h], s'.batches[h]) {
    }
  }

  lemma ReserveGrows(s: Ring, t: nat)
    requires Inv(s) && t < |s.threads| && s.threads[t].Loaded?
    ensures Grows(s, Next(s, t))
  {
    hide WritesInv, BatchesInv, RecordsInv, ApartInv, ReceiptsInv, TargetsInv, WordOk, EntriesOk, WatchedOk,
         TokenOk, Tiled, End, Pad;
    var b := s.threads[t].b;
    assert ThreadInv(s, t);
    assert BufferInv(s, b);
    OneBatchGrows(s, Next(s, t), s.bufs[b].gen);
  }

  lemma CopyGrows(s: Ring, t: nat)
    requires Inv(s) && t < |s.threads| && s.threads[t].Reserved?
    ensures Grows(s, Next(s, t))
  {
    hide WritesInv, BatchesInv, RecordsInv, ApartInv, ReceiptsInv, TargetsInv, BuffersInv, ThreadsInv, Blit, Confined;
    var b := s.threads[t].b;
    CopyShape(s, t);
    OneBatchGrows(s, Next(s, t), s.bufs[b].gen);
  }

  lemma ReleaseGrows(s: Ring, t: nat)
    requires Inv(s) && t < |s.threads| && s.threads[t].Written?
    ensures Grows(s, Next(s, t))
  {
    hide WritesInv, BatchesInv, RecordsInv, ApartInv, ReceiptsInv, TargetsInv, BuffersInv, ThreadsInv, Release;
    OneBatchGrows(s, Next(s, t), s.bufs[s.threads[t].b].gen);
  }

  lemma SealGrows(s: Ring, t: nat)
    requires Inv(s) && t < |s.threads|
    requires s.threads[t].SawFull? || s.threads[t].Claiming? || s.threads[t].LastWriter?
    ensures Grows(s, Next(s, t)) && Aside(s, Next(s, t), t)
  {
    hide WritesInv, BatchesInv, RecordsInv, ApartInv, ReceiptsInv, TargetsInv, BuffersInv, ThreadsInv;
    OneBatchGrows(s, Next(s, t), s.bufs[s.threads[t].b].gen);
  }

  lemma ExtentGrows(s: Ring, t: nat)
    requires Inv(s) && t < |s.threads| && (s.threads[t].Sized? || s.threads[t].Publishing? || s.threads[t].Noting?)
    ensures Grows(s, Next(s, t)) && Aside(s, Next(s, t), t)
  {
    hide WritesInv, BatchesInv, RecordsInv, ApartInv, ReceiptsInv, TargetsInv, BuffersInv, Pad;
    assert ThreadInv(s, t);
    OneBatchGrows(s, Next(s, t), s.bufs[s.threads[t].b].gen);
  }

  lemma PushGrows(s: Ring, t: nat)
    requires Inv(s) && t < |s.threads| && (s.threads[t].Pushing? || s.threads[t].Retrying?)
    ensures Grows(s, Next(s, t)) && Aside(s, Next(s, t), t)
  {
    hide WritesInv, BatchesInv, RecordsInv, ApartInv, ReceiptsInv, TargetsInv, BuffersInv, ThreadsInv;
  }

  lemma ResetGrows(s: Ring, t: nat)
    requires Inv(s) && t < |s.threads| && s.threads[t].Recorded?
    ensures Grows(s, Next(s, t)) && Aside(s, Next(s, t), t)
  {
    hide WritesInv, BatchesInv, RecordsInv, ApartInv, ReceiptsInv, TargetsInv, BuffersInv, ThreadsInv;
  }

  /** Every other step leaves history alone. */
  lemma RotateGrows(s: Ring, t: nat)
    requires Inv(s) && t < |s.threads|
    requires var pc := s.threads[t]; pc.Rotating? || pc.Measuring? || pc.Scanning? || pc.Probing? || pc.Checking?
    ensures Grows(s, Next(s, t)) && Aside(s, Next(s, t), t)
  {
    hide WritesInv, BatchesInv, RecordsInv, ApartInv, ReceiptsInv, TargetsInv, BuffersInv, ThreadsInv, Available;
  }

  lemma SwapGrows(s: Ring, t: nat)
    requires Inv(s) && t < |s.threads|
    requires var pc := s.threads[t]; pc.Swapping? || pc.Booking? || pc.Stamping?
    ensures Grows(s, Next(s, t)) && Aside(s, Next(s, t), t)
  {
    hide WritesInv, BatchesInv, RecordsInv, ApartInv, ReceiptsInv, TargetsInv, BuffersInv, ThreadsInv;
  }

  lemma OtherGrows(s: Ring, t: nat)
    requires Inv(s) && t < |s.threads|
    requires var pc := s.threads[t];
             pc.Picked? || pc.Sealing? || pc.Flushing? || pc.Submitting? || pc.Dispatching?
             || pc.Reaping? || pc.Clearing?
    ensures Grows(s, Next(s, t)) && Aside(s, Next(s, t), t)
  {
    hide WritesInv, BatchesInv, RecordsInv, ApartInv, ReceiptsInv, TargetsInv, BuffersInv, ThreadsInv, Pad, SetFlush;
  }

  lemma TakeGrows(s: Ring, t: nat, id: nat, junk: Bytes)
    requires Inv(s) && t < |s.threads| && id in s.outstanding
    ensures Grows(s, DoTakeOk(s, t, id)) && Grows(s, DoTakeFailed(s, t, id, junk))
    ensures Aside(s, DoTakeOk(s, t, id), t) && Aside(s, DoTakeFailed(s, t, id, junk), t)
  {
    hide WritesInv, BatchesInv, RecordsInv, ApartInv, ReceiptsInv, TargetsInv, BuffersInv, ThreadsInv, WriteAt;
  }

  lemma NextGrows(s: Ring, t: nat)
    requires Inv(s) && t < |s.threads| && !s.threads[t].Idle?
    ensures Grows(s, Next(s, t))
    ensures s.threads[t].Loaded? || s.threads[t].Reserved? || s.threads[t].Written? || Aside(s, Next(s, t), t)
  {
    hide Inv, Next, Grows, Aside;
    match s.threads[t] {
      case Loaded(_, _, _) => ReserveGrows(s, t);
      case Reserved(_, _, _, _, _) => CopyGrows(s, t);
      case Written(_, _, _, _) => ReleaseGrows(s, t);
      case LastWriter(_) => SealGrows(s, t);
      case SawFull(_) => SealGrows(s, t);
      case Claiming(_) => SealGrows(s, t);
      case Sized(_, _) => ExtentGrows(s, t);
      case Publishing(_, _) => ExtentGrows(s, t);
      case Noting(_, _) => ExtentGrows(s, t);
      case Pushing(_, _, _) => PushGrows(s, t);
      case Retrying(_) => PushGrows(s, t);
      case Recorded(_) => ResetGrows(s, t);
      case Picked(_, _) => OtherGrows(s, t);
      case Sealing(_) => OtherGrows(s, t);
      case Flushing(_) => OtherGrows(s, t);
      case Submitting(_) => OtherGrows(s, t);
      case Dispatching(_, _) => OtherGrows(s, t);
      case Reaping(_) => OtherGrows(s, t);
      case Clearing(_) => OtherGrows(s, t);
      case Swapping(_, _, _) => SwapGrows(s, t);
      case Booking(_, _, _) => SwapGrows(s, t);
      case Stamping(_, _, _) => SwapGrows(s, t);
      case _ => RotateGrows(s, t);
    }
  }

  lemma StepGrows(s: Ring, a: Action)
    requires Inv(s) && Enabled(ALL, s, a)
    ensures Grows(s, Apply(s, a))
  {
    hide ThreadsInv, TargetsInv, BuffersInv, WritesInv, BatchesInv, RecordsInv, ApartInv, ReceiptsInv, Next,
         DoTakeOk, DoTakeFailed;
    match a {
      case Run(t) => NextGrows(s, t);
      case Begin(t, payload) =>
      case TakeOk(t, id) => TakeGrows(s, t, id, []);
      case TakeFailed(t, id, junk) => TakeGrows(s, t, id, junk);
    }
  }

  lemma {:induction false} RunGrows(s: Ring, actions: seq<Action>, s': Ring)
    requires Inv(s) && Executes(ALL, s, actions, s')
    ensures Inv(s') && Grows(s, s')
    decreases |actions|
  {
    hide Inv, Apply, Grows;
    KeepRun(s, actions, s');
    if actions == [] {
      NothingGrows(s);
    } else {
      var s1 := Apply(s, actions[0]);
      KeepStep(s, actions[0]);
      StepGrows(s, actions[0]);
      RunGrows(s1, actions[1..], s');
      GrowsTransitive(s, s1, s');
    }
  }

  lemma NothingGrows(s: Ring)
    ensures Grows(s, s)
  {
  }

  // ---- no two receipts for one reservation ------------------------------

  /** A receipt and a thread never share a reservation, nor do two receipts. */
  ghost predicate TicketsInv(s: Ring)
  {
    && (forall k, k' :: 0 <= k < k' < |s.accepted| ==>
        s.accepted[k].gen != s.accepted[k'].gen || s.accepted[k].index != s.accepted[k'].index)
    && (forall t :: 0 <= t < |s.threads| ==> TicketOk(t, s.threads[t], s.batches, s.accepted))
  }

  predicate TicketOk(t: nat, pc: Pc, batches: seq<Batch>, accepted: seq<Receipt>)
  {
    pc.Reserved? || pc.Written? ==>
      && pc.g < |batches| && pc.i < |batches[pc.g].entries|
      && batches[pc.g].entries[pc.i].owner == t
      && (forall k :: 0 <= k < |accepted| ==> accepted[k].gen != pc.g || accepted[k].index != pc.i)
  }

  lemma TicketGrows(t: nat, pc: Pc, s: Ring, s': Ring)
    requires TicketOk(t, pc, s.batches, s.accepted) && Grows(s, s') && s'.accepted == s.accepted
    ensures TicketOk(t, pc, s'.batches, s'.accepted)
  {
    if pc.Reserved? || pc.Written? {
      assert BatchGrows(s.batches[pc.g], s'.batches[pc.g]);
      var e, e' := s.batches[pc.g].entries[pc.i], s'.batches[pc.g].entries[pc.i];
      assert e'.(copied := e.copied) == e;
    }
  }

  lemma TicketsFrame(s: Ring, s': Ring, t: nat)
    requires TicketsInv(s) && Grows(s, s') && s'.accepted == s.accepted
    requires t < |s.threads| && s'.threads == s.threads[t := s'.threads[t]]
    requires TicketOk(t, s'.threads[t], s'.batches, s'.accepted)
    ensures TicketsInv(s')
  {
    hide TicketOk, Grows;
    forall t' | 0 <= t' < |s'.threads| ensures TicketOk(t', s'.threads[t'], s'.batches, s'.accepted) {
      if t' != t { TicketGrows(t', s.threads[t'], s, s'); }
    }
  }

  lemma ReserveTickets(s: Ring, t: nat)
    requires Inv(s) && TicketsInv(s) && t < |s.threads| && s.threads[t].Loaded?
    ensures TicketsInv(Next(s, t))
  {
    hide ThreadsInv, TargetsInv, BuffersInv, WritesInv, BatchesInv, RecordsInv, ApartInv, Grows, Reserve;
    ReserveGrows(s, t);
    var b := s.threads[t].b;
    var s' := Next(s, t);
    assert TicketOk(t, s'.threads[t], s'.batches, s'.accepted) by {
      forall k | 0 <= k < |s.accepted|
        ensures s.accepted[k].gen != s.bufs[b].gen || s.accepted[k].index != |BatchOf(s, b).entries|
      {
        assert ReceiptOk(s.accepted[k], s.batches);
      }
    }
    TicketsFrame(s, s', t);
  }

  lemma CopyTickets(s: Ring, t: nat)
    requires Inv(s) && TicketsInv(s) && t < |s.threads| && s.threads[t].Reserved?
    ensures TicketsInv(Next(s, t))
  {
    hide ThreadsInv, TargetsInv, BuffersInv, WritesInv, BatchesInv, RecordsInv, ApartInv, ReceiptsInv, Grows, Copy;
    CopyGrows(s, t);
    var s' := Next(s, t);
    assert TicketOk(t, s.threads[t], s.batches, s.accepted);
    TicketsFrame(s, s', t);
  }

  lemma ReleaseTickets(s: Ring, t: nat)
    requires Inv(s) && TicketsInv(s) && t < |s.threads| && s.threads[t].Written?
    ensures TicketsInv(Next(s, t))
  {
    hide ThreadsInv, TargetsInv, BuffersInv, WritesInv, BatchesInv, RecordsInv, ApartInv, ReceiptsInv, Grows, Release;
    ReleaseGrows(s, t);
    var s', pc := Next(s, t), s.threads[t];
    var before := s'.(accepted := s.accepted);
    assert TicketOk(t, pc, s.batches, s.accepted);
    assert Grows(s, before) by { ReceiptAside(s, s'); }
    TicketsFrame(s, before, t);
    forall t' | 0 <= t' < |s'.threads| ensures TicketOk(t', s'.threads[t'], s'.batches, s'.accepted) {
      assert TicketOk(t', before.threads[t'], before.batches, before.accepted);
      assert TicketOk(t', s.threads[t'], s.batches, s.accepted);
    }
  }

  lemma ReceiptAside(s: Ring, s': Ring)
    requires Grows(s, s')
    ensures Grows(s, s'.(accepted := s.accepted))
  {
  }

  lemma KeepTickets(s: Ring, a: Action)
    requires Inv(s) && TicketsInv(s) && Enabled(ALL, s, a)
    ensures TicketsInv(Apply(s, a))
  {
    hide ThreadsInv, TargetsInv, BuffersInv, WritesInv, BatchesInv, RecordsInv, ApartInv, ReceiptsInv, Next,
         DoTakeOk, DoTakeFailed, Grows, TicketsInv;
    var s' := Apply(s, a);
    StepGrows(s, a);
    if a.Run? && s.threads[a.t].Loaded? {
      ReserveTickets(s, a.t);
    } else if a.Run? && s.threads[a.t].Reserved? {
      CopyTickets(s, a.t);
    } else if a.Run? && s.threads[a.t].Written? {
      ReleaseTickets(s, a.t);
    } else {
      match a {
        case Run(t) => NextGrows(s, t);
        case Begin(t, payload) =>
        case TakeOk(t, id) => TakeGrows(s, t, id, []);
        case TakeFailed(t, id, junk) => TakeGrows(s, t, id, junk);
      }
      TicketsFrame(s, s', a.t);
    }
  }

  lemma {:induction false} RunTickets(s: Ring, actions: seq<Action>, s': Ring)
    requires Inv(s) && TicketsInv(s) && Executes(ALL, s, actions, s')
    ensures TicketsInv(s')
    decreases |actions|
  {
    hide Inv, Apply, TicketsInv;
    if actions != [] {
      KeepStep(s, actions[0]);
      KeepTickets(s, actions[0]);
      RunTickets(Apply(s, actions[0]), actions[1..], s');
    }
  }
}
