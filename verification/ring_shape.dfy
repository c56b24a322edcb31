/** What every step keeps with no scheduling assumption at all: the shape of the
    state, the other threads, and what has been accepted. */
module RingShape {
  import opened Files
  import opened StateWord
  import opened RingProtocol
  import opened RingHistory

  /** Submission numbers are not used twice. */
  ghost predicate IdsFresh(s: Ring)
  {
    forall id :: id in s.outstanding ==> id < s.nextId
  }

  /** A step of thread `t` and its effect on everybody else. */
  ghost predicate OneThread(s: Ring, s': Ring, t: nat)
  {
    && t < |s.threads| && |s'.bufs| == |s.bufs|
    && |s'.threads| == |s.threads|
    && (forall t' :: 0 <= t' < |s.threads| && t' != t ==> s'.threads[t'] == s.threads[t'])
    && s.accepted <= s'.accepted && s.records <= s'.records
    && (s.nextIndex < WORD_LIMIT ==> s'.nextIndex < WORD_LIMIT)
    && (IdsFresh(s) ==> IdsFresh(s'))
  }

  lemma PutShape(s: Ring, t: nat)
    requires Wf(s) && t < |s.threads|
    requires var pc := s.threads[t]; pc.Loaded? || pc.Reserved? || pc.Written?
    ensures Wf(Next(s, t)) && OneThread(s, Next(s, t), t)
  {
    hide Copy, Reserve, Release;
  }

  lemma ClaimShape(s: Ring, t: nat)
    requires Wf(s) && t < |s.threads| && (s.threads[t].LastWriter? || s.threads[t].Claiming?)
    ensures Wf(Next(s, t)) && OneThread(s, Next(s, t), t)
  {
    hide SetFlush;
  }

  lemma SealShape(s: Ring, t: nat)
    requires Wf(s) && t < |s.threads|
    requires var pc := s.threads[t]; pc.Picked? || pc.SawFull? || pc.Sealing? || pc.Sized? || pc.Publishing?
    ensures Wf(Next(s, t)) && OneThread(s, Next(s, t), t)
  {
    hide Pad, StateWord.Seal;
  }

  lemma ScanShape(s: Ring, t: nat)
    requires Wf(s) && t < |s.threads|
    requires var pc := s.threads[t]; pc.Rotating? || pc.Measuring? || pc.Scanning? || pc.Probing? || pc.Checking?
    ensures Wf(Next(s, t)) && OneThread(s, Next(s, t), t)
  {
    hide Available;
  }

  lemma SwapShape(s: Ring, t: nat)
    requires Wf(s) && t < |s.threads|
    requires var pc := s.threads[t]; pc.Swapping? || pc.Booking? || pc.Stamping?
    ensures Wf(Next(s, t)) && OneThread(s, Next(s, t), t)
  {
  }

  lemma FlushShape(s: Ring, t: nat)
    requires Wf(s) && t < |s.threads|
    requires var pc := s.threads[t]; pc.Flushing? || pc.Submitting? || pc.Dispatching? || pc.Pushing? || pc.Retrying?
    ensures Wf(Next(s, t)) && OneThread(s, Next(s, t), t)
  {
    hide Pad, SetFlush;
  }

  lemma ReapShape(s: Ring, t: nat)
    requires Wf(s) && t < |s.threads|
    requires var pc := s.threads[t]; pc.Reaping? || pc.Noting? || pc.Clearing?
    ensures Wf(Next(s, t)) && OneThread(s, Next(s, t), t)
  {
  }

  lemma ResetShape(s: Ring, t: nat)
    requires Wf(s) && t < |s.threads| && s.threads[t].Recorded?
    ensures Wf(Next(s, t)) && OneThread(s, Next(s, t), t)
  {
  }

  lemma NextShape(s: Ring, t: nat)
    requires Wf(s) && t < |s.threads| && !s.threads[t].Idle?
    ensures Wf(Next(s, t)) && OneThread(s, Next(s, t), t)
  {
    hide Wf, OneThread, Next;
    match s.threads[t] {
      case Loaded(_, _, _) => PutShape(s, t);
      case Reserved(_, _, _, _, _) => PutShape(s, t);
      case Written(_, _, _, _) => PutShape(s, t);
      case LastWriter(_) => ClaimShape(s, t);
      case Claiming(_) => ClaimShape(s, t);
      case Picked(_, _) => SealShape(s, t);
      case SawFull(_) => SealShape(s, t);
      case Sealing(_) => SealShape(s, t);
      case Sized(_, _) => SealShape(s, t);
      case Publishing(_, _) => SealShape(s, t);
      case Swapping(_, _, _) => SwapShape(s, t);
      case Booking(_, _, _) => SwapShape(s, t);
      case Stamping(_, _, _) => SwapShape(s, t);
      case Flushing(_) => FlushShape(s, t);
      case Submitting(_) => FlushShape(s, t);
      case Dispatching(_, _) => FlushShape(s, t);
      case Pushing(_, _, _) => FlushShape(s, t);
      case Retrying(_) => FlushShape(s, t);
      case Reaping(_) => ReapShape(s, t);
      case Noting(_, _) => ReapShape(s, t);
      case Recorded(_) => ResetShape(s, t);
      case Clearing(_) => ReapShape(s, t);
      case _ => ScanShape(s, t);
    }
  }

  lemma TakeShape(s: Ring, t: nat, id: nat, junk: Bytes)
    requires Wf(s) && t < |s.threads| && id in s.outstanding
    ensures Wf(DoTakeOk(s, t, id)) && OneThread(s, DoTakeOk(s, t, id), t)
    ensures Wf(DoTakeFailed(s, t, id, junk)) && OneThread(s, DoTakeFailed(s, t, id, junk), t)
  {
    hide WriteAt;
  }

  lemma StepShape(s: Ring, a: Action)
    requires Wf(s) && Enabled(NONE, s, a)
    ensures Wf(Apply(s, a)) && OneThread(s, Apply(s, a), a.t)
  {
    hide Next, DoTakeOk, DoTakeFailed;
    match a {
      case Run(t) => NextShape(s, t);
      case Begin(t, payload) =>
      case TakeOk(t, id) => TakeShape(s, t, id, []);
      case TakeFailed(t, id, junk) => TakeShape(s, t, id, junk);
    }
  }

  lemma {:induction false} ExecutesThen(s: Ring, actions: seq<Action>, s': Ring, a: Action)
    requires Executes(NONE, s, actions, s') && Wf(s') && Enabled(NONE, s', a)
    ensures Executes(NONE, s, actions + [a], Apply(s', a))
    decreases |actions|
  {
    hide Apply, Enabled, Wf;
    if actions == [] {
      assert Executes(NONE, Apply(s, a), [], Apply(s, a));
    } else {
      ExecutesThen(Apply(s, actions[0]), actions[1..], s', a);
      assert (actions + [a])[1..] == actions[1..] + [a];
    }
  }

  lemma PutAccepts(s: Ring, t: nat)
    requires Wf(s) && t < |s.threads|
    requires var pc := s.threads[t];
             pc.Loaded? || pc.Reserved? || pc.LastWriter? || pc.Claiming? || pc.SawFull? || pc.Sized? || pc.Publishing?
             || pc.Noting?
    ensures Next(s, t).accepted == s.accepted
  {
    hide Reserve, Copy, SetFlush, StateWord.Seal;
  }

  lemma OtherAccepts(s: Ring, t: nat)
    requires Wf(s) && t < |s.threads|
    requires var pc := s.threads[t];
             !pc.Loaded? && !pc.Reserved? && !pc.LastWriter? && !pc.Claiming? && !pc.SawFull? && !pc.Sized?
             && !pc.Publishing? && !pc.Noting? && !pc.Written?
    ensures Next(s, t).accepted == s.accepted
  {
    hide Pad, SetFlush, AfterLoad, Available;
  }

  lemma ReleaseAccepts(s: Ring, t: nat)
    requires Wf(s) && t < |s.threads| && s.threads[t].Written?
    ensures var pc := s.threads[t]; Next(s, t).accepted == s.accepted + [Receipt(pc.g, pc.i, pc.payload)]
  {
    hide Release;
  }

  /** A payload is accepted when its writer releases its reservation, and in no
      other way: a thread that found no room is given no receipt, whatever it is
      told. */
  lemma OnlyReleaseAccepts(s: Ring, a: Action)
    requires Wf(s) && Enabled(NONE, s, a)
    ensures Apply(s, a).accepted ==
            if a.Run? && s.threads[a.t].Written?
            then s.accepted + [Receipt(s.threads[a.t].g, s.threads[a.t].i, s.threads[a.t].payload)]
            else s.accepted
  {
    hide Next, WriteAt, Sent;
    if a.Run? {
      var pc := s.threads[a.t];
      if pc.Written? {
        ReleaseAccepts(s, a.t);
      } else if pc.Loaded? || pc.Reserved? || pc.LastWriter? || pc.Claiming? || pc.SawFull? || pc.Sized?
                || pc.Publishing? || pc.Noting? {
        PutAccepts(s, a.t);
      } else {
        OtherAccepts(s, a.t);
      }
    }
  }

  // ---- what one thread did in a run -------------------------------------

  /** A step of a thread: from where it took it and the word it met there, or
      what it began or took. */
  datatype Deed =
    | Stepped(pc: Pc, word: Word)
    | Began(payload: Bytes)
    | Took(id: nat, failed: bool)

  function DeedOf(s: Ring, a: Action): Deed
    requires a.t < |s.threads|
  {
    match a
    case Run(t) =>
      var pc := s.threads[t];
      Stepped(pc, if !pc.Idle? && pc.b < |s.bufs| then s.bufs[pc.b].word else ZERO)
    case Begin(_, payload) => Began(payload)
    case TakeOk(_, id) => Took(id, false)
    case TakeFailed(_, id, _) => Took(id, true)
  }

  /** The steps of thread `t` in a run from `s`, in order. */
  ghost function Trail(s: Ring, actions: seq<Action>, t: nat): seq<Deed>
    decreases |actions|
  {
    if actions == [] || !Wf(s) || !Enabled(NONE, s, actions[0]) then []
    else (if actions[0].t == t then [DeedOf(s, actions[0])] else []) + Trail(Apply(s, actions[0]), actions[1..], t)
  }

  lemma {:induction false} TrailThen(s: Ring, actions: seq<Action>, s': Ring, a: Action, t: nat)
    requires Executes(NONE, s, actions, s') && Wf(s') && Enabled(NONE, s', a)
    ensures Trail(s, actions + [a], t) == Trail(s, actions, t) + (if a.t == t then [DeedOf(s', a)] else [])
    decreases |actions|
  {
    hide Apply, Enabled, Wf, DeedOf;
    if actions == [] {
      assert Trail(Apply(s, a), [], t) == [];
      assert ([] + [a])[1..] == [];
    } else {
      TrailThen(Apply(s, actions[0]), actions[1..], s', a, t);
      assert (actions + [a])[1..] == actions[1..] + [a];
    }
  }
}
