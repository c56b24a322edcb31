/** The threads never block each other for good: left alone, with no new
    payloads and no completions, they come to rest under all the scheduling
    assumptions, and then every sealed buffer has been dispatched. */
module RingProgress {
  import opened Files
  import opened StateWord
  import opened RingProtocol
  import opened RingHistory
  import opened RingShape
  import opened RingTheorems

  // ---- how far a thread is from its end ---------------------------------

  /** More than the number of steps a thread can still take, on a ring of `n`
      buffers. */
  function Rank(pc: Pc, n: nat): nat
  {
    match pc
    case Idle => 0
    case Picked(_, _) => 2 * n + 18
    case Loaded(_, _, _) => 8
    case Reserved(_, _, _, _, _) => 7
    case Written(_, _, _, _) => 6
    case LastWriter(_) => 5
    case SawFull(_) => 2 * n + 17
    case Sealing(_) => 2 * n + 16
    case Sized(_, _) => 2 * n + 15
    case Publishing(_, _) => 2 * n + 14
    case Rotating(_) => 2 * n + 13
    case Measuring(_, _) => 2 * n + 12
    case Scanning(_, _, left) => 2 * left + 10
    case Probing(_, _, left, _) => 2 * left + 11
    case Swapping(_, _, _) => 9
    case Booking(_, _, _) => 8
    case Stamping(_, _, _) => 7
    case Checking(_) => 6
    case Claiming(_) => 5
    case Flushing(_) => 4
    case Submitting(_) => 3
    case Dispatching(_, _) => 2
    case Pushing(_, _, _) => 1
    case Reaping(_) => 4
    case Noting(_, _) => 3
    case Recorded(_) => 2
    case Clearing(_) => 1
    case Retrying(_) => 1
  }

  function TotalRank(threads: seq<Pc>, n: nat): nat
  {
    if threads == [] then 0 else TotalRank(threads[..|threads| - 1], n) + Rank(threads[|threads| - 1], n)
  }

  lemma {:induction false} TotalFalls(threads: seq<Pc>, t: nat, pc: Pc, n: nat)
    requires t < |threads|
    ensures TotalRank(threads[t := pc], n) + Rank(threads[t], n) == TotalRank(threads, n) + Rank(pc, n)
    decreases |threads|
  {
    hide Rank;
    var last := |threads| - 1;
    if t < last {
      TotalFalls(threads[..last], t, pc, n);
      assert threads[t := pc][..last] == threads[..last][t := pc];
    } else {
      assert threads[t := pc][..last] == threads[..last];
    }
  }

  lemma PutFalls(s: Ring, t: nat)
    requires Wf(s) && t < |s.threads|
    requires var pc := s.threads[t];
             pc.Picked? || pc.Loaded? || pc.Reserved? || pc.Written? || pc.LastWriter? || pc.Claiming? || pc.Flushing?
    ensures Rank(Next(s, t).threads[t], |s.bufs|) < Rank(s.threads[t], |s.bufs|)
  {
    hide Release, Reserve, Copy, SetFlush;
  }

  lemma SealFalls(s: Ring, t: nat)
    requires Wf(s) && t < |s.threads|
    requires var pc := s.threads[t];
             pc.SawFull? || pc.Sealing? || pc.Sized? || pc.Publishing? || pc.Checking? || pc.Rotating? || pc.Measuring?
    ensures Rank(Next(s, t).threads[t], |s.bufs|) < Rank(s.threads[t], |s.bufs|)
  {
    hide Pad;
  }

  lemma ScanFalls(s: Ring, t: nat)
    requires Wf(s) && t < |s.threads|
    requires var pc := s.threads[t]; pc.Scanning? || pc.Probing? || pc.Swapping? || pc.Booking? || pc.Stamping?
    ensures Rank(Next(s, t).threads[t], |s.bufs|) < Rank(s.threads[t], |s.bufs|)
  {
    hide Available;
  }

  lemma FlushFalls(s: Ring, t: nat)
    requires Wf(s) && t < |s.threads|
    requires var pc := s.threads[t];
             pc.Submitting? || pc.Dispatching? || pc.Pushing? || pc.Reaping? || pc.Noting?
             || pc.Recorded? || pc.Clearing?
             || pc.Retrying?
    ensures Rank(Next(s, t).threads[t], |s.bufs|) < Rank(s.threads[t], |s.bufs|)
  {
    hide Pad;
  }

  /** Every step brings its thread nearer to its end. */
  lemma RankFalls(s: Ring, t: nat)
    requires Wf(s) && t < |s.threads| && !s.threads[t].Idle?
    ensures |Next(s, t).threads| == |s.threads| && |Next(s, t).bufs| == |s.bufs| && Wf(Next(s, t))
    ensures Rank(Next(s, t).threads[t], |s.bufs|) < Rank(s.threads[t], |s.bufs|)
  {
    hide Next, Rank, Wf;
    NextShape(s, t);
    var pc := s.threads[t];
    if pc.Picked? || pc.Loaded? || pc.Reserved? || pc.Written? || pc.LastWriter? || pc.Claiming? || pc.Flushing? {
      PutFalls(s, t);
    } else if pc.SawFull? || pc.Sealing? || pc.Sized? || pc.Publishing?
              || pc.Checking? || pc.Rotating? || pc.Measuring? {
      SealFalls(s, t);
    } else if pc.Scanning? || pc.Probing? || pc.Swapping? || pc.Booking? || pc.Stamping? {
      ScanFalls(s, t);
    } else {
      FlushFalls(s, t);
    }
  }

  lemma StepFalls(s: Ring, t: nat)
    requires Wf(s) && t < |s.threads| && !s.threads[t].Idle?
    ensures Wf(Next(s, t)) && |Next(s, t).bufs| == |s.bufs|
    ensures TotalRank(Next(s, t).threads, |s.bufs|) < TotalRank(s.threads, |s.bufs|)
  {
    hide Next, Rank, Wf, TotalRank;
    NextShape(s, t);
    RankFalls(s, t);
    var pc := Next(s, t).threads[t];
    assert Next(s, t).threads == s.threads[t := pc];
    TotalFalls(s.threads, t, pc, |s.bufs|);
  }

  // ---- somebody can always move -----------------------------------------

  ghost predicate Quiet(s: Ring)
  {
    forall t :: 0 <= t < |s.threads| ==> s.threads[t].Idle?
  }

  ghost predicate CanMove(s: Ring, t: nat)
  {
    t < |s.threads| && !s.threads[t].Idle? && Allowed(ALL, s, s.threads[t])
  }

  /** A thread that an assumption holds back waits for another that none does:
      in the end for one that is about to clear an address. */
  lemma SomebodyMoves(s: Ring, t: nat) returns (t': nat)
    requires t < |s.threads| && !s.threads[t].Idle?
    ensures CanMove(s, t')
  {
    hide Unpublished, Lingering, HalfReset;
    var b := s.threads[t].b;
    if Allowed(ALL, s, s.threads[t]) {
      t' := t;
    } else if s.threads[t].Publishing? {
      t' := Clearer(s, b);
    } else if s.threads[t].Dispatching? {
      t' := EarlyMover(s, b);
    } else {
      t' := Lingerer(s, b);
      if Early(s.threads[t'], b) { t' := Onward(s, t', b); }
    }
  }

  lemma Clearer(s: Ring, b: nat) returns (t: nat)
    requires HalfReset(s, b)
    ensures CanMove(s, t)
  {
    t :| 0 <= t < |s.threads| && s.threads[t] == Clearing(b);
  }

  lemma Onward(s: Ring, t: nat, b: nat) returns (t': nat)
    requires t < |s.threads| && Early(s.threads[t], b)
    ensures CanMove(s, t')
  {
    hide Unpublished, Lingering, HalfReset;
    if s.threads[t].Publishing? && HalfReset(s, b) {
      t' := Clearer(s, b);
    } else {
      t' := t;
    }
  }

  lemma EarlyMover(s: Ring, b: nat) returns (t: nat)
    requires Unpublished(s, b)
    ensures CanMove(s, t)
  {
    hide Lingering, HalfReset, CanMove;
    t :| 0 <= t < |s.threads| && Early(s.threads[t], b);
    t := Onward(s, t, b);
  }

  lemma Lingerer(s: Ring, b: nat) returns (t: nat)
    requires Lingering(s, b)
    ensures t < |s.threads| && (Early(s.threads[t], b) || CanMove(s, t))
  {
    t :| 0 <= t < |s.threads| && (Tail(s.threads[t], b) || s.threads[t] == LastWriter(b));
  }

  // ---- coming to rest ---------------------------------------------------

  /** Steps of threads only: nothing begins, nothing completes. */
  predicate OnlyRuns(actions: seq<Action>)
  {
    forall i :: 0 <= i < |actions| ==> actions[i].Run?
  }

  /** Whatever order they step in, the threads stop after a bounded number of
      steps. */
  lemma {:induction false} RunsEnd(s: Ring, actions: seq<Action>, s': Ring)
    requires Wf(s) && OnlyRuns(actions) && Executes(ALL, s, actions, s')
    ensures |actions| <= TotalRank(s.threads, |s.bufs|)
    decreases |actions|
  {
    hide Next, Wf, TotalRank, Unpublished, Lingering, HalfReset;
    if actions != [] {
      StepFalls(s, actions[0].t);
      RunsEnd(Next(s, actions[0].t), actions[1..], s');
    }
  }

  /** And they do not stop before all are done. */
  lemma {:induction false} ComesToRest(s: Ring) returns (actions: seq<Action>, s': Ring)
    requires Wf(s)
    ensures OnlyRuns(actions) && Executes(ALL, s, actions, s') && Quiet(s')
    decreases TotalRank(s.threads, |s.bufs|)
  {
    hide Next, Wf, TotalRank, CanMove, Unpublished, Lingering, HalfReset;
    if Quiet(s) {
      actions, s' := [], s;
    } else {
      var t :| 0 <= t < |s.threads| && !s.threads[t].Idle?;
      var t' := SomebodyMoves(s, t);
      MoverRuns(s, t');
      StepFalls(s, t');
      var rest: seq<Action>;
      rest, s' := ComesToRest(Next(s, t'));
      actions := [Run(t')] + rest;
      assert actions[1..] == rest;
    }
  }

  lemma MoverRuns(s: Ring, t: nat)
    requires Wf(s) && CanMove(s, t)
    ensures t < |s.threads| && !s.threads[t].Idle?
    ensures Enabled(ALL, s, Run(t)) && Enabled(NONE, s, Run(t)) && Apply(s, Run(t)) == Next(s, t)
  {
    hide Next, Wf, Unpublished, Lingering, HalfReset;
  }

  /** From every reached state, the threads left alone come to rest, and every
      buffer that is sealed then has been dispatched. */
  lemma EverySealDispatched(capacity: nat, n: nat, actions: seq<Action>, s: Ring) returns (more: seq<Action>, s': Ring)
    requires Reached(capacity, n, actions, s)
    ensures OnlyRuns(more) && Executes(ALL, s, more, s') && Quiet(s')
    ensures forall b :: 0 <= b < |s'.bufs| && s'.bufs[b].word.sealed ==>
              s'.bufs[b].word.flushing && exists id :: id in s'.outstanding && s'.outstanding[id].buf == b
  {
    hide Executes, Wf, RingInvariant.Inv;
    ReachedOk(capacity, n, actions, s);
    InvWf(s);
    more, s' := ComesToRest(s);
    RunsJoin(ALL, Init(capacity, n), actions, s, more, s');
    forall b | 0 <= b < |s'.bufs| && s'.bufs[b].word.sealed
      ensures s'.bufs[b].word.flushing && exists id :: id in s'.outstanding && s'.outstanding[id].buf == b
    {
      QuietMeansDispatched(capacity, n, actions + more, s', b);
    }
  }
}
