/** What every run of the slot-ring writers guarantees. */
module WriterTheorems {
  import opened Files
  import opened WriterSystem
  import opened WriterSteps

  // ---- runs -------------------------------------------------------------

  ghost predicate Executes(s: System, actions: seq<Action>, s': System)
    decreases |actions|
  {
    if actions == [] then s == s'
    else Enabled(s, actions[0]) && Executes(Apply(s, actions[0]), actions[1..], s')
  }

  /** `s` is reached by as many writers as `mems` has entries, in any
      interleaving and with any order of completions. */
  ghost predicate Reached(mems: seq<seq<Bytes>>, actions: seq<Action>, s: System)
  {
    (forall w :: 0 <= w < |mems| ==> MemsOk(mems[w])) && Executes(Init(mems), actions, s)
  }

  lemma {:induction false} FreshFlights(slots: seq<Slot>)
    requires forall k :: 0 <= k < |slots| ==> slots[k].state == Open
    ensures Flights(slots) == multiset{} && CountInFlight(slots) == 0
    decreases |slots|
  {
    if slots != [] {
      FreshFlights(slots[..|slots| - 1]);
    }
  }

  lemma InitOk(mems: seq<seq<Bytes>>)
    requires forall w :: 0 <= w < |mems| ==> MemsOk(mems[w])
    ensures Inv(Init(mems))
  {
    var s := Init(mems);
    forall w | 0 <= w < |s.writers| ensures WriterOk(w, s.writers[w], s.claims) {
      assert s.writers[w] == FreshWriter(mems[w]);
      FreshFlights(s.writers[w].slots);
    }
  }

  lemma {:induction false} KeepRun(s: System, actions: seq<Action>, s': System)
    requires Inv(s) && Executes(s, actions, s')
    ensures Inv(s') && |s'.writers| == |s.writers|
    decreases |actions|
  {
    hide Inv, Apply, Enabled;
    if actions != [] {
      KeepStep(s, actions[0]);
      KeepRun(Apply(s, actions[0]), actions[1..], s');
    }
  }

  lemma ReachedOk(mems: seq<seq<Bytes>>, actions: seq<Action>, s: System)
    requires Reached(mems, actions, s)
    ensures Inv(s) && |s.writers| == |mems|
  {
    hide Inv, Executes;
    InitOk(mems);
    KeepRun(Init(mems), actions, s);
  }

  // ---- slots and completions --------------------------------------------

  function InFlightSlots(slots: seq<Slot>): set<nat>
  {
    set k | 0 <= k < |slots| && slots[k].state == InFlight
  }

  lemma {:induction false} CountIsSize(slots: seq<Slot>)
    ensures CountInFlight(slots) == |InFlightSlots(slots)|
    decreases |slots|
  {
    if slots != [] {
      var n := |slots| - 1;
      CountIsSize(slots[..n]);
      assert InFlightSlots(slots) == InFlightSlots(slots[..n]) + (if slots[n].state == InFlight then {n} else {});
    }
  }

  /** The head slot is open between operations, `pending` is the number of slots
      in flight, and every such slot has exactly one outstanding write or
      unread completion, which every write and completion belongs to. */
  lemma PendingIsInFlight(mems: seq<seq<Bytes>>, actions: seq<Action>, s: System, w: nat)
    requires Reached(mems, actions, s) && w < |s.writers|
    ensures var wr := s.writers[w];
            && |wr.slots| == RING_LEN && wr.head < RING_LEN
            && (!wr.rotating ==> wr.slots[wr.head].state == Open)
            && wr.pending == |InFlightSlots(wr.slots)| == |wr.outstanding| + |wr.cq|
  {
    hide Executes, SlotsOk, KernelOk, RangesOk, AppendedOk, ClaimOk, TilesTo, CountInFlight;
    ReachedOk(mems, actions, s);
    assert WriterOk(w, s.writers[w], s.claims);
    CountIsSize(s.writers[w].slots);
  }

  /** The slot a write or completion is for. */
  predicate WriteFor(wr: Writer, id: nat, k: nat)
  {
    id in wr.outstanding && wr.outstanding[id].slot == k
  }

  predicate CompletionFor(wr: Writer, i: nat, k: nat)
  {
    i < |wr.cq| && UnpackIndex(wr.cq[i]) == k
  }

  lemma OneWriteEach(mems: seq<seq<Bytes>>, actions: seq<Action>, s: System, w: nat, k: nat)
    requires Reached(mems, actions, s) && w < |s.writers| && k < RING_LEN
    ensures var wr := s.writers[w];
            && |wr.slots| == RING_LEN
            && (wr.slots[k].state == InFlight <==>
                (exists id :: WriteFor(wr, id, k)) || (exists i :: CompletionFor(wr, i, k)))
            && (forall id, id' :: WriteFor(wr, id, k) && WriteFor(wr, id', k) ==> id == id')
            && (forall i, i' :: CompletionFor(wr, i, k) && CompletionFor(wr, i', k) ==> i == i')
            && !((exists id :: WriteFor(wr, id, k)) && (exists i :: CompletionFor(wr, i, k)))
  {
    hide Executes, RangesOk, AppendedOk, ClaimOk, TilesTo, CountInFlight, Pack, UnpackIndex, UnpackLen, SlotOk,
         SqeOk, CqeOk;
    ReachedOk(mems, actions, s);
    var wr := s.writers[w];
    assert WriterOk(w, wr, s.claims);
    if wr.slots[k].state == InFlight { SlotHasOne(w, wr, s.claims, k); }
    forall id | WriteFor(wr, id, k) ensures wr.slots[k].state == InFlight && wr.slots[k].token == InRing(id) {
      WriteHasSlot(wr, id, k);
    }
    forall i | CompletionFor(wr, i, k)
      ensures wr.slots[k].state == InFlight && wr.slots[k].token == Queued(wr.reaped + i)
    {
      CompletionHasSlot(wr, i, k);
    }
  }

  lemma SlotHasOne(w: nat, wr: Writer, claims: seq<Claim>, k: nat)
    requires WriterOk(w, wr, claims) && k < |wr.slots| && wr.slots[k].state == InFlight
    ensures (exists id :: WriteFor(wr, id, k)) || (exists i :: CompletionFor(wr, i, k))
  {
    hide RangesOk, AppendedOk, CountInFlight, Pack, UnpackIndex, UnpackLen, KernelOk;
    var slot := wr.slots[k];
    assert SlotOk(w, k, slot, wr.outstanding, wr.cq, wr.reaped, claims);
    match slot.token {
      case InRing(id) => assert WriteFor(wr, id, k);
      case Queued(n) =>
        PackUnpack(k, slot.sealedLen);
        assert CompletionFor(wr, n - wr.reaped, k);
    }
  }

  lemma WriteHasSlot(wr: Writer, id: nat, k: nat)
    requires KernelOk(wr) && WriteFor(wr, id, k)
    ensures k < |wr.slots| && wr.slots[k].state == InFlight && wr.slots[k].token == InRing(id)
  {
    hide CqeOk;
    assert SqeOk(id, wr.outstanding[id], wr.slots, wr.nextId);
  }

  lemma CompletionHasSlot(wr: Writer, i: nat, k: nat)
    requires KernelOk(wr) && CompletionFor(wr, i, k)
    ensures k < |wr.slots| && wr.slots[k].state == InFlight && wr.slots[k].token == Queued(wr.reaped + i)
  {
    hide SqeOk, UnpackIndex;
    assert CqeOk(wr.reaped + i, wr.cq[i], wr.slots);
  }

  // ---- in-flight slots are frozen ---------------------------------------

  /** Slot `k` of writer `w` is in flight as claim `c`. */
  predicate Carries(s: System, w: nat, k: nat, c: nat)
  {
    && w < |s.writers| && k < |s.writers[w].slots|
    && s.writers[w].slots[k].state == InFlight && s.writers[w].slots[k].claim == c
  }

  /** One step, whoever takes it, leaves an in-flight slot as it is or reaps it;
      and no step puts an old claim back in flight. */
  lemma StepFrozen(s: System, a: Action, w: nat, k: nat, c: nat)
    requires Inv(s) && Enabled(s, a) && w < |s.writers| && k < |s.writers[w].slots| && c < |s.claims|
    ensures |Apply(s, a).writers| == |s.writers| && |Apply(s, a).writers[w].slots| == |s.writers[w].slots|
    ensures |s.claims| <= |Apply(s, a).claims|
    ensures Carries(Apply(s, a), w, k, c) ==> Carries(s, w, k, c)
    ensures Carries(s, w, k, c) && Carries(Apply(s, a), w, k, c) ==>
            Frozen(s.writers[w].slots[k], Apply(s, a).writers[w].slots[k])
  {
    hide SlotsOk, KernelOk, RangesOk, AppendedOk, ClaimOk, TilesTo, CountInFlight, Pack, UnpackIndex,
         UnpackLen, WriteAt, Blit;
    assert WriterOk(w, s.writers[w], s.claims);
  }

  predicate Frozen(slot: Slot, slot': Slot)
  {
    slot'.mem == slot.mem && slot'.diskOffset == slot.diskOffset && slot'.sealedLen == slot.sealedLen
  }

  lemma {:induction false} NeverAgain(s: System, actions: seq<Action>, s': System, w: nat, k: nat, c: nat)
    requires Inv(s) && Executes(s, actions, s') && w < |s.writers| && k < |s.writers[w].slots| && c < |s.claims|
    requires Carries(s', w, k, c)
    ensures Carries(s, w, k, c)
    decreases |actions|
  {
    hide Inv, Apply, Enabled, Carries, Frozen;
    if actions != [] {
      KeepStep(s, actions[0]);
      StepFrozen(s, actions[0], w, k, c);
      NeverAgain(Apply(s, actions[0]), actions[1..], s', w, k, c);
    }
  }

  /** From submission to reaping, over any run: the bytes, length and disk
      offset of a slot in flight do not change. */
  lemma {:induction false} InFlightFrozen(s: System, actions: seq<Action>, s': System, w: nat, k: nat, c: nat)
    requires Inv(s) && Executes(s, actions, s') && c < |s.claims|
    requires Carries(s, w, k, c) && Carries(s', w, k, c)
    ensures Frozen(s.writers[w].slots[k], s'.writers[w].slots[k])
    decreases |actions|
  {
    hide Inv, Apply, Enabled;
    if actions != [] {
      KeepStep(s, actions[0]);
      StepFrozen(s, actions[0], w, k, c);
      NeverAgain(Apply(s, actions[0]), actions[1..], s', w, k, c);
      InFlightFrozen(Apply(s, actions[0]), actions[1..], s', w, k, c);
    }
  }

  // ---- the ranges tile the file -----------------------------------------

  /** Every range a writer has claimed, wherever it is now. */
  function Held(wr: Writer): multiset<CompletedRange>
  {
    multiset(wr.returned) + multiset(wr.completed) + Flights(wr.slots)
  }

  function AllHeld(writers: seq<Writer>): multiset<CompletedRange>
  {
    if writers == [] then multiset{} else AllHeld(writers[..|writers| - 1]) + Held(writers[|writers| - 1])
  }

  function RangeOf(c: Claim): CompletedRange
  {
    CompletedRange(c.at, |c.data|)
  }

  function AllRanges(claims: seq<Claim>): (r: seq<CompletedRange>)
    ensures |r| == |claims|
    ensures forall c :: 0 <= c < |claims| ==> r[c] == RangeOf(claims[c])
  {
    seq(|claims|, c requires 0 <= c < |claims| => RangeOf(claims[c]))
  }

  /** Where the range after range `i` starts, or the end of all. */
  function StartAfter(ranges: seq<CompletedRange>, end: nat, i: nat): nat
  {
    if i + 1 < |ranges| then ranges[i + 1].diskOffset else end
  }

  /** Ranges that follow each other from 0 to `end` without gap or overlap. */
  predicate Tile(ranges: seq<CompletedRange>, end: nat)
  {
    && (forall i :: 0 <= i < |ranges| ==>
        && 0 < ranges[i].sealedLen
        && ranges[i].diskOffset + ranges[i].sealedLen == StartAfter(ranges, end, i))
    && (if ranges == [] then end == 0 else ranges[0].diskOffset == 0)
  }

  /** What the first `n` writers own. */
  function OwnAll(claims: seq<Claim>, n: nat): multiset<CompletedRange>
  {
    if n == 0 then multiset{} else OwnAll(claims, n - 1) + multiset(OwnRanges(claims, n - 1))
  }

  lemma OneMoreRight<T>(a: multiset<T>, own: seq<T>, x: T)
    ensures a + multiset(own + [x]) == a + multiset(own) + multiset{x}
  {
    assert multiset(own + [x]) == multiset(own) + multiset{x};
  }

  lemma OneMoreLeft<T>(a: multiset<T>, own: multiset<T>, x: T)
    ensures (a + multiset{x}) + own == a + own + multiset{x}
  {
  }

  lemma OwnAllStep(claims: seq<Claim>, n: nat)
    requires n > 0
    ensures OwnAll(claims, n) == OwnAll(claims, n - 1) + multiset(OwnRanges(claims, n - 1))
  {
    hide OwnRanges;
  }

  lemma {:induction false} OwnAllAppend(claims: seq<Claim>, c: Claim, n: nat)
    ensures c.writer >= n ==> OwnAll(claims + [c], n) == OwnAll(claims, n)
    ensures c.writer < n ==> OwnAll(claims + [c], n) == OwnAll(claims, n) + multiset{RangeOf(c)}
    decreases n
  {
    hide OwnRanges, OwnAll;
    if n == 0 {
      NobodyOwns(claims);
      NobodyOwns(claims + [c]);
    } else {
      OwnAllStep(claims, n);
      OwnAllStep(claims + [c], n);
      OwnAllAppend(claims, c, n - 1);
      OwnAppend(claims, c, n - 1);
      if c.writer == n - 1 {
        OneMoreRight(OwnAll(claims, n - 1), OwnRanges(claims, n - 1), RangeOf(c));
      } else {
        assert OwnRanges(claims + [c], n - 1) == OwnRanges(claims, n - 1);
        if c.writer < n {
          OneMoreLeft(OwnAll(claims, n - 1), multiset(OwnRanges(claims, n - 1)), RangeOf(c));
        }
      }
    }
  }

  lemma NobodyOwns(claims: seq<Claim>)
    ensures OwnAll(claims, 0) == multiset{}
  {
  }

  lemma {:induction false} OwnAllNone(n: nat)
    ensures OwnAll([], n) == multiset{}
  {
    if n > 0 {
      OwnAllNone(n - 1);
    }
  }

  lemma {:induction false} OwnAllIsAll(claims: seq<Claim>, n: nat)
    requires forall c :: 0 <= c < |claims| ==> claims[c].writer < n
    ensures OwnAll(claims, n) == multiset(AllRanges(claims))
    decreases |claims|
  {
    hide OwnAll;
    if claims == [] {
      OwnAllNone(n);
    } else {
      var last := |claims| - 1;
      var before := claims[..last];
      OwnAllIsAll(before, n);
      OwnAllAppend(before, claims[last], n);
      assert claims == before + [claims[last]];
      AllRangesAppend(before, claims[last]);
    }
  }

  lemma AllRangesAppend(claims: seq<Claim>, c: Claim)
    ensures multiset(AllRanges(claims + [c])) == multiset(AllRanges(claims)) + multiset{RangeOf(c)}
  {
    assert AllRanges(claims + [c]) == AllRanges(claims) + [RangeOf(c)];
  }

  lemma {:induction false} HeldIsOwned(writers: seq<Writer>, claims: seq<Claim>, n: nat)
    requires n <= |writers| && forall w :: 0 <= w < n ==> RangesOk(w, writers[w], claims)
    ensures AllHeld(writers[..n]) == OwnAll(claims, n)
  {
    hide Flights, OwnRanges;
    if n > 0 {
      HeldIsOwned(writers, claims, n - 1);
      assert writers[..n][..n - 1] == writers[..n - 1];
      assert RangesOk(n - 1, writers[n - 1], claims);
    }
  }

  /** In every reachable state the ranges of all writers, whether in flight,
      completed or returned, tile `[0, fileOffset)` without gap or overlap. */
  lemma RangesTile(mems: seq<seq<Bytes>>, actions: seq<Action>, s: System) returns (ordered: seq<CompletedRange>)
    requires Reached(mems, actions, s)
    ensures multiset(ordered) == AllHeld(s.writers)
    ensures Tile(ordered, s.fileOffset)
    ensures ordered == AllRanges(s.claims)
  {
    hide Executes, Flights, OwnRanges, OwnAll;
    ReachedOk(mems, actions, s);
    ordered := AllRanges(s.claims);
    ClaimsTile(s);
    forall w | 0 <= w < |s.writers| ensures RangesOk(w, s.writers[w], s.claims) {
      OwnersRanges(s, w);
    }
    HeldIsOwned(s.writers, s.claims, |s.writers|);
    OwnAllIsAll(s.claims, |s.writers|);
    assert s.writers[..|s.writers|] == s.writers;
  }

  lemma OwnersRanges(s: System, w: nat)
    requires Inv(s) && w < |s.writers|
    ensures RangesOk(w, s.writers[w], s.claims)
  {
    hide RangesOk, ShapeOk, SlotsOk, KernelOk, AppendedOk, ClaimOk, TilesTo;
    assert WriterOk(w, s.writers[w], s.claims);
  }

  lemma ClaimsTile(s: System)
    requires Inv(s)
    ensures Tile(AllRanges(s.claims), s.fileOffset)
    ensures forall c :: 0 <= c < |s.claims| ==> s.claims[c].writer < |s.writers|
  {
    hide WriterOk, ReadAt;
    var ranges := AllRanges(s.claims);
    forall i | 0 <= i < |ranges|
      ensures s.claims[i].writer < |s.writers| && 0 < ranges[i].sealedLen
      ensures ranges[i].diskOffset + ranges[i].sealedLen == StartAfter(ranges, s.fileOffset, i)
    {
      assert ClaimOk(i, s.claims[i], s.writers, s.disk);
      assert s.claims[i].at + |s.claims[i].data| == NextAt(s.claims, s.fileOffset, i);
    }
  }
}
