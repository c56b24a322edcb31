/** Every step of every writer, and of the kernel, keeps the invariant. */
module WriterSteps {
  import opened Files
  import opened WriterSystem

  // ---- folds over slots and claims --------------------------------------

  lemma Exchange<T>(a: multiset<T>, b: multiset<T>, x: multiset<T>, y: multiset<T>, more: multiset<T>)
    requires a + x == b + y
    ensures (a + more) + x == (b + more) + y
  {
    assert (a + more) + x == (a + x) + more;
    assert (b + more) + y == (b + y) + more;
  }

  lemma {:induction false} FlightsUpdate(slots: seq<Slot>, k: nat, slot: Slot)
    requires k < |slots|
    ensures Flights(slots[k := slot]) + Flight(slots[k]) == Flights(slots) + Flight(slot)
    decreases |slots|
  {
    hide Flight;
    var n, slots' := |slots| - 1, slots[k := slot];
    assert Flights(slots') == Flights(slots'[..n]) + Flight(slots'[n]);
    if k < n {
      FlightsUpdate(slots[..n], k, slot);
      assert slots'[..n] == slots[..n][k := slot];
      Exchange(Flights(slots'[..n]), Flights(slots[..n]), Flight(slots[k]), Flight(slot), Flight(slots[n]));
    } else {
      assert slots'[..n] == slots[..n];
    }
  }

  lemma {:induction false} CountUpdate(slots: seq<Slot>, k: nat, slot: Slot)
    requires k < |slots|
    ensures CountInFlight(slots[k := slot]) + Counted(slots[k]) == CountInFlight(slots) + Counted(slot)
    decreases |slots|
  {
    hide Counted;
    var n := |slots| - 1;
    if k < n {
      CountUpdate(slots[..n], k, slot);
      assert slots[k := slot][..n] == slots[..n][k := slot];
    } else {
      assert slots[k := slot][..n] == slots[..n];
    }
  }

  /** A slot changes without leaving or entering flight. */
  lemma FlightStays(slots: seq<Slot>, k: nat, slot: Slot)
    requires k < |slots| && slot.state == slots[k].state && (slot.state == InFlight ==> Range(slot) == Range(slots[k]))
    ensures Flights(slots[k := slot]) == Flights(slots) && CountInFlight(slots[k := slot]) == CountInFlight(slots)
  {
    FlightsUpdate(slots, k, slot);
    CountUpdate(slots, k, slot);
    Cancel(Flights(slots[k := slot]), Flights(slots), Flight(slot));
  }

  lemma Cancel<T>(a: multiset<T>, b: multiset<T>, x: multiset<T>)
    requires a + x == b + x
    ensures a == b
  {
    assert a == (a + x) - x;
    assert b == (b + x) - x;
  }

  lemma FlightStarts(slots: seq<Slot>, k: nat, slot: Slot)
    requires k < |slots| && slots[k].state == Open && slot.state == InFlight
    ensures Flights(slots[k := slot]) == Flights(slots) + multiset{Range(slot)}
    ensures CountInFlight(slots[k := slot]) == CountInFlight(slots) + 1
  {
    FlightsUpdate(slots, k, slot);
    CountUpdate(slots, k, slot);
    assert Flights(slots[k := slot]) == Flights(slots[k := slot]) + Flight(slots[k]);
  }

  lemma FlightEnds(slots: seq<Slot>, k: nat, slot: Slot)
    requires k < |slots| && slots[k].state == InFlight && slot.state == Open
    ensures Flights(slots) == Flights(slots[k := slot]) + multiset{Range(slots[k])}
    ensures CountInFlight(slots) == CountInFlight(slots[k := slot]) + 1
  {
    FlightsUpdate(slots, k, slot);
    CountUpdate(slots, k, slot);
    assert Flights(slots) == Flights(slots) + Flight(slot);
  }

  lemma {:induction false} FlightsIn(slots: seq<Slot>, k: nat)
    requires k < |slots| && slots[k].state == InFlight
    ensures Range(slots[k]) in Flights(slots) && CountInFlight(slots) > 0
    decreases |slots|
  {
    if k < |slots| - 1 {
      FlightsIn(slots[..|slots| - 1], k);
    }
  }

  lemma {:induction false} NoFlights(slots: seq<Slot>)
    requires CountInFlight(slots) == 0
    ensures Flights(slots) == multiset{} && forall k :: 0 <= k < |slots| ==> slots[k].state == Open
    decreases |slots|
  {
    if slots != [] {
      NoFlights(slots[..|slots| - 1]);
    }
  }

  lemma OwnAppend(claims: seq<Claim>, c: Claim, w: nat)
    ensures OwnRanges(claims + [c], w) ==
              OwnRanges(claims, w) + (if c.writer == w then [CompletedRange(c.at, |c.data|)] else [])
    ensures OwnData(claims + [c], w) == OwnData(claims, w) + (if c.writer == w then c.data else [])
  {
    assert (claims + [c])[..|claims|] == claims;
  }

  /** Landing changes neither ranges nor data. */
  lemma {:induction false} OwnLanded(claims: seq<Claim>, c: nat, w: nat)
    requires c < |claims|
    ensures OwnRanges(claims[c := claims[c].(landed := true)], w) == OwnRanges(claims, w)
    ensures OwnData(claims[c := claims[c].(landed := true)], w) == OwnData(claims, w)
    decreases |claims|
  {
    var n := |claims| - 1;
    var claims' := claims[c := claims[c].(landed := true)];
    if c < n {
      OwnLanded(claims[..n], c, w);
      assert claims'[..n] == claims[..n][c := claims[c].(landed := true)];
    } else {
      assert claims'[..n] == claims[..n];
    }
  }

  lemma {:induction false} ClaimsApart(claims: seq<Claim>, end: nat, c: nat, d: nat)
    requires TilesTo(claims, end) && c < d < |claims|
    ensures claims[c].at + |claims[c].data| <= claims[d].at
  {
    if c + 1 < d {
      ClaimsApart(claims, end, c, d - 1);
    }
  }

  // ---- steps of one writer that leave claims and disk alone -------------

  /** What the claims need of the writer that made them. */
  predicate KeepsFlights(wr: Writer, wr': Writer)
  {
    && |wr'.slots| == |wr.slots|
    && forall k :: 0 <= k < |wr.slots| && wr.slots[k].state == InFlight && wr.slots[k].token.InRing? ==>
         wr'.slots[k].state == InFlight && wr'.slots[k].claim == wr.slots[k].claim && wr'.slots[k].token.InRing?
  }

  lemma LocalStep(s: System, w: nat, wr: Writer)
    requires Inv(s) && w < |s.writers| && KeepsFlights(s.writers[w], wr) && WriterOk(w, wr, s.claims)
    ensures Inv(SetWriter(s, w, wr))
  {
    hide WriterOk, TilesTo, ReadAt;
    var s' := SetWriter(s, w, wr);
    forall c | 0 <= c < |s'.claims| ensures ClaimOk(c, s'.claims[c], s'.writers, s'.disk) {
      assert ClaimOk(c, s.claims[c], s.writers, s.disk);
    }
  }

  lemma FitSlots(w: nat, wr: Writer, payload: Bytes, claims: seq<Claim>)
    requires WriterOk(w, wr, claims) && !wr.rotating && wr.cursor + |payload| <= BATCH_SIZE
    ensures wr.head < |wr.slots| && |wr.slots[wr.head].mem| == BATCH_SIZE
    ensures SlotsOk(w, DoFit(wr, payload), claims)
  {
    hide RangesOk, AppendedOk, KernelOk, CountInFlight, Blit, Pack;
    assert SlotOk(w, wr.head, wr.slots[wr.head], wr.outstanding, wr.cq, wr.reaped, claims);
    var wr' := DoFit(wr, payload);
    forall k | 0 <= k < |wr'.slots| ensures SlotOk(w, k, wr'.slots[k], wr'.outstanding, wr'.cq, wr'.reaped, claims) {
      assert SlotOk(w, k, wr.slots[k], wr.outstanding, wr.cq, wr.reaped, claims);
    }
  }

  lemma FitKernel(w: nat, wr: Writer, payload: Bytes, claims: seq<Claim>)
    requires WriterOk(w, wr, claims) && !wr.rotating && wr.cursor + |payload| <= BATCH_SIZE
    requires wr.head < |wr.slots| && |wr.slots[wr.head].mem| == BATCH_SIZE
    ensures KernelOk(DoFit(wr, payload)) && KeepsFlights(wr, DoFit(wr, payload))
  {
    hide RangesOk, AppendedOk, SlotsOk, CountInFlight, Blit, UnpackIndex;
    var wr' := DoFit(wr, payload);
    forall id | id in wr'.outstanding ensures SqeOk(id, wr'.outstanding[id], wr'.slots, wr'.nextId) {
      assert SqeOk(id, wr.outstanding[id], wr.slots, wr.nextId);
    }
    forall i | 0 <= i < |wr'.cq| ensures CqeOk(wr'.reaped + i, wr'.cq[i], wr'.slots) {
      assert CqeOk(wr.reaped + i, wr.cq[i], wr.slots);
    }
  }

  lemma FitRest(w: nat, wr: Writer, payload: Bytes, claims: seq<Claim>)
    requires WriterOk(w, wr, claims) && !wr.rotating && wr.cursor + |payload| <= BATCH_SIZE
    requires wr.head < |wr.slots| && |wr.slots[wr.head].mem| == BATCH_SIZE
    ensures var wr' := DoFit(wr, payload); ShapeOk(wr') && RangesOk(w, wr', claims) && AppendedOk(w, wr', claims)
  {
    hide SlotsOk, KernelOk, Flights, CountInFlight, OwnRanges, OwnData, Blit;
    var wr' := DoFit(wr, payload);
    var slot, slot' := wr.slots[wr.head], wr'.slots[wr.head];
    FlightStays(wr.slots, wr.head, slot');
    BlitEnds(slot.mem, wr.cursor, payload);
  }

  lemma BlitEnds(mem: Bytes, at: nat, data: Bytes)
    requires at + |data| <= |mem|
    ensures Blit(mem, at, data)[..at + |data|] == mem[..at] + data
  {
  }

  lemma KeepFit(s: System, w: nat, payload: Bytes)
    requires Inv(s) && Enabled(s, Fit(w, payload))
    ensures Inv(Apply(s, Fit(w, payload)))
  {
    hide RangesOk, AppendedOk, SlotsOk, KernelOk, ShapeOk, ClaimOk, TilesTo, KeepsFlights;
    var wr := s.writers[w];
    assert WriterOk(w, wr, s.claims);
    FitSlots(w, wr, payload, s.claims);
    FitKernel(w, wr, payload, s.claims);
    FitRest(w, wr, payload, s.claims);
    LocalStep(s, w, DoFit(wr, payload));
  }

  lemma KeepAdvance(s: System, w: nat)
    requires Inv(s) && Enabled(s, Advance(w))
    ensures Inv(Apply(s, Advance(w)))
  {
    hide RangesOk, SlotsOk, KernelOk, ClaimOk, TilesTo, Flights, CountInFlight, OwnRanges, OwnData;
    var wr := s.writers[w];
    assert WriterOk(w, wr, s.claims);
    var wr' := DoAdvance(wr);
    AdvanceSlots(w, wr, s.claims);
    assert Buffered(wr) == [] && Buffered(wr') == [];
    LocalStep(s, w, wr');
  }

  lemma AdvanceSlots(w: nat, wr: Writer, claims: seq<Claim>)
    requires WriterOk(w, wr, claims)
    ensures var wr' := DoAdvance(wr); SlotsOk(w, wr', claims) && KernelOk(wr') && RangesOk(w, wr', claims)
  {
    hide ShapeOk, AppendedOk, SlotOk, SqeOk, CqeOk, Flights, OwnRanges;
  }

  lemma KeepTake(s: System, w: nat)
    requires Inv(s) && Enabled(s, Take(w))
    ensures Inv(Apply(s, Take(w)))
  {
    hide ClaimOk, TilesTo, Flights, CountInFlight, OwnRanges, OwnData, SlotOk, SqeOk, CqeOk;
    var wr := s.writers[w];
    assert WriterOk(w, wr, s.claims);
    var wr' := DoTake(wr);
    assert RangesOk(w, wr', s.claims);
    LocalStep(s, w, wr');
  }

  // ---- reap -------------------------------------------------------------

  /** A completion names the slot it is for, and that slot's length. */
  lemma ReapFacts(w: nat, wr: Writer, claims: seq<Claim>)
    requires WriterOk(w, wr, claims) && wr.cq != []
    ensures var idx := UnpackIndex(wr.cq[0]);
            && idx < |wr.slots| && wr.slots[idx].state == InFlight && wr.slots[idx].token == Queued(wr.reaped)
            && UnpackLen(wr.cq[0]) == wr.slots[idx].sealedLen
            && (!wr.rotating ==> idx != wr.head)
            && wr.pending > 0
  {
    hide RangesOk, AppendedOk, Pack, UnpackIndex, UnpackLen;
    assert CqeOk(wr.reaped + 0, wr.cq[0], wr.slots);
    var idx := UnpackIndex(wr.cq[0]);
    assert SlotOk(w, idx, wr.slots[idx], wr.outstanding, wr.cq, wr.reaped, claims);
    PackUnpack(idx, wr.slots[idx].sealedLen);
    FlightsIn(wr.slots, idx);
  }

  lemma ReapSlot(w: nat, wr: Writer, claims: seq<Claim>, k: nat)
    requires WriterOk(w, wr, claims) && wr.cq != [] && k < |wr.slots|
    requires UnpackIndex(wr.cq[0]) < |wr.slots| && wr.pending > 0
    ensures var wr' := DoReap(wr); SlotOk(w, k, wr'.slots[k], wr'.outstanding, wr'.cq, wr'.reaped, claims)
  {
    hide RangesOk, AppendedOk, KernelOk, ShapeOk, Pack, UnpackIndex, UnpackLen;
    assert SlotOk(w, k, wr.slots[k], wr.outstanding, wr.cq, wr.reaped, claims);
    if k != UnpackIndex(wr.cq[0]) && wr.slots[k].state == InFlight && wr.slots[k].token.Queued? {
      ReapKeeps(w, wr, claims, k);
    }
  }

  lemma ReapSlots(w: nat, wr: Writer, claims: seq<Claim>)
    requires WriterOk(w, wr, claims) && wr.cq != []
    requires UnpackIndex(wr.cq[0]) < |wr.slots| && wr.pending > 0
    ensures var wr' := DoReap(wr); SlotsOk(w, wr', claims) && KernelOk(wr') && KeepsFlights(wr, wr')
  {
    hide RangesOk, AppendedOk, SlotOk, SlotsOk, ShapeOk, Pack, UnpackIndex, UnpackLen;
    ReapFacts(w, wr, claims);
    var wr' := DoReap(wr);
    assert SlotsOk(w, wr', claims) by { ReapAllSlots(w, wr, claims); }
    forall id | id in wr'.outstanding ensures SqeOk(id, wr'.outstanding[id], wr'.slots, wr'.nextId) {
      assert SqeOk(id, wr.outstanding[id], wr.slots, wr.nextId);
    }
    forall i | 0 <= i < |wr'.cq| ensures CqeOk(wr'.reaped + i, wr'.cq[i], wr'.slots) {
      assert CqeOk(wr.reaped + (i + 1), wr.cq[i + 1], wr.slots);
    }
  }

  lemma ReapAllSlots(w: nat, wr: Writer, claims: seq<Claim>)
    requires WriterOk(w, wr, claims) && wr.cq != []
    requires UnpackIndex(wr.cq[0]) < |wr.slots| && wr.pending > 0
    ensures SlotsOk(w, DoReap(wr), claims)
  {
    hide SlotOk, WriterOk, UnpackIndex;
    forall k | 0 <= k < |wr.slots|
      ensures SlotOk(w, k, DoReap(wr).slots[k], DoReap(wr).outstanding, DoReap(wr).cq, DoReap(wr).reaped, claims)
    {
      ReapSlot(w, wr, claims, k);
    }
  }

  /** The first completion is for one slot only. */
  lemma ReapKeeps(w: nat, wr: Writer, claims: seq<Claim>, k: nat)
    requires WriterOk(w, wr, claims) && wr.cq != []
    requires k < |wr.slots| && wr.slots[k].state == InFlight && wr.slots[k].token.Queued? && k != UnpackIndex(wr.cq[0])
    ensures wr.slots[k].token.n > wr.reaped
  {
    hide RangesOk, AppendedOk, Pack, UnpackIndex, UnpackLen;
    assert SlotOk(w, k, wr.slots[k], wr.outstanding, wr.cq, wr.reaped, claims);
    PackUnpack(k, wr.slots[k].sealedLen);
  }

  lemma ReapRest(w: nat, wr: Writer, claims: seq<Claim>)
    requires WriterOk(w, wr, claims) && wr.cq != []
    requires UnpackIndex(wr.cq[0]) < |wr.slots| && wr.pending > 0
    ensures var wr' := DoReap(wr); ShapeOk(wr') && RangesOk(w, wr', claims) && AppendedOk(w, wr', claims)
  {
    hide SlotsOk, KernelOk, Flights, CountInFlight, OwnRanges, OwnData, UnpackIndex, UnpackLen;
    ReapFacts(w, wr, claims);
    var wr' := DoReap(wr);
    var idx := UnpackIndex(wr.cq[0]);
    FlightEnds(wr.slots, idx, wr'.slots[idx]);
    Moved(multiset(wr.returned), wr.completed, Flights(wr'.slots), Range(wr.slots[idx]));
  }

  lemma Moved<T>(r: multiset<T>, c: seq<T>, f: multiset<T>, x: T)
    ensures r + multiset(c) + (f + multiset{x}) == r + multiset(c + [x]) + f
  {
  }

  lemma KeepReap(s: System, w: nat)
    requires Inv(s) && Enabled(s, Reap(w))
    ensures Inv(Apply(s, Reap(w)))
  {
    hide RangesOk, AppendedOk, SlotsOk, KernelOk, ShapeOk, ClaimOk, TilesTo, KeepsFlights, UnpackIndex;
    var wr := s.writers[w];
    assert WriterOk(w, wr, s.claims);
    ReapSlots(w, wr, s.claims);
    ReapRest(w, wr, s.claims);
    LocalStep(s, w, DoReap(wr));
  }

  // ---- submit -----------------------------------------------------------

  lemma ClaimsExtend(w: nat, wr: Writer, claims: seq<Claim>, c: Claim)
    requires WriterOk(w, wr, claims) && c.writer != w
    ensures WriterOk(w, wr, claims + [c])
  {
    hide Flights, CountInFlight, OwnRanges, OwnData, Pack;
    OwnAppend(claims, c, w);
    forall k | 0 <= k < |wr.slots| ensures SlotOk(w, k, wr.slots[k], wr.outstanding, wr.cq, wr.reaped, claims + [c]) {
      assert SlotOk(w, k, wr.slots[k], wr.outstanding, wr.cq, wr.reaped, claims);
    }
  }

  lemma SubmitSlot(w: nat, wr: Writer, claims: seq<Claim>, at: nat, k: nat)
    requires WriterOk(w, wr, claims) && !wr.rotating && wr.cursor > 0 && k < |wr.slots| && k != wr.head
    requires |wr.slots[wr.head].mem| == BATCH_SIZE
    ensures var wr' := DoSubmit(wr, at, |claims|);
            var c := Claim(w, at, wr.slots[wr.head].mem[..wr.cursor], wr.head, false);
            SlotOk(w, k, wr'.slots[k], wr'.outstanding, wr'.cq, wr'.reaped, claims + [c])
  {
    hide RangesOk, AppendedOk, KernelOk, Pack, CountInFlight;
    assert SlotOk(w, k, wr.slots[k], wr.outstanding, wr.cq, wr.reaped, claims);
    SlotSqe(w, wr, claims, k);
  }

  lemma SubmitSlots(w: nat, wr: Writer, claims: seq<Claim>, at: nat)
    requires WriterOk(w, wr, claims) && !wr.rotating && wr.cursor > 0
    requires |wr.slots[wr.head].mem| == BATCH_SIZE
    ensures var wr' := DoSubmit(wr, at, |claims|);
            var c := Claim(w, at, wr.slots[wr.head].mem[..wr.cursor], wr.head, false);
            SlotsOk(w, wr', claims + [c])
  {
    hide WriterOk, Pack;
    SubmitReady(w, wr, claims);
    var wr' := DoSubmit(wr, at, |claims|);
    var c := Claim(w, at, wr.slots[wr.head].mem[..wr.cursor], wr.head, false);
    forall k | 0 <= k < |wr'.slots| && k != wr.head
      ensures SlotOk(w, k, wr'.slots[k], wr'.outstanding, wr'.cq, wr'.reaped, claims + [c])
    {
      SubmitSlot(w, wr, claims, at, k);
    }
  }

  lemma SlotSqe(w: nat, wr: Writer, claims: seq<Claim>, k: nat)
    requires WriterOk(w, wr, claims) && k < |wr.slots|
    ensures wr.slots[k].state == InFlight && wr.slots[k].token.InRing? ==> wr.slots[k].token.id < wr.nextId
  {
    hide RangesOk, AppendedOk, Pack, CountInFlight;
    assert SlotOk(w, k, wr.slots[k], wr.outstanding, wr.cq, wr.reaped, claims);
    if wr.slots[k].state == InFlight && wr.slots[k].token.InRing? {
      assert SqeOk(wr.slots[k].token.id, wr.outstanding[wr.slots[k].token.id], wr.slots, wr.nextId);
    }
  }

  lemma SubmitKernel(w: nat, wr: Writer, claims: seq<Claim>, at: nat)
    requires WriterOk(w, wr, claims) && !wr.rotating && wr.cursor > 0
    ensures KernelOk(DoSubmit(wr, at, |claims|))
  {
    hide RangesOk, AppendedOk, Pack, CountInFlight, SlotsOk, UnpackIndex;
    var wr' := DoSubmit(wr, at, |claims|);
    forall id | id in wr'.outstanding ensures SqeOk(id, wr'.outstanding[id], wr'.slots, wr'.nextId) {
      if id in wr.outstanding { assert SqeOk(id, wr.outstanding[id], wr.slots, wr.nextId); }
    }
    forall i | 0 <= i < |wr'.cq| ensures CqeOk(wr'.reaped + i, wr'.cq[i], wr'.slots) {
      assert CqeOk(wr.reaped + i, wr.cq[i], wr.slots);
    }
  }

  lemma SubmitRest(w: nat, wr: Writer, claims: seq<Claim>, at: nat)
    requires WriterOk(w, wr, claims) && !wr.rotating && wr.cursor > 0
    requires |wr.slots[wr.head].mem| == BATCH_SIZE
    ensures var wr' := DoSubmit(wr, at, |claims|);
            var c := Claim(w, at, wr.slots[wr.head].mem[..wr.cursor], wr.head, false);
            ShapeOk(wr') && RangesOk(w, wr', claims + [c]) && AppendedOk(w, wr', claims + [c])
  {
    hide SlotsOk, KernelOk, Flights, CountInFlight, OwnRanges, OwnData, Pack;
    var wr' := DoSubmit(wr, at, |claims|);
    var slot' := wr'.slots[wr.head];
    var c := Claim(w, at, wr.slots[wr.head].mem[..wr.cursor], wr.head, false);
    NextIsFresh(wr);
    OwnAppend(claims, c, w);
    FlightStarts(wr.slots, wr.head, slot');
    Added(multiset(wr.returned) + multiset(wr.completed), Flights(wr.slots), OwnRanges(claims, w), Range(slot'));
  }

  lemma NextIsFresh(wr: Writer)
    requires KernelOk(wr)
    ensures wr.nextId !in wr.outstanding
  {
    hide CqeOk;
    forall id | id in wr.outstanding ensures id < wr.nextId {
      assert SqeOk(id, wr.outstanding[id], wr.slots, wr.nextId);
    }
  }

  lemma Added<T>(r: multiset<T>, f: multiset<T>, own: seq<T>, x: T)
    requires r + f == multiset(own)
    ensures r + (f + multiset{x}) == multiset(own + [x])
  {
  }

  lemma TilesAppend(claims: seq<Claim>, end: nat, c: Claim)
    requires TilesTo(claims, end) && c.at == end
    ensures TilesTo(claims + [c], end + |c.data|)
  {
    var claims' := claims + [c];
    forall d | 0 <= d < |claims'|
      ensures claims'[d].at + |claims'[d].data| == NextAt(claims', end + |c.data|, d)
    {
      if d < |claims| { assert NextAt(claims', end + |c.data|, d) == NextAt(claims, end, d); }
    }
  }

  lemma TilesLanded(claims: seq<Claim>, end: nat, c: nat)
    requires TilesTo(claims, end) && c < |claims|
    ensures TilesTo(claims[c := claims[c].(landed := true)], end)
  {
    var claims' := claims[c := claims[c].(landed := true)];
    forall d | 0 <= d < |claims'| ensures claims'[d].at + |claims'[d].data| == NextAt(claims', end, d) {
      assert NextAt(claims', end, d) == NextAt(claims, end, d);
    }
  }

  lemma SubmitClaims(s: System, w: nat)
    requires Inv(s) && Enabled(s, Submit(w))
    ensures var s' := Apply(s, Submit(w));
            && (forall c :: 0 <= c < |s'.claims| ==> ClaimOk(c, s'.claims[c], s'.writers, s'.disk))
            && TilesTo(s'.claims, s'.fileOffset)
  {
    hide SlotsOk, KernelOk, RangesOk, AppendedOk, CountInFlight, Pack, ReadAt, TilesTo;
    var s' := Apply(s, Submit(w));
    assert WriterOk(w, s.writers[w], s.claims);
    TilesAppend(s.claims, s.fileOffset, s'.claims[|s.claims|]);
    forall c | 0 <= c < |s'.claims| ensures ClaimOk(c, s'.claims[c], s'.writers, s'.disk) {
      if c < |s.claims| { assert ClaimOk(c, s.claims[c], s.writers, s.disk); }
    }
  }

  lemma KeepSubmit(s: System, w: nat)
    requires Inv(s) && Enabled(s, Submit(w))
    ensures Inv(Apply(s, Submit(w)))
  {
    hide SlotsOk, KernelOk, RangesOk, AppendedOk, ShapeOk, ClaimOk, TilesTo, Pack;
    var s' := Apply(s, Submit(w));
    var wr := s.writers[w];
    assert WriterOk(w, wr, s.claims);
    SubmitReady(w, wr, s.claims);
    SubmitSlots(w, wr, s.claims, s.fileOffset);
    SubmitKernel(w, wr, s.claims, s.fileOffset);
    SubmitRest(w, wr, s.claims, s.fileOffset);
    SubmitClaims(s, w);
    forall w' | 0 <= w' < |s'.writers| ensures WriterOk(w', s'.writers[w'], s'.claims) {
      assert WriterOk(w', s.writers[w'], s.claims);
      if w' != w { SubmitOther(s, w, w'); }
    }
  }

  lemma SubmitReady(w: nat, wr: Writer, claims: seq<Claim>)
    requires WriterOk(w, wr, claims)
    ensures wr.head < |wr.slots| && |wr.slots[wr.head].mem| == BATCH_SIZE && |wr.slots| == RING_LEN
    ensures wr.cursor <= BATCH_SIZE
  {
    hide RangesOk, AppendedOk, KernelOk, CountInFlight;
    assert SlotOk(w, wr.head, wr.slots[wr.head], wr.outstanding, wr.cq, wr.reaped, claims);
  }

  lemma SubmitOther(s: System, w: nat, w': nat)
    requires Inv(s) && Enabled(s, Submit(w)) && w' < |s.writers| && w' != w
    ensures WriterOk(w', Apply(s, Submit(w)).writers[w'], Apply(s, Submit(w)).claims)
  {
    hide ClaimOk, TilesTo, WriterOk, Pack;
    var c := Apply(s, Submit(w)).claims[|s.claims|];
    assert WriterOk(w', s.writers[w'], s.claims);
    ClaimsExtend(w', s.writers[w'], s.claims, c);
  }

  // ---- complete ---------------------------------------------------------

  /** The write that completes is the one claimed by the slot it points at. */
  lemma CompleteFacts(s: System, w: nat, id: nat)
    requires Inv(s) && Enabled(s, Complete(w, id))
    ensures var wr := s.writers[w]; var sqe := wr.outstanding[id]; var k := sqe.slot; var slot := wr.slots[k];
            && slot.state == InFlight && slot.token == InRing(id) && 0 < slot.sealedLen <= |slot.mem|
            && s.claims[slot.claim] == Claim(w, sqe.at, slot.mem[..sqe.len], k, false)
            && sqe == Sqe(Pack(k, slot.sealedLen), slot.diskOffset, k, slot.sealedLen)
  {
    hide RangesOk, AppendedOk, Pack, CountInFlight, TilesTo, ClaimOk;
    var wr := s.writers[w];
    assert WriterOk(w, wr, s.claims);
    assert SqeOk(id, wr.outstanding[id], wr.slots, wr.nextId);
    var k := wr.outstanding[id].slot;
    assert SlotOk(w, k, wr.slots[k], wr.outstanding, wr.cq, wr.reaped, s.claims);
  }

  /** Slots of other claims do not notice. */
  lemma LandedElsewhere(w: nat, k: nat, slot: Slot, outstanding: map<nat, Sqe>, cq: seq<nat>, reaped: nat,
          claims: seq<Claim>, c: nat)
    requires SlotOk(w, k, slot, outstanding, cq, reaped, claims) && c < |claims|
    requires claims[c].writer != w || claims[c].slot != k
    ensures SlotOk(w, k, slot, outstanding, cq, reaped, claims[c := claims[c].(landed := true)])
  {
    hide Pack;
  }

  lemma CompleteSlots(s: System, w: nat, id: nat)
    requires Inv(s) && Enabled(s, Complete(w, id))
    ensures var s' := Apply(s, Complete(w, id)); SlotsOk(w, s'.writers[w], s'.claims)
  {
    hide RangesOk, AppendedOk, Pack, CountInFlight, TilesTo, ClaimOk, WriteAt;
    CompleteFacts(s, w, id);
    var s' := Apply(s, Complete(w, id));
    var wr, wr' := s.writers[w], s'.writers[w];
    var c := wr.slots[wr.outstanding[id].slot].claim;
    assert WriterOk(w, wr, s.claims);
    forall k | 0 <= k < |wr'.slots| ensures SlotOk(w, k, wr'.slots[k], wr'.outstanding, wr'.cq, wr'.reaped, s'.claims) {
      assert SlotOk(w, k, wr.slots[k], wr.outstanding, wr.cq, wr.reaped, s.claims);
      if k != wr.outstanding[id].slot {
        LandedElsewhere(w, k, wr.slots[k], wr.outstanding, wr.cq, wr.reaped, s.claims, c);
        CompleteKeeps(w, k, wr.slots[k], wr, s'.claims, id);
      }
    }
  }

  lemma CompleteKeeps(w: nat, k: nat, slot: Slot, wr: Writer, claims: seq<Claim>, id: nat)
    requires SlotOk(w, k, slot, wr.outstanding, wr.cq, wr.reaped, claims)
    requires id in wr.outstanding && wr.outstanding[id].slot != k && wr.outstanding[id].slot < |wr.slots|
    ensures var wr' := DoComplete(wr, id); SlotOk(w, k, slot, wr'.outstanding, wr'.cq, wr'.reaped, claims)
  {
    hide Pack;
  }

  lemma CompleteKernel(s: System, w: nat, id: nat)
    requires Inv(s) && Enabled(s, Complete(w, id))
    ensures KernelOk(Apply(s, Complete(w, id)).writers[w])
  {
    hide RangesOk, AppendedOk, CountInFlight, TilesTo, ClaimOk, WriteAt, Pack, UnpackIndex, SlotsOk;
    CompleteFacts(s, w, id);
    var wr := s.writers[w];
    var wr' := DoComplete(wr, id);
    assert WriterOk(w, wr, s.claims);
    PackUnpack(wr.outstanding[id].slot, wr.slots[wr.outstanding[id].slot].sealedLen);
    forall id' | id' in wr'.outstanding ensures SqeOk(id', wr'.outstanding[id'], wr'.slots, wr'.nextId) {
      assert SqeOk(id', wr.outstanding[id'], wr.slots, wr.nextId);
    }
    forall i | 0 <= i < |wr'.cq| ensures CqeOk(wr'.reaped + i, wr'.cq[i], wr'.slots) {
      if i < |wr.cq| { assert CqeOk(wr.reaped + i, wr.cq[i], wr.slots); }
    }
  }

  lemma CompleteRest(s: System, w: nat, id: nat)
    requires Inv(s) && Enabled(s, Complete(w, id))
    ensures var s' := Apply(s, Complete(w, id)); var wr' := s'.writers[w];
            ShapeOk(wr') && RangesOk(w, wr', s'.claims) && AppendedOk(w, wr', s'.claims)
  {
    hide SlotsOk, KernelOk, Flights, CountInFlight, OwnRanges, OwnData, Pack, WriteAt, TilesTo, ClaimOk;
    CompleteFacts(s, w, id);
    var wr := s.writers[w];
    var k := wr.outstanding[id].slot;
    var wr' := DoComplete(wr, id);
    assert WriterOk(w, wr, s.claims);
    OwnLanded(s.claims, wr.slots[k].claim, w);
    FlightStays(wr.slots, k, wr'.slots[k]);
  }

  lemma CompleteOther(s: System, w: nat, id: nat, w': nat)
    requires Inv(s) && Enabled(s, Complete(w, id)) && w' < |s.writers| && w' != w
    ensures var s' := Apply(s, Complete(w, id)); WriterOk(w', s'.writers[w'], s'.claims)
  {
    hide Flights, CountInFlight, OwnRanges, OwnData, Pack, WriteAt, TilesTo, ClaimOk, SlotOk;
    CompleteFacts(s, w, id);
    var s' := Apply(s, Complete(w, id));
    var wr := s.writers[w'];
    var c := s.writers[w].slots[s.writers[w].outstanding[id].slot].claim;
    assert WriterOk(w', wr, s.claims);
    OwnLanded(s.claims, c, w');
    forall k | 0 <= k < |wr.slots| ensures SlotOk(w', k, wr.slots[k], wr.outstanding, wr.cq, wr.reaped, s'.claims) {
      LandedElsewhere(w', k, wr.slots[k], wr.outstanding, wr.cq, wr.reaped, s.claims, c);
    }
  }

  /** The bytes of every other landed claim survive: the ranges are apart. */
  lemma CompleteClaims(s: System, w: nat, id: nat)
    requires Inv(s) && Enabled(s, Complete(w, id))
    ensures var s' := Apply(s, Complete(w, id));
            && (forall c :: 0 <= c < |s'.claims| ==> ClaimOk(c, s'.claims[c], s'.writers, s'.disk))
            && TilesTo(s'.claims, s'.fileOffset)
  {
    hide SlotsOk, KernelOk, RangesOk, AppendedOk, CountInFlight, Pack, ReadAt, WriteAt, TilesTo;
    CompleteFacts(s, w, id);
    var s' := Apply(s, Complete(w, id));
    var sqe := s.writers[w].outstanding[id];
    var d := s.writers[w].slots[sqe.slot].claim;
    TilesLanded(s.claims, s.fileOffset, d);
    assert s.claims[d].at == sqe.at;
    forall c | 0 <= c < |s'.claims| ensures ClaimOk(c, s'.claims[c], s'.writers, s'.disk) {
      assert ClaimOk(c, s.claims[c], s.writers, s.disk);
      CompleteClaim(s, d, c, s.claims[d].data);
    }
  }

  lemma CompleteClaim(s: System, d: nat, c: nat, data: Bytes)
    requires Inv(s) && d < |s.claims| && c < |s.claims| && data == s.claims[d].data
    ensures var disk := WriteAt(s.disk, s.claims[d].at, data); var x := s.claims[c];
            if c == d then ReadAt(disk, x.at, |x.data|) == x.data
            else ReadAt(disk, x.at, |x.data|) == ReadAt(s.disk, x.at, |x.data|)
  {
    hide WriterOk, ReadAt, WriteAt, ClaimOk, TilesTo;
    var x := s.claims[c];
    if c == d {
      ReadBack(s.disk, x.at, data, |data|);
    } else {
      if c < d { ClaimsApart(s.claims, s.fileOffset, c, d); } else { ClaimsApart(s.claims, s.fileOffset, d, c); }
      ReadElsewhere(s.disk, s.claims[d].at, data, x.at, |x.data|);
    }
  }

  lemma KeepComplete(s: System, w: nat, id: nat)
    requires Inv(s) && Enabled(s, Complete(w, id))
    ensures Inv(Apply(s, Complete(w, id)))
  {
    hide SlotsOk, KernelOk, RangesOk, AppendedOk, ShapeOk, ClaimOk, TilesTo, WriteAt;
    var s' := Apply(s, Complete(w, id));
    CompleteSlots(s, w, id);
    CompleteKernel(s, w, id);
    CompleteRest(s, w, id);
    CompleteClaims(s, w, id);
    forall w' | 0 <= w' < |s'.writers| ensures WriterOk(w', s'.writers[w'], s'.claims) {
      if w' != w { CompleteOther(s, w, id, w'); }
    }
  }

  // ---- all steps --------------------------------------------------------

  lemma KeepStep(s: System, a: Action)
    requires Inv(s) && Enabled(s, a)
    ensures Inv(Apply(s, a))
  {
    hide Inv, Apply, Enabled;
    match a {
      case Fit(w, payload) => KeepFit(s, w, payload);
      case Submit(w) => KeepSubmit(s, w);
      case Advance(w) => KeepAdvance(s, w);
      case Reap(w) => KeepReap(s, w);
      case Take(w) => KeepTake(s, w);
      case Complete(w, id) => KeepComplete(s, w, id);
    }
  }
}
