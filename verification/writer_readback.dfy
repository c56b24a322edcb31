/** Reading a writer's returned ranges back in disk order gives what it was
    given to append, and all ranges together make up the file. */
module WriterReadback {
  import opened Files
  import opened WriterSystem
  import opened WriterSteps
  import opened WriterTheorems

  // ---- sorting ----------------------------------------------------------

  predicate Sorted(ranges: seq<CompletedRange>)
  {
    forall i, j :: 0 <= i < j < |ranges| ==> ranges[i].diskOffset <= ranges[j].diskOffset
  }

  predicate StrictlySorted(ranges: seq<CompletedRange>)
  {
    forall i, j :: 0 <= i < j < |ranges| ==> ranges[i].diskOffset < ranges[j].diskOffset
  }

  /** `sorted` is `ranges` after sorting by disk offset. */
  ghost predicate SortedCopy(ranges: seq<CompletedRange>, sorted: seq<CompletedRange>)
  {
    multiset(sorted) == multiset(ranges) && Sorted(sorted)
  }

  lemma FirstOut(ranges: seq<CompletedRange>)
    requires ranges != []
    ensures multiset(ranges[1..]) == multiset(ranges) - multiset{ranges[0]}
    ensures ranges[0] in multiset(ranges)
  {
    assert ranges == [ranges[0]] + ranges[1..];
  }

  lemma SameFirst(xs: seq<CompletedRange>, ys: seq<CompletedRange>)
    requires StrictlySorted(xs) && Sorted(ys) && multiset(xs) == multiset(ys) && xs != []
    ensures ys != [] && ys[0] == xs[0]
  {
    assert xs[0] in multiset(ys);
    assert ys[0] in multiset(xs);
    var i :| 0 <= i < |ys| && ys[i] == xs[0];
    var j :| 0 <= j < |xs| && xs[j] == ys[0];
  }

  /** When no two ranges start at the same offset, there is one way to sort. */
  lemma {:induction false} SortedUnique(xs: seq<CompletedRange>, ys: seq<CompletedRange>)
    requires StrictlySorted(xs) && Sorted(ys) && multiset(xs) == multiset(ys)
    ensures xs == ys
    decreases |xs|
  {
    if xs == [] {
      assert |multiset(ys)| == 0;
    } else {
      SameFirst(xs, ys);
      FirstOut(xs);
      FirstOut(ys);
      SortedUnique(xs[1..], ys[1..]);
      assert xs == [xs[0]] + xs[1..] && ys == [ys[0]] + ys[1..];
    }
  }

  // ---- one writer -------------------------------------------------------

  /** Reading the given ranges one after the other. */
  function ReadRanges(disk: File, ranges: seq<CompletedRange>): Bytes
  {
    if ranges == [] then []
    else
      var last := ranges[|ranges| - 1];
      ReadRanges(disk, ranges[..|ranges| - 1]) + ReadAt(disk, last.diskOffset, last.sealedLen)
  }

  function TotalLen(ranges: seq<CompletedRange>): nat
  {
    if ranges == [] then 0 else TotalLen(ranges[..|ranges| - 1]) + ranges[|ranges| - 1].sealedLen
  }

  lemma ReadOneMore(disk: File, ranges: seq<CompletedRange>, x: CompletedRange)
    ensures ReadRanges(disk, ranges + [x]) == ReadRanges(disk, ranges) + ReadAt(disk, x.diskOffset, x.sealedLen)
    ensures TotalLen(ranges + [x]) == TotalLen(ranges) + x.sealedLen
  {
    assert (ranges + [x])[..|ranges|] == ranges;
  }

  lemma TilesPrefix(claims: seq<Claim>, end: nat)
    requires TilesTo(claims, end) && claims != []
    ensures TilesTo(claims[..|claims| - 1], claims[|claims| - 1].at)
    ensures claims[|claims| - 1].at + |claims[|claims| - 1].data| == end
  {
    var last := |claims| - 1;
    var before := claims[..last];
    assert claims[last].at + |claims[last].data| == NextAt(claims, end, last);
    forall c | 0 <= c < |before| ensures before[c].at + |before[c].data| == NextAt(before, claims[last].at, c) {
      assert claims[c].at + |claims[c].data| == NextAt(claims, end, c);
    }
  }

  /** A writer's own claims are in disk order, as they were made. */
  lemma {:induction false} OwnSorted(claims: seq<Claim>, end: nat, w: nat)
    requires TilesTo(claims, end) && forall c :: 0 <= c < |claims| ==> |claims[c].data| > 0
    ensures StrictlySorted(OwnRanges(claims, w))
    ensures forall i :: 0 <= i < |OwnRanges(claims, w)| ==> OwnRanges(claims, w)[i].diskOffset < end
    decreases |claims|
  {
    if claims != [] {
      hide TilesTo;
      TilesPrefix(claims, end);
      OwnSorted(claims[..|claims| - 1], claims[|claims| - 1].at, w);
    }
  }

  lemma {:induction false} OwnReadsBack(disk: File, claims: seq<Claim>, w: nat)
    requires forall c :: 0 <= c < |claims| && claims[c].writer == w ==>
              ReadAt(disk, claims[c].at, |claims[c].data|) == claims[c].data
    ensures ReadRanges(disk, OwnRanges(claims, w)) == OwnData(claims, w)
    ensures TotalLen(OwnRanges(claims, w)) == |OwnData(claims, w)|
    decreases |claims|
  {
    hide ReadAt, ReadRanges, TotalLen;
    if claims == [] {
      ReadNothing(disk);
    } else {
      var last := |claims| - 1;
      var before, c := claims[..last], claims[last];
      OwnReadsBack(disk, before, w);
      if c.writer == w {
        ReadOneMore(disk, OwnRanges(before, w), CompletedRange(c.at, |c.data|));
      } else {
        assert OwnRanges(before, w) + [] == OwnRanges(before, w) && OwnData(before, w) + [] == OwnData(before, w);
      }
    }
  }

  lemma ReadNothing(disk: File)
    ensures ReadRanges(disk, []) == [] && TotalLen([]) == 0
  {
  }

  /** What `finish` leaves behind. */
  predicate Finished(wr: Writer)
  {
    wr.pending == 0 && wr.cursor == 0 && wr.completed == []
  }

  /** With nothing pending, all of the writer's claims are on disk. */
  lemma DrainedLanded(s: System, w: nat, c: nat)
    requires Inv(s) && w < |s.writers| && s.writers[w].pending == 0
    requires c < |s.claims| && s.claims[c].writer == w
    ensures ReadAt(s.disk, s.claims[c].at, |s.claims[c].data|) == s.claims[c].data
  {
    hide SlotsOk, KernelOk, RangesOk, AppendedOk, TilesTo, CountInFlight, ReadAt;
    assert WriterOk(w, s.writers[w], s.claims);
    assert ClaimOk(c, s.claims[c], s.writers, s.disk);
    NoFlights(s.writers[w].slots);
  }

  lemma FinishedFacts(s: System, w: nat)
    requires Inv(s) && w < |s.writers| && Finished(s.writers[w])
    ensures multiset(s.writers[w].returned) == multiset(OwnRanges(s.claims, w))
    ensures s.writers[w].appended == OwnData(s.claims, w)
  {
    hide SlotsOk, KernelOk, TilesTo, CountInFlight, OwnRanges, OwnData, ClaimOk, Flights;
    var wr := s.writers[w];
    assert WriterOk(w, wr, s.claims);
    NoFlights(wr.slots);
    assert Buffered(wr) == [];
  }

  /** End to end: for any number of writers, any interleaving and any order of
      completions, reading a finished writer's ranges in disk order gives
      exactly the concatenation of what it appended. */
  lemma ReadBackIsAppended(mems: seq<seq<Bytes>>, actions: seq<Action>, s: System, w: nat, sorted: seq<CompletedRange>)
    requires Reached(mems, actions, s) && w < |s.writers| && Finished(s.writers[w])
    requires SortedCopy(s.writers[w].returned, sorted)
    ensures ReadRanges(s.disk, sorted) == s.writers[w].appended
    ensures TotalLen(sorted) == |s.writers[w].appended|
  {
    hide Executes, Inv, Finished, OwnRanges, OwnData, ReadAt, ReadRanges, TotalLen, Sorted, StrictlySorted;
    ReachedOk(mems, actions, s);
    FinishedFacts(s, w);
    forall c | 0 <= c < |s.claims| && s.claims[c].writer == w
      ensures ReadAt(s.disk, s.claims[c].at, |s.claims[c].data|) == s.claims[c].data
    {
      FinishedDrained(s.writers[w]);
      DrainedLanded(s, w, c);
    }
    ClaimsNonEmpty(s);
    OwnSorted(s.claims, s.fileOffset, w);
    SortedUnique(OwnRanges(s.claims, w), sorted);
    OwnReadsBack(s.disk, s.claims, w);
  }

  lemma FinishedDrained(wr: Writer)
    requires Finished(wr)
    ensures wr.pending == 0
  {
  }

  lemma ClaimsNonEmpty(s: System)
    requires Inv(s)
    ensures TilesTo(s.claims, s.fileOffset)
    ensures forall c :: 0 <= c < |s.claims| ==> |s.claims[c].data| > 0
  {
    hide WriterOk, TilesTo, ReadAt;
    forall c | 0 <= c < |s.claims| ensures |s.claims[c].data| > 0 {
      assert ClaimOk(c, s.claims[c], s.writers, s.disk);
    }
  }

  // ---- all writers ------------------------------------------------------

  /** The ranges of all writers, in the order their threads are joined. */
  function AllReturned(writers: seq<Writer>): seq<CompletedRange>
  {
    if writers == [] then [] else AllReturned(writers[..|writers| - 1]) + writers[|writers| - 1].returned
  }

  function TotalAppended(writers: seq<Writer>): nat
  {
    if writers == [] then 0 else TotalAppended(writers[..|writers| - 1]) + |writers[|writers| - 1].appended|
  }

  lemma {:induction false} AllReturnedHeld(writers: seq<Writer>)
    requires forall w :: 0 <= w < |writers| ==> Held(writers[w]) == multiset(writers[w].returned)
    ensures AllHeld(writers) == multiset(AllReturned(writers))
    decreases |writers|
  {
    hide Held;
    if writers != [] {
      AllReturnedHeld(writers[..|writers| - 1]);
    }
  }

  lemma {:induction false} TotalLenConcat(xs: seq<CompletedRange>, ys: seq<CompletedRange>)
    ensures TotalLen(xs + ys) == TotalLen(xs) + TotalLen(ys)
    decreases |ys|
  {
    if ys == [] {
      assert xs + ys == xs;
    } else {
      var n := |ys| - 1;
      TotalLenConcat(xs, ys[..n]);
      assert (xs + ys)[..|xs + ys| - 1] == xs + ys[..n];
    }
  }

  lemma TakeOut(xs: seq<CompletedRange>, x: CompletedRange) returns (rest: seq<CompletedRange>)
    requires x in xs
    ensures multiset(rest) == multiset(xs) - multiset{x}
    ensures TotalLen(xs) == TotalLen(rest) + x.sealedLen
  {
    var i :| 0 <= i < |xs| && xs[i] == x;
    rest := xs[..i] + xs[i + 1..];
    assert xs == xs[..i] + ([x] + xs[i + 1..]);
    TotalLenConcat(xs[..i], [x] + xs[i + 1..]);
    TotalLenConcat([x], xs[i + 1..]);
    TotalLenConcat(xs[..i], xs[i + 1..]);
    assert TotalLen([x]) == x.sealedLen;
  }

  /** The sum does not depend on the order. */
  lemma {:induction false} TotalLenPermutes(xs: seq<CompletedRange>, ys: seq<CompletedRange>)
    requires multiset(xs) == multiset(ys)
    ensures TotalLen(xs) == TotalLen(ys)
    decreases |xs|
  {
    if xs == [] {
      assert |multiset(ys)| == 0;
    } else {
      FirstOut(xs);
      assert xs[0] in multiset(ys);
      var rest := TakeOut(ys, xs[0]);
      TotalLenPermutes(xs[1..], rest);
      TotalLenConcat([xs[0]], xs[1..]);
      assert xs == [xs[0]] + xs[1..];
      assert TotalLen([xs[0]]) == xs[0].sealedLen;
    }
  }

  lemma {:induction false} AppendedIsReturned(writers: seq<Writer>)
    requires forall w :: 0 <= w < |writers| ==> |writers[w].appended| == TotalLen(writers[w].returned)
    ensures TotalAppended(writers) == TotalLen(AllReturned(writers))
    decreases |writers|
  {
    hide TotalLen;
    if writers == [] {
      ReadNothing([]);
    } else {
      var n := |writers| - 1;
      AppendedIsReturned(writers[..n]);
      TotalLenConcat(AllReturned(writers[..n]), writers[n].returned);
    }
  }

  lemma {:induction false} TileOrder(ranges: seq<CompletedRange>, end: nat, i: nat, j: nat)
    requires Tile(ranges, end) && i < j < |ranges|
    ensures ranges[i].diskOffset < ranges[j].diskOffset
    decreases j
  {
    assert ranges[j - 1].diskOffset + ranges[j - 1].sealedLen == StartAfter(ranges, end, j - 1);
    if i < j - 1 {
      TileOrder(ranges, end, i, j - 1);
    }
  }

  lemma TileSorted(ranges: seq<CompletedRange>, end: nat)
    requires Tile(ranges, end)
    ensures StrictlySorted(ranges)
  {
    hide Tile;
    forall i, j | 0 <= i < j < |ranges| ensures ranges[i].diskOffset < ranges[j].diskOffset {
      TileOrder(ranges, end, i, j);
    }
  }

  /** Ranges that tile add up, and read as one stretch. */
  lemma {:induction false} TileReads(disk: File, ranges: seq<CompletedRange>, end: nat)
    requires Tile(ranges, end)
    ensures TotalLen(ranges) == end
    ensures ReadRanges(disk, ranges) == ReadAt(disk, 0, end)
    decreases |ranges|
  {
    if ranges == [] {
      assert ReadAt(disk, 0, 0) == [];
    } else {
      hide Tile, ReadAt;
      var last := ranges[|ranges| - 1];
      TilePrefix(ranges, end);
      TileReads(disk, ranges[..|ranges| - 1], last.diskOffset);
      ReadSplits(disk, 0, last.diskOffset, last.sealedLen);
    }
  }

  lemma TilePrefix(ranges: seq<CompletedRange>, end: nat)
    requires Tile(ranges, end) && ranges != []
    ensures Tile(ranges[..|ranges| - 1], ranges[|ranges| - 1].diskOffset)
    ensures ranges[|ranges| - 1].diskOffset + ranges[|ranges| - 1].sealedLen == end
    ensures ranges[|ranges| - 1].diskOffset < end
  {
    var n := |ranges| - 1;
    var before, start := ranges[..n], ranges[n].diskOffset;
    assert ranges[n].diskOffset + ranges[n].sealedLen == StartAfter(ranges, end, n);
    forall i | 0 <= i < n
      ensures 0 < before[i].sealedLen && before[i].diskOffset + before[i].sealedLen == StartAfter(before, start, i)
    {
      assert ranges[i].diskOffset + ranges[i].sealedLen == StartAfter(ranges, end, i);
    }
  }

  lemma FinishedHeld(s: System, w: nat)
    requires Inv(s) && w < |s.writers| && Finished(s.writers[w])
    ensures Held(s.writers[w]) == multiset(s.writers[w].returned)
    ensures |s.writers[w].appended| == TotalLen(s.writers[w].returned)
  {
    hide SlotsOk, KernelOk, RangesOk, AppendedOk, TilesTo, CountInFlight, Flights, ClaimOk, TotalLen,
         OwnRanges, OwnData, ReadAt;
    var wr := s.writers[w];
    assert WriterOk(w, wr, s.claims);
    NoFlights(wr.slots);
    FinishedFacts(s, w);
    TotalLenPermutes(wr.returned, OwnRanges(s.claims, w));
    forall c | 0 <= c < |s.claims| && s.claims[c].writer == w
      ensures ReadAt(s.disk, s.claims[c].at, |s.claims[c].data|) == s.claims[c].data
    {
      DrainedLanded(s, w, c);
    }
    OwnReadsBack(s.disk, s.claims, w);
  }

  /** Once all writers have finished: the sealed lengths add up to the offset
      counter and to the number of bytes appended, and all ranges read in disk
      order are the file from its start to the counter. */
  lemma AllFinished(mems: seq<seq<Bytes>>, actions: seq<Action>, s: System, sorted: seq<CompletedRange>)
    requires Reached(mems, actions, s) && forall w :: 0 <= w < |s.writers| ==> Finished(s.writers[w])
    requires SortedCopy(AllReturned(s.writers), sorted)
    ensures TotalLen(AllReturned(s.writers)) == s.fileOffset == TotalAppended(s.writers)
    ensures Tile(sorted, s.fileOffset)
    ensures ReadRanges(s.disk, sorted) == ReadAt(s.disk, 0, s.fileOffset)
  {
    hide Executes, Inv, Finished, TotalLen, ReadRanges, ReadAt, Sorted, StrictlySorted, Tile, Held, AllHeld,
         AllReturned;
    ReachedOk(mems, actions, s);
    var ordered := RangesTile(mems, actions, s);
    forall w | 0 <= w < |s.writers|
      ensures Held(s.writers[w]) == multiset(s.writers[w].returned)
      ensures |s.writers[w].appended| == TotalLen(s.writers[w].returned)
    {
      FinishedHeld(s, w);
    }
    AllReturnedHeld(s.writers);
    AppendedIsReturned(s.writers);
    TileSorted(ordered, s.fileOffset);
    TileReads(s.disk, ordered, s.fileOffset);
    SortedUnique(ordered, sorted);
    TotalLenPermutes(AllReturned(s.writers), sorted);
  }
}
