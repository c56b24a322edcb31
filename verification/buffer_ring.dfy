/** The buffer ring itself: fields, buffers and loops, run by one of many
    threads.  After every atomic access the other threads and the kernel may take
    any number of steps; each access is one step of the protocol, of which the
    ring keeps a ghost record.  Nothing here relies on the scheduling
    assumptions. */
module BufferRings {
  import opened Bits
  import opened Files
  import opened StateWord
  import opened FlushBuffers
  import opened QuikIo
  import opened RingProtocol
  import opened RingHistory
  import opened RingShape
  import opened RingViews

  datatype BufferMsg = SuccessfullWrite | SuccessfullWriteFlush

  /** Only others took the steps in between. */
  ghost predicate OthersOnly(before: seq<Action>, after: seq<Action>, t: nat)
  {
    before <= after && forall i :: |before| <= i < |after| ==> after[i].t != t
  }

  /** What a thread may count on over any stretch of time: receipts and messages
      stay, and completions it has taken from the queue are its own. */
  ghost predicate Onward(s: Ring, s': Ring, mine: set<nat>)
  {
    && |s'.threads| == |s.threads|
    && s.accepted <= s'.accepted && s.records <= s'.records
    && (forall id :: id in mine ==>
         id in s.outstanding && id in s'.outstanding && s'.outstanding[id] == s.outstanding[id])
  }

  /** The result of a reservation and where it leaves the thread. */
  predicate Follows(pc: Pc, b: nat, r: Result<nat>, payload: Bytes)
  {
    match r
    case Ok(off) =>
      pc.Reserved? && pc.b == b && pc.off == off && pc.payload == payload && off + |payload| <= ONE_MEGABYTE_BLOCK
    case Err(InsufficientSpace) => pc == SawFull(b)
    case Err(_) => pc == Idle
  }

  // ---- paths ------------------------------------------------------------
  // What a thread does in one call: the program points it steps from, each with
  // the word of its buffer that the step met.

  predicate IsAt(d: Deed, pc: Pc)
  {
    d.Stepped? && d.pc == pc
  }

  /** Load the length, load the address, push a write of just these. */
  predicate SubmitPath(p: seq<Deed>, b: nat)
  {
    && |p| == 3 && IsAt(p[0], Submitting(b))
    && p[2].Stepped? && p[2].pc.Pushing? && p[2].pc.b == b && p[2].pc.len == Pad(p[0].word.offset)
    && IsAt(p[1], Dispatching(b, p[2].pc.len))
  }

  predicate FlushPath(p: seq<Deed>, b: nat)
  {
    |p| == 4 && IsAt(p[0], Flushing(b)) && SubmitPath(p[1..], b)
  }

  /** Copy and release; the last writer of a sealed buffer claims the flush, and
      flushes if it is the first to. */
  predicate PayloadPath(p: seq<Deed>, b: nat, start: Pc)
  {
    && start.Reserved? && |p| >= 2 && IsAt(p[0], start) && IsAt(p[1], Written(b, start.g, start.i, start.payload))
    && if !(p[1].word.writers == 1 && p[1].word.sealed) then |p| == 2
       else |p| >= 3 && IsAt(p[2], LastWriter(b)) && ClaimPath(p[2..], b)
  }

  /** Of all who claim, the one that finds the flag clear flushes. */
  predicate ClaimPath(p: seq<Deed>, b: nat)
  {
    && |p| >= 1 && p[0].Stepped?
    && if p[0].word.flushing then |p| == 1 else FlushPath(p[1..], b)
  }

  /** Candidate after candidate was found taken: `left` of `n` looks are left. */
  predicate LookedPath(p: seq<Deed>, b: nat, size: nat, n: nat, left: nat)
    decreases |p|
  {
    if left >= n then left == n && p == []
    else
      && |p| >= 2 && IsAt(p[|p| - 2], Scanning(b, size, left + 1))
      && p[|p| - 1].Stepped? && p[|p| - 1].pc.Probing? && p[|p| - 1].pc == Probing(b, size, left, p[|p| - 1].pc.cand)
      && LookedPath(p[..|p| - 2], b, size, n, left + 1)
  }

  /** Swap to the candidate looked at last, book an address and stamp it. */
  predicate MovePath(p: seq<Deed>, b: nat, size: nat, target: nat)
  {
    && |p| == 3 && IsAt(p[0], Swapping(b, size, target)) && IsAt(p[1], Booking(b, size, target))
    && p[2].Stepped? && p[2].pc.Stamping? && p[2].pc == Stamping(b, p[2].pc.slot, target)
  }

  /** Look at one candidate after the other and move to the first that is
      available.  The ring is exhausted when as many as it has buffers have been
      looked at in vain. */
  ghost predicate ScanPath(p: seq<Deed>, b: nat, size: nat, n: nat, r: Result<()>)
  {
    if r.Err? then
      r.error == RingExhausted && |p| >= 1 && LookedPath(p[..|p| - 1], b, size, n, 0)
      && IsAt(p[|p| - 1], Scanning(b, size, 0))
    else
      |p| >= 4 && exists left: nat, target: nat ::
        left < n && LookedPath(p[..|p| - 3], b, size, n, left) && IsAt(p[|p| - 4], Probing(b, size, left, target))
        && MovePath(p[|p| - 3..], b, size, target)
  }

  lemma ScanEnds(p: seq<Deed>, b: nat, size: nat, n: nat, r: Result<()>)
    requires ScanPath(p, b, size, n, r)
    ensures p != [] && p[|p| - 1].Stepped?
    ensures r == if p[|p| - 1].pc.Scanning? then Err(RingExhausted) else Ok(())
  {
    hide LookedPath;
    if r.Ok? {
      assert r.value == () && p[|p| - 3..][2] == p[|p| - 1];
    }
  }

  /** Nothing to do if the ring has moved on, else the scan. */
  ghost predicate RotatePath(p: seq<Deed>, b: nat, n: nat, r: Result<()>)
  {
    && |p| >= 2 && IsAt(p[0], Rotating(b)) && p[1].Stepped? && p[1].pc.Measuring? && p[1].pc.b == b
    && if p[1].pc.cur != b then |p| == 2 && r == Ok(()) else ScanPath(p[2..], b, p[1].word.offset, n, r)
  }

  /** The sealer looks whether anybody is writing, and claims if not. */
  predicate CheckPath(p: seq<Deed>, b: nat)
  {
    && |p| >= 1 && IsAt(p[0], Checking(b))
    && if p[0].word.writers != 0 then |p| == 1 else |p| >= 2 && IsAt(p[1], Claiming(b)) && ClaimPath(p[1..], b)
  }

  /** Load the size, claim a range of padded size, store its start. */
  predicate PublishPath(p: seq<Deed>, b: nat)
  {
    && |p| == 3 && IsAt(p[0], Sealing(b)) && IsAt(p[1], Sized(b, Pad(p[0].word.offset)))
    && p[2].Stepped? && p[2].pc.Publishing? && p[2].pc.b == b
  }

  /** Publish, rotate, check. */
  ghost predicate SealerPath(p: seq<Deed>, b: nat, n: nat)
  {
    exists publish, rotation, r, check ::
      && p == publish + rotation + check
      && PublishPath(publish, b) && RotatePath(rotation, b, n, r) && CheckPath(check, b)
  }

  /** The first to seal claims and publishes a range, rotates and makes its
      check. */
  ghost predicate SealingPath(p: seq<Deed>, b: nat, n: nat)
  {
    && |p| >= 1 && IsAt(p[0], SawFull(b))
    && if p[0].word.sealed then |p| == 1 else SealerPath(p[1..], b, n)
  }

  /** Load the address, tell the receiver, and reset with two stores. */
  predicate FinishPath(p: seq<Deed>, b: nat)
  {
    && |p| == 4 && IsAt(p[0], Reaping(b)) && p[1].Stepped? && p[1].pc.Noting? && p[1].pc.b == b
    && IsAt(p[2], Recorded(b)) && IsAt(p[3], Clearing(b))
  }

  /** A failed write is pushed again; of a finished one the receiver is told, and
      the buffer is reset. */
  predicate CompletionPath(p: seq<Deed>, cqe: Cqe, id: nat)
  {
    && cqe.userData > 0
    && var b := cqe.userData - 1;
       if cqe.result < 0 then |p| == 2 && p[0] == Took(id, true) && IsAt(p[1], Retrying(b))
       else
         |p| >= 1 && p[0] == Took(id, false) && FinishPath(p[1..], b)
  }

  /** One path for each completion, none for those of a sync. */
  predicate CompletionPaths(paths: seq<seq<Deed>>, cqes: seq<Cqe>, ids: seq<nat>)
  {
    && |paths| == |cqes| == |ids|
    && forall i :: 0 <= i < |cqes| ==>
         if cqes[i].userData == 0 then paths[i] == [] else CompletionPath(paths[i], cqes[i], ids[i])
  }

  // ---- which paths push -------------------------------------------------

  predicate IsPush(d: Deed, b: nat)
  {
    d.Stepped? && d.pc.Pushing? && d.pc.b == b
  }

  lemma ClaimPushes(p: seq<Deed>, b: nat)
    requires ClaimPath(p, b) && !IsPush(p[0], b)
    ensures !p[0].word.flushing ==> |p| == 5 && IsPush(p[4], b)
    ensures p[0].word.flushing ==> |p| == 1
  {
    if !p[0].word.flushing {
      var q := p[1..];
      assert q[1..][2] == p[4];
    }
  }

  lemma PayloadPushes(p: seq<Deed>, b: nat, start: Pc)
    requires PayloadPath(p, b, start)
    ensures (exists k :: 0 <= k < |p| && IsPush(p[k], b)) <==>
            p[1].word.writers == 1 && p[1].word.sealed && |p| >= 3 && !p[2].word.flushing
  {
    hide ClaimPath;
    if p[1].word.writers == 1 && p[1].word.sealed {
      ClaimPushes(p[2..], b);
      if !p[2].word.flushing {
        assert IsPush(p[6], b);
      }
    }
  }

  lemma CheckPushes(p: seq<Deed>, b: nat)
    requires CheckPath(p, b)
    ensures (exists k :: 0 <= k < |p| && IsPush(p[k], b)) <==> |p| >= 2 && !p[1].word.flushing
  {
    hide ClaimPath;
    if p[0].word.writers == 0 {
      ClaimPushes(p[1..], b);
      if !p[1].word.flushing {
        assert IsPush(p[5], b);
      }
    }
  }

  lemma {:induction false} LooksPushNothing(p: seq<Deed>, b: nat, size: nat, n: nat, left: nat)
    requires LookedPath(p, b, size, n, left)
    ensures forall k :: 0 <= k < |p| ==> !IsPush(p[k], b)
    decreases |p|
  {
    if left < n {
      var m := |p| - 2;
      LooksPushNothing(p[..m], b, size, n, left + 1);
      forall k | 0 <= k < |p| ensures !IsPush(p[k], b) {
        assert k < m ==> p[k] == p[..m][k];
      }
    }
  }

  lemma RotationPushesNothing(p: seq<Deed>, b: nat, n: nat, r: Result<()>)
    requires RotatePath(p, b, n, r)
    ensures forall k :: 0 <= k < |p| ==> !IsPush(p[k], b)
  {
    hide ScanPath;
    if p[1].pc.cur == b {
      ScanPushesNothing(p[2..], b, p[1].word.offset, n, r);
      forall k | 2 <= k < |p| ensures !IsPush(p[k], b) {
        assert p[k] == p[2..][k - 2];
      }
    }
  }

  lemma ScanPushesNothing(p: seq<Deed>, b: nat, size: nat, n: nat, r: Result<()>)
    requires ScanPath(p, b, size, n, r)
    ensures forall k :: 0 <= k < |p| ==> !IsPush(p[k], b)
  {
    hide LookedPath;
    if r.Err? {
      var m := |p| - 1;
      LooksPushNothing(p[..m], b, size, n, 0);
      forall k | 0 <= k < |p| ensures !IsPush(p[k], b) {
        assert k < m ==> p[k] == p[..m][k];
      }
    } else {
      var m := |p| - 3;
      var left: nat, target: nat :|
        left < n && LookedPath(p[..m], b, size, n, left) && MovePath(p[m..], b, size, target);
      LooksPushNothing(p[..m], b, size, n, left);
      forall k | 0 <= k < |p| ensures !IsPush(p[k], b) {
        assert if k < m then p[k] == p[..m][k] else p[k] == p[m..][k - m];
      }
    }
  }

  /** A sealer pushes in its check or not at all. */
  lemma SealerPushes(publish: seq<Deed>, rotation: seq<Deed>, check: seq<Deed>, b: nat, n: nat, r: Result<()>)
    requires PublishPath(publish, b) && RotatePath(rotation, b, n, r)
    ensures var p := publish + rotation + check;
            (exists k :: 0 <= k < |p| && IsPush(p[k], b)) <==> (exists k :: 0 <= k < |check| && IsPush(check[k], b))
  {
    hide RotatePath;
    RotationPushesNothing(rotation, b, n, r);
    var p, m := publish + rotation + check, |publish + rotation|;
    if k :| 0 <= k < |check| && IsPush(check[k], b) {
      assert p[m + k] == check[k];
    }
    forall k | 0 <= k < m ensures !IsPush(p[k], b) {
      if k >= 3 {
        assert p[k] == rotation[k - 3];
      }
    }
    forall k | m <= k < |p| && IsPush(p[k], b) ensures IsPush(check[k - m], b) {
    }
  }

  lemma PushesLater(first: Deed, rest: seq<Deed>, b: nat)
    requires !IsPush(first, b)
    ensures var p := [first] + rest;
            (exists k :: 0 <= k < |p| && IsPush(p[k], b)) <==> (exists k :: 0 <= k < |rest| && IsPush(rest[k], b))
  {
    var p := [first] + rest;
    if k :| 0 <= k < |rest| && IsPush(rest[k], b) {
      assert p[k + 1] == rest[k];
    }
    forall k | 0 <= k < |p| && IsPush(p[k], b) ensures k >= 1 && IsPush(rest[k - 1], b) {
    }
  }

  lemma EachTaken(paths: seq<seq<Deed>>, cqes: seq<Cqe>, ids: seq<nat>)
    requires CompletionPaths(paths, cqes, ids)
    ensures forall i :: 0 <= i < |paths| && cqes[i].userData != 0 ==>
              paths[i] != [] && paths[i][0] == Took(ids[i], cqes[i].result < 0)
  {
    hide FinishPath;
  }

  function Flat<T>(parts: seq<seq<T>>): seq<T>
  {
    if parts == [] then [] else Flat(parts[..|parts| - 1]) + parts[|parts| - 1]
  }

  lemma NothingFlat<T>()
    ensures Flat<T>([]) == []
  {
  }

  lemma FlatOne<T>(parts: seq<seq<T>>, part: seq<T>)
    ensures Flat(parts + [part]) == Flat(parts) + part
  {
    assert (parts + [part])[..|parts|] == parts;
  }

  lemma {:induction false} FlatJoins<T>(xs: seq<seq<T>>, ys: seq<seq<T>>)
    ensures Flat(xs + ys) == Flat(xs) + Flat(ys)
    decreases |ys|
  {
    if ys == [] {
      assert xs + ys == xs;
    } else {
      var last := |ys| - 1;
      FlatJoins(xs, ys[..last]);
      assert (xs + ys)[..|xs + ys| - 1] == xs + ys[..last];
      assert Flat(xs) + Flat(ys[..last]) + ys[last] == Flat(xs) + Flat(ys);
    }
  }

  /** Load the word, and exchange it if it allows the reservation. */
  predicate ReservePath(p: seq<Deed>, b: nat, payload: Bytes, r: Result<nat>)
  {
    && |p| >= 1 && IsAt(p[0], Picked(b, payload))
    && var w := p[0].word;
       if w.sealed || w.flushing then |p| == 1 && r == Err(EncounteredSealedBuffer)
       else if w.offset + |payload| > ONE_MEGABYTE_BLOCK then |p| == 1 && r == Err(InsufficientSpace)
       else
         && |p| == 2 && IsAt(p[1], Loaded(b, payload, w))
         && r == if p[1].word == w then Ok(w.offset) else Err(FailedReservation)
  }

  lemma NoLooks(b: nat, size: nat, n: nat)
    ensures LookedPath([], b, size, n, n)
  {
  }

  lemma OneLook(looked: seq<Deed>, look: seq<Deed>, b: nat, size: nat, n: nat, left: nat, cand: nat)
    requires 0 < left <= n && LookedPath(looked, b, size, n, left)
    requires |look| == 2 && IsAt(look[0], Scanning(b, size, left)) && IsAt(look[1], Probing(b, size, left - 1, cand))
    ensures LookedPath(looked + look, b, size, n, left - 1)
  {
    var p := looked + look;
    assert p[..|p| - 2] == looked;
  }

  lemma Scanned(looked: seq<Deed>, move: seq<Deed>, b: nat, size: nat, n: nat, left: nat, target: nat)
    requires left < n && LookedPath(looked, b, size, n, left) && MovePath(move, b, size, target)
    requires |looked| >= 1 && IsAt(looked[|looked| - 1], Probing(b, size, left, target))
    ensures ScanPath(looked + move, b, size, n, Ok(()))
  {
    hide LookedPath, MovePath;
    var p := looked + move;
    MoveLength(move, b, size, target);
    assert p[..|p| - 3] == looked && p[|p| - 3..] == move;
  }

  lemma MoveLength(move: seq<Deed>, b: nat, size: nat, target: nat)
    requires MovePath(move, b, size, target)
    ensures |move| == 3
  {
  }

  lemma Exhausted(looked: seq<Deed>, last: Deed, b: nat, size: nat, n: nat)
    requires LookedPath(looked, b, size, n, 0) && IsAt(last, Scanning(b, size, 0))
    ensures ScanPath(looked + [last], b, size, n, Err(RingExhausted))
  {
    hide LookedPath;
    var p := looked + [last];
    assert p[..|p| - 1] == looked;
  }

  lemma OnwardKeys(s: Ring, s': Ring, mine: set<nat>)
    requires Onward(s, s', mine)
    ensures mine <= s'.outstanding.Keys
  {
  }

  lemma OnwardJoins(s: Ring, s1: Ring, s2: Ring, mine: set<nat>)
    requires Onward(s, s1, mine) && Onward(s1, s2, mine)
    ensures Onward(s, s2, mine)
  {
  }

  lemma Longer<T>(before: seq<T>, path: seq<T>, more: seq<T>)
    ensures before + path + more == before + (path + more)
  {
  }

  /** Receipt `r` was added on the way from `before` to `after`. */
  ghost predicate Received(before: seq<Receipt>, after: seq<Receipt>, r: Receipt)
  {
    exists k :: |before| <= k < |after| && after[k] == r
  }

  /** What the kernel made of a write: its bytes are in the file, or it failed
      and left any bytes at all in its range. */
  datatype Fate = Landed | Botched(junk: Bytes)

  /** What one look at the completion queue found. */
  datatype Catch = Catch(cqes: seq<Cqe>, ids: seq<nat>)

  ghost function Cqes(catches: seq<Catch>): seq<Cqe>
  {
    if catches == [] then [] else Cqes(catches[..|catches| - 1]) + catches[|catches| - 1].cqes
  }

  ghost function Ids(catches: seq<Catch>): seq<nat>
  {
    if catches == [] then [] else Ids(catches[..|catches| - 1]) + catches[|catches| - 1].ids
  }

  lemma NothingCaught()
    ensures Cqes([]) == [] && Ids([]) == []
  {
  }

  lemma OneCatch(catches: seq<Catch>, c: Catch)
    ensures Cqes(catches + [c]) == Cqes(catches) + c.cqes && Ids(catches + [c]) == Ids(catches) + c.ids
  {
    assert (catches + [c])[..|catches|] == catches;
  }

  /** Completions taken from the queue: each but those of a sync (which carry
      the number 0) answers a different outstanding write, and its result is
      negative exactly when the write failed. */
  ghost predicate Taken(cqes: seq<Cqe>, ids: seq<nat>, fates: seq<Fate>, outstanding: map<nat, Write>, from: nat)
  {
    && |cqes| == |ids| == |fates|
    && (forall i :: from <= i < |cqes| && cqes[i].userData != 0 ==>
        && ids[i] in outstanding && cqes[i].userData == outstanding[ids[i]].buf + 1
        && (cqes[i].result < 0 <==> fates[i].Botched?)
        && (fates[i].Botched? ==> |fates[i].junk| <= outstanding[ids[i]].len))
    && (forall i, j :: from <= i < j < |cqes| && cqes[i].userData != 0 && cqes[j].userData != 0 ==> ids[i] != ids[j])
  }

  /** The writes whose completions are still to be handled. */
  ghost function Rest(cqes: seq<Cqe>, ids: seq<nat>, from: nat): set<nat>
    requires |cqes| == |ids|
  {
    set i | from <= i < |cqes| && cqes[i].userData != 0 :: ids[i]
  }

  class BufferRing {
    const ring: seq<FlushBuffer>
    const mems: seq<array<bv8>>
    const store: Store
    ghost const n: nat                 // threads
    var current: nat
    var nextIndex: nat
    var nextAddress: nat
    var sent: seq<(nat, nat)>          // completion messages
    ghost var model: Ring
    ghost var trace: seq<Action>
    ghost var catches: map<nat, seq<Catch>>   // what each thread's looks at the completion queue found

    ghost predicate Shape()
    {
      && 0 < |ring| == |mems|
      && (forall b :: 0 <= b < |ring| ==>
           ring[b].mem == mems[b] && ring[b].pos == b && mems[b].Length == ONE_MEGABYTE_BLOCK)
      && (forall a, b :: 0 <= a < b < |ring| ==> ring[a] != ring[b] && mems[a] != mems[b])
    }

    /** The submission that stands for a write of the protocol. */
    ghost function EntryOf(w: Write): SubmitEntry
      requires w.buf < |mems|
    {
      SubmitEntry(mems[w.buf], w.len, w.at, w.buf + 1)
    }

    ghost predicate BufferIs(b: nat, buf: Buffer)
      requires Shape() && b < |ring|
      reads ring[b], mems[b]
    {
      && ring[b].Word() == buf.word && mems[b][..] == buf.mem && ring[b].localAddress == buf.addr
      && match buf.sqe
         case None => ring[b].sqe == None
         case Some(w) => w.buf < |mems| && ring[b].sqe == Some(EntryOf(w))
    }

    /** The submissions are those of the protocol. */
    ghost predicate Matches(entries: map<nat, SubmitEntry>, writes: map<nat, Write>)
    {
      && entries.Keys == writes.Keys
      && (forall id :: id in writes ==> writes[id].buf < |mems| && entries[id] == EntryOf(writes[id]))
    }

    lemma MatchesPush(entries: map<nat, SubmitEntry>, writes: map<nat, Write>, id: nat, w: Write)
      requires Matches(entries, writes) && w.buf < |mems|
      ensures Matches(entries[id := EntryOf(w)], writes[id := w])
    {
    }

    lemma MatchesTake(entries: map<nat, SubmitEntry>, writes: map<nat, Write>, id: nat)
      requires Matches(entries, writes) && id in writes
      ensures id in entries && writes[id].buf < |mems| && entries[id] == EntryOf(writes[id])
      ensures Matches(entries - {id}, writes - {id})
    {
    }

    ghost predicate StoreIs(disk: File, outstanding: map<nat, Write>, nextId: nat)
      reads store
    {
      && store.file == disk && store.nextId == nextId
      && Matches(store.outstanding, outstanding)
    }

    ghost predicate FieldsAre(m: Ring)
      reads this`current, this`nextIndex, this`nextAddress, this`sent, store
    {
      && current == m.current && nextIndex == m.nextIndex < WORD_LIMIT && nextAddress == m.counter
      && StoreIs(m.disk, m.outstanding, m.nextId)
      && |sent| == |m.records| && (forall r :: 0 <= r < |sent| ==> sent[r] == (m.records[r].at, m.records[r].count))
    }

    /** The ring's fields and its buffers are those of protocol state `m`. */
    ghost predicate Mirrors(m: Ring)
      requires Shape()
      reads this`current, this`nextIndex, this`nextAddress, this`sent, ring, mems, store
    {
      FieldsAre(m) && |m.bufs| == |ring| && forall b :: 0 <= b < |ring| ==> BufferIs(b, m.bufs[b])
    }

    ghost predicate Ran()
      requires |ring| > 0
      reads this
    {
      Executes(NONE, Init(|ring|, n), trace, model) && Wf(model) && IdsFresh(model) && |model.threads| == n
    }

    ghost predicate Valid()
      reads this, ring, mems, store
    {
      Shape() && Ran() && Mirrors(model)
    }

    /** What thread `t` has done so far. */
    ghost function Did(t: nat): seq<Deed>
      reads this`trace
    {
      if |ring| > 0 then Trail(Init(|ring|, n), trace, t) else []
    }

    /** What thread `t` has found in the completion queue so far, look by look. */
    ghost function Polled(t: nat): seq<Catch>
      reads this`catches
    {
      if t in catches then catches[t] else []
    }

    /** The step that thread `t` is about to take. */
    ghost function Doing(t: nat): (d: Deed)
      reads this`model
      ensures t < |model.threads| && !model.threads[t].Idle? ==> IsAt(d, model.threads[t])
    {
      if t < |model.threads| then DeedOf(model, Run(t)) else Began([])
    }

    /** Thread `t` is at `pc`. */
    ghost predicate At(t: nat, pc: Pc)
      reads this
    {
      t < |model.threads| && model.threads[t] == pc
    }

    /** `capacity` open buffers of 1 MiB, for `threads` threads. */
    constructor (capacity: nat, ghost threads: nat)
      requires capacity > 0
      ensures Valid() && |ring| == capacity && n == threads
      ensures model == Init(capacity, threads) && trace == [] && catches == map[]
      ensures current == 0 && nextIndex == 1 && nextAddress == 0 && sent == []
      ensures store.file == [] && store.outstanding == map[]
    {
      var all, memory := Buffers(capacity);
      ring, mems := all, memory;
      store := new Store();
      n := threads;
      current, nextIndex, nextAddress, sent := 0, 1, 0, [];
      model, trace, catches := Init(capacity, threads), [], map[];
    }

    static method Buffers(capacity: nat) returns (all: seq<FlushBuffer>, memory: seq<array<bv8>>)
      ensures |all| == |memory| == capacity
      ensures forall b :: 0 <= b < capacity ==>
                fresh(all[b]) && fresh(memory[b])
                && all[b].mem == memory[b] && all[b].pos == b && memory[b].Length == ONE_MEGABYTE_BLOCK
                && all[b].Word() == ZERO && memory[b][..] == Zeros(ONE_MEGABYTE_BLOCK) && all[b].localAddress == 0
                && all[b].sqe == None
      ensures forall a, b :: 0 <= a < b < capacity ==> all[a] != all[b] && memory[a] != memory[b]
    {
      hide Decode;
      all, memory := [], [];
      while |all| < capacity
        invariant |all| == |memory| <= capacity
        invariant forall b :: 0 <= b < |all| ==>
                    fresh(all[b]) && fresh(memory[b])
                    && all[b].mem == memory[b] && all[b].pos == b && memory[b].Length == ONE_MEGABYTE_BLOCK
                    && all[b].Word() == ZERO && memory[b][..] == Zeros(ONE_MEGABYTE_BLOCK) && all[b].localAddress == 0
                    && all[b].sqe == None
        invariant forall a, b :: 0 <= a < b < |all| ==> all[a] != all[b] && memory[a] != memory[b]
      {
        var buffer := new FlushBuffer(|all|, ONE_MEGABYTE_BLOCK);
        assert buffer.mem.Length == |buffer.mem[..]|;
        all, memory := all + [buffer], memory + [buffer.mem];
      }
    }

    /** Records one step of the protocol. */
    ghost method Step(a: Action)
      requires |ring| > 0 && Ran() && Enabled(NONE, model, a)
      modifies this`model, this`trace
      ensures Ran() && model == Apply(old(model), a) && trace == old(trace) + [a]
      ensures Onward(old(model), model, {})
      ensures Did(a.t) == old(Did(a.t)) + [old(DeedOf(model, a))]
    {
      hide Apply, Enabled, Wf, Executes, DeedOf;
      TrailThen(Init(|ring|, n), trace, model, a, a.t);
      StepShape(model, a);
      ExecutesThen(Init(|ring|, n), trace, model, a);
      model := Apply(model, a);
      trace := trace + [a];
    }

    lemma Here()
      requires Valid()
      ensures FieldsAre(model) && |model.bufs| == |ring| && forall b :: 0 <= b < |ring| ==> BufferIs(b, model.bufs[b])
    {
      hide Executes, Wf;
    }

    /** A step that only loads. */
    lemma LoadStep(s: Ring, s': Ring)
      requires Shape() && Mirrors(s) && SameRest(s, s') && s'.bufs == s.bufs
      ensures Mirrors(s')
    {
    }

    /** A step that changes one buffer. */
    lemma BufferStep(s: Ring, s': Ring, b: nat)
      requires Shape() && b < |ring| == |s.bufs| && FieldsAre(s) && OnlyBuffer(s, s', b)
      requires forall c :: 0 <= c < |ring| && c != b ==> BufferIs(c, s.bufs[c])
      requires BufferIs(b, s'.bufs[b])
      ensures Mirrors(s')
    {
      hide BufferIs, StoreIs;
    }

    /** A step that changes no buffer. */
    lemma FieldStep(s: Ring, s': Ring)
      requires Shape() && FieldsAre(s') && s'.bufs == s.bufs && |s.bufs| == |ring|
      requires forall b :: 0 <= b < |ring| ==> BufferIs(b, s.bufs[b])
      ensures Mirrors(s')
    {
      hide BufferIs, FieldsAre;
    }

    /** Everybody else runs for a while, and may do anything a thread can do. */
    method Interfere(ghost t: nat, ghost mine: set<nat> := {})
      requires Valid() && t < n && mine <= model.outstanding.Keys
      modifies this, ring, mems, store
      ensures Valid() && OthersOnly(old(trace), trace, t)
      ensures Onward(old(model), model, mine)
      ensures model.threads[t] == old(model.threads[t]) && Did(t) == old(Did(t)) && Polled(t) == old(Polled(t))
    {
    }

    // ---- reserving ------------------------------------------------------

    method CurrentBuffer(ghost t: nat, ghost payload: Bytes) returns (b: nat)
      requires Valid() && At(t, Idle) && |payload| <= ONE_MEGABYTE_BLOCK
      modifies this, ring, mems, store
      ensures Valid() && b < |ring| && At(t, Picked(b, payload)) && old(trace) <= trace && Onward(old(model), model, {})
      ensures Did(t) == old(Did(t)) + [Began(payload)]
    {
      hide Executes, Did, Apply, Next, Enabled, BufferIs, StoreIs;
      BeginView(model, t, payload);
      b := current;
      LoadStep(model, Apply(model, Begin(t, payload)));
      Step(Begin(t, payload));
      Interfere(t);
    }

    method LoadWord(ghost t: nat, b: nat, payload: Bytes) returns (loaded: Packed, r: Result<nat>)
      requires Valid() && b < |ring| && At(t, Picked(b, payload)) && |payload| <= ONE_MEGABYTE_BLOCK
      modifies this, ring, mems, store
      ensures Valid() && old(trace) <= trace && Onward(old(model), model, {})
      ensures Did(t) == old(Did(t)) + [old(Doing(t))]
      ensures r.Ok? ==> At(t, Loaded(b, payload, Decode(loaded)))
      ensures r.Ok? ==> r.value == Decode(loaded).offset && r.value + |payload| <= ONE_MEGABYTE_BLOCK
      ensures r.Err? ==> At(t, if r.error == InsufficientSpace then SawFull(b) else Idle)
      ensures Decode(loaded) == old(Doing(t)).word
      ensures r == var w := Decode(loaded);
                   if w.sealed || w.flushing then Err(EncounteredSealedBuffer)
                   else if w.offset + |payload| > ONE_MEGABYTE_BLOCK then Err(InsufficientSpace)
                   else Ok(w.offset)
    {
      hide Executes, Did, Decode, Apply, Next, Enabled, Wf, Mirrors;
      Here();
      LoadView(model, t);
      LoadStep(model, Apply(model, Run(t)));
      loaded := ring[b].state;
      r := ring[b].Examine(loaded, |payload|);
      Step(Run(t));
      Interfere(t);
    }

    method ExchangeWord(ghost t: nat, b: nat, payload: Bytes, loaded: Packed) returns (swapped: bool)
      requires Valid() && b < |ring| && At(t, Loaded(b, payload, Decode(loaded))) && |payload| <= ONE_MEGABYTE_BLOCK
      modifies this, ring, mems, store
      ensures Valid() && old(trace) <= trace && Onward(old(model), model, {})
      ensures Did(t) == old(Did(t)) + [old(Doing(t))] && t < |model.threads|
      ensures if swapped
              then var pc := model.threads[t];
                   pc.Reserved? && pc.b == b && pc.off == Decode(loaded).offset && pc.payload == payload
              else model.threads[t] == Idle
      ensures swapped <==> old(Doing(t)).word == Decode(loaded)
    {
      hide Executes, Did, Decode, Apply, Next, Enabled, Wf, Reserve, Mirrors;
      Here();
      ReserveView(model, t);
      swapped := ring[b].Exchange(loaded, |payload|);
      BufferStep(model, Apply(model, Run(t)), b);
      Step(Run(t));
      Interfere(t);
    }

    method ReserveSpace(ghost t: nat, b: nat, payload: Bytes) returns (r: Result<nat>, ghost path: seq<Deed>)
      requires Valid() && b < |ring| && At(t, Picked(b, payload)) && |payload| <= ONE_MEGABYTE_BLOCK
      modifies this, ring, mems, store
      ensures Valid() && old(trace) <= trace && Onward(old(model), model, {})
      ensures Did(t) == old(Did(t)) + path && ReservePath(path, b, payload, r)
      ensures t < |model.threads| && Follows(model.threads[t], b, r, payload)
      ensures path != [] && path[0].Stepped? && forall d :: d in path ==> d.Stepped?
      ensures var w := path[0].word;
              r == if w.sealed || w.flushing then Err(EncounteredSealedBuffer)
                   else if w.offset + |payload| > 0x10_0000 then Err(InsufficientSpace)
                   else if path[|path| - 1].word == w then Ok(w.offset) else Err(FailedReservation)
    {
      hide Executes, Decode, Mirrors, Wf, Trail;
      path := [Doing(t)];
      var loaded: Packed;
      loaded, r := LoadWord(t, b, payload);
      if r.Ok? {
        path := path + [Doing(t)];
        var swapped := ExchangeWord(t, b, payload, loaded);
        if !swapped {
          r := Err(FailedReservation);
        }
      }
    }

    // ---- the writer's part of put ---------------------------------------

    method WritePayload(ghost t: nat, b: nat, off: nat, payload: Bytes)
      requires Valid() && b < |ring| && t < n && off + |payload| <= ONE_MEGABYTE_BLOCK
      requires var pc := model.threads[t]; pc.Reserved? && pc.b == b && pc.off == off && pc.payload == payload
      modifies this, ring, mems, store
      ensures Valid() && old(trace) <= trace && Onward(old(model), model, {})
      ensures Did(t) == old(Did(t)) + [old(Doing(t))]
      ensures At(t, Written(b, old(model.threads[t]).g, old(model.threads[t]).i, payload))
    {
      hide Executes, Did, DeedOf, Decode, Apply, Next, Enabled, Wf, Blit, Mirrors;
      Here();
      CopyView(model, t);
      ring[b].Write(off, payload);
      BufferStep(model, Apply(model, Run(t)), b);
      Step(Run(t));
      Interfere(t);
    }

    method ReleaseWriter(ghost t: nat, b: nat) returns (prev: Packed)
      requires Valid() && b < |ring| && t < n && model.threads[t].Written? && model.threads[t].b == b
      modifies this, ring, mems, store
      ensures Valid() && old(trace) <= trace && Onward(old(model), model, {})
      ensures Did(t) == old(Did(t)) + [old(Doing(t))]
      ensures At(t, if StateWriters(prev) == 1 && StateSealed(prev) then LastWriter(b) else Idle)
      ensures var pc := old(model.threads[t]);
              Received(old(model.accepted), model.accepted, Receipt(pc.g, pc.i, pc.payload))
      ensures Decode(prev) == old(Doing(t)).word
    {
      hide Executes, Did, Apply, Next, Enabled, Wf, Release, And, Mirrors;
      Here();
      ReleaseView(model, t);
      prev := ring[b].DecrementWriters();
      BufferStep(model, Apply(model, Run(t)), b);
      Step(Run(t));
      ghost var pc := old(model.threads[t]);
      assert model.accepted[old(|model.accepted|)] == Receipt(pc.g, pc.i, pc.payload);
      Interfere(t);
    }

    /** Of all who try, the one that finds the bit clear goes on to flush. */
    method ClaimFlush(ghost t: nat, b: nat) returns (won: bool)
      requires Valid() && b < |ring| && (At(t, LastWriter(b)) || At(t, Claiming(b)))
      modifies this, ring, mems, store
      ensures Valid() && old(trace) <= trace && Onward(old(model), model, {})
      ensures Did(t) == old(Did(t)) + [old(Doing(t))]
      ensures At(t, if won then Flushing(b) else Idle)
      ensures won <==> !old(Doing(t)).word.flushing
    {
      hide Executes, Did, Apply, Next, Enabled, Wf, And, Mirrors;
      Here();
      FlagView(model, t);
      var before := ring[b].SetFlushInProgress();
      BufferStep(model, Apply(model, Run(t)), b);
      Step(Run(t));
      Interfere(t);
      won := !StateFlushInProgress(before);
    }

    // ---- dispatching ----------------------------------------------------

    method SetFlushAgain(ghost t: nat, b: nat)
      requires Valid() && b < |ring| && At(t, Flushing(b))
      modifies this, ring, mems, store
      ensures Valid() && old(trace) <= trace && Onward(old(model), model, {})
      ensures Did(t) == old(Did(t)) + [old(Doing(t))] && At(t, Submitting(b))
    {
      hide Executes, Did, DeedOf, Apply, Next, Enabled, Wf, And, Mirrors;
      Here();
      FlagView(model, t);
      var before := ring[b].SetFlushInProgress();
      BufferStep(model, Apply(model, Run(t)), b);
      Step(Run(t));
      Interfere(t);
    }

    method LoadDataLen(ghost t: nat, b: nat) returns (len: nat)
      requires Valid() && b < |ring| && At(t, Submitting(b))
      modifies this, ring, mems, store
      ensures Valid() && old(trace) <= trace && Onward(old(model), model, {})
      ensures Did(t) == old(Did(t)) + [old(Doing(t))] && At(t, Dispatching(b, len))
      ensures len == Pad(old(Doing(t)).word.offset)
    {
      hide Executes, Did, Apply, Next, Enabled, Wf, Decode, Mirrors, NextMultipleOf;
      Here();
      FlushLoadView(model, t);
      LoadStep(model, Apply(model, Run(t)));
      len := ring[b].DataLen();
      Step(Run(t));
      Interfere(t);
    }

    method LoadAddress(ghost t: nat, b: nat, len: nat) returns (at: nat)
      requires Valid() && b < |ring| && At(t, Dispatching(b, len))
      modifies this, ring, mems, store
      ensures Valid() && old(trace) <= trace && Onward(old(model), model, {})
      ensures Did(t) == old(Did(t)) + [old(Doing(t))] && At(t, Pushing(b, len, at))
    {
      hide Executes, Did, DeedOf, Apply, Next, Enabled, Wf, Decode, Mirrors;
      Here();
      FlushLoadView(model, t);
      LoadStep(model, Apply(model, Run(t)));
      at := ring[b].localAddress;
      Step(Run(t));
      Interfere(t);
    }

    method PushWrite(ghost t: nat, b: nat, len: nat, at: nat)
      requires Valid() && b < |ring| && At(t, Pushing(b, len, at))
      modifies this, ring, mems, store
      ensures Valid() && old(trace) <= trace && Onward(old(model), model, {})
      ensures Did(t) == old(Did(t)) + [old(Doing(t))] && At(t, Idle)
    {
      hide Executes, Did, DeedOf, Apply, Next, Enabled, Wf, Decode, Mirrors, Matches;
      Here();
      PushView(model, t);
      MatchesPush(store.outstanding, model.outstanding, store.nextId, Write(b, at, len));
      var pushed: Pushed :| pushed != Full;
      var _ := store.Submit(ring[b].mem, len, at, ring[b].UserData(), ring[b], pushed);
      ghost var s' := Apply(model, Run(t));
      BufferStep(model.(outstanding := s'.outstanding, nextId := s'.nextId), s', b);
      Step(Run(t));
      Interfere(t);
    }

    /** Submit the bytes of the buffer, whole blocks, to its address. */
    method SubmitBuffer(ghost t: nat, b: nat) returns (ghost path: seq<Deed>)
      requires Valid() && b < |ring| && At(t, Submitting(b))
      modifies this, ring, mems, store
      ensures Valid() && old(trace) <= trace && Onward(old(model), model, {})
      ensures Did(t) == old(Did(t)) + path && SubmitPath(path, b) && At(t, Idle)
    {
      hide Valid, Did, Doing, DeedOf, Pad;
      path := [Doing(t)];
      var len := LoadDataLen(t, b);
      path := path + [Doing(t)];
      var at := LoadAddress(t, b, len);
      path := path + [Doing(t)];
      PushWrite(t, b, len, at);
    }

    method Flush(ghost t: nat, b: nat) returns (ghost path: seq<Deed>)
      requires Valid() && b < |ring| && At(t, Flushing(b))
      modifies this, ring, mems, store
      ensures Valid() && old(trace) <= trace && Onward(old(model), model, {})
      ensures Did(t) == old(Did(t)) + path && FlushPath(path, b) && At(t, Idle)
    {
      hide Valid, Did, Doing, DeedOf, Pad;
      ghost var first := Doing(t);
      SetFlushAgain(t, b);
      ghost var rest := SubmitBuffer(t, b);
      path := [first] + rest;
      assert path[1..] == rest;
    }

    // ---- sealing --------------------------------------------------------

    /** Only the first to set the bit goes on as the sealer. */
    method SealFirst(ghost t: nat, b: nat) returns (first: bool)
      requires Valid() && b < |ring| && At(t, SawFull(b))
      modifies this, ring, mems, store
      ensures Valid() && old(trace) <= trace && Onward(old(model), model, {})
      ensures Did(t) == old(Did(t)) + [old(Doing(t))]
      ensures At(t, if first then Sealing(b) else Idle)
      ensures first <==> !old(Doing(t)).word.sealed
    {
      hide Executes, Did, Apply, Next, Enabled, Wf, And, Mirrors;
      Here();
      FlagView(model, t);
      var prev := ring[b].SetSealed();
      BufferStep(model, Apply(model, Run(t)), b);
      Step(Run(t));
      Interfere(t);
      first := !StateSealed(prev);
    }

    method LoadPadded(ghost t: nat, b: nat) returns (padded: nat)
      requires Valid() && b < |ring| && At(t, Sealing(b))
      modifies this, ring, mems, store
      ensures Valid() && old(trace) <= trace && Onward(old(model), model, {})
      ensures Did(t) == old(Did(t)) + [old(Doing(t))] && At(t, Sized(b, padded))
      ensures padded == Pad(old(Doing(t)).word.offset)
    {
      hide Executes, Did, Apply, Next, Enabled, Wf, Decode, Mirrors, NextMultipleOf;
      Here();
      LoadView(model, t);
      LoadStep(model, Apply(model, Run(t)));
      var size := ring[b].Size();
      padded := NextMultipleOf(size, FOUR_KB_BLOCK);
      Step(Run(t));
      Interfere(t);
    }

    /** `fetch_add` on the address counter, by the sealer. */
    method ClaimAddress(ghost t: nat, b: nat, padded: nat) returns (slot: nat)
      requires Valid() && b < |ring| && At(t, Sized(b, padded))
      modifies this, ring, mems, store
      ensures Valid() && old(trace) <= trace && Onward(old(model), model, {})
      ensures Did(t) == old(Did(t)) + [old(Doing(t))] && At(t, Publishing(b, slot))
    {
      hide Executes, Did, DeedOf, Apply, Next, Enabled, Wf, Decode, Mirrors, BufferIs;
      Here();
      CounterView(model, t);
      slot := nextAddress;
      nextAddress := nextAddress + padded;
      FieldStep(model, Apply(model, Run(t)));
      Step(Run(t));
      Interfere(t);
    }

    method PublishAddress(ghost t: nat, b: nat, slot: nat)
      requires Valid() && b < |ring| && At(t, Publishing(b, slot))
      modifies this, ring, mems, store
      ensures Valid() && old(trace) <= trace && Onward(old(model), model, {})
      ensures Did(t) == old(Did(t)) + [old(Doing(t))] && At(t, Rotating(b))
    {
      hide Executes, Did, DeedOf, Apply, Next, Enabled, Wf, Decode, Mirrors;
      Here();
      StoreView(model, t);
      ring[b].localAddress := slot;
      BufferStep(model, Apply(model, Run(t)), b);
      Step(Run(t));
      Interfere(t);
    }

    // ---- rotating -------------------------------------------------------

    method LoadCurrent(ghost t: nat, b: nat) returns (cur: nat)
      requires Valid() && b < |ring| && At(t, Rotating(b))
      modifies this, ring, mems, store
      ensures Valid() && old(trace) <= trace && Onward(old(model), model, {})
      ensures Did(t) == old(Did(t)) + [old(Doing(t))] && cur < |ring|
      ensures At(t, Measuring(b, cur))
    {
      hide Executes, Did, DeedOf, Apply, Next, Enabled, Mirrors;
      Here();
      LoadView(model, t);
      LoadStep(model, Apply(model, Run(t)));
      cur := current;
      Step(Run(t));
      Interfere(t);
    }

    method LoadSize(ghost t: nat, b: nat, cur: nat) returns (size: nat)
      requires Valid() && b < |ring| && cur < |ring| && At(t, Measuring(b, cur))
      modifies this, ring, mems, store
      ensures Valid() && old(trace) <= trace && Onward(old(model), model, {})
      ensures Did(t) == old(Did(t)) + [old(Doing(t))]
      ensures At(t, if cur != b then Checking(b) else Scanning(b, size, |ring|))
      ensures cur == b ==> size == old(Doing(t)).word.offset
    {
      hide Executes, Did, Apply, Next, Enabled, Wf, Decode, Mirrors;
      Here();
      LoadView(model, t);
      LoadStep(model, Apply(model, Run(t)));
      size := ring[cur].Size();
      Step(Run(t));
      Interfere(t);
    }

    /** `fetch_add` on the index counter, which wraps as a 64-bit atomic. */
    method NextCandidate(ghost t: nat, b: nat, ghost size: nat, left: nat) returns (cand: nat)
      requires Valid() && b < |ring| && left > 0 && At(t, Scanning(b, size, left))
      modifies this, ring, mems, store
      ensures Valid() && old(trace) <= trace && Onward(old(model), model, {})
      ensures Did(t) == old(Did(t)) + [old(Doing(t))]
      ensures cand < |ring| && At(t, Probing(b, size, left - 1, cand))
    {
      hide Executes, Did, DeedOf, Apply, Next, Enabled, Wf, Decode, Mirrors, BufferIs;
      Here();
      ScanView(model, t);
      var raw := nextIndex;
      nextIndex := (nextIndex + 1) % WORD_LIMIT;
      cand := raw % |ring|;
      FieldStep(model, Apply(model, Run(t)));
      Step(Run(t));
      Interfere(t);
    }

    method Probe(ghost t: nat, b: nat, ghost size: nat, ghost left: nat, cand: nat) returns (available: bool)
      requires Valid() && b < |ring| && cand < |ring| && At(t, Probing(b, size, left, cand))
      modifies this, ring, mems, store
      ensures Valid() && old(trace) <= trace && Onward(old(model), model, {})
      ensures Did(t) == old(Did(t)) + [old(Doing(t))]
      ensures At(t, if available then Swapping(b, size, cand) else Scanning(b, size, left))
    {
      hide Executes, Did, DeedOf, Apply, Next, Enabled, Wf, Decode, Mirrors;
      Here();
      LoadView(model, t);
      LoadStep(model, Apply(model, Run(t)));
      available := ring[cand].IsAvailable();
      Step(Run(t));
      Interfere(t);
    }

    /** The exchange of the current pointer; losing it is not an error. */
    method SwapCurrent(ghost t: nat, b: nat, ghost size: nat, target: nat)
      requires Valid() && b < |ring| && target < |ring| && At(t, Swapping(b, size, target))
      modifies this, ring, mems, store
      ensures Valid() && old(trace) <= trace && Onward(old(model), model, {})
      ensures Did(t) == old(Did(t)) + [old(Doing(t))] && At(t, Booking(b, size, target))
    {
      hide Executes, Did, DeedOf, Apply, Next, Enabled, Wf, Decode, Mirrors, BufferIs;
      Here();
      SwapView(model, t);
      if current == b {
        current := target;
      }
      FieldStep(model, Apply(model, Run(t)));
      Step(Run(t));
      Interfere(t);
    }

    /** `fetch_add` on the address counter, for the new buffer. */
    method BookAddress(ghost t: nat, b: nat, size: nat, target: nat) returns (slot: nat)
      requires Valid() && b < |ring| && target < |ring| && At(t, Booking(b, size, target))
      modifies this, ring, mems, store
      ensures Valid() && old(trace) <= trace && Onward(old(model), model, {})
      ensures Did(t) == old(Did(t)) + [old(Doing(t))]
      ensures At(t, Stamping(b, slot, target))
    {
      hide Executes, Did, DeedOf, Apply, Next, Enabled, Wf, Decode, Mirrors, BufferIs;
      Here();
      CounterView(model, t);
      slot := nextAddress;
      nextAddress := nextAddress + size;
      FieldStep(model, Apply(model, Run(t)));
      Step(Run(t));
      Interfere(t);
    }

    /** The new buffer gets the address unless it has one. */
    method StampAddress(ghost t: nat, b: nat, slot: nat, target: nat)
      requires Valid() && b < |ring| && target < |ring| && At(t, Stamping(b, slot, target))
      modifies this, ring, mems, store
      ensures Valid() && old(trace) <= trace && Onward(old(model), model, {})
      ensures Did(t) == old(Did(t)) + [old(Doing(t))] && At(t, Checking(b))
    {
      hide Executes, Did, DeedOf, Apply, Next, Enabled, Wf, Decode, Mirrors;
      Here();
      StampView(model, t);
      if ring[target].localAddress == 0 {
        ring[target].localAddress := slot;
      }
      BufferStep(model, Apply(model, Run(t)), target);
      Step(Run(t));
      Interfere(t);
    }

    /** The scan is over; no shared access. */
    ghost method EndScan(t: nat, b: nat, size: nat)
      requires Valid() && b < |ring| && At(t, Scanning(b, size, 0))
      modifies this`model, this`trace
      ensures Valid() && old(trace) <= trace && Onward(old(model), model, {})
      ensures Did(t) == old(Did(t)) + [old(Doing(t))] && At(t, Checking(b))
    {
      hide Executes, Did, DeedOf, Apply, Next, Enabled, Wf, Decode, Mirrors;
      Here();
      ScanView(model, t);
      LoadStep(model, Apply(model, Run(t)));
      Step(Run(t));
    }

    /** Move the ring from sealed buffer `b` to an available one, if there is
        one among as many candidates as there are buffers. */
    method RotateAfterSeal(ghost t: nat, b: nat) returns (r: Result<()>, ghost path: seq<Deed>)
      requires Valid() && b < |ring| && At(t, Rotating(b))
      modifies this, ring, mems, store
      ensures Valid() && old(trace) <= trace && Onward(old(model), model, {})
      ensures Did(t) == old(Did(t)) + path && RotatePath(path, b, |ring|, r) && At(t, Checking(b))
      ensures path != [] && path[|path| - 1].Stepped?
      ensures r == if path[|path| - 1].pc.Scanning? then Err(RingExhausted) else Ok(())
    {
      hide Valid, Decode, Did, Doing, DeedOf, ScanPath;
      var cur, size;
      cur, size, path := LoadCurrentSize(t, b);
      ghost var start := path;
      if cur != b {
        return Ok(()), path;
      }
      ghost var scan: seq<Deed>;
      r, scan := Scan(t, b, size);
      Longer(old(Did(t)), start, scan);
      path := start + scan;
      assert path[2..] == scan;
      ScanEnds(scan, b, size, |ring|, r);
    }

    method LoadCurrentSize(ghost t: nat, b: nat) returns (cur: nat, size: nat, ghost path: seq<Deed>)
      requires Valid() && b < |ring| && At(t, Rotating(b))
      modifies this, ring, mems, store
      ensures Valid() && old(trace) <= trace && Onward(old(model), model, {})
      ensures At(t, if cur != b then Checking(b) else Scanning(b, size, |ring|))
      ensures Did(t) == old(Did(t)) + path
      ensures |path| == 2 && IsAt(path[0], Rotating(b)) && IsAt(path[1], Measuring(b, cur))
      ensures cur == b ==> size == path[1].word.offset
    {
      hide Valid, Decode, Did, Doing, DeedOf;
      path := [Doing(t)];
      cur := LoadCurrent(t, b);
      path := path + [Doing(t)];
      size := LoadSize(t, b, cur);
    }

    /** The loop over candidates. */
    method Scan(ghost t: nat, b: nat, size: nat) returns (r: Result<()>, ghost path: seq<Deed>)
      requires Valid() && b < |ring| && At(t, Scanning(b, size, |ring|))
      modifies this, ring, mems, store
      ensures Valid() && old(trace) <= trace && Onward(old(model), model, {})
      ensures Did(t) == old(Did(t)) + path && ScanPath(path, b, size, |ring|, r) && At(t, Checking(b))
    {
      hide Valid, Decode, Did, Doing, DeedOf, LookedPath, MovePath, ScanPath;
      var left: nat := |ring|;
      path := [];
      NoLooks(b, size, |ring|);
      while left > 0
        invariant Valid() && old(trace) <= trace && Onward(old(model), model, {}) && At(t, Scanning(b, size, left))
        invariant left <= |ring| && LookedPath(path, b, size, |ring|, left) && Did(t) == old(Did(t)) + path
      {
        var cand: nat, available: bool;
        ghost var looked := path;
        ghost var look: seq<Deed>;
        cand, available, look := LookAt(t, b, size, left);
        OneLook(looked, look, b, size, |ring|, left, cand);
        Longer(old(Did(t)), looked, look);
        path := looked + look;
        if available {
          ghost var move := MoveTo(t, b, size, cand);
          Scanned(path, move, b, size, |ring|, left - 1, cand);
          Longer(old(Did(t)), path, move);
          return Ok(()), path + move;
        }
        left := left - 1;
      }
      Exhausted(path, Doing(t), b, size, |ring|);
      path := path + [Doing(t)];
      EndScan(t, b, size);
      return Err(RingExhausted), path;
    }

    /** One look at the next candidate. */
    method LookAt(ghost t: nat, b: nat, ghost size: nat, left: nat)
      returns (cand: nat, available: bool, ghost look: seq<Deed>)
      requires Valid() && b < |ring| && left > 0 && At(t, Scanning(b, size, left))
      modifies this, ring, mems, store
      ensures Valid() && old(trace) <= trace && Onward(old(model), model, {})
      ensures Did(t) == old(Did(t)) + look && cand < |ring|
      ensures |look| == 2 && IsAt(look[0], Scanning(b, size, left)) && IsAt(look[1], Probing(b, size, left - 1, cand))
      ensures At(t, if available then Swapping(b, size, cand) else Scanning(b, size, left - 1))
    {
      hide Valid, Decode, Did, Doing, DeedOf;
      look := [Doing(t)];
      cand := NextCandidate(t, b, size, left);
      look := look + [Doing(t)];
      available := Probe(t, b, size, left - 1, cand);
    }

    method MoveTo(ghost t: nat, b: nat, size: nat, target: nat) returns (ghost move: seq<Deed>)
      requires Valid() && b < |ring| && target < |ring| && At(t, Swapping(b, size, target))
      modifies this, ring, mems, store
      ensures Valid() && old(trace) <= trace && Onward(old(model), model, {})
      ensures Did(t) == old(Did(t)) + move && MovePath(move, b, size, target) && At(t, Checking(b))
    {
      hide Valid, Decode, Did, Doing, DeedOf;
      move := [Doing(t)];
      SwapCurrent(t, b, size, target);
      move := move + [Doing(t)];
      var slot := BookAddress(t, b, size, target);
      move := move + [Doing(t)];
      StampAddress(t, b, slot, target);
    }

    method CheckWriters(ghost t: nat, b: nat) returns (none: bool)
      requires Valid() && b < |ring| && At(t, Checking(b))
      modifies this, ring, mems, store
      ensures Valid() && old(trace) <= trace && Onward(old(model), model, {})
      ensures Did(t) == old(Did(t)) + [old(Doing(t))]
      ensures At(t, if none then Claiming(b) else Idle)
      ensures none <==> old(Doing(t)).word.writers == 0
    {
      hide Executes, Did, Apply, Next, Enabled, Wf, And, Mirrors;
      Here();
      LoadView(model, t);
      LoadStep(model, Apply(model, Run(t)));
      var now := ring[b].state;
      none := StateWriters(now) == 0;
      Step(Run(t));
      Interfere(t);
    }

    // ---- put ------------------------------------------------------------

    /** The two outcomes of a reservation that a thread acts on, and the others,
        which it hands back.  A receipt is given exactly for a reservation. */
    method Put(ghost t: nat, b: nat, reserved: Result<nat>, payload: Bytes)
      returns (msg: Result<BufferMsg>, ghost path: seq<Deed>)
      requires Valid() && b < |ring| && t < n && Follows(model.threads[t], b, reserved, payload)
      modifies this, ring, mems, store
      ensures Valid() && old(trace) <= trace && Onward(old(model), model, {}) && At(t, Idle)
      ensures Did(t) == old(Did(t)) + path
      ensures match reserved
              case Ok(_) =>
                && PayloadPath(path, b, old(model.threads[t]))
                && msg == if exists k :: 0 <= k < |path| && path[k].Stepped? && path[k].pc.Pushing? && path[k].pc.b == b
                          then Ok(SuccessfullWriteFlush) else Ok(SuccessfullWrite)
              case Err(InsufficientSpace) =>
                && SealingPath(path, b, |ring|)
                && msg == if exists k :: 0 <= k < |path| && path[k].Stepped? && path[k].pc.Pushing? && path[k].pc.b == b
                          then Ok(SuccessfullWriteFlush) else Err(EncounteredSealedBuffer)
              case Err(e) => path == [] && msg == Err(e) && trace == old(trace)
      ensures reserved.Ok? ==>
                var pc := old(model.threads[t]);
                Received(old(model.accepted), model.accepted, Receipt(pc.g, pc.i, payload))
    {
      hide Executes, Mirrors, Wf, Decode, Did, PayloadPath, SealingPath;
      path := [];
      match reserved
      case Err(InsufficientSpace) => msg, path := PutSealing(t, b);
      case Err(e) => return Err(e), [];
      case Ok(offset) => msg, path := PutPayload(t, b, offset, payload);
    }

    method PutPayload(ghost t: nat, b: nat, offset: nat, payload: Bytes)
      returns (msg: Result<BufferMsg>, ghost path: seq<Deed>)
      requires Valid() && b < |ring| && t < n && Follows(model.threads[t], b, Ok(offset), payload)
      modifies this, ring, mems, store
      ensures Valid() && old(trace) <= trace && Onward(old(model), model, {}) && At(t, Idle)
      ensures Did(t) == old(Did(t)) + path && PayloadPath(path, b, old(model.threads[t]))
      ensures msg == if exists k :: 0 <= k < |path| && path[k].Stepped? && path[k].pc.Pushing? && path[k].pc.b == b
                     then Ok(SuccessfullWriteFlush) else Ok(SuccessfullWrite)
      ensures var pc := old(model.threads[t]);
              Received(old(model.accepted), model.accepted, Receipt(pc.g, pc.i, payload))
    {
      hide Valid, And, Did, Doing, DeedOf, FlushPath;
      var prev;
      prev, path := CopyAndRelease(t, b, offset, payload);
      var wasLastWriter := StateWriters(prev) == 1;
      var wasSealed := StateSealed(prev);
      msg := Ok(SuccessfullWrite);
      if wasLastWriter && wasSealed {
        ghost var start := path;
        var won: bool;
        ghost var claim: seq<Deed>;
        won, claim := ClaimAndFlush(t, b);
        Longer(old(Did(t)), start, claim);
        path := start + claim;
        assert path[2..] == claim;
        if won {
          msg := Ok(SuccessfullWriteFlush);
        }
      }
      PayloadPushes(path, b, old(model.threads[t]));
    }

    method CopyAndRelease(ghost t: nat, b: nat, offset: nat, payload: Bytes)
      returns (prev: Packed, ghost path: seq<Deed>)
      requires Valid() && b < |ring| && t < n && Follows(model.threads[t], b, Ok(offset), payload)
      modifies this, ring, mems, store
      ensures Valid() && old(trace) <= trace && Onward(old(model), model, {})
      ensures At(t, if StateWriters(prev) == 1 && StateSealed(prev) then LastWriter(b) else Idle)
      ensures Did(t) == old(Did(t)) + path && |path| == 2
      ensures var pc := old(model.threads[t]);
              IsAt(path[0], pc) && IsAt(path[1], Written(b, pc.g, pc.i, payload)) && path[1].word == Decode(prev)
      ensures var pc := old(model.threads[t]);
              Received(old(model.accepted), model.accepted, Receipt(pc.g, pc.i, payload))
    {
      hide Executes, Mirrors, Wf, And, Decode, Did, Doing, DeedOf;
      path := [Doing(t)];
      WritePayload(t, b, offset, payload);
      path := path + [Doing(t)];
      prev := ReleaseWriter(t, b);
    }

    /** Whoever finds the flush flag clear flushes. */
    method ClaimAndFlush(ghost t: nat, b: nat) returns (won: bool, ghost path: seq<Deed>)
      requires Valid() && b < |ring| && (At(t, LastWriter(b)) || At(t, Claiming(b)))
      modifies this, ring, mems, store
      ensures Valid() && old(trace) <= trace && Onward(old(model), model, {}) && At(t, Idle)
      ensures Did(t) == old(Did(t)) + path && ClaimPath(path, b) && path[0] == old(Doing(t))
      ensures won <==> !path[0].word.flushing
    {
      hide Valid, Did, Doing, DeedOf, FlushPath;
      ghost var claim := Doing(t);
      path := [claim];
      won := ClaimFlush(t, b);
      if won {
        ghost var rest := Flush(t, b);
        Longer(old(Did(t)), [claim], rest);
        path := [claim] + rest;
        assert path[1..] == rest;
      }
    }

    method PutSealing(ghost t: nat, b: nat) returns (msg: Result<BufferMsg>, ghost path: seq<Deed>)
      requires Valid() && b < |ring| && At(t, SawFull(b))
      modifies this, ring, mems, store
      ensures Valid() && old(trace) <= trace && Onward(old(model), model, {}) && At(t, Idle)
      ensures Did(t) == old(Did(t)) + path && SealingPath(path, b, |ring|)
      ensures msg == if exists k :: 0 <= k < |path| && path[k].Stepped? && path[k].pc.Pushing? && path[k].pc.b == b
                     then Ok(SuccessfullWriteFlush) else Err(EncounteredSealedBuffer)
    {
      hide Valid, Did, Doing, DeedOf, Decode, SealerPath;
      path := [Doing(t)];
      var first := SealFirst(t, b);
      if !first {
        return Err(EncounteredSealedBuffer), path;
      }
      ghost var seal := path;
      ghost var rest: seq<Deed>;
      msg, rest := FinishSealing(t, b);
      Longer(old(Did(t)), seal, rest);
      path := seal + rest;
      assert path[1..] == rest;
      PushesLater(seal[0], rest, b);
    }

    /** What is left to the thread that sealed. */
    method FinishSealing(ghost t: nat, b: nat) returns (msg: Result<BufferMsg>, ghost path: seq<Deed>)
      requires Valid() && b < |ring| && At(t, Sealing(b))
      modifies this, ring, mems, store
      ensures Valid() && old(trace) <= trace && Onward(old(model), model, {}) && At(t, Idle)
      ensures Did(t) == old(Did(t)) + path && SealerPath(path, b, |ring|)
      ensures msg == if exists k :: 0 <= k < |path| && path[k].Stepped? && path[k].pc.Pushing? && path[k].pc.b == b
                     then Ok(SuccessfullWriteFlush) else Err(EncounteredSealedBuffer)
    {
      hide Valid, Did, Doing, DeedOf, PublishPath, RotatePath, CheckPath;
      ghost var publish := ClaimAndPublish(t, b);
      var r;
      ghost var rotation: seq<Deed>, check: seq<Deed>;
      r, rotation := RotateAfterSeal(t, b);
      msg, check := CheckAndFlush(t, b);
      path := publish + rotation + check;
      SealerPushes(publish, rotation, check, b, |ring|, r);
      Longer(old(Did(t)), publish, rotation);
      Longer(old(Did(t)), publish + rotation, check);
    }

    /** Claim whole blocks of the file for what the sealed buffer holds, and store
        where they start. */
    method ClaimAndPublish(ghost t: nat, b: nat) returns (ghost path: seq<Deed>)
      requires Valid() && b < |ring| && At(t, Sealing(b))
      modifies this, ring, mems, store
      ensures Valid() && old(trace) <= trace && Onward(old(model), model, {}) && At(t, Rotating(b))
      ensures Did(t) == old(Did(t)) + path && PublishPath(path, b)
    {
      hide Valid, Decode, Did, Doing, DeedOf;
      path := [Doing(t)];
      var padded := LoadPadded(t, b);
      path := path + [Doing(t)];
      var slot := ClaimAddress(t, b, padded);
      path := path + [Doing(t)];
      PublishAddress(t, b, slot);
    }

    /** If there are no writers left right now, the sealer flushes. */
    method CheckAndFlush(ghost t: nat, b: nat) returns (msg: Result<BufferMsg>, ghost path: seq<Deed>)
      requires Valid() && b < |ring| && At(t, Checking(b))
      modifies this, ring, mems, store
      ensures Valid() && old(trace) <= trace && Onward(old(model), model, {}) && At(t, Idle)
      ensures Did(t) == old(Did(t)) + path && CheckPath(path, b)
      ensures msg == if exists k :: 0 <= k < |path| && path[k].Stepped? && path[k].pc.Pushing? && path[k].pc.b == b
                     then Ok(SuccessfullWriteFlush) else Err(EncounteredSealedBuffer)
    {
      hide Valid, Did, Doing, DeedOf, FlushPath;
      ghost var check := Doing(t);
      path := [check];
      msg := Err(EncounteredSealedBuffer);
      var none := CheckWriters(t, b);
      if none {
        var won: bool;
        ghost var claim: seq<Deed>;
        won, claim := ClaimAndFlush(t, b);
        Longer(old(Did(t)), [check], claim);
        path := [check] + claim;
        assert path[1..] == claim;
        if won {
          msg := Ok(SuccessfullWriteFlush);
        }
      }
      CheckPushes(path, b);
    }

    // ---- completions ----------------------------------------------------

    /** The kernel carries out write `id` or fails it, and this thread has its
        completion. */
    method TakeCompletion(ghost t: nat, id: nat, fate: Fate, ghost mine: set<nat>) returns (b: nat)
      requires Valid() && At(t, Idle) && id in model.outstanding
      requires fate.Botched? ==> |fate.junk| <= model.outstanding[id].len
      requires mine <= model.outstanding.Keys && id !in mine
      modifies this, ring, mems, store
      ensures Valid() && old(trace) <= trace && Onward(old(model), model, mine)
      ensures Polled(t) == old(Polled(t))
      ensures Did(t) == old(Did(t)) + [Took(id, fate.Botched?)]
      ensures b == old(model.outstanding[id].buf) < |ring|
      ensures At(t, if fate.Botched? then Retrying(b) else Reaping(b))
    {
      hide Executes, Did, Polled, Apply, Next, Enabled, Wf, Decode, Mirrors, WriteAt, Matches;
      Here();
      TakeView(model, t, id, fate.Botched?, if fate.Botched? then fate.junk else []);
      MatchesTake(store.outstanding, model.outstanding, id);
      var entry := store.outstanding[id];
      b := entry.userData - 1;
      assert BufferIs(b, model.bufs[b]);
      store.file := WriteAt(store.file, entry.at,
                           if fate.Botched? then fate.junk else entry.mem[..Min(entry.len, entry.mem.Length)]);
      store.outstanding := store.outstanding - {id};
      ghost var a := if fate.Botched? then TakeFailed(t, id, fate.junk) else TakeOk(t, id);
      ghost var s' := Apply(model, a);
      BufferStep(model.(outstanding := s'.outstanding, disk := s'.disk), s', b);
      Step(a);
      Interfere(t, mine);
    }

    method NoteAddress(ghost t: nat, b: nat, ghost mine: set<nat>) returns (at: nat)
      requires Valid() && b < |ring| && At(t, Reaping(b)) && mine <= model.outstanding.Keys
      modifies this, ring, mems, store
      ensures Valid() && old(trace) <= trace && Onward(old(model), model, mine)
      ensures Polled(t) == old(Polled(t))
      ensures Did(t) == old(Did(t)) + [old(Doing(t))] && At(t, Noting(b, at))
    {
      hide Executes, Did, Polled, DeedOf, Apply, Next, Enabled, Wf, Decode, Mirrors;
      Here();
      FlushLoadView(model, t);
      LoadStep(model, Apply(model, Run(t)));
      at := ring[b].localAddress;
      Step(Run(t));
      Interfere(t, mine);
    }

    /** Tell the receiver which range of the file holds the buffer's bytes. */
    method SendRange(ghost t: nat, b: nat, at: nat, ghost mine: set<nat>)
      requires Valid() && b < |ring| && At(t, Noting(b, at)) && mine <= model.outstanding.Keys
      modifies this, ring, mems, store
      ensures Valid() && old(trace) <= trace && Onward(old(model), model, mine)
      ensures Polled(t) == old(Polled(t))
      ensures Did(t) == old(Did(t)) + [old(Doing(t))] && At(t, Recorded(b))
    {
      hide Executes, Did, Polled, DeedOf, Apply, Next, Enabled, Wf, Decode, Mirrors, StoreIs;
      Here();
      NoteView(model, t);
      var size := ring[b].Size();
      sent := sent + [(at, size)];
      FieldStep(model, Apply(model, Run(t)));
      Step(Run(t));
      Interfere(t, mine);
    }

    method ResetWord(ghost t: nat, b: nat, ghost mine: set<nat>)
      requires Valid() && b < |ring| && At(t, Recorded(b)) && mine <= model.outstanding.Keys
      modifies this, ring, mems, store
      ensures Valid() && old(trace) <= trace && Onward(old(model), model, mine)
      ensures Polled(t) == old(Polled(t))
      ensures Did(t) == old(Did(t)) + [old(Doing(t))] && At(t, Clearing(b))
    {
      hide Executes, Did, Polled, DeedOf, Apply, Next, Enabled, Wf, Decode, Mirrors;
      Here();
      StoreView(model, t);
      ZeroWord();
      ring[b].state := 0;
      BufferStep(model, Apply(model, Run(t)), b);
      Step(Run(t));
      Interfere(t, mine);
    }

    method ClearAddress(ghost t: nat, b: nat, ghost mine: set<nat>)
      requires Valid() && b < |ring| && At(t, Clearing(b)) && mine <= model.outstanding.Keys
      modifies this, ring, mems, store
      ensures Valid() && old(trace) <= trace && Onward(old(model), model, mine)
      ensures Polled(t) == old(Polled(t))
      ensures Did(t) == old(Did(t)) + [old(Doing(t))] && At(t, Idle)
    {
      hide Executes, Did, Polled, DeedOf, Apply, Next, Enabled, Wf, Decode, Mirrors;
      Here();
      StoreView(model, t);
      ring[b].localAddress := 0;
      BufferStep(model, Apply(model, Run(t)), b);
      Step(Run(t));
      Interfere(t, mine);
    }

    /** Two stores. */
    method ResetBuffer(ghost t: nat, b: nat, ghost mine: set<nat>) returns (ghost path: seq<Deed>)
      requires Valid() && b < |ring| && At(t, Recorded(b)) && mine <= model.outstanding.Keys
      modifies this, ring, mems, store
      ensures Valid() && old(trace) <= trace && Onward(old(model), model, mine) && At(t, Idle)
      ensures Polled(t) == old(Polled(t))
      ensures Did(t) == old(Did(t)) + path
      ensures |path| == 2 && IsAt(path[0], Recorded(b)) && IsAt(path[1], Clearing(b))
    {
      hide Valid, Did, Polled, Doing, DeedOf;
      path := [Doing(t)];
      ResetWord(t, b, mine);
      path := path + [Doing(t)];
      ClearAddress(t, b, mine);
    }

    /** Push the kept submission of a failed write again. */
    method RetryWrite(ghost t: nat, b: nat, ghost mine: set<nat>)
      requires Valid() && b < |ring| && At(t, Retrying(b)) && mine <= model.outstanding.Keys
      modifies this, ring, mems, store
      ensures Valid() && old(trace) <= trace && Onward(old(model), model, mine)
      ensures Polled(t) == old(Polled(t))
      ensures Did(t) == old(Did(t)) + [old(Doing(t))] && At(t, Idle)
    {
      hide Executes, Did, Polled, DeedOf, Apply, Next, Enabled, Wf, Decode, Mirrors, Matches;
      Here();
      PushView(model, t);
      if ring[b].sqe.Some? {
        MatchesPush(store.outstanding, model.outstanding, store.nextId, model.bufs[b].sqe.value);
        var pushed: Pushed :| pushed != Full;
        var _ := store.Retry(ring[b].sqe.value, pushed);
      }
      ghost var s' := Apply(model, Run(t));
      BufferStep(model.(outstanding := s'.outstanding, nextId := s'.nextId), s', b);
      Step(Run(t));
      Interfere(t, mine);
    }

    /** The kernel's part: what the completion queue holds when thread `t` looks.
        Nobody else has these completions then. */
    method Arrive(ghost t: nat) returns (ids: seq<nat>, fates: seq<Fate>)
      requires Valid()
      modifies this`catches, store`cq
      ensures Valid() && |ids| == |store.cq| && Taken(store.cq, ids, fates, model.outstanding, 0)
      ensures Polled(t) == old(Polled(t)) + [Catch(store.cq, ids)]
    {
      hide Executes, Wf;
      ids, fates := [], [];
      var cqes: seq<Cqe> := [];
      if id :| id in store.outstanding {
        var result: int := *;
        var left: Bytes :| |left| <= store.outstanding[id].len;
        cqes, ids := [Cqe(store.outstanding[id].userData, result)], [id];
        fates := [if result < 0 then Botched(left) else Landed];
      }
      store.cq := cqes;
      catches := catches[t := Polled(t) + [Catch(cqes, ids)]];
    }

    /** Take all completions there are. */
    method Poll(ghost t: nat) returns (cqes: seq<Cqe>, ids: seq<nat>, fates: seq<Fate>)
      requires Valid() && At(t, Idle)
      modifies this`catches, store`cq
      ensures Valid() && At(t, Idle) && store.cq == []
      ensures |ids| == |cqes| && Taken(cqes, ids, fates, model.outstanding, 0)
      ensures Polled(t) == old(Polled(t)) + [Catch(cqes, ids)]
    {
      hide Executes, Wf, Polled, Taken;
      ids, fates := Arrive(t);
      cqes := store.Completions();
    }

    /** Tell the receiver of a finished write, and reset its buffer. */
    method FinishWrite(ghost t: nat, b: nat, ghost mine: set<nat>) returns (ghost path: seq<Deed>)
      requires Valid() && b < |ring| && At(t, Reaping(b)) && mine <= model.outstanding.Keys
      modifies this, ring, mems, store
      ensures Valid() && old(trace) <= trace && Onward(old(model), model, mine) && At(t, Idle)
      ensures Polled(t) == old(Polled(t))
      ensures Did(t) == old(Did(t)) + path && FinishPath(path, b)
    {
      hide Valid, Did, Polled, Doing, DeedOf, Onward;
      path := [Doing(t)];
      var at := NoteAddress(t, b, mine);
      OnwardKeys(old(model), model, mine);
      path := path + [Doing(t)];
      ghost var noted := model;
      SendRange(t, b, at, mine);
      OnwardKeys(noted, model, mine);
      OnwardJoins(old(model), noted, model, mine);
      ghost var told := model;
      ghost var reset := ResetBuffer(t, b, mine);
      OnwardJoins(old(model), told, model, mine);
      Longer(old(Did(t)), path, reset);
      path := path + reset;
    }

    /** One completion: a failed write is pushed again; a finished one is told
        to the receiver and its buffer reset. */
    method HandleCompletion(ghost t: nat, cqe: Cqe, id: nat, fate: Fate, ghost mine: set<nat>)
      returns (ghost path: seq<Deed>)
      requires Valid() && At(t, Idle) && id in model.outstanding
      requires cqe.userData == model.outstanding[id].buf + 1 && (cqe.result < 0 <==> fate.Botched?)
      requires fate.Botched? ==> |fate.junk| <= model.outstanding[id].len
      requires mine <= model.outstanding.Keys && id !in mine
      modifies this, ring, mems, store
      ensures Valid() && old(trace) <= trace && Onward(old(model), model, mine) && At(t, Idle)
      ensures Polled(t) == old(Polled(t))
      ensures Did(t) == old(Did(t)) + path && CompletionPath(path, cqe, id)
      ensures path != [] && path[0] == Took(id, cqe.result < 0)
    {
      hide Valid, Did, Polled, Doing, DeedOf, FinishPath;
      path := [Took(id, fate.Botched?)];
      var b := TakeCompletion(t, id, fate, mine);
      if cqe.result < 0 {
        path := path + [Doing(t)];
        RetryWrite(t, b, mine);
      } else {
        ghost var finish := FinishWrite(t, b, mine);
        Longer(old(Did(t)), path, finish);
        path := path + finish;
        assert path[1..] == finish;
      }
    }

    lemma RestStep(cqes: seq<Cqe>, ids: seq<nat>, fates: seq<Fate>, outstanding: map<nat, Write>, k: nat)
      requires Taken(cqes, ids, fates, outstanding, k) && k < |cqes|
      ensures Rest(cqes, ids, k + 1) <= outstanding.Keys
      ensures cqes[k].userData != 0 ==> ids[k] !in Rest(cqes, ids, k + 1)
    {
    }

    lemma RestKept(cqes: seq<Cqe>, ids: seq<nat>, fates: seq<Fate>, s: Ring, s': Ring, k: nat)
      requires Taken(cqes, ids, fates, s.outstanding, k) && k < |cqes| && Onward(s, s', Rest(cqes, ids, k + 1))
      ensures Taken(cqes, ids, fates, s'.outstanding, k + 1)
    {
      forall i | k + 1 <= i < |cqes| && cqes[i].userData != 0
        ensures ids[i] in s'.outstanding && s'.outstanding[ids[i]] == s.outstanding[ids[i]]
      {
        assert ids[i] in Rest(cqes, ids, k + 1);
      }
    }

    /** Handle completions until a poll finds none; `polls` bounds how often the
        queue is looked at in one call.  Each completion found, those of a sync
        excepted, is handled once, in the order found. */
    method CheckCque(ghost t: nat, polls: nat) returns (ghost caught: seq<Catch>, ghost paths: seq<seq<Deed>>)
      requires Valid() && At(t, Idle)
      modifies this, ring, mems, store
      ensures Valid() && old(trace) <= trace && Onward(old(model), model, {}) && At(t, Idle)
      ensures Polled(t) == old(Polled(t)) + caught && |caught| <= polls
      ensures forall i :: 0 <= i < |caught| - 1 ==> caught[i].cqes != []
      ensures |caught| < polls ==> caught != [] && caught[|caught| - 1].cqes == []
      ensures CompletionPaths(paths, Cqes(caught), Ids(caught)) && Did(t) == old(Did(t)) + Flat(paths)
      ensures forall i :: 0 <= i < |paths| && Cqes(caught)[i].userData != 0 ==>
                paths[i] != [] && paths[i][0] == Took(Ids(caught)[i], Cqes(caught)[i].result < 0)
    {
      hide Valid, At, Taken, Rest, Did, Polled, CompletionPath, Flat, Cqes, Ids;
      caught, paths := [], [];
      NothingFlat<Deed>();
      NothingCaught();
      var left := polls;
      while left > 0
        invariant Valid() && old(trace) <= trace && Onward(old(model), model, {}) && At(t, Idle)
        invariant Polled(t) == old(Polled(t)) + caught && |caught| + left == polls
        invariant forall i :: 0 <= i < |caught| ==> caught[i].cqes != []
        invariant CompletionPaths(paths, Cqes(caught), Ids(caught)) && Did(t) == old(Did(t)) + Flat(paths)
      {
        var cqes, nums, fates := Poll(t);
        OneCatch(caught, Catch(cqes, nums));
        assert cqes == [] ==> Cqes(caught) + cqes == Cqes(caught) && Ids(caught) + nums == Ids(caught);
        caught := caught + [Catch(cqes, nums)];
        if cqes == [] {
          break;
        }
        ghost var more := HandleAll(t, cqes, nums, fates);
        FlatJoins(paths, more);
        paths := paths + more;
        left := left - 1;
      }
      EachTaken(paths, Cqes(caught), Ids(caught));
    }

    method HandleAll(ghost t: nat, cqes: seq<Cqe>, ids: seq<nat>, fates: seq<Fate>)
      returns (ghost paths: seq<seq<Deed>>)
      requires Valid() && At(t, Idle) && Taken(cqes, ids, fates, model.outstanding, 0)
      modifies this, ring, mems, store
      ensures Valid() && old(trace) <= trace && Onward(old(model), model, {}) && At(t, Idle)
      ensures Polled(t) == old(Polled(t))
      ensures CompletionPaths(paths, cqes, ids) && Did(t) == old(Did(t)) + Flat(paths)
    {
      hide Valid, At, Rest, Did, Polled, CompletionPath, Flat;
      paths := [];
      NothingFlat<Deed>();
      for k := 0 to |cqes|
        invariant Valid() && old(trace) <= trace && Onward(old(model), model, {}) && At(t, Idle)
        invariant Taken(cqes, ids, fates, model.outstanding, k) && Polled(t) == old(Polled(t))
        invariant CompletionPaths(paths, cqes[..k], ids[..k]) && Did(t) == old(Did(t)) + Flat(paths)
      {
        ghost var path: seq<Deed> := [];
        if cqes[k].userData != 0 {
          ghost var before := model;
          RestStep(cqes, ids, fates, model.outstanding, k);
          path := HandleCompletion(t, cqes[k], ids[k], fates[k], Rest(cqes, ids, k + 1));
          RestKept(cqes, ids, fates, before, model, k);
        }
        FlatOne(paths, path);
        paths := paths + [path];
      }
      assert cqes[..|cqes|] == cqes && ids[..|ids|] == ids;
    }
  }
}
