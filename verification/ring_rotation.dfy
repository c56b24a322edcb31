/** The scan of `rotate_after_seal`: which buffer a thread that is not disturbed
    moves the ring to, and when it finds one at all. */
module RingRotation {
  import opened Files
  import opened StateWord
  import opened RingProtocol

  // ---- the scan on its own ----------------------------------------------

  /** The first available buffer among the next `left` indices, with the index
      counter wrapping as a 64-bit atomic does. */
  function Scan(available: seq<bool>, next: nat, left: nat): (r: Option<nat>)
    requires |available| > 0
    ensures r.Some? ==> r.value < |available| && available[r.value]
    decreases left
  {
    if left == 0 then None
    else if available[next % |available|] then Some(next % |available|)
    else Scan(available, (next + 1) % WORD_LIMIT, left - 1)
  }

  /** The index probed `j` steps after counter value `next`. */
  function Probe(next: nat, j: nat, n: nat): (r: nat)
    requires n > 0
    ensures r < n
  {
    (next + j) % WORD_LIMIT % n
  }

  lemma WrapStep(next: nat, j: nat, n: nat)
    requires n > 0 && next < WORD_LIMIT
    ensures Probe((next + 1) % WORD_LIMIT, j, n) == Probe(next, j + 1, n)
    ensures Probe(next, 0, n) == next % n
  {
    WrapSum(next, j);
  }

  lemma WrapSum(next: nat, j: nat)
    ensures ((next + 1) % WORD_LIMIT + j) % WORD_LIMIT == (next + (j + 1)) % WORD_LIMIT
  {
  }

  /** How many buffers the scan looks at. */
  function LookCount(available: seq<bool>, next: nat, left: nat): (k: nat)
    requires |available| > 0
    ensures k <= left && (left > 0 ==> k > 0)
    decreases left
  {
    if left == 0 then 0
    else if available[next % |available|] then 1
    else 1 + LookCount(available, (next + 1) % WORD_LIMIT, left - 1)
  }

  /** The scan ends at the buffer it looks at last; with none found it has looked
      at as many as it may. */
  lemma {:induction false} LastLook(available: seq<bool>, next: nat, left: nat)
    requires |available| > 0 && next < WORD_LIMIT
    ensures var k := LookCount(available, next, left);
            match Scan(available, next, left)
            case None => k == left
            case Some(c) => k > 0 && c == Probe(next, k - 1, |available|)
    decreases left
  {
    hide Probe;
    WrapStep(next, 0, |available|);
    if left > 0 && !available[next % |available|] {
      var next' := (next + 1) % WORD_LIMIT;
      LastLook(available, next', left - 1);
      var k := LookCount(available, next', left - 1);
      WrapStep(next, if k > 0 then k - 1 else 0, |available|);
    }
  }

  /** Every buffer it looked at before was unavailable. */
  lemma {:induction false} EarlierLook(available: seq<bool>, next: nat, left: nat, j: nat)
    requires |available| > 0 && next < WORD_LIMIT && j + 1 < LookCount(available, next, left)
    ensures !available[Probe(next, j, |available|)]
    decreases left
  {
    hide Probe;
    WrapStep(next, if j > 0 then j - 1 else 0, |available|);
    if j > 0 {
      EarlierLook(available, (next + 1) % WORD_LIMIT, left - 1, j - 1);
    }
  }

  /** A failed scan saw every probed buffer unavailable. */
  lemma {:induction false} ScanSawNone(available: seq<bool>, next: nat, left: nat, j: nat)
    requires |available| > 0 && next < WORD_LIMIT && j < left && Scan(available, next, left).None?
    ensures !available[Probe(next, j, |available|)]
    decreases left
  {
    hide Probe;
    WrapStep(next, if j > 0 then j - 1 else 0, |available|);
    if j > 0 {
      ScanSawNone(available, (next + 1) % WORD_LIMIT, left - 1, j - 1);
    }
  }

  /** A scan that would only probe unavailable buffers fails. */
  lemma {:induction false} ScanSeesNone(available: seq<bool>, next: nat, left: nat)
    requires |available| > 0 && next < WORD_LIMIT
    requires forall j :: 0 <= j < left ==> !available[Probe(next, j, |available|)]
    ensures Scan(available, next, left).None?
    decreases left
  {
    hide Probe;
    if left > 0 {
      var n, next' := |available|, (next + 1) % WORD_LIMIT;
      WrapStep(next, 0, n);
      assert !available[Probe(next, 0, n)];
      forall j | 0 <= j < left - 1 ensures !available[Probe(next', j, n)] {
        WrapStep(next, j, n);
        assert !available[Probe(next, j + 1, n)];
      }
      ScanSeesNone(available, next', left - 1);
    }
  }

  // ---- consecutive indices visit every slot -----------------------------

  lemma LargeMultiple(a: int, n: nat)
    ensures a >= 1 ==> a * n >= n
    ensures a <= -1 ==> a * n + n <= 0
  {
    if a >= 1 {
      assert (a - 1) * n >= 0;
    } else if a <= -1 {
      assert (-a - 1) * n >= 0;
    }
  }

  lemma Residue(q: nat, n: nat, c: nat)
    requires c < n
    ensures (q * n + c) % n == c
  {
    var x := q * n + c;
    Divide(x, n);
    assert (q - x / n) * n == q * n - x / n * n;
    LargeMultiple(q - x / n, n);
  }

  lemma Divide(x: nat, n: nat)
    requires n > 0
    ensures x == x / n * n + x % n
  {
  }

  /** Some number of steps, fewer than `n`, leads from `next` to residue `c`. */
  lemma Reaches(next: nat, n: nat, c: nat) returns (j: nat)
    requires c < n
    ensures j < n && (next + j) % n == c
  {
    var q, r := next / n, next % n;
    Divide(next, n);
    if c >= r {
      j := c - r;
      assert next + j == q * n + c;
      Residue(q, n, c);
    } else {
      j := c + n - r;
      assert next + j == q * n + n + c == (q + 1) * n + c;
      Residue(q + 1, n, c);
    }
  }

  lemma Multiple(x: nat, n: nat)
    requires n > 0 && WORD_LIMIT % n == 0
    ensures (x + WORD_LIMIT) % n == x % n
  {
    var q := WORD_LIMIT / n;
    Divide(WORD_LIMIT, n);
    Divide(x, n);
    assert x + WORD_LIMIT == (x / n + q) * n + x % n by {
      assert (x / n + q) * n == x / n * n + q * n;
    }
    Residue(x / n + q, n, x % n);
  }

  /** Unless the counter wraps in the middle of the scan and the ring size does
      not divide 2^64, probing is counting modulo the ring size. */
  lemma ProbeCounts(next: nat, j: nat, n: nat)
    requires 0 < n && next < WORD_LIMIT && j < n <= WORD_LIMIT
    requires next + n <= WORD_LIMIT || WORD_LIMIT % n == 0
    ensures Probe(next, j, n) == (next + j) % n
  {
    if next + j >= WORD_LIMIT {
      var x := next + j - WORD_LIMIT;
      assert (next + j) % WORD_LIMIT == x;
      Multiple(x, n);
    }
  }

  // ---- the slot a wrapped scan never looks at ---------------------------

  function Missed(next: nat, n: nat): nat
    requires next < WORD_LIMIT < next + n
  {
    Min(WORD_LIMIT % n + n - (WORD_LIMIT - next) - 1, n - 1)
  }

  /** Probing `d` steps before the counter wraps. */
  lemma ProbeBefore(n: nat, d: nat)
    requires 0 < d <= n <= WORD_LIMIT
    ensures (WORD_LIMIT - d) % n == (if WORD_LIMIT % n >= d then WORD_LIMIT % n - d else n + WORD_LIMIT % n - d)
  {
    var q, m := WORD_LIMIT / n, WORD_LIMIT % n;
    Divide(WORD_LIMIT, n);
    if m >= d {
      Residue(q, n, m - d);
    } else {
      assert q > 0;
      assert (q - 1) * n == q * n - n;
      Residue(q - 1, n, n + m - d);
    }
  }

  lemma NeverProbed(next: nat, n: nat, j: nat)
    requires next < WORD_LIMIT < next + n && n <= WORD_LIMIT && WORD_LIMIT % n != 0 && j < n
    ensures Missed(next, n) < n && Probe(next, j, n) != Missed(next, n)
  {
    var k, m := WORD_LIMIT - next, WORD_LIMIT % n;
    Divide(WORD_LIMIT, n);
    if j >= k {
      Residue(0, n, j - k);
    } else {
      ProbeBefore(n, k - j);
    }
  }

  ghost predicate ScanComplete(next: nat, n: nat)
    requires n > 0
  {
    forall available: seq<bool> :: |available| == n ==> (Scan(available, next, n).None? <==> true !in available)
  }

  /** A full scan finds an available buffer whenever there is one, exactly when
      the counter does not wrap during the scan or the ring size divides 2^64. */
  lemma ScanCompleteExactly(next: nat, n: nat)
    requires 0 < n <= WORD_LIMIT && next < WORD_LIMIT
    ensures ScanComplete(next, n) <==> next + n <= WORD_LIMIT || WORD_LIMIT % n == 0
  {
    if next + n <= WORD_LIMIT || WORD_LIMIT % n == 0 {
      forall available: seq<bool> | |available| == n ensures Scan(available, next, n).None? <==> true !in available {
        ScanFinds(available, next);
      }
    } else {
      ScanMisses(next, n);
    }
  }

  lemma ScanFinds(available: seq<bool>, next: nat)
    requires 0 < |available| <= WORD_LIMIT && next < WORD_LIMIT
    requires next + |available| <= WORD_LIMIT || WORD_LIMIT % |available| == 0
    ensures Scan(available, next, |available|).None? <==> true !in available
  {
    var n := |available|;
    if true in available {
      var c :| 0 <= c < n && available[c];
      var j := Reaches(next, n, c);
      ProbeCounts(next, j, n);
      if Scan(available, next, n).None? {
        ScanSawNone(available, next, n, j);
      }
    }
  }

  lemma ScanMisses(next: nat, n: nat)
    requires 0 < n <= WORD_LIMIT && next < WORD_LIMIT < next + n && WORD_LIMIT % n != 0
    ensures !ScanComplete(next, n)
  {
    NeverProbed(next, n, 0);
    var c := Missed(next, n);
    var available := seq(n, i => i == c);
    forall j | 0 <= j < n ensures !available[Probe(next, j, n)] {
      NeverProbed(next, n, j);
    }
    ScanSeesNone(available, next, n);
    assert available[c];
  }

  // ---- the scan inside the protocol -------------------------------------

  /** Thread `t` takes `n` steps while everybody else stands still. */
  ghost predicate Alone(s: Ring, t: nat, n: nat, s': Ring)
    decreases n
  {
    if n == 0 then s == s'
    else Wf(s) && t < |s.threads| && !s.threads[t].Idle? && Alone(Next(s, t), t, n - 1, s')
  }

  lemma {:induction false} AloneThen(s: Ring, t: nat, n: nat, s1: Ring, m: nat, s2: Ring)
    requires Alone(s, t, n, s1) && Alone(s1, t, m, s2)
    ensures Alone(s, t, n + m, s2)
    decreases n
  {
    hide Next, Wf;
    if n > 0 {
      AloneThen(Next(s, t), t, n - 1, s1, m, s2);
    }
  }

  lemma AloneOnce(s: Ring, t: nat)
    requires Wf(s) && t < |s.threads| && !s.threads[t].Idle?
    ensures Alone(s, t, 1, Next(s, t))
  {
    hide Next, Wf;
    assert Alone(Next(s, t), t, 0, Next(s, t));
  }

  function Availability(bufs: seq<Buffer>): (r: seq<bool>)
    ensures |r| == |bufs|
    ensures forall b :: 0 <= b < |bufs| ==> r[b] == Available(bufs[b].word)
  {
    seq(|bufs|, b requires 0 <= b < |bufs| => Available(bufs[b].word))
  }

  lemma NoneAvailable(bufs: seq<Buffer>)
    requires true !in Availability(bufs)
    ensures forall c :: 0 <= c < |bufs| ==> !Available(bufs[c].word)
  {
    forall c | 0 <= c < |bufs| ensures !Available(bufs[c].word) {
      assert Availability(bufs)[c] == Available(bufs[c].word);
    }
  }

  /** The thread moved on, and only the index counter changed besides. */
  ghost predicate OnlyScanned(s: Ring, s': Ring, t: nat, pc: Pc)
  {
    && t < |s.threads| && s'.nextIndex < WORD_LIMIT
    && s' == s.(threads := s.threads[t := pc], nextIndex := s'.nextIndex)
  }

  /** The index counter after `looks` increments. */
  function Bumped(next: nat, looks: nat): nat
  {
    (next + looks) % WORD_LIMIT
  }

  /** The scan, one look at a time. */
  lemma ScanOn(bufs: seq<Buffer>, next: nat, left: nat)
    requires |bufs| > 0 && next < WORD_LIMIT
    ensures var available, c, next' := Availability(bufs), next % |bufs|, Bumped(next, 1);
            if left == 0 then
              Scan(available, next, left) == None && Bumped(next, LookCount(available, next, left)) == next
            else if Available(bufs[c].word) then
              Scan(available, next, left) == Some(c) && LookCount(available, next, left) == 1
            else
              && Scan(available, next, left) == Scan(available, next', left - 1)
              && Bumped(next, LookCount(available, next, left)) == Bumped(next', LookCount(available, next', left - 1))
  {
    hide Available;
    if left > 0 {
      WrapSum(next, LookCount(Availability(bufs), Bumped(next, 1), left - 1));
    }
  }

  lemma ScanStep(s: Ring, t: nat)
    requires Wf(s) && t < |s.threads| && s.threads[t].Scanning? && s.nextIndex < WORD_LIMIT
    ensures var pc := s.threads[t]; var c := s.nextIndex % |s.bufs|; var s1 := Next(s, t);
            if pc.left == 0 then OnlyScanned(s, s1, t, Checking(pc.b)) && Wf(s1) && s1.nextIndex == s.nextIndex
            else
              && OnlyScanned(s, s1, t, Probing(pc.b, pc.size, pc.left - 1, c)) && Wf(s1)
              && s1.nextIndex == Bumped(s.nextIndex, 1)
              && OnlyScanned(s, Next(s1, t), t,
                             if Available(s.bufs[c].word) then Swapping(pc.b, pc.size, c)
                             else Scanning(pc.b, pc.size, pc.left - 1))
              && Next(s1, t).nextIndex == s1.nextIndex
              && Wf(Next(s1, t))
  {
    hide Available;
  }

  /** Undisturbed, the protocol's scan is the scan above. */
  lemma {:induction false} ScanAlone(s: Ring, t: nat) returns (n: nat, s': Ring)
    requires Wf(s) && t < |s.threads| && s.threads[t].Scanning? && s.nextIndex < WORD_LIMIT
    ensures Alone(s, t, n, s') && Wf(s')
    ensures var pc := s.threads[t];
            match Scan(Availability(s.bufs), s.nextIndex, pc.left)
            case None => OnlyScanned(s, s', t, Checking(pc.b))
            case Some(c) => OnlyScanned(s, s', t, Swapping(pc.b, pc.size, c))
    ensures s'.nextIndex == Bumped(s.nextIndex, LookCount(Availability(s.bufs), s.nextIndex, s.threads[t].left))
    decreases s.threads[t].left
  {
    var c := s.nextIndex % |s.bufs|;
    ScanOn(s.bufs, s.nextIndex, s.threads[t].left);
    hide Next, Available, Scan, LookCount, Availability, Bumped, Wf;
    var pc := s.threads[t];
    var s1 := Next(s, t);
    AloneOnce(s, t);
    ScanStep(s, t);
    if pc.left == 0 {
      n, s' := 1, s1;
    } else {
      var s2 := Next(s1, t);
      AloneOnce(s1, t);
      AloneThen(s, t, 1, s1, 1, s2);
      if Available(s.bufs[c].word) {
        n, s' := 2, s2;
      } else {
        var m: nat;
        m, s' := ScanAlone(s2, t);
        AloneThen(s, t, 2, s2, m, s');
        n := 2 + m;
      }
    }
  }

  lemma RotateStart(s: Ring, t: nat, b: nat) returns (s': Ring)
    requires Wf(s) && t < |s.threads| && s.threads[t] == Rotating(b) && s.current == b
    ensures Alone(s, t, 2, s') && Wf(s')
    ensures s' == s.(threads := s.threads[t := Scanning(b, s.bufs[b].word.offset, |s.bufs|)])
  {
    var s1 := Next(s, t);
    s' := Next(s1, t);
    AloneOnce(s, t);
    AloneOnce(s1, t);
    AloneThen(s, t, 1, s1, 1, s');
  }

  /** The buffer that comes up after `j` others. */
  function InTurn(next: nat, j: nat, n: nat): (c: nat)
    requires n > 0
    ensures c < n
  {
    (next + j) % n
  }

  /** How many come up before buffer `c`. */
  function Turn(next: nat, c: nat, n: nat): nat
    requires n > 0
  {
    (c - next) % n
  }

  /** What the scan meets, in terms of turns: buffer `(next + j) % n` comes up
      after `j` others. */
  lemma ScanInTurn(bufs: seq<Buffer>, next: nat)
    requires 0 < |bufs| <= WORD_LIMIT && next < WORD_LIMIT
    requires next + |bufs| <= WORD_LIMIT || WORD_LIMIT % |bufs| == 0
    ensures var looks := LookCount(Availability(bufs), next, |bufs|);
            && 0 < looks <= |bufs|
            && (forall c :: 0 <= c < |bufs| && Turn(next, c, |bufs|) < looks - 1 ==> !Available(bufs[c].word))
            && match Scan(Availability(bufs), next, |bufs|)
               case None => looks == |bufs| && forall c :: 0 <= c < |bufs| ==> !Available(bufs[c].word)
               case Some(c) => c == InTurn(next, looks - 1, |bufs|) && Available(bufs[c].word)
  {
    hide Scan, LookCount, Available, Probe;
    var available := Availability(bufs);
    var looks := LookCount(available, next, |bufs|);
    ScanFinds(available, next);
    LastLook(available, next, |bufs|);
    ProbeCounts(next, looks - 1, |bufs|);
    forall c | 0 <= c < |bufs| && Turn(next, c, |bufs|) < looks - 1 ensures !Available(bufs[c].word) {
      var j := Turn(next, c, |bufs|);
      EarlierLook(available, next, |bufs|, j);
      ProbeCounts(next, j, |bufs|);
      TurnOf(next, c, |bufs|);
    }
    if Scan(available, next, |bufs|).None? {
      NoneAvailable(bufs);
    }
  }

  lemma TurnOf(next: nat, c: nat, n: nat)
    requires c < n
    ensures (next + (c - next) % n) % n == c
  {
    var q, r := (c - next) / n, (c - next) % n;
    assert c - next == q * n + r;
    LargeMultiple(q, n);
    assert next + r == -q * n + c;
    Residue(-q, n, c);
  }

  /** From the load of the current pointer to the end of the scan. */
  lemma LooksAlone(s: Ring, t: nat, b: nat) returns (n: nat, s': Ring)
    requires Wf(s) && t < |s.threads| && s.threads[t] == Rotating(b) && s.current == b && s.nextIndex < WORD_LIMIT
    ensures Alone(s, t, n, s') && Wf(s')
    ensures s' == s.(threads := s'.threads, nextIndex := s'.nextIndex)
    ensures s'.nextIndex == Bumped(s.nextIndex, LookCount(Availability(s.bufs), s.nextIndex, |s.bufs|))
    ensures s'.threads == s.threads[t :=
              match Scan(Availability(s.bufs), s.nextIndex, |s.bufs|)
              case None => Checking(b)
              case Some(c) => Swapping(b, s.bufs[b].word.offset, c)]
  {
    hide Next, Scan, LookCount, Availability, Wf;
    var s2 := RotateStart(s, t, b);
    var m;
    m, s' := ScanAlone(s2, t);
    AloneThen(s, t, 2, s2, m, s');
    n := 2 + m;
  }

  /** An undisturbed rotation as far as the exchange, in turns. */
  lemma RotationTurns(s: Ring, t: nat, b: nat) returns (n: nat, s': Ring, looks: nat)
    requires Wf(s) && t < |s.threads| && s.threads[t] == Rotating(b) && s.current == b
    requires s.nextIndex < WORD_LIMIT && |s.bufs| <= WORD_LIMIT
    requires s.nextIndex + |s.bufs| <= WORD_LIMIT || WORD_LIMIT % |s.bufs| == 0
    ensures Alone(s, t, n, s') && Wf(s') && 0 < looks <= |s.bufs|
    ensures s' == s.(threads := s'.threads, current := s'.current, nextIndex := Bumped(s.nextIndex, looks))
    ensures forall c :: 0 <= c < |s.bufs| && Turn(s.nextIndex, c, |s.bufs|) < looks - 1 ==> !Available(s.bufs[c].word)
    ensures if exists c :: 0 <= c < |s.bufs| && Available(s.bufs[c].word)
            then
              && s'.current == InTurn(s.nextIndex, looks - 1, |s.bufs|) && Available(s.bufs[s'.current].word)
              && s'.threads == s.threads[t := Booking(b, s.bufs[b].word.offset, s'.current)]
            else
              s'.threads == s.threads[t := Checking(b)] && s'.current == b && looks == |s.bufs|
  {
    hide Next, Scan, LookCount, Availability, Alone, Wf, Available, Turn, InTurn, Bumped;
    var bufs := s.bufs;
    n, s' := LooksAlone(s, t, b);
    assert 0 < |bufs| by {
      WfBuffers(s);
    }
    looks := LookCount(Availability(bufs), s.nextIndex, |bufs|);
    ScanInTurn(bufs, s.nextIndex);
    if Scan(Availability(bufs), s.nextIndex, |bufs|).Some? {
      SwapStep(s', t);
      AloneOnce(s', t);
      AloneThen(s, t, n, s', 1, Next(s', t));
      n, s' := n + 1, Next(s', t);
    }
  }

  /** A sealer that nobody disturbs moves the ring to a buffer that is open and
      empty exactly when there is one, to the first such in counter order;
      otherwise the ring is exhausted and current stays.  `looks` is how many
      buffers it looks at.  This holds for every counter value if the ring size
      divides 2^64, and else as long as the counter does not wrap meanwhile. */
  lemma RotationAlone(s: Ring, t: nat, b: nat) returns (n: nat, s': Ring, looks: nat)
    requires Wf(s) && t < |s.threads| && s.threads[t] == Rotating(b) && s.current == b
    requires s.nextIndex < WORD_LIMIT && |s.bufs| <= WORD_LIMIT
    requires s.nextIndex + |s.bufs| <= WORD_LIMIT || WORD_LIMIT % |s.bufs| == 0
    ensures Alone(s, t, n, s') && Wf(s') && 0 < looks <= |s.bufs| && |s'.threads| == |s.threads|
    ensures s' == s.(threads := s.threads[t := s'.threads[t]], current := s'.current,
                     nextIndex := (s.nextIndex + looks) % 0x1_0000_0000_0000_0000)
    ensures forall c :: 0 <= c < |s.bufs| && (c - s.nextIndex) % |s.bufs| < looks - 1 ==>
              s.bufs[c].word.sealed || s.bufs[c].word.flushing || s.bufs[c].word.offset > 0
    ensures if exists c :: 0 <= c < |s.bufs| && !s.bufs[c].word.sealed && !s.bufs[c].word.flushing
                           && s.bufs[c].word.offset == 0
            then
              && s'.current == (s.nextIndex + looks - 1) % |s.bufs|
              && !s.bufs[s'.current].word.sealed && !s.bufs[s'.current].word.flushing
              && s.bufs[s'.current].word.offset == 0
              && s'.threads[t] == Booking(b, s.bufs[b].word.offset, s'.current)
            else
              s'.threads[t] == Checking(b) && s'.current == b && looks == |s.bufs|
  {
    hide Alone, Wf;
    n, s', looks := RotationTurns(s, t, b);
  }

  lemma WfBuffers(s: Ring)
    requires Wf(s)
    ensures 0 < |s.bufs|
  {
  }

  lemma SwapStep(s: Ring, t: nat)
    requires Wf(s) && t < |s.threads| && s.threads[t].Swapping? && s.current == s.threads[t].b
    ensures var pc := s.threads[t];
            Next(s, t) == s.(threads := s.threads[t := Booking(pc.b, pc.size, pc.target)], current := pc.target)
    ensures Wf(Next(s, t))
  {
  }
}
