/** Each step of the protocol as its own thread sees it: which shared fields it
    changes, and where it leaves the thread. */
module RingViews {
  import opened Files
  import opened StateWord
  import opened RingProtocol

  /** Everything shared but the buffers is as before. */
  predicate SameRest(s: Ring, s': Ring)
  {
    && s'.current == s.current && s'.nextIndex == s.nextIndex && s'.counter == s.counter
    && s'.disk == s.disk && s'.outstanding == s.outstanding && s'.nextId == s.nextId && s'.records == s.records
  }

  /** Buffer `b` may have changed, and nothing else that is shared. */
  predicate OnlyBuffer(s: Ring, s': Ring, b: nat)
  {
    SameRest(s, s') && |s'.bufs| == |s.bufs| && forall c :: 0 <= c < |s.bufs| && c != b ==> s'.bufs[c] == s.bufs[c]
  }

  /** The fields of a buffer that are not history. */
  predicate Looks(buf: Buffer, word: Word, mem: Bytes, addr: nat, sqe: Option<Write>)
  {
    buf.word == word && buf.mem == mem && buf.addr == addr && buf.sqe == sqe
  }

  lemma LoadView(s: Ring, t: nat)
    requires Wf(s) && t < |s.threads|
    requires var pc := s.threads[t];
             pc.Picked? || pc.Sealing? || pc.Rotating? || pc.Measuring? || pc.Probing? || pc.Checking?
    ensures Enabled(NONE, s, Run(t))
    ensures var s' := Apply(s, Run(t));
            SameRest(s, s') && s'.bufs == s.bufs && s'.threads == s.threads[t := s'.threads[t]]
    ensures var pc' := Apply(s, Run(t)).threads[t];
            match s.threads[t]
            case Picked(b, payload) => pc' == AfterLoad(b, payload, s.bufs[b].word)
            case Sealing(b) => pc' == Sized(b, Pad(s.bufs[b].word.offset))
            case Rotating(b) => pc' == Measuring(b, s.current)
            case Measuring(b, cur) =>
              pc' == if cur != b then Checking(b) else Scanning(b, s.bufs[cur].word.offset, |s.bufs|)
            case Probing(b, size, left, cand) =>
              pc' == if Available(s.bufs[cand].word) then Swapping(b, size, cand) else Scanning(b, size, left)
            case Checking(b) => pc' == if s.bufs[b].word.writers == 0 then Claiming(b) else Idle
            case _ => true
  {
    hide Pad, Available, AfterLoad;
  }

  lemma FlushLoadView(s: Ring, t: nat)
    requires Wf(s) && t < |s.threads|
    requires (s.threads[t].Submitting? || s.threads[t].Dispatching? || s.threads[t].Reaping?)
    ensures Enabled(NONE, s, Run(t))
    ensures var s' := Apply(s, Run(t));
            SameRest(s, s') && s'.bufs == s.bufs && s'.threads == s.threads[t := s'.threads[t]]
    ensures var pc' := Apply(s, Run(t)).threads[t];
            match s.threads[t]
            case Submitting(b) => pc' == Dispatching(b, Pad(s.bufs[b].word.offset))
            case Dispatching(b, len) => pc' == Pushing(b, len, s.bufs[b].addr)
            case Reaping(b) => pc' == Noting(b, s.bufs[b].addr)
            case _ => true
  {
    hide Pad;
  }

  lemma ReserveView(s: Ring, t: nat)
    requires Wf(s) && t < |s.threads| && s.threads[t].Loaded?
    ensures Enabled(NONE, s, Run(t))
    ensures var s' := Apply(s, Run(t)); var Loaded(b, payload, snap) := s.threads[t]; var buf := s.bufs[b];
            && OnlyBuffer(s, s', b) && s'.threads == s.threads[t := s'.threads[t]]
            && Looks(s'.bufs[b],
                     if buf.word == snap then Reserve(snap, |payload|) else buf.word, buf.mem, buf.addr, buf.sqe)
            && if buf.word == snap
               then s'.threads[t] == Reserved(b, buf.gen, |s.batches[buf.gen].entries|, snap.offset, payload)
               else s'.threads[t] == Idle
  {
    hide Reserve;
  }

  lemma CopyView(s: Ring, t: nat)
    requires Wf(s) && t < |s.threads| && s.threads[t].Reserved?
    ensures Enabled(NONE, s, Run(t))
    ensures var s' := Apply(s, Run(t)); var Reserved(b, g, i, off, payload) := s.threads[t]; var buf := s.bufs[b];
            && OnlyBuffer(s, s', b) && s'.threads == s.threads[t := s'.threads[t]]
            && Looks(s'.bufs[b], buf.word, Copy(buf.mem, off, payload), buf.addr, buf.sqe)
            && s'.threads[t] == Written(b, g, i, payload)
  {
    hide Copy;
  }

  lemma ReleaseView(s: Ring, t: nat)
    requires Wf(s) && t < |s.threads| && s.threads[t].Written?
    ensures Enabled(NONE, s, Run(t))
    ensures var s' := Apply(s, Run(t)); var Written(b, g, i, payload) := s.threads[t]; var buf := s.bufs[b];
            && OnlyBuffer(s, s', b) && s'.threads == s.threads[t := s'.threads[t]]
            && Looks(s'.bufs[b], Release(buf.word), buf.mem, buf.addr, buf.sqe)
            && s'.threads[t] == (if buf.word.writers == 1 && buf.word.sealed then LastWriter(b) else Idle)
            && s'.accepted == s.accepted + [Receipt(g, i, payload)]
  {
    hide Release;
  }

  /** The flag-setting steps: claim a flush, seal, and set the flush bit again. */
  lemma FlagView(s: Ring, t: nat)
    requires Wf(s) && t < |s.threads|
    requires var pc := s.threads[t]; pc.LastWriter? || pc.Claiming? || pc.SawFull? || pc.Flushing?
    ensures Enabled(NONE, s, Run(t))
    ensures var s' := Apply(s, Run(t)); var pc := s.threads[t]; var buf := s.bufs[pc.b];
            && OnlyBuffer(s, s', pc.b) && s'.threads == s.threads[t := s'.threads[t]]
            && Looks(s'.bufs[pc.b],
                     if pc.SawFull? then StateWord.Seal(buf.word) else SetFlush(buf.word), buf.mem, buf.addr, buf.sqe)
            && s'.threads[t] == (if pc.SawFull? then (if buf.word.sealed then Idle else Sealing(pc.b))
                                 else if pc.Flushing? then Submitting(pc.b)
                                 else if buf.word.flushing then Idle else Flushing(pc.b))
  {
  }

  lemma StoreView(s: Ring, t: nat)
    requires Wf(s) && t < |s.threads| && (s.threads[t].Publishing? || s.threads[t].Recorded? || s.threads[t].Clearing?)
    ensures Enabled(NONE, s, Run(t))
    ensures var s' := Apply(s, Run(t)); var pc := s.threads[t]; var buf := s.bufs[pc.b];
            && OnlyBuffer(s, s', pc.b) && s'.threads == s.threads[t := s'.threads[t]]
            && Looks(s'.bufs[pc.b], if pc.Recorded? then ZERO else buf.word, buf.mem,
                     if pc.Publishing? then pc.slot else if pc.Clearing? then 0 else buf.addr, buf.sqe)
            && s'.threads[t] == (if pc.Publishing? then Rotating(pc.b)
                                 else if pc.Recorded? then Clearing(pc.b) else Idle)
  {
  }

  lemma CounterView(s: Ring, t: nat)
    requires Wf(s) && t < |s.threads| && (s.threads[t].Sized? || s.threads[t].Booking?)
    ensures Enabled(NONE, s, Run(t))
    ensures var s' := Apply(s, Run(t)); var pc := s.threads[t]; var more := if pc.Sized? then pc.padded else pc.size;
            && SameRest(s, s'.(counter := s.counter)) && s'.bufs == s.bufs
            && s'.threads == s.threads[t := s'.threads[t]]
            && s'.counter == s.counter + more
            && s'.threads[t] == (if pc.Sized? then Publishing(pc.b, s.counter)
                                 else Stamping(pc.b, s.counter, pc.target))
  {
  }

  lemma ScanView(s: Ring, t: nat)
    requires Wf(s) && t < |s.threads| && s.threads[t].Scanning?
    ensures Enabled(NONE, s, Run(t))
    ensures var s' := Apply(s, Run(t)); var Scanning(b, size, left) := s.threads[t];
            && SameRest(s, s'.(nextIndex := s.nextIndex)) && s'.bufs == s.bufs
            && s'.threads == s.threads[t := s'.threads[t]]
            && s'.nextIndex == (if left == 0 then s.nextIndex else (s.nextIndex + 1) % WORD_LIMIT)
            && s'.threads[t] == (if left == 0 then Checking(b) else Probing(b, size, left - 1, s.nextIndex % |s.bufs|))
  {
  }

  lemma SwapView(s: Ring, t: nat)
    requires Wf(s) && t < |s.threads| && s.threads[t].Swapping?
    ensures Enabled(NONE, s, Run(t))
    ensures var s' := Apply(s, Run(t)); var Swapping(b, size, target) := s.threads[t];
            && SameRest(s, s'.(current := s.current)) && s'.bufs == s.bufs
            && s'.threads == s.threads[t := s'.threads[t]]
            && s'.current == (if s.current == b then target else s.current)
            && s'.threads[t] == Booking(b, size, target)
  {
  }

  lemma StampView(s: Ring, t: nat)
    requires Wf(s) && t < |s.threads| && s.threads[t].Stamping?
    ensures Enabled(NONE, s, Run(t))
    ensures var s' := Apply(s, Run(t)); var Stamping(b, slot, target) := s.threads[t]; var buf := s.bufs[target];
            && OnlyBuffer(s, s', target) && s'.threads == s.threads[t := s'.threads[t]]
            && Looks(s'.bufs[target], buf.word, buf.mem, if buf.addr == 0 then slot else buf.addr, buf.sqe)
            && s'.threads[t] == Checking(b)
  {
  }

  lemma PushView(s: Ring, t: nat)
    requires Wf(s) && t < |s.threads| && (s.threads[t].Pushing? || s.threads[t].Retrying?)
    ensures Enabled(NONE, s, Run(t))
    ensures var s' := Apply(s, Run(t)); var pc := s.threads[t]; var buf := s.bufs[pc.b];
            && OnlyBuffer(s, s'.(outstanding := s.outstanding, nextId := s.nextId), pc.b)
            && s'.threads == s.threads[t := s'.threads[t]]
            && s'.threads[t] == Idle
            && if pc.Retrying? && buf.sqe.None? then
                 s'.outstanding == s.outstanding && s'.nextId == s.nextId && s'.bufs == s.bufs
               else
                 var w := if pc.Pushing? then Write(pc.b, pc.at, pc.len) else buf.sqe.value;
                 && s'.outstanding == s.outstanding[s.nextId := w] && s'.nextId == s.nextId + 1
                 && Looks(s'.bufs[pc.b], buf.word, buf.mem, buf.addr, Some(w))
  {
  }

  lemma NoteView(s: Ring, t: nat)
    requires Wf(s) && t < |s.threads| && s.threads[t].Noting?
    ensures Enabled(NONE, s, Run(t))
    ensures var s' := Apply(s, Run(t)); var Noting(b, at) := s.threads[t];
            && SameRest(s, s'.(records := s.records)) && s'.bufs == s.bufs
            && s'.threads == s.threads[t := s'.threads[t]]
            && s'.records == s.records + [Record(at, s.bufs[b].word.offset, s.bufs[b].gen)]
            && s'.threads[t] == Recorded(b)
  {
  }

  lemma TakeView(s: Ring, t: nat, id: nat, failed: bool, junk: Bytes)
    requires Wf(s) && t < |s.threads| && s.threads[t].Idle? && id in s.outstanding && |junk| <= s.outstanding[id].len
    ensures var a := if failed then TakeFailed(t, id, junk) else TakeOk(t, id); var w := s.outstanding[id];
            && Enabled(NONE, s, a)
            && var s' := Apply(s, a); var buf := s.bufs[w.buf];
               && OnlyBuffer(s, s'.(outstanding := s.outstanding, disk := s.disk), w.buf)
               && s'.threads == s.threads[t := s'.threads[t]]
               && Looks(s'.bufs[w.buf], buf.word, buf.mem, buf.addr, buf.sqe)
               && s'.outstanding == s.outstanding - {id}
               && s'.disk == WriteAt(s.disk, w.at, if failed then junk else Sent(s, w))
               && s'.threads[t] == (if failed then Retrying(w.buf) else Reaping(w.buf))
  {
    hide WriteAt, Sent;
  }

  lemma BeginView(s: Ring, t: nat, payload: Bytes)
    requires Wf(s) && t < |s.threads| && s.threads[t].Idle? && |payload| <= ONE_MEGABYTE_BLOCK
    ensures Enabled(NONE, s, Begin(t, payload))
    ensures var s' := Apply(s, Begin(t, payload));
            && SameRest(s, s') && s'.bufs == s.bufs
            && s'.threads == s.threads[t := s'.threads[t]] && s'.threads[t] == Picked(s.current, payload)
  {
  }
}
