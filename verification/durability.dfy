/** From completion messages back to payloads: the ring's guarantees, stated on
    the ring object and through the aligned read path. */
module Durability {
  import opened Files
  import opened StateWord
  import opened RingProtocol
  import opened RingInvariant
  import opened RingHistory
  import opened RingTheorems
  import Io = QuikIo
  import BufferRings

  /** The ring object's run so far respected the scheduling assumptions. */
  ghost predicate Respected(ring: BufferRings.BufferRing)
    requires ring.Shape()
    reads ring
  {
    ring.n < MAX_WRITERS && Executes(ALL, Init(|ring.ring|, ring.n), ring.trace, ring.model)
  }

  /** The batch a completion message is about. */
  ghost function Reported(ring: BufferRings.BufferRing, r: nat): Batch
    requires ring.Shape() && r < |ring.model.records| && ring.model.records[r].gen < |ring.model.batches|
    reads ring
  {
    ring.model.batches[ring.model.records[r].gen]
  }

  lemma SentIsRecord(ring: BufferRings.BufferRing, r: nat)
    requires ring.Valid() && r < |ring.sent|
    ensures r < |ring.model.records| && ring.sent[r] == (ring.model.records[r].at, ring.model.records[r].count)
    ensures ring.store.file == ring.model.disk
  {
    hide Executes, Wf;
    ring.Here();
  }

  lemma BatchWithinMegabyte(s: Ring, g: nat)
    requires Inv(s) && g < |s.batches|
    ensures End(s.batches[g].entries) <= ONE_MEGABYTE_BLOCK
  {
    hide Local, WritesInv, ApartInv, TargetsInv, ThreadsInv, RecordsInv, ReceiptsInv, EntriesOk, SealOk,
         WatchedOk, TokenOk, BatchOk, Tiled, End;
    assert BatchInv(s, g);
    assert BufferInv(s, s.batches[g].buf);
  }

  /** A message the receiver got, read back through the aligned path at any
      later point of the run: the payloads of one batch, in reservation order. */
  lemma SentReadsBack(ring: BufferRings.BufferRing, r: nat)
    requires ring.Valid() && Respected(ring) && r < |ring.sent| && ring.sent[r].0 < Io.U64_LIMIT
    ensures r < |ring.model.records| && ring.model.records[r].gen < |ring.model.batches|
    ensures Io.Delivered(ring.store.file, ring.sent[r].0, ring.sent[r].1) == Image(Reported(ring, r).entries)
    ensures ring.sent[r].1 == End(Reported(ring, r).entries)
  {
    hide Executes, Inv, Wf, ReadAt, Image, End, Io.Delivered, Io.AlignedLen;
    var s := ring.model;
    SentIsRecord(ring, r);
    RecordsDurable(|ring.ring|, ring.n, ring.trace, s, r);
    ReachedOk(|ring.ring|, ring.n, ring.trace, s);
    BatchWithinMegabyte(s, s.records[r].gen);
    Io.FitsRequest(s.records[r].at, s.records[r].count);
    Io.DeliversSlice(s.disk, s.records[r].at, s.records[r].count);
  }

  /** Every accepted payload that has been reported can be read back on its own,
      at its place in the reported range; all others are still in a buffer. */
  lemma AcceptedReadsBack(ring: BufferRings.BufferRing, k: nat)
    requires ring.Valid() && Respected(ring) && k < |ring.model.accepted|
    ensures var s := ring.model; var a := s.accepted[k];
            && a.gen < |s.batches| && a.index < |s.batches[a.gen].entries| && s.batches[a.gen].buf < |ring.ring|
            && s.batches[a.gen].entries[a.index].payload == a.payload
    ensures var s := ring.model; var a := s.accepted[k]; var off := s.batches[a.gen].entries[a.index].off;
            forall r | 0 <= r < |ring.sent| && r < |s.records| && s.records[r].gen == a.gen ::
              ring.sent[r].0 + off < Io.U64_LIMIT ==>
                Io.Delivered(ring.store.file, ring.sent[r].0 + off, |a.payload|) == a.payload
    ensures var s := ring.model; var a := s.accepted[k]; var off := s.batches[a.gen].entries[a.index].off;
            var b := s.batches[a.gen].buf;
            (exists r :: 0 <= r < |s.records| && s.records[r].gen == a.gen)
            || (b < |ring.mems| && Files.Holds(ring.mems[b][..], off, a.payload))
  {
    hide Executes, Inv, Wf, ReadAt, Image, End, Io.Delivered, Io.AlignedLen, Files.Holds;
    var s := ring.model;
    var a := s.accepted[k];
    ring.Here();
    AcceptedKept(|ring.ring|, ring.n, ring.trace, s, k);
    var off := s.batches[a.gen].entries[a.index].off;
    forall r | 0 <= r < |ring.sent| && r < |s.records| && s.records[r].gen == a.gen
               && ring.sent[r].0 + off < Io.U64_LIMIT
      ensures Io.Delivered(ring.store.file, ring.sent[r].0 + off, |a.payload|) == a.payload
    {
      SentIsRecord(ring, r);
      ReachedOk(|ring.ring|, ring.n, ring.trace, s);
      BatchWithinMegabyte(s, a.gen);
      RecordsDurable(|ring.ring|, ring.n, ring.trace, s, r);
      Io.FitsRequest(ring.sent[r].0 + off, |a.payload|);
      Io.DeliversSlice(s.disk, ring.sent[r].0 + off, |a.payload|);
    }
  }
}
